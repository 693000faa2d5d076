/** From a finished flood to the listings of the nodes. */
module FloodListing {
  import opened Collections
  import opened Calendar
  import opened GossipRecords
  import opened GossipStores
  import opened Flood
  import opened FloodBounds

  /** Records of the server of `r` are `r` itself. */
  ghost function OnlyRecord(r: Record): Record -> bool {
    (x: Record) => x.ServerId() == r.ServerId() ==> x == r
  }

  ghost function FromGraph(g: Graph): Record -> bool {
    (x: Record) => x.ServerId() in g.peers
  }

  /** Records are stored and confirmed from `start` on, and no expiry pass comes so late that `r` or the
      silence since `start` has become too old. */
  ghost predicate OnTime(e: NetEvent, r: Record, start: int) {
    match e
    case Stored(_, now) => now >= start
    case Confirmed(_, _, now) => now >= start
    case Maintained(_, now) => now <= start + LIVENESS_TIMEOUT && now - UnixNanos(r.timestamp) <= RECORD_EXPIRY
    case _ => true
  }

  /** The store, if it has seen `r`, holds it as active since `start` or later. */
  ghost predicate Held(st: StoreState, r: Record, start: int) {
    && (RecordKey(r) in st.seen ==> r.ServerId() in st.records)
    && (r.ServerId() in st.records ==>
          var e := st.records[r.ServerId()]; e.record == r && e.active && e.lastSeen >= start)
  }

  ghost predicate HeldByOthers(s: Net, r: Record, start: int) {
    forall n :: n in s.stores && n != r.ServerId() ==> Held(s.stores[n], r, start)
  }

  lemma PutHeld(st: StoreState, r: Record, start: int, x: Record, now: int)
    requires Held(st, r, start)
    requires x.ServerId() == r.ServerId() ==> x == r && now >= start
    ensures Held(AfterPut(st, x, now), r, start)
  {
    RecordKeyIff(x, r);
    hide RecordKey;
  }

  lemma BeatHeld(st: StoreState, r: Record, start: int, id: string, now: int)
    requires Held(st, r, start) && now >= start
    ensures Held(AfterBeat(st, id, now), r, start)
  {
    hide RecordKey;
  }

  lemma ExpireHeld(st: StoreState, r: Record, start: int, now: int)
    requires Held(st, r, start)
    requires now <= start + LIVENESS_TIMEOUT && now - UnixNanos(r.timestamp) <= RECORD_EXPIRY
    ensures Held(AfterExpire(st, now), r, start)
  {
    hide RecordKey, UnixNanos;
  }

  lemma AnnounceHeld(st: StoreState, r: Record, start: int, own: string, t: Instant, signature: string)
    requires Held(st, r, start) && own != r.ServerId()
    ensures Held(AfterAnnounce(st, own, t, signature), r, start)
  {
    hide RecordKey;
  }

  lemma StepHeld(g: Graph, s: Net, e: NetEvent, r: Record, start: int)
    requires Enabled(g, s, e) && HeldByOthers(s, r, start) && OnTime(e, r, start)
    requires e.Stored? ==> OnlyRecord(r)(e.m.record)
    ensures HeldByOthers(Next(g, s, e), r, start)
  {
    hide AfterPut, AfterBeat, AfterExpire, AfterAnnounce, Held, Outgoing, RecordKey, UnixNanos;
    forall n | n in s.stores && n != r.ServerId() ensures Held(Next(g, s, e).stores[n], r, start) {
      var st := s.stores[n];
      match e {
        case Announced(x, boot, now) =>
          if x.ServerId() == n {
            PutHeld(st, r, start, x, now);
            AnnounceHeld(st, r, start, n, x.timestamp, x.signature);
          }
        case Stored(m, now) => PutHeld(st, r, start, m.record, now);
        case Maintained(_, now) => ExpireHeld(st, r, start, now);
        case Confirmed(_, id, now) => BeatHeld(st, r, start, id, now);
        case _ =>
      }
    }
  }

  /** Throughout the run `r` is the only record of its server, and it is not let expire. */
  ghost predicate OneRecord(g: Graph, es: seq<NetEvent>, r: Record, start: int) {
    forall e :: e in es ==> Brings(g, e, OnlyRecord(r)) && OnTime(e, r, start)
  }

  lemma {:induction false} RunHeld(g: Graph, s: Net, es: seq<NetEvent>, r: Record, start: int)
    requires Valid(g, s, es) && Screened(g, s) && Carries(g, s, OnlyRecord(r)) && HeldByOthers(s, r, start)
    requires OneRecord(g, es, r, start)
    ensures HeldByOthers(Final(g, s, es), r, start)
    decreases |es|
  {
    hide Next, Enabled, Carries, Brings, Screened, OnTime, HeldByOthers;
    if es != [] {
      assert es[0] in es;
      StepCarries(g, s, es[0], OnlyRecord(r));
      StepScreened(g, s, es[0]);
      StepHeld(g, s, es[0], r, start);
      assert forall e :: e in es[1..] ==> e in es;
      RunHeld(g, Next(g, s, es[0]), es[1..], r, start);
    }
  }

  lemma StartHeld(g: Graph, r: Record, start: int)
    requires GoodGraph(g)
    ensures HeldByOthers(Start(g), r, start) && Carries(g, Start(g), OnlyRecord(r))
  {
  }

  /** When the flood of `r` is over, every other node that its server reaches holds that very record as
      active and lists it, provided that `r` is the server's only record and nothing has expired. What
      other servers announce and who injects what else does not matter. */
  lemma ReachableNodesList(g: Graph, es: seq<NetEvent>, r: Record, start: int, ns: seq<string>)
    requires GoodGraph(g) && Valid(g, Start(g), es) && Unforged(g, Start(g), es) && Quiet(Final(g, Start(g), es))
    requires OneRecord(g, es, r, start)
    requires Path(g, ns) && ns[0] == r.ServerId() && ns[|ns| - 1] != ns[0]
    requires (r.ServerId(), RecordKey(r)) in Final(g, Start(g), es).announced
    ensures var st := Final(g, Start(g), es).stores;
            && ns[|ns| - 1] in st
            && r.ServerId() in st[ns[|ns| - 1]].records
            && st[ns[|ns| - 1]].records[r.ServerId()].record == r
            && st[ns[|ns| - 1]].records[r.ServerId()].active
  {
    FloodCoverage(g, es, ns, RecordKey(r));
    StartScreened(g);
    StartHeld(g, r, start);
    hide OneRecord, Unforged, Path;
    RunHeld(g, Start(g), es, r, start);
  }

  // ----- nothing else is listed -----

  ghost predicate KnowsOnly(s: Net, ids: set<string>) {
    forall n :: n in s.stores ==> s.stores[n].records.Keys <= ids
  }

  lemma StepKnowsOnly(g: Graph, s: Net, e: NetEvent)
    requires Enabled(g, s, e) && KnowsOnly(s, g.peers.Keys)
    requires e.Stored? ==> FromGraph(g)(e.m.record)
    ensures KnowsOnly(Next(g, s, e), g.peers.Keys)
  {
    hide RecordKey, Outgoing, UnixNanos;
  }

  lemma {:induction false} RunKnowsOnly(g: Graph, s: Net, es: seq<NetEvent>)
    requires Valid(g, s, es) && Screened(g, s) && Carries(g, s, FromGraph(g)) && KnowsOnly(s, g.peers.Keys)
    requires forall e :: e in es ==> Brings(g, e, FromGraph(g))
    ensures KnowsOnly(Final(g, s, es), g.peers.Keys)
    decreases |es|
  {
    hide Next, Enabled, Carries, Brings, Screened, KnowsOnly;
    if es != [] {
      assert es[0] in es;
      StepCarries(g, s, es[0], FromGraph(g));
      StepScreened(g, s, es[0]);
      StepKnowsOnly(g, s, es[0]);
      assert forall e :: e in es[1..] ==> e in es;
      RunKnowsOnly(g, Next(g, s, es[0]), es[1..]);
    }
  }

  // ----- the whole network -----

  ghost predicate Reaches(g: Graph, a: string, n: string) {
    exists ns :: ns != [] && Path(g, ns) && ns[0] == a && ns[|ns| - 1] == n
  }

  /** Every node of a strongly connected graph has announced its one record, the floods are over, nothing
      has expired, and nobody from outside the graph has announced anything. */
  ghost predicate Settled(g: Graph, es: seq<NetEvent>, records: string -> Record, start: int) {
    && GoodGraph(g) && Valid(g, Start(g), es) && Unforged(g, Start(g), es) && Quiet(Final(g, Start(g), es))
    && (forall e :: e in es ==> Brings(g, e, FromGraph(g)))
    && (forall a :: a in g.peers ==>
          && records(a).ServerId() == a && (a, RecordKey(records(a))) in Final(g, Start(g), es).announced
          && OneRecord(g, es, records(a), start))
    && (forall a, n :: a in g.peers && n in g.peers ==> Reaches(g, a, n))
  }

  lemma SettledHolds(g: Graph, es: seq<NetEvent>, records: string -> Record, start: int, n: string, a: string)
    requires Settled(g, es, records, start) && n in g.peers && a in g.peers && a != n
    ensures var st := Final(g, Start(g), es).stores;
            && n in st && a in st[n].records && st[n].records[a].record == records(a) && st[n].records[a].active
  {
    hide OneRecord, Unforged, Path, Quiet, Brings, Reaches;
    assert Reaches(g, a, n);
    assert records(a).ServerId() == a && OneRecord(g, es, records(a), start);
    hide Settled;
    ReachedHolds(g, es, records(a), start, n);
  }

  lemma ReachedHolds(g: Graph, es: seq<NetEvent>, r: Record, start: int, n: string)
    requires GoodGraph(g) && Valid(g, Start(g), es) && Unforged(g, Start(g), es) && Quiet(Final(g, Start(g), es))
    requires OneRecord(g, es, r, start) && Reaches(g, r.ServerId(), n) && n != r.ServerId()
    requires (r.ServerId(), RecordKey(r)) in Final(g, Start(g), es).announced
    ensures var st := Final(g, Start(g), es).stores;
            && n in st && r.ServerId() in st[n].records
            && st[n].records[r.ServerId()].record == r && st[n].records[r.ServerId()].active
  {
    hide OneRecord, Unforged, Path, Quiet;
    var ns :| ns != [] && Path(g, ns) && ns[0] == r.ServerId() && ns[|ns| - 1] == n;
    ReachableNodesList(g, es, r, start, ns);
  }

  lemma SettledKnowsOnly(g: Graph, es: seq<NetEvent>, records: string -> Record, start: int)
    requires Settled(g, es, records, start)
    ensures KnowsOnly(Final(g, Start(g), es), g.peers.Keys)
  {
    StartScreened(g);
    hide Brings, OneRecord, Unforged, Path, Quiet, Reaches;
    RunKnowsOnly(g, Start(g), es);
  }

  /** In a settled network every node lists exactly the other nodes' records, apart from its own. */
  lemma ListsExactlyTheOthers(g: Graph, es: seq<NetEvent>, records: string -> Record, start: int,
                              n: string, out: seq<Record>, x: Record)
    requires Settled(g, es, records, start) && n in g.peers
    requires n in Final(g, Start(g), es).stores && Lists(Final(g, Start(g), es).stores[n], out)
    requires x.ServerId() != n
    ensures x in out <==> x.ServerId() in g.peers && x == records(x.ServerId())
  {
    var st := Final(g, Start(g), es).stores[n];
    hide Settled;
    SettledKnowsOnly(g, es, records, start);
    var a := x.ServerId();
    if x in out {
      var i :| 0 <= i < |out| && out[i] == x;
      assert a in st.records;
    }
    if a in g.peers {
      SettledHolds(g, es, records, start, n, a);
    }
  }

  // ----- every strongly connected network can settle -----

  lemma {:induction false} AnnounceAll(g: Graph, s: Net, records: string -> Record, todo: set<string>, now: int)
    returns (es: seq<NetEvent>)
    requires s.stores.Keys == g.peers.Keys && todo <= g.peers.Keys
    requires forall a :: a in todo ==> records(a).ServerId() == a && g.verify(records(a))
    ensures Valid(g, s, es)
    ensures forall e :: e in es ==> exists a :: a in todo && e == Announced(records(a), true, now)
    ensures forall a :: a in todo ==> Announced(records(a), true, now) in es
    decreases todo
  {
    if todo == {} {
      return [];
    }
    var a :| a in todo;
    var e := Announced(records(a), true, now);
    SeenAfter(g, s, e);
    assert Enabled(g, s, e);
    hide Next, Enabled;
    var rest := AnnounceAll(g, Next(g, s, e), records, todo - {a}, now);
    OneMore(g, s, e, rest);
    es := [e] + rest;
  }

  lemma {:induction false} NothingInjected(g: Graph, s: Net, es: seq<NetEvent>)
    requires Valid(g, s, es) && forall e :: e in es ==> !e.Injected?
    ensures Unforged(g, s, es)
    decreases |es|
  {
    hide Next, Enabled;
    if es != [] {
      assert es[0] in es;
      assert forall e :: e in es[1..] ==> e in es;
      NothingInjected(g, Next(g, s, es[0]), es[1..]);
    }
  }

  /** An announcement of one of the records, or a step of the protocol at the given time. */
  ghost predicate OwnTraffic(g: Graph, records: string -> Record, now: int, e: NetEvent) {
    FloodStepAt(e, now) || exists a :: a in g.peers && e == Announced(records(a), true, now)
  }

  lemma OwnTrafficFacts(g: Graph, records: string -> Record, now: int, e: NetEvent)
    requires OwnTraffic(g, records, now, e)
    requires forall a :: a in g.peers ==> records(a).ServerId() == a
    ensures !e.Injected? && Brings(g, e, FromGraph(g))
    ensures forall a :: a in g.peers ==> Brings(g, e, OnlyRecord(records(a))) && OnTime(e, records(a), now)
  {
    hide UnixNanos;
  }

  lemma AnnouncedAndFlooded(g: Graph, records: string -> Record, now: int) returns (es: seq<NetEvent>)
    requires GoodGraph(g) && forall a :: a in g.peers ==> records(a).ServerId() == a && g.verify(records(a))
    ensures Valid(g, Start(g), es) && Quiet(Final(g, Start(g), es))
    ensures forall e :: e in es ==> OwnTraffic(g, records, now, e)
    ensures forall a :: a in g.peers ==> Announced(records(a), true, now) in es
  {
    var s := Start(g);
    StartScreened(g);
    hide Next, Enabled, Screened, FloodStepAt, Valid, Quiet;
    var first := AnnounceAll(g, s, records, g.peers.Keys, now);
    RunScreened(g, s, first);
    var later := FloodCompletes(g, Final(g, s, first), now);
    ThenMore(g, s, first, later);
    es := first + later;
  }

  lemma OwnTrafficRun(g: Graph, records: string -> Record, now: int, es: seq<NetEvent>)
    requires forall e :: e in es ==> OwnTraffic(g, records, now, e)
    requires forall a :: a in g.peers ==> records(a).ServerId() == a
    ensures forall e :: e in es ==> !e.Injected? && Brings(g, e, FromGraph(g))
    ensures forall a :: a in g.peers ==> OneRecord(g, es, records(a), now)
  {
    hide OwnTraffic, Brings, OnTime;
    forall e | e in es
      ensures !e.Injected? && Brings(g, e, FromGraph(g))
      ensures forall a :: a in g.peers ==> Brings(g, e, OnlyRecord(records(a))) && OnTime(e, records(a), now)
    {
      OwnTrafficFacts(g, records, now, e);
    }
  }

  /** Whatever the strongly connected graph and the nodes' records, there is a run that settles it: all
      nodes announce, and then the floods run to their end. */
  lemma SettledReached(g: Graph, records: string -> Record, now: int) returns (es: seq<NetEvent>)
    requires GoodGraph(g) && forall a, n :: a in g.peers && n in g.peers ==> Reaches(g, a, n)
    requires forall a :: a in g.peers ==> records(a).ServerId() == a && g.verify(records(a))
    ensures Settled(g, es, records, now)
  {
    hide Reaches, Brings, RecordKey, Valid, Quiet, OwnTraffic, OneRecord, Unforged;
    es := AnnouncedAndFlooded(g, records, now);
    OwnTrafficRun(g, records, now, es);
    NothingInjected(g, Start(g), es);
    forall a | a in g.peers ensures (a, RecordKey(records(a))) in Final(g, Start(g), es).announced {
      AnnouncedStays(g, Start(g), es, Announced(records(a), true, now));
    }
  }
}
