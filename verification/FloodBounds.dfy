/** Floods end, every node takes part in each at most once, and the number of sends is bounded by the
    degrees of the peer graph. */
module FloodBounds {
  import opened Collections
  import opened GossipRecords
  import opened GossipStores
  import opened Flood

  function Degree(g: Graph, n: string): nat {
    if n in g.peers then |g.peers[n]| else 0
  }

  /** The degrees of the nodes in a set of (node, key) pairs, added up. */
  ghost function DegreeSum(g: Graph, s: set<(string, string)>): nat {
    if s == {} then 0
    else
      var x :| x in s;
      Degree(g, x.0) + DegreeSum(g, s - {x})
  }

  lemma {:induction false} DegreeSumWithout(g: Graph, s: set<(string, string)>, x: (string, string))
    requires x in s
    ensures DegreeSum(g, s) == Degree(g, x.0) + DegreeSum(g, s - {x})
    decreases s
  {
    var y :| y in s && DegreeSum(g, s) == Degree(g, y.0) + DegreeSum(g, s - {y});
    if y != x {
      DegreeSumWithout(g, s - {y}, x);
      DegreeSumWithout(g, s - {x}, y);
      assert s - {y} - {x} == s - {x} - {y};
    }
  }

  lemma ForwardsSize(g: Graph, n: string, sender: set<string>, r: Record)
    requires n in g.peers
    ensures |Forwards(g, n, sender, r)| == |g.peers[n] - sender| <= Degree(g, n)
  {
    var to := map p | p in g.peers[n] - sender :: Msg(n, p, r);
    InjectiveMapSize(to);
    var msgs := set p | p in g.peers[n] - sender :: Msg(n, p, r);
    forall m ensures m in to.Values <==> m in msgs {
      if m in msgs {
        assert m.dst in to && to[m.dst] == m;
      }
    }
    assert to.Values == msgs;
    assert to.Keys == g.peers[n] - sender;
    DifferenceSize(g.peers[n], sender);
  }

  // ----- a decreasing measure -----

  /** The server that a key belongs to. */
  function OriginOf(key: string): string {
    if |key| >= 21 then key[..|key| - 21] else ""
  }

  lemma OriginOfKey(r: Record)
    ensures OriginOf(RecordKey(r)) == r.ServerId()
  {
    KeyParts(r.ServerId(), r.timestamp.utc);
  }

  /** `keys` are all the keys in play: those of the verified records in transit. */
  ghost predicate Known(g: Graph, s: Net, keys: set<string>) {
    forall m :: m in Transit(s) && g.verify(m.record) ==> RecordKey(m.record) in keys
  }

  /** The key that a step can bring into play; an injected record that fails verification brings none. */
  ghost function EventKeys(g: Graph, e: NetEvent): set<string> {
    if e.Announced? then {RecordKey(e.record)}
    else if e.Injected? && g.verify(e.m.record) then {RecordKey(e.m.record)}
    else {}
  }

  /** The nodes that may still have to forward a record, with its key. */
  ghost function Unserved(g: Graph, s: Net, keys: set<string>): set<(string, string)> {
    set n, key | && n in g.peers && key in keys && OriginOf(key) != n
                 && n in s.stores && key !in s.stores[n].seen
      :: (n, key)
  }

  ghost function SendsLeft(g: Graph, s: Net, keys: set<string>): nat {
    |s.outbox| + DegreeSum(g, Unserved(g, s, keys))
  }

  ghost function Work(g: Graph, s: Net, keys: set<string>): nat {
    3 * SendsLeft(g, s, keys) + 2 * |s.wire| + |s.checked|
  }

  ghost predicate FloodStep(e: NetEvent) {
    e.Sent? || e.Arrived? || e.Stored?
  }

  lemma QuietStepsUnserved(g: Graph, s: Net, e: NetEvent, keys: set<string>)
    requires Enabled(g, s, e) && !(e.Stored? && Fresh(s, e.m))
    ensures Unserved(g, Next(g, s, e), keys) == Unserved(g, s, keys)
  {
    SeenAfter(g, s, e);
    if e.Announced? {
      OriginOfKey(e.record);
    }
    hide RecordKey, Next, OriginOf;
  }

  lemma ServedByStoring(g: Graph, s: Net, e: NetEvent, keys: set<string>)
    requires Enabled(g, s, e) && e.Stored? && Fresh(s, e.m) && Screened(g, s) && Known(g, s, keys)
    ensures var x := (e.m.dst, RecordKey(e.m.record));
            x in Unserved(g, s, keys) && Unserved(g, Next(g, s, e), keys) == Unserved(g, s, keys) - {x}
  {
    hide RecordKey, Outgoing, OriginOf;
    assert e.m in Transit(s) && e.m in s.checked;
    OriginOfKey(e.m.record);
    SeenAfter(g, s, e);
    hide Next, Screened;
  }

  lemma StoringShrinks(g: Graph, s: Net, e: NetEvent, keys: set<string>)
    requires Enabled(g, s, e) && e.Stored? && Fresh(s, e.m) && Screened(g, s) && Known(g, s, keys)
    ensures SendsLeft(g, Next(g, s, e), keys) <= SendsLeft(g, s, keys)
    ensures Work(g, Next(g, s, e), keys) < Work(g, s, keys)
  {
    ServedByStoring(g, s, e, keys);
    DegreeSumWithout(g, Unserved(g, s, keys), (e.m.dst, RecordKey(e.m.record)));
    ForwardsSize(g, e.m.dst, {e.m.src}, e.m.record);
    hide RecordKey, Forwards, Unserved, Screened, Known;
    assert Next(g, s, e).outbox == s.outbox + Forwards(g, e.m.dst, {e.m.src}, e.m.record);
  }

  /** Each protocol step lowers the measure. An announcement raises it by at most three times the
      announcer's degree, an injected message by two; the sends left fall with each send and do not rise
      by injection. */
  lemma StepWork(g: Graph, s: Net, e: NetEvent, keys: set<string>)
    requires Enabled(g, s, e) && Screened(g, s) && Known(g, s, keys) && EventKeys(g, e) <= keys
    ensures Known(g, Next(g, s, e), keys)
    ensures FloodStep(e) ==> Work(g, Next(g, s, e), keys) < Work(g, s, keys)
    ensures FloodStep(e) ==>
              SendsLeft(g, Next(g, s, e), keys) + (if e.Sent? then 1 else 0) <= SendsLeft(g, s, keys)
    ensures !FloodStep(e) ==>
              Work(g, Next(g, s, e), keys)
              <= Work(g, s, keys) + 3 * AnnouncerDegree(g, e) + (if e.Injected? then 2 else 0)
    ensures !FloodStep(e) ==>
              SendsLeft(g, Next(g, s, e), keys) <= SendsLeft(g, s, keys) + AnnouncerDegree(g, e)
  {
    KnownStays(g, s, e, keys);
    hide RecordKey, Forwards, Unserved, Screened, DegreeSum, Next, Degree, Known, EventKeys, Enabled;
    if e.Stored? && Fresh(s, e.m) {
      StoringShrinks(g, s, e, keys);
    } else {
      QuietStepsUnserved(g, s, e, keys);
      StepSizes(g, s, e);
    }
  }

  lemma KnownStays(g: Graph, s: Net, e: NetEvent, keys: set<string>)
    requires Enabled(g, s, e) && Known(g, s, keys) && EventKeys(g, e) <= keys
    ensures Known(g, Next(g, s, e), keys)
  {
    hide RecordKey, Forwards, Next, IsNew;
    forall m | m in Transit(Next(g, s, e)) && g.verify(m.record) ensures RecordKey(m.record) in keys {
      TransitAfter(g, s, e, m);
      if e.Announced? {
        ForwardsMember(g, e.record.ServerId(), {}, e.record, m);
      } else if e.Stored? {
        ForwardsMember(g, e.m.dst, {e.m.src}, e.m.record, m);
        assert e.m in Transit(s);
      }
    }
  }

  ghost function AnnouncerDegree(g: Graph, e: NetEvent): nat {
    if e.Announced? then Degree(g, e.record.ServerId()) else 0
  }

  lemma StepSizes(g: Graph, s: Net, e: NetEvent)
    requires Enabled(g, s, e) && !(e.Stored? && Fresh(s, e.m))
    ensures var q := Next(g, s, e);
            && |q.outbox| + (if e.Sent? then 1 else 0) <= |s.outbox| + AnnouncerDegree(g, e)
            && (e.Sent? ==> |q.wire| == |s.wire| + 1 && q.checked == s.checked)
            && (e.Arrived? ==> |q.wire| == |s.wire| - 1 && |q.checked| <= |s.checked| + 1)
            && (e.Stored? ==> q.wire == s.wire && |q.checked| == |s.checked| - 1)
            && (!FloodStep(e) ==> |q.wire| == |s.wire| + (if e.Injected? then 1 else 0) && q.checked == s.checked)
  {
    if e.Announced? {
      ForwardsSize(g, e.record.ServerId(), {}, e.record);
    }
    hide RecordKey, Forwards, AfterPut, AfterAnnounce, AfterExpire, AfterBeat;
  }

  ghost function FloodSteps(es: seq<NetEvent>): nat {
    if es == [] then 0 else (if FloodStep(es[0]) then 1 else 0) + FloodSteps(es[1..])
  }

  ghost function Sends(es: seq<NetEvent>): nat {
    if es == [] then 0 else (if es[0].Sent? then 1 else 0) + Sends(es[1..])
  }

  ghost function Injections(es: seq<NetEvent>): nat {
    if es == [] then 0 else (if es[0].Injected? then 1 else 0) + Injections(es[1..])
  }

  ghost function AnnouncedDegrees(g: Graph, es: seq<NetEvent>): nat {
    if es == [] then 0
    else AnnouncerDegree(g, es[0]) + AnnouncedDegrees(g, es[1..])
  }

  ghost function KeysOf(g: Graph, es: seq<NetEvent>): set<string> {
    if es == [] then {} else EventKeys(g, es[0]) + KeysOf(g, es[1..])
  }

  /** However handlers interleave and whatever is injected, the protocol steps of a run are bounded by the
      work at its start, the degrees of the announcers and twice the injected messages, and its sends by
      the first two alone. Once announcements and injections stop, floods end. */
  lemma {:induction false} RunWork(g: Graph, s: Net, es: seq<NetEvent>, keys: set<string>)
    requires Valid(g, s, es) && Screened(g, s) && Known(g, s, keys) && KeysOf(g, es) <= keys
    ensures FloodSteps(es) + Work(g, Final(g, s, es), keys)
         <= Work(g, s, keys) + 3 * AnnouncedDegrees(g, es) + 2 * Injections(es)
    ensures Sends(es) + SendsLeft(g, Final(g, s, es), keys) <= SendsLeft(g, s, keys) + AnnouncedDegrees(g, es)
    decreases |es|
  {
    hide Enabled, Screened, Next, Known, EventKeys, Work, SendsLeft, Degree, AnnouncerDegree;
    if es != [] {
      StepScreened(g, s, es[0]);
      StepWork(g, s, es[0], keys);
      RunWork(g, Next(g, s, es[0]), es[1..], keys);
    }
  }

  ghost function Tagged(ns: set<string>, key: string): set<(string, string)> {
    set n | n in ns :: (n, key)
  }

  ghost function EveryNode(g: Graph, key: string): set<(string, string)> {
    Tagged(g.peers.Keys, key)
  }

  lemma {:induction false} NoAnnouncement(g: Graph, es: seq<NetEvent>, keys: set<string>)
    requires forall e :: e in es ==> !e.Announced? && EventKeys(g, e) <= keys
    ensures AnnouncedDegrees(g, es) == 0 && KeysOf(g, es) <= keys
  {
    hide EventKeys;
    if es != [] {
      assert es[0] in es;
      assert forall e :: e in es[1..] ==> e in es;
      NoAnnouncement(g, es[1..], keys);
    }
  }

  /** One announcement causes at most as many sends as the peer graph has edges, however many unverified
      messages and copies of it are injected meanwhile. */
  lemma OneFloodSends(g: Graph, first: NetEvent, es: seq<NetEvent>)
    requires GoodGraph(g) && first.Announced? && Valid(g, Start(g), [first] + es)
    requires forall e :: e in es ==> !e.Announced? && EventKeys(g, e) <= {RecordKey(first.record)}
    ensures Sends([first] + es) <= DegreeSum(g, EveryNode(g, RecordKey(first.record)))
  {
    var n, key := first.record.ServerId(), RecordKey(first.record);
    var all := [first] + es;
    assert all[0] == first && all[1..] == es;
    StartScreened(g);
    NoAnnouncement(g, es, {key});
    OriginOfKey(first.record);
    hide RecordKey, OriginOf, Enabled;
    RunWork(g, Start(g), all, {key});
    assert Unserved(g, Start(g), {key}) == EveryNode(g, key) - {(n, key)};
    DegreeSumWithout(g, EveryNode(g, key), (n, key));
  }

  // ----- all the traffic of a run -----

  lemma {:induction false} DegreeSumUnion(g: Graph, a: set<(string, string)>, b: set<(string, string)>)
    requires a !! b
    ensures DegreeSum(g, a + b) == DegreeSum(g, a) + DegreeSum(g, b)
    decreases b
  {
    if b == {} {
      assert a + b == a;
    } else {
      var x :| x in b;
      DegreeSumUnion(g, a, b - {x});
      DegreeSumWithout(g, b, x);
      DegreeSumWithout(g, a + b, x);
      assert a + b - {x} == a + (b - {x});
    }
  }

  lemma DegreeSumSubset(g: Graph, a: set<(string, string)>, b: set<(string, string)>)
    requires a <= b
    ensures DegreeSum(g, a) <= DegreeSum(g, b)
  {
    DegreeSumUnion(g, a, b - a);
    assert a + (b - a) == b;
  }

  /** The sum over nodes does not depend on the key that they are paired with. */
  lemma {:induction false} SameForEveryKey(g: Graph, ns: set<string>, a: string, b: string)
    ensures DegreeSum(g, Tagged(ns, a)) == DegreeSum(g, Tagged(ns, b))
    decreases ns
  {
    if ns == {} {
      assert Tagged(ns, a) == {} == Tagged(ns, b);
    } else {
      var n :| n in ns;
      SameForEveryKey(g, ns - {n}, a, b);
      assert Tagged(ns, a) - {(n, a)} == Tagged(ns - {n}, a) && Tagged(ns, b) - {(n, b)} == Tagged(ns - {n}, b);
      DegreeSumWithout(g, Tagged(ns, a), (n, a));
      DegreeSumWithout(g, Tagged(ns, b), (n, b));
    }
  }

  /** How many peer entries all the nodes have together. */
  ghost function Edges(g: Graph): nat {
    DegreeSum(g, EveryNode(g, ""))
  }

  ghost function AllPairs(g: Graph, keys: set<string>): set<(string, string)> {
    set n, key | n in g.peers && key in keys :: (n, key)
  }

  lemma {:induction false} AllPairsSum(g: Graph, keys: set<string>)
    ensures DegreeSum(g, AllPairs(g, keys)) == |keys| * Edges(g)
    decreases keys
  {
    if keys == {} {
      assert AllPairs(g, keys) == {};
    } else {
      hide DegreeSum;
      var key :| key in keys;
      var fewer := keys - {key};
      AllPairsSum(g, fewer);
      SameForEveryKey(g, g.peers.Keys, key, "");
      OneKeyMore(g, fewer, key);
      DegreeSumUnion(g, AllPairs(g, fewer), EveryNode(g, key));
      assert fewer + {key} == keys;
      OneTimeMore(|fewer|, Edges(g));
    }
  }

  lemma OneKeyMore(g: Graph, keys: set<string>, key: string)
    requires key !in keys
    ensures AllPairs(g, keys + {key}) == AllPairs(g, keys) + EveryNode(g, key)
    ensures AllPairs(g, keys) !! EveryNode(g, key)
  {
  }

  lemma OneTimeMore(n: nat, x: nat)
    ensures (n + 1) * x == n * x + x
  {
  }

  /** All the sends of any run: those of the announcements themselves, and at most one round over the
      peer graph per different key that came into play with a verified record. Unverified messages, and
      copies of records already in play, cause none, however many there are. */
  lemma RunSends(g: Graph, es: seq<NetEvent>)
    requires GoodGraph(g) && Valid(g, Start(g), es)
    ensures Sends(es) <= AnnouncedDegrees(g, es) + |KeysOf(g, es)| * Edges(g)
  {
    var keys := KeysOf(g, es);
    StartScreened(g);
    RunWork(g, Start(g), es, keys);
    hide OriginOf, DegreeSum, Degree;
    DegreeSumSubset(g, Unserved(g, Start(g), keys), AllPairs(g, keys));
    AllPairsSum(g, keys);
  }

  ghost predicate FloodStepAt(e: NetEvent, now: int) {
    FloodStep(e) && (e.Stored? ==> e.now == now)
  }

  /** From any state, whatever has been injected, the steps of the protocol lead to one with nothing in
      transit, at any time. */
  lemma FloodCompletes(g: Graph, s: Net, now: int) returns (es: seq<NetEvent>)
    requires Screened(g, s)
    ensures Valid(g, s, es) && Quiet(Final(g, s, es))
    ensures forall e :: e in es ==> FloodStepAt(e, now)
  {
    es := CompletedFrom(g, s, set m | m in Transit(s) :: RecordKey(m.record), now);
  }

  lemma {:induction false} CompletedFrom(g: Graph, s: Net, keys: set<string>, now: int) returns (es: seq<NetEvent>)
    requires Screened(g, s) && Known(g, s, keys)
    ensures Valid(g, s, es) && Quiet(Final(g, s, es))
    ensures forall e :: e in es ==> FloodStepAt(e, now)
    decreases Work(g, s, keys)
  {
    hide Screened, Next, Known, Work, Enabled, Transit, FloodStepAt;
    if Quiet(s) {
      return [];
    }
    var e := NextStep(g, s, now);
    StepScreened(g, s, e);
    StepWork(g, s, e, keys);
    var rest := CompletedFrom(g, Next(g, s, e), keys, now);
    es := [e] + rest;
    assert es[1..] == rest;
  }

  lemma NextStep(g: Graph, s: Net, now: int) returns (e: NetEvent)
    requires Screened(g, s) && !Quiet(s)
    ensures Enabled(g, s, e) && FloodStep(e) && FloodStepAt(e, now) && EventKeys(g, e) == {}
  {
    hide RecordKey;
    var m :| m in Transit(s);
    e := if m in s.outbox then Sent(m) else if m in s.wire then Arrived(m, now) else Stored(m, now);
  }

  // ----- at most once, exactly once -----

  /** How often node `n` stores, and therefore forwards, a record under `key` during a run. */
  ghost function Accepts(g: Graph, s: Net, es: seq<NetEvent>, n: string, key: string): nat
    requires Valid(g, s, es)
    decreases |es|
  {
    if es == [] then 0
    else
      var e := es[0];
      (if e.Stored? && e.m.dst == n && RecordKey(e.m.record) == key && Fresh(s, e.m) then 1 else 0)
      + Accepts(g, Next(g, s, e), es[1..], n, key)
  }

  ghost predicate SeenAt(s: Net, n: string, key: string) {
    n in s.stores && key in s.stores[n].seen
  }

  lemma StepSeen(g: Graph, s: Net, e: NetEvent, n: string, key: string)
    requires Enabled(g, s, e)
    ensures SeenAt(s, n, key) ==> SeenAt(Next(g, s, e), n, key)
    ensures e.Stored? && e.m.dst == n && RecordKey(e.m.record) == key && Fresh(s, e.m) ==>
              !SeenAt(s, n, key) && SeenAt(Next(g, s, e), n, key)
    ensures SeenAt(Next(g, s, e), n, key) && !SeenAt(s, n, key) ==>
              || (e.Stored? && e.m.dst == n && RecordKey(e.m.record) == key && Fresh(s, e.m))
              || (e.Announced? && e.record.ServerId() == n && RecordKey(e.record) == key)
  {
    SeenAfter(g, s, e);
    hide RecordKey, Next;
  }

  /** At most once; and if the node did not announce the key itself, exactly when it comes to have it. */
  lemma {:induction false} AcceptsOnce(g: Graph, s: Net, es: seq<NetEvent>, n: string, key: string)
    requires Valid(g, s, es)
    ensures Accepts(g, s, es, n, key) <= 1
    ensures SeenAt(s, n, key) ==> Accepts(g, s, es, n, key) == 0 && SeenAt(Final(g, s, es), n, key)
    ensures (forall e :: e in es && e.Announced? ==> e.record.ServerId() != n || RecordKey(e.record) != key)
              && !SeenAt(s, n, key) ==>
              (Accepts(g, s, es, n, key) == 1 <==> SeenAt(Final(g, s, es), n, key))
    decreases |es|
  {
    hide Enabled, Next, Fresh, SeenAt, RecordKey;
    if es != [] {
      assert es[0] in es;
      StepSeen(g, s, es[0], n, key);
      assert forall e :: e in es[1..] ==> e in es;
      AcceptsOnce(g, Next(g, s, es[0]), es[1..], n, key);
    }
  }

  lemma {:induction false} AnnouncedStays(g: Graph, s: Net, es: seq<NetEvent>, e: NetEvent)
    requires Valid(g, s, es) && e in es && e.Announced?
    ensures (e.record.ServerId(), RecordKey(e.record)) in Final(g, s, es).announced
    decreases |es|
  {
    hide RecordKey, Outgoing;
    if es[0] == e {
      AnnouncedGrows(g, Next(g, s, e), es[1..]);
    } else {
      assert e in es[1..];
      AnnouncedStays(g, Next(g, s, es[0]), es[1..], e);
    }
  }

  lemma {:induction false} AnnouncedGrows(g: Graph, s: Net, es: seq<NetEvent>)
    requires Valid(g, s, es)
    ensures s.announced <= Final(g, s, es).announced
    decreases |es|
  {
    hide Next, Enabled;
    if es != [] {
      SeenGrows(g, s, es[0]);
      AnnouncedGrows(g, Next(g, s, es[0]), es[1..]);
    }
  }

  /** Once the flood is over, every node reachable from the announcer, other than it, has accepted and
      forwarded the announcement exactly once. */
  lemma ExactlyOnceEverywhere(g: Graph, es: seq<NetEvent>, ns: seq<string>, key: string)
    requires GoodGraph(g) && Valid(g, Start(g), es) && Unforged(g, Start(g), es) && Quiet(Final(g, Start(g), es))
    requires Path(g, ns) && (ns[0], key) in Final(g, Start(g), es).announced && ns[|ns| - 1] != ns[0]
    ensures Accepts(g, Start(g), es, ns[|ns| - 1], key) == 1
  {
    var p := ns[|ns| - 1];
    FloodCoverage(g, es, ns, key);
    StartKeeps(g);
    RunKeeps(g, Start(g), es);
    AcceptsOnce(g, Start(g), es, p, key);
    assert !SeenAt(Start(g), p, key);
    hide Honest, Spreading, Quiet, Path, Enabled, Next, RecordKey;
    forall e | e in es && e.Announced? && e.record.ServerId() == p && RecordKey(e.record) == key ensures false {
      AnnouncedStays(g, Start(g), es, e);
      OneOrigin(g, Final(g, Start(g), es), ns[0], p, key);
    }
  }

  // ----- the records themselves -----

  /** Every verified record in transit satisfies `p`. */
  ghost predicate Carries(g: Graph, s: Net, p: Record -> bool) {
    forall m :: m in Transit(s) && g.verify(m.record) ==> p(m.record)
  }

  /** The step brings only records into play that satisfy `p`, apart from those that fail verification. */
  ghost predicate Brings(g: Graph, e: NetEvent, p: Record -> bool) {
    (e.Announced? ==> p(e.record)) && (e.Injected? && g.verify(e.m.record) ==> p(e.m.record))
  }

  lemma StepCarries(g: Graph, s: Net, e: NetEvent, p: Record -> bool)
    requires Enabled(g, s, e) && Screened(g, s) && Carries(g, s, p) && Brings(g, e, p)
    ensures Carries(g, Next(g, s, e), p)
    ensures e.Stored? ==> p(e.m.record)
  {
    hide Forwards, Next, IsNew;
    if e.Stored? {
      assert e.m in Transit(s) && e.m in s.checked;
    }
    forall m | m in Transit(Next(g, s, e)) && g.verify(m.record) ensures p(m.record) {
      TransitAfter(g, s, e, m);
      if e.Announced? {
        ForwardsMember(g, e.record.ServerId(), {}, e.record, m);
      } else if e.Stored? {
        ForwardsMember(g, e.m.dst, {e.m.src}, e.m.record, m);
      }
    }
  }

  /** If all verified records that come into play satisfy a predicate, so do all that any node stores. */
  lemma {:induction false} StoresOnly(g: Graph, s: Net, es: seq<NetEvent>, p: Record -> bool, e: NetEvent)
    requires Valid(g, s, es) && Screened(g, s) && Carries(g, s, p)
    requires forall a :: a in es ==> Brings(g, a, p)
    requires e in es && e.Stored?
    ensures p(e.m.record)
    decreases |es|
  {
    hide Next, Enabled, Carries, Brings, Screened;
    assert es[0] in es;
    StepCarries(g, s, es[0], p);
    StepScreened(g, s, es[0]);
    if es[0] != e {
      assert e in es[1..];
      assert forall a :: a in es[1..] ==> a in es;
      StoresOnly(g, Next(g, s, es[0]), es[1..], p, e);
    }
  }

  ghost function OnlyUnder(key: string, r: Record): Record -> bool {
    (x: Record) => RecordKey(x) == key ==> x == r
  }

  /** If only one verified record comes into play under a key, that record is what every node accepts. */
  lemma AcceptsTheRecord(g: Graph, es: seq<NetEvent>, key: string, r: Record, e: NetEvent)
    requires GoodGraph(g) && Valid(g, Start(g), es)
    requires forall a :: a in es ==> Brings(g, a, OnlyUnder(key, r))
    requires e in es && e.Stored? && RecordKey(e.m.record) == key
    ensures e.m.record == r
  {
    StartScreened(g);
    StoresOnly(g, Start(g), es, OnlyUnder(key, r), e);
  }
}
