/** The gossip store: known records by server, deduplication keys, liveness and expiry. */
module GossipStores {
  import opened Collections
  import opened Nodes
  import opened Calendar
  import opened GossipRecords

  const RECORD_EXPIRY: int := 24 * 3600 * SECOND
  const LIVENESS_TIMEOUT: int := 300 * SECOND

  datatype Entry = Entry(record: Record, lastSeen: int, active: bool)

  datatype StoreState = StoreState(records: map<string, Entry>, seen: set<string>)

  const EMPTY_STORE := StoreState(map[], {})

  ghost predicate IsNew(st: StoreState, r: Record) {
    RecordKey(r) !in st.seen
  }

  ghost function AfterPut(st: StoreState, r: Record, now: int): StoreState {
    if IsNew(st, r)
    then StoreState(st.records[r.ServerId() := Entry(r, now, true)], st.seen + {RecordKey(r)})
    else st
  }

  ghost function AfterBeat(st: StoreState, id: string, now: int): StoreState {
    if id in st.records then st.(records := st.records[id := st.records[id].(lastSeen := now, active := true)]) else st
  }

  ghost predicate Expired(e: Entry, now: int) {
    now - UnixNanos(e.record.timestamp) > RECORD_EXPIRY
  }

  ghost function Checked(e: Entry, now: int): Entry {
    if now - e.lastSeen > LIVENESS_TIMEOUT then e.(active := false) else e
  }

  ghost function AfterExpire(st: StoreState, now: int): StoreState {
    st.(records := map id | id in st.records && !Expired(st.records[id], now) :: Checked(st.records[id], now))
  }

  /** Re-announcing stamps the node's own record in place, and its store holds that same record. */
  ghost function AfterAnnounce(st: StoreState, own: string, t: Instant, signature: string): StoreState {
    if own in st.records
    then st.(records := st.records[own := st.records[own].(
                                     record := st.records[own].record.(timestamp := t, signature := signature))])
    else st
  }

  class Store {
    var records: map<string, Entry>
    var seen: set<string>

    ghost function View(): StoreState
      reads this
    {
      StoreState(records, seen)
    }

    constructor ()
      ensures View() == EMPTY_STORE
    {
      records, seen := map[], {};
    }

    method IsSeen(key: string) returns (b: bool)
      ensures b <==> key in seen
    {
      b := key in seen;
    }

    method Put(r: Record, now: int) returns (stored: bool)
      modifies this
      ensures stored <==> IsNew(old(View()), r)
      ensures View() == AfterPut(old(View()), r, now)
    {
      var key := RecordKey(r);
      if key in seen {
        return false;
      }
      seen := seen + {key};
      records := records[r.ServerId() := Entry(r, now, true)];
      return true;
    }

    method Heartbeat(id: string, now: int)
      modifies this
      ensures View() == AfterBeat(old(View()), id, now)
    {
      if id in records {
        records := records[id := records[id].(lastSeen := now, active := true)];
      }
    }

    method Get(id: string) returns (r: Option<Record>)
      ensures r == if id in records then Some(records[id].record) else None
    {
      r := if id in records then Some(records[id].record) else None;
    }

    method ActiveRecords() returns (out: seq<Record>)
      requires Filed(View())
      ensures Lists(View(), out)
    {
      out := [];
      var todo := records.Keys;
      while todo != {}
        invariant todo <= records.Keys
        invariant forall i :: 0 <= i < |out| ==>
                    && out[i].ServerId() in records.Keys - todo
                    && records[out[i].ServerId()].active && records[out[i].ServerId()].record == out[i]
        invariant forall i, j :: 0 <= i < j < |out| ==> out[i].ServerId() != out[j].ServerId()
        invariant forall id :: id in records.Keys - todo && records[id].active ==> records[id].record in out
      {
        var id :| id in todo;
        todo := todo - {id};
        if records[id].active {
          ghost var before := out;
          out := out + [records[id].record];
          assert forall r :: r in before ==> r in out;
        }
      }
    }

    /** Deletes expired records and marks silent ones inactive while walking the map. */
    method ExpireAndCheck(now: int)
      modifies this
      ensures View() == AfterExpire(old(View()), now)
    {
      hide UnixNanos;
      ghost var start := records;
      var todo := records.Keys;
      while todo != {}
        invariant todo <= start.Keys && seen == old(seen)
        invariant forall id :: id in records <==> id in start && (id in todo || !Expired(start[id], now))
        invariant forall id :: id in records ==>
                    records[id] == if id in todo then start[id] else Checked(start[id], now)
      {
        var id :| id in todo;
        todo := todo - {id};
        var e := records[id];
        if now - UnixNanos(e.record.timestamp) > RECORD_EXPIRY {
          records := records - {id};
        } else if now - e.lastSeen > LIVENESS_TIMEOUT {
          records := records[id := e.(active := false)];
        }
      }
    }
  }

  /** Records are filed under their own server id. */
  ghost predicate Filed(st: StoreState) {
    forall id :: id in st.records ==> st.records[id].record.ServerId() == id
  }

  /** `out` is a listing of exactly the active records, one per server. */
  ghost predicate Lists(st: StoreState, out: seq<Record>) {
    && (forall i :: 0 <= i < |out| ==>
          && out[i].ServerId() in st.records
          && st.records[out[i].ServerId()].active && st.records[out[i].ServerId()].record == out[i])
    && (forall i, j :: 0 <= i < j < |out| ==> out[i].ServerId() != out[j].ServerId())
    && (forall id :: id in st.records && st.records[id].active ==> st.records[id].record in out)
  }

  // ----- a node's store over time -----

  /** What reaches the store of the node `own`: its own start-up record, a record received from a peer,
      a heartbeat (with the outcome of its signature check), the expiry pass, its own re-announcement. */
  datatype StoreEvent =
    | Boot(record: Record, now: int)
    | Received(record: Record, now: int)
    | Beat(id: string, verified: bool, now: int)
    | Expire(now: int)
    | Announce(t: Instant, signature: string, now: int)

  datatype Node = Node(own: string, verify: Record -> bool)

  /** The handler's checks before it stores a received record. */
  ghost predicate Takes(n: Node, st: StoreState, r: Record) {
    r.ServerId() != n.own && n.verify(r) && IsNew(st, r)
  }

  ghost function Step(n: Node, st: StoreState, e: StoreEvent): StoreState {
    match e
    case Boot(r, now) => if r.ServerId() == n.own then AfterPut(st, r, now) else st
    case Received(r, now) => if Takes(n, st, r) then AfterPut(st, r, now) else st
    case Beat(id, verified, now) => if verified then AfterBeat(st, id, now) else st
    case Expire(now) => AfterExpire(st, now)
    case Announce(t, signature, _) => AfterAnnounce(st, n.own, t, signature)
  }

  ghost function Run(n: Node, es: seq<StoreEvent>): StoreState {
    if es == [] then EMPTY_STORE else Step(n, Run(n, es[..|es| - 1]), es[|es| - 1])
  }

  /** The event renewed the liveness of server `id` in state `st`. */
  ghost predicate Renews(n: Node, st: StoreState, e: StoreEvent, id: string) {
    match e
    case Boot(r, _) => id == n.own == r.ServerId() && IsNew(st, r)
    case Received(r, _) => r.ServerId() == id && Takes(n, st, r)
    case Beat(i, verified, _) => i == id && verified && id in st.records
    case _ => false
  }

  ghost predicate RenewedAt(n: Node, es: seq<StoreEvent>, k: nat, id: string) {
    k < |es| && Renews(n, Run(n, es[..k]), es[k], id)
  }

  ghost function LastExpire(start: int, es: seq<StoreEvent>): int {
    if es == [] then start
    else if es[|es| - 1].Expire? then es[|es| - 1].now
    else LastExpire(start, es[..|es| - 1])
  }

  ghost function Clock(start: int, es: seq<StoreEvent>): int {
    if es == [] then start else es[|es| - 1].now
  }

  /** The clock does not run backwards. */
  ghost predicate Timed(start: int, es: seq<StoreEvent>) {
    es == [] || (es[|es| - 1].now >= Clock(start, es[..|es| - 1]) && Timed(start, es[..|es| - 1]))
  }

  /** Why an entry counts as live: it was renewed when it says so, and if active, no earlier than the
      timeout before the latest expiry pass. */
  ghost predicate Vouched(n: Node, start: int, es: seq<StoreEvent>, id: string) {
    var st := Run(n, es);
    id in st.records ==>
      && st.records[id].lastSeen <= Clock(start, es)
      && (st.records[id].active ==> st.records[id].lastSeen >= LastExpire(start, es) - LIVENESS_TIMEOUT)
      && exists k: nat :: RenewedAt(n, es, k, id) && es[k].now == st.records[id].lastSeen
  }

  lemma {:induction false} ExpireBeforeClock(start: int, es: seq<StoreEvent>)
    requires Timed(start, es)
    ensures LastExpire(start, es) <= Clock(start, es)
  {
    if es != [] {
      ExpireBeforeClock(start, es[..|es| - 1]);
    }
  }

  lemma RenewedEarlier(n: Node, es: seq<StoreEvent>, k: nat, id: string)
    requires es != [] && RenewedAt(n, es[..|es| - 1], k, id)
    ensures RenewedAt(n, es, k, id) && es[k] == es[..|es| - 1][k]
  {
    assert es[..|es| - 1][..k] == es[..k];
  }

  /** What a step leaves of an entry that it does not renew. */
  lemma NotRenewed(n: Node, st: StoreState, e: StoreEvent, id: string)
    requires id in Step(n, st, e).records && !Renews(n, st, e, id)
    ensures id in st.records && Step(n, st, e).records[id].lastSeen == st.records[id].lastSeen
    ensures Step(n, st, e).records[id].active ==> st.records[id].active
    ensures e.Expire? && Step(n, st, e).records[id].active ==> e.now - st.records[id].lastSeen <= LIVENESS_TIMEOUT
  {
    hide UnixNanos, RecordKey;
  }

  /** A server whose record is stored or whose heartbeat is accepted is active as of now, even if it had
      been marked inactive. */
  lemma JustRenewed(n: Node, st: StoreState, e: StoreEvent, id: string)
    requires Renews(n, st, e, id)
    ensures id in Step(n, st, e).records && !e.Expire?
    ensures Step(n, st, e).records[id].lastSeen == e.now && Step(n, st, e).records[id].active
  {
    hide RecordKey;
  }

  lemma {:induction false} AllVouched(n: Node, start: int, es: seq<StoreEvent>, id: string)
    requires Timed(start, es)
    ensures Vouched(n, start, es, id)
    decreases |es|
  {
    hide Step, Renews, Timed;
    if es != [] {
      var es', e := es[..|es| - 1], es[|es| - 1];
      TimedStep(start, es);
      AllVouched(n, start, es', id);
      ExpireBeforeClock(start, es');
      var st := Run(n, es');
      if Renews(n, st, e, id) {
        JustRenewed(n, st, e, id);
        assert RenewedAt(n, es, |es| - 1, id);
      } else if id in Run(n, es).records {
        NotRenewed(n, st, e, id);
        var k: nat :| RenewedAt(n, es', k, id) && es'[k].now == st.records[id].lastSeen;
        RenewedEarlier(n, es, k, id);
      }
    }
  }

  lemma TimedStep(start: int, es: seq<StoreEvent>)
    requires Timed(start, es) && es != []
    ensures Timed(start, es[..|es| - 1]) && es[|es| - 1].now >= Clock(start, es[..|es| - 1])
  {
  }

  /** With an expiry pass in the last 60 seconds, every listed record was stored or confirmed by a
      heartbeat at most 360 seconds ago. */
  lemma ListedIsFresh(n: Node, start: int, es: seq<StoreEvent>, now: int, out: seq<Record>, i: nat) returns (k: nat)
    requires Timed(start, es) && Lists(Run(n, es), out) && i < |out|
    requires Clock(start, es) <= now <= LastExpire(start, es) + 60 * SECOND
    ensures RenewedAt(n, es, k, out[i].ServerId())
    ensures now - 360 * SECOND <= es[k].now <= now
  {
    hide Run, Timed, LastExpire, Renews;
    var id := out[i].ServerId();
    AllVouched(n, start, es, id);
    k :| RenewedAt(n, es, k, id) && es[k].now == Run(n, es).records[id].lastSeen;
  }

  // ----- what is stored -----

  ghost predicate Trustworthy(n: Node, st: StoreState) {
    && Filed(st)
    && forall id :: id in st.records && id != n.own ==>
         n.verify(st.records[id].record) && RecordKey(st.records[id].record) in st.seen
  }

  lemma StepTrustworthy(n: Node, st: StoreState, e: StoreEvent)
    requires Trustworthy(n, st)
    ensures Trustworthy(n, Step(n, st, e)) && st.seen <= Step(n, st, e).seen
  {
    hide UnixNanos, RecordKey;
  }

  /** In every reachable state, foreign records passed verification, each record is filed under its own
      id, and so a listing names no server twice. */
  lemma {:induction false} AlwaysTrustworthy(n: Node, es: seq<StoreEvent>)
    ensures Trustworthy(n, Run(n, es))
    decreases |es|
  {
    hide Trustworthy, Step;
    if es == [] {
      EmptyTrustworthy(n);
    } else {
      AlwaysTrustworthy(n, es[..|es| - 1]);
      StepTrustworthy(n, Run(n, es[..|es| - 1]), es[|es| - 1]);
    }
  }

  lemma EmptyTrustworthy(n: Node)
    ensures Trustworthy(n, EMPTY_STORE)
  {
  }

  /** The event is an expiry pass, at the instant `clock`, that finds the record more than a calendar day old. */
  ghost predicate FoundExpired(e: StoreEvent, clock: Instant, r: Record) {
    e.Expire? && MoreThanADayAfter(clock, r.timestamp)
  }

  /** A server's entry leaves the store in exactly one way: an expiry pass finds its record more than a day
      old by the calendar. A foreign record stays exactly when that does not happen and no other record of its
      server is taken in its place. */
  lemma LeavesIff(n: Node, st: StoreState, e: StoreEvent, id: string, clock: Instant)
    requires Trustworthy(n, st) && id in st.records && e.now == UnixNanos(clock)
    ensures id !in Step(n, st, e).records <==> FoundExpired(e, clock, st.records[id].record)
    ensures id != n.own ==>
              (id in Step(n, st, e).records && Step(n, st, e).records[id].record == st.records[id].record <==>
               !FoundExpired(e, clock, st.records[id].record) && TakenFor(n, st, e, id) == [])
  {
    hide UnixNanos, RecordKey, MoreThanADayAfter;
    DayOfNanos(clock, st.records[id].record.timestamp);
  }

  ghost predicate HoldsForeign(n: Node, st: StoreState, key: string) {
    exists id :: id in st.records && id != n.own && RecordKey(st.records[id].record) == key
  }

  lemma StepNoReturn(n: Node, st: StoreState, e: StoreEvent, key: string)
    requires key in st.seen && !HoldsForeign(n, st, key)
    ensures !HoldsForeign(n, Step(n, st, e), key) && key in Step(n, st, e).seen
  {
    hide UnixNanos, RecordKey;
  }

  /** Once a key has been seen and its record is gone, no foreign record with that key is ever stored again. */
  lemma {:induction false} NeverReturns(n: Node, es: seq<StoreEvent>, i: nat, key: string)
    requires i <= |es| && key in Run(n, es[..i]).seen && !HoldsForeign(n, Run(n, es[..i]), key)
    ensures !HoldsForeign(n, Run(n, es), key) && key in Run(n, es).seen
    decreases |es|
  {
    hide HoldsForeign, Step;
    if i == |es| {
      assert es[..i] == es;
    } else {
      var es' := es[..|es| - 1];
      assert es'[..i] == es[..i];
      NeverReturns(n, es', i, key);
      StepNoReturn(n, Run(n, es'), es[|es| - 1], key);
    }
  }

  // ----- which record is stored -----

  /** The record of server `id` that the event stores, if it does. */
  ghost function TakenFor(n: Node, st: StoreState, e: StoreEvent, id: string): seq<Record> {
    if e.Received? && e.record.ServerId() == id && Takes(n, st, e.record) then [e.record] else []
  }

  /** All records of server `id` that were stored, in order. */
  ghost function Taken(n: Node, es: seq<StoreEvent>, id: string): seq<Record> {
    if es == [] then []
    else
      var es', e := es[..|es| - 1], es[|es| - 1];
      Taken(n, es', id) + TakenFor(n, Run(n, es'), e, id)
  }

  lemma RecordAfter(n: Node, st: StoreState, e: StoreEvent, id: string)
    requires id != n.own && id in Step(n, st, e).records
    ensures TakenFor(n, st, e, id) != [] ==> Step(n, st, e).records[id].record == TakenFor(n, st, e, id)[0]
    ensures TakenFor(n, st, e, id) == [] ==>
              id in st.records && Step(n, st, e).records[id].record == st.records[id].record
  {
    hide UnixNanos, RecordKey;
  }

  /** What is stored for a foreign server is the record taken last. */
  lemma {:induction false} StoredIsLastTaken(n: Node, es: seq<StoreEvent>, id: string)
    requires id != n.own && id in Run(n, es).records
    ensures Taken(n, es, id) != []
    ensures Run(n, es).records[id].record == Taken(n, es, id)[|Taken(n, es, id)| - 1]
    decreases |es|
  {
    hide Step, TakenFor;
    if es != [] {
      var es', e := es[..|es| - 1], es[|es| - 1];
      RecordAfter(n, Run(n, es'), e, id);
      AtMostOneTaken(n, Run(n, es'), e, id);
      if TakenFor(n, Run(n, es'), e, id) == [] {
        StoredIsLastTaken(n, es', id);
      }
    }
  }

  lemma AtMostOneTaken(n: Node, st: StoreState, e: StoreEvent, id: string)
    ensures |TakenFor(n, st, e, id)| <= 1
    ensures TakenFor(n, st, e, id) != [] ==> id in Step(n, st, e).records
  {
    hide RecordKey, UnixNanos;
  }

  ghost predicate NoneNewer(rs: seq<Record>, r: Record) {
    forall i :: 0 <= i < |rs| ==> UnixNanos(rs[i].timestamp) <= UnixNanos(r.timestamp)
  }

  ghost predicate InOrder(rs: seq<Record>) {
    forall i, j :: 0 <= i < j < |rs| ==> UnixNanos(rs[i].timestamp) <= UnixNanos(rs[j].timestamp)
  }

  /** What is stored for `id` after the run, if anything, is the newest record taken for it so far. */
  ghost predicate HoldsNewest(n: Node, es: seq<StoreEvent>, id: string) {
    id in Run(n, es).records ==> NoneNewer(Taken(n, es, id), Run(n, es).records[id].record)
  }

  lemma InOrderSnoc(rs: seq<Record>, r: Record)
    ensures InOrder(rs + [r]) <==> InOrder(rs) && NoneNewer(rs, r)
    ensures NoneNewer(rs + [r], r) <==> NoneNewer(rs, r)
    ensures InOrder(rs) && rs != [] ==> NoneNewer(rs, rs[|rs| - 1])
  {
    hide UnixNanos;
    var t := rs + [r];
    assert t[|rs|] == r && forall i :: 0 <= i < |rs| ==> t[i] == rs[i];
  }

  lemma NewestStep(n: Node, es: seq<StoreEvent>, id: string)
    requires es != [] && id != n.own
    ensures InOrder(Taken(n, es[..|es| - 1], id)) ==> (HoldsNewest(n, es, id) <==> InOrder(Taken(n, es, id)))
    ensures InOrder(Taken(n, es, id)) ==> InOrder(Taken(n, es[..|es| - 1], id))
  {
    var es', e := es[..|es| - 1], es[|es| - 1];
    var rs, more := Taken(n, es', id), TakenFor(n, Run(n, es'), e, id);
    AtMostOneTaken(n, Run(n, es'), e, id);
    hide Step, TakenFor, NoneNewer, InOrder;
    if more == [] {
      assert rs + more == rs;
      if id in Run(n, es).records {
        StoredIsLastTaken(n, es, id);
        InOrderSnoc(rs, rs[|rs| - 1]);
      }
    } else {
      RecordAfter(n, Run(n, es'), e, id);
      assert more == [more[0]];
      InOrderSnoc(rs, more[0]);
    }
  }

  /** `put` does not compare timestamps. Throughout a run the store holds the newest record it has taken for
      a foreign server exactly when it takes that server's records in the order of their timestamps. */
  lemma {:induction false} HoldsNewestIff(n: Node, es: seq<StoreEvent>, id: string)
    requires id != n.own
    ensures (forall k :: 0 <= k <= |es| ==> HoldsNewest(n, es[..k], id)) <==> InOrder(Taken(n, es, id))
    decreases |es|
  {
    hide HoldsNewest, InOrder, Taken;
    if es == [] {
      EmptyHoldsNewest(n, id);
      assert forall k :: 0 <= k <= |es| ==> es[..k] == [];
    } else {
      var es' := es[..|es| - 1];
      HoldsNewestIff(n, es', id);
      NewestStep(n, es, id);
      assert forall k :: 0 <= k <= |es'| ==> es'[..k] == es[..k];
      assert es[..|es|] == es;
    }
  }

  lemma EmptyHoldsNewest(n: Node, id: string)
    ensures HoldsNewest(n, [], id) && InOrder(Taken(n, [], id))
  {
  }

  /** A run where it fails: of two announcements the later one arrives first. */
  lemma OlderOverwritesNewer(n: Node, first: Record, second: Record, now: int) returns (es: seq<StoreEvent>)
    requires first.ServerId() == second.ServerId() != n.own && n.verify(first) && n.verify(second)
    requires UnixNanos(first.timestamp) < UnixNanos(second.timestamp) && first.timestamp.utc != second.timestamp.utc
    ensures es == [Received(second, now), Received(first, now)]
    ensures first.ServerId() in Run(n, es).records && Run(n, es).records[first.ServerId()].record == first
    ensures !HoldsNewest(n, es, first.ServerId())
  {
    hide UnixNanos, RecordKey;
    var id := first.ServerId();
    es := [Received(second, now), Received(first, now)];
    var one := [Received(second, now)];
    assert es[..1] == one && one[..0] == [];
    RecordKeyIff(first, second);
    assert Taken(n, one[..0], id) == [] && Run(n, one[..0]) == EMPTY_STORE;
    assert Run(n, one) == Step(n, EMPTY_STORE, one[0]);
    assert Run(n, one) == AfterPut(EMPTY_STORE, second, now);
    assert Taken(n, one, id) == [] + [second];
    assert Taken(n, es, id) == Taken(n, one, id) + [first];
    assert Taken(n, es, id)[0] == second;
  }
}
