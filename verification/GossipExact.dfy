/** Which servers a node lists, as a function of its whole history. */
module GossipExact {
  import opened Collections
  import opened Nodes
  import opened Calendar
  import opened GossipRecords
  import opened GossipStores

  const DAY: int := 86_400_000_000_000
  const FIVE_MINUTES: int := 300_000_000_000

  /** The last event that stored a record of the foreign server `id`, or -1. */
  ghost function LastStored(n: Node, es: seq<StoreEvent>, id: string): (k: int)
    ensures -1 <= k < |es|
  {
    if es == [] then -1
    else if TakenFor(n, Run(n, es[..|es| - 1]), es[|es| - 1], id) != [] then |es| - 1
    else LastStored(n, es[..|es| - 1], id)
  }

  /** The last event that renewed the server, by a record or a heartbeat, or -1. */
  ghost function LastRenewed(n: Node, es: seq<StoreEvent>, id: string): (k: int)
    ensures -1 <= k < |es|
  {
    if es == [] then -1
    else if Renews(n, Run(n, es[..|es| - 1]), es[|es| - 1], id) then |es| - 1
    else LastRenewed(n, es[..|es| - 1], id)
  }

  /** Every expiry pass after event `k` comes at `limit` or before. */
  ghost predicate PassesBy(es: seq<StoreEvent>, k: int, limit: int) {
    forall j :: 0 <= j < |es| && k < j && es[j].Expire? ==> es[j].now <= limit
  }

  /** The record stored last has met no expiry pass more than a day after its timestamp. */
  ghost predicate StillStored(n: Node, es: seq<StoreEvent>, id: string) {
    var k := LastStored(n, es, id);
    k >= 0 && es[k].Received? && PassesBy(es, k, UnixNanos(es[k].record.timestamp) + DAY)
  }

  /** The server has met no expiry pass more than 300 seconds after its last renewal. */
  ghost predicate StillActive(n: Node, es: seq<StoreEvent>, id: string) {
    var k := LastRenewed(n, es, id);
    k >= 0 && PassesBy(es, k, es[k].now + FIVE_MINUTES)
  }

  lemma PassesBySnoc(es: seq<StoreEvent>, k: int, limit: int)
    requires es != [] && k < |es| - 1
    ensures PassesBy(es, k, limit) <==>
            PassesBy(es[..|es| - 1], k, limit) && (es[|es| - 1].Expire? ==> es[|es| - 1].now <= limit)
  {
    var es' := es[..|es| - 1];
    assert forall j :: 0 <= j < |es'| ==> es'[j] == es[j];
  }

  /** What the store holds for a foreign server is as its history says. */
  ghost predicate AsHistorySays(n: Node, es: seq<StoreEvent>, id: string) {
    && (id in Run(n, es).records <==> StillStored(n, es, id))
    && (id in Run(n, es).records ==>
          var e, k, r := Run(n, es).records[id], LastStored(n, es, id), LastRenewed(n, es, id);
          && k >= 0 && es[k].Received? && e.record == es[k].record
          && r >= 0 && e.lastSeen == es[r].now && (e.active <==> StillActive(n, es, id)))
  }

  lemma StoredByEvent(n: Node, st: StoreState, e: StoreEvent, id: string)
    requires id != n.own && TakenFor(n, st, e, id) != []
    ensures e.Received? && Renews(n, st, e, id)
    ensures id in Step(n, st, e).records && Step(n, st, e).records[id] == Entry(e.record, e.now, true)
  {
    hide RecordKey;
  }

  lemma RenewedByBeat(n: Node, st: StoreState, e: StoreEvent, id: string)
    requires id != n.own && TakenFor(n, st, e, id) == [] && Renews(n, st, e, id)
    ensures id in st.records && !e.Expire?
    ensures id in Step(n, st, e).records
    ensures Step(n, st, e).records[id] == st.records[id].(lastSeen := e.now, active := true)
  {
    hide RecordKey;
  }

  lemma NeitherStoredNorRenewed(n: Node, st: StoreState, e: StoreEvent, id: string)
    requires id != n.own && TakenFor(n, st, e, id) == [] && !Renews(n, st, e, id)
    ensures id !in st.records ==> id !in Step(n, st, e).records
    ensures !e.Expire? && id in st.records ==>
              id in Step(n, st, e).records && Step(n, st, e).records[id] == st.records[id]
    ensures e.Expire? && id in st.records ==>
              (id in Step(n, st, e).records <==> e.now <= UnixNanos(st.records[id].record.timestamp) + DAY)
    ensures e.Expire? && id in Step(n, st, e).records ==>
              id in st.records && Step(n, st, e).records[id]
              == st.records[id].(active := st.records[id].active && e.now <= st.records[id].lastSeen + FIVE_MINUTES)
  {
    hide RecordKey, UnixNanos;
  }

  lemma {:induction false} HistoryDecides(n: Node, es: seq<StoreEvent>, id: string)
    requires id != n.own
    ensures AsHistorySays(n, es, id)
    decreases |es|
  {
    hide Step, TakenFor, Renews, UnixNanos, PassesBy;
    if es != [] {
      var es', e := es[..|es| - 1], es[|es| - 1];
      HistoryDecides(n, es', id);
      var st, k, r := Run(n, es'), LastStored(n, es', id), LastRenewed(n, es', id);
      if TakenFor(n, st, e, id) != [] {
        StoredByEvent(n, st, e, id);
        NoPassYet(es, UnixNanos(e.record.timestamp) + DAY);
        NoPassYet(es, e.now + FIVE_MINUTES);
      } else {
        if k >= 0 && es'[k].Received? {
          PassesBySnoc(es, k, UnixNanos(es'[k].record.timestamp) + DAY);
        }
        if Renews(n, st, e, id) {
          RenewedByBeat(n, st, e, id);
          NoPassYet(es, e.now + FIVE_MINUTES);
        } else {
          NeitherStoredNorRenewed(n, st, e, id);
          if r >= 0 {
            PassesBySnoc(es, r, es'[r].now + FIVE_MINUTES);
          }
        }
      }
    }
  }

  lemma NoPassYet(es: seq<StoreEvent>, limit: int)
    ensures PassesBy(es, |es| - 1, limit)
  {
  }

  /** A foreign record is listed exactly when it was the last one stored for its server, no expiry pass has
      come more than a day after its timestamp, and none more than 300 seconds after the server's last
      renewal, be it that record or a heartbeat. */
  lemma ListedIff(n: Node, es: seq<StoreEvent>, out: seq<Record>, r: Record)
    requires Lists(Run(n, es), out) && r.ServerId() != n.own
    ensures r in out <==>
            && StillStored(n, es, r.ServerId()) && StillActive(n, es, r.ServerId())
            && es[LastStored(n, es, r.ServerId())].record == r
  {
    var id := r.ServerId();
    HistoryDecides(n, es, id);
    AlwaysTrustworthy(n, es);
    hide StillStored, StillActive, Run, RecordKey;
    if r in out {
      var i :| 0 <= i < |out| && out[i] == r;
    }
  }

  lemma {:induction false} LastStoredIsLast(n: Node, es: seq<StoreEvent>, id: string, j: nat)
    requires j < |es|
    ensures TakenFor(n, Run(n, es[..j]), es[j], id) != [] ==> j <= LastStored(n, es, id)
    ensures j == LastStored(n, es, id) ==> TakenFor(n, Run(n, es[..j]), es[j], id) != []
    ensures RenewedAt(n, es, j, id) ==> j <= LastRenewed(n, es, id)
    ensures j == LastRenewed(n, es, id) ==> RenewedAt(n, es, j, id)
    decreases |es|
  {
    hide TakenFor, Renews, Run;
    if j < |es| - 1 {
      var es' := es[..|es| - 1];
      assert es'[..j] == es[..j] && es'[j] == es[j];
      LastStoredIsLast(n, es', id, j);
    }
  }

  // ----- the node's own record -----

  /** The stamp that the node's own stored record should carry: that of its last start-up record, or of the
      last announcement made since while it was stored. */
  ghost function LastStamp(n: Node, es: seq<StoreEvent>): Option<Record> {
    if es == [] then None
    else
      var es', e := es[..|es| - 1], es[|es| - 1];
      if e.Boot? && Renews(n, Run(n, es'), e, n.own) then Some(e.record)
      else if e.Announce? && n.own in Run(n, es').records && LastStamp(n, es').Some?
      then Some(LastStamp(n, es').value.(timestamp := e.t, signature := e.signature))
      else LastStamp(n, es')
  }

  lemma OwnAfter(n: Node, st: StoreState, e: StoreEvent)
    requires n.own in Step(n, st, e).records
    ensures e.Boot? && Renews(n, st, e, n.own) ==> Step(n, st, e).records[n.own].record == e.record
    ensures !(e.Boot? && Renews(n, st, e, n.own)) ==> n.own in st.records
    ensures e.Announce? ==> Step(n, st, e).records[n.own].record
                            == st.records[n.own].record.(timestamp := e.t, signature := e.signature)
    ensures !e.Announce? && !(e.Boot? && Renews(n, st, e, n.own)) ==>
              Step(n, st, e).records[n.own].record == st.records[n.own].record
  {
    hide RecordKey, UnixNanos;
  }

  /** Re-announcing keeps the node's own stored record at its latest stamp. */
  lemma {:induction false} OwnRecordRestamped(n: Node, es: seq<StoreEvent>)
    requires n.own in Run(n, es).records
    ensures LastStamp(n, es) == Some(Run(n, es).records[n.own].record)
    decreases |es|
  {
    hide Step, Renews;
    if es != [] {
      var es', e := es[..|es| - 1], es[|es| - 1];
      OwnAfter(n, Run(n, es'), e);
      if !(e.Boot? && Renews(n, Run(n, es'), e, n.own)) {
        OwnRecordRestamped(n, es');
      }
    }
  }
}
