/** Why coverage needs honest senders: a copy that poses as coming from a peer keeps the record from it. */
module FloodForged {
  import opened Collections
  import opened GossipRecords
  import opened GossipStores
  import opened Flood

  /** Three nodes in a line. */
  ghost function Line(a: string, b: string, c: string, verify: Record -> bool): Graph {
    Graph(map[a := {b}, b := {a, c}, c := {b}], verify)
  }

  lemma LineForwards(a: string, b: string, c: string, verify: Record -> bool, r: Record)
    requires a != b && b != c && a != c
    ensures Forwards(Line(a, b, c, verify), a, {}, r) == multiset{Msg(a, b, r)}
    ensures Forwards(Line(a, b, c, verify), b, {c}, r) == multiset{Msg(b, a, r)}
  {
    var g := Line(a, b, c, verify);
    assert (set p | p in g.peers[a] - {} :: Msg(a, p, r)) == {Msg(a, b, r)};
    assert g.peers[b] - {c} == {a};
    assert (set p | p in g.peers[b] - {c} :: Msg(b, p, r)) == {Msg(b, a, r)};
  }

  /** A copy is sent and turned away. */
  lemma TurnedAway(g: Graph, s: Net, m: Msg, outbox: multiset<Msg>) returns (es: seq<NetEvent>)
    requires s.stores.Keys == g.peers.Keys && m.dst in g.peers && !Passes(g, s, m)
    requires s.outbox == outbox + multiset{m} && s.wire == multiset{}
    ensures Valid(g, s, es) && Final(g, s, es) == s.(outbox := outbox)
    ensures forall e :: e in es ==> e.Sent? || e.Arrived?
  {
    hide RecordKey;
    var mid := Next(g, s, Sent(m));
    assert mid.wire == multiset{m} && mid.outbox == outbox;
    var end := Next(g, mid, Arrived(m, 0));
    assert end.wire == multiset{};
    assert end == s.(outbox := outbox);
    assert Valid(g, end, []);
    OneMore(g, mid, Arrived(m, 0), []);
    OneMore(g, s, Sent(m), [Arrived(m, 0)] + []);
    es := [Sent(m)] + ([Arrived(m, 0)] + []);
  }

  /** What the forged copy leads to: `b` stores the record and sends it to `a` alone. */
  ghost function Deceived(g: Graph, s: Net, b: string, r: Record, back: Msg): Net
    requires b in s.stores
  {
    s.(stores := s.stores[b := AfterPut(s.stores[b], r, 0)], outbox := s.outbox + multiset{back})
  }

  lemma ForgedCopyStored(g: Graph, s: Net, forged: Msg, back: Msg) returns (es: seq<NetEvent>)
    requires s.stores.Keys == g.peers.Keys && forged.dst in g.peers && Passes(g, s, forged)
    requires s.wire == multiset{} && s.checked == multiset{}
    requires Forwards(g, forged.dst, {forged.src}, forged.record) == multiset{back}
    ensures es == [Injected(forged), Arrived(forged, 0), Stored(forged, 0)]
    ensures Valid(g, s, es) && Final(g, s, es) == Deceived(g, s, forged.dst, forged.record, back)
  {
    hide RecordKey, AfterPut, Outgoing;
    es := [Injected(forged), Arrived(forged, 0), Stored(forged, 0)];
    var s1 := Next(g, s, es[0]);
    assert s1 == s.(wire := multiset{forged}) && Passes(g, s1, forged);
    var s2 := Next(g, s1, es[1]);
    assert s2 == s.(checked := multiset{forged}) && Fresh(s2, forged);
    var s3 := Next(g, s2, es[2]);
    assert s3 == Deceived(g, s, forged.dst, forged.record, back);
    OneMore(g, s2, es[2], []);
    OneMore(g, s1, es[1], [es[2]] + []);
    OneMore(g, s, es[0], [es[1]] + ([es[2]] + []));
    assert es == [es[0]] + ([es[1]] + ([es[2]] + []));
  }

  /** Node `a` announces; before its copy reaches `b`, someone delivers the same record to `b` from the
      address of `c`. So `b` does not pass it on to `c`, and when all is quiet `c` has never had it. */
  lemma PosingAsPeerBreaksCoverage(a: string, b: string, c: string, verify: Record -> bool, r: Record)
    returns (es: seq<NetEvent>)
    requires a != b && b != c && a != c && r.ServerId() == a && verify(r)
    ensures var g := Line(a, b, c, verify);
            && GoodGraph(g) && Path(g, [a, b, c]) && Valid(g, Start(g), es)
            && (forall e :: e in es && e.Injected? ==> e.m == Msg(c, b, r))
            && Quiet(Final(g, Start(g), es))
            && (a, RecordKey(r)) in Final(g, Start(g), es).announced
            && !Has(Final(g, Start(g), es), c, RecordKey(r))
  {
    hide RecordKey, Outgoing, Path, Valid;
    var g := Line(a, b, c, verify);
    LineForwards(a, b, c, verify, r);
    LinePath(a, b, c, verify);
    var s0, first := Start(g), Announced(r, true, 0);
    var s1 := Next(g, s0, first);
    assert s1.outbox == multiset{Msg(a, b, r)} && s1.stores[b] == EMPTY_STORE && s1.stores[c] == EMPTY_STORE;
    hide Next, Enabled;
    var rest := AfterAnnouncing(a, b, c, verify, r, s1);
    OneMore(g, s0, first, rest);
    es := [first] + rest;
  }

  lemma AfterAnnouncing(a: string, b: string, c: string, verify: Record -> bool, r: Record, s1: Net)
    returns (es: seq<NetEvent>)
    requires a != b && b != c && a != c && r.ServerId() == a && verify(r)
    requires s1.stores.Keys == {a, b, c} && s1.stores[b] == EMPTY_STORE
    requires s1.outbox == multiset{Msg(a, b, r)} && s1.wire == s1.checked == multiset{}
    ensures var g := Line(a, b, c, verify);
            && Valid(g, s1, es) && Quiet(Final(g, s1, es))
            && (forall e :: e in es && e.Injected? ==> e.m == Msg(c, b, r))
            && Final(g, s1, es).announced == s1.announced
            && c in Final(g, s1, es).stores && Final(g, s1, es).stores[c] == s1.stores[c]
  {
    hide RecordKey, Outgoing, Next, Enabled, Valid;
    var g := Line(a, b, c, verify);
    LineForwards(a, b, c, verify, r);
    hide Forwards;
    var there, back := Msg(a, b, r), Msg(b, a, r);
    var es1 := ForgedCopyStored(g, s1, Msg(c, b, r), back);
    var s2 := Deceived(g, s1, b, r, back);
    assert s2.outbox == multiset{there} + multiset{back};
    var es2 := TurnedAway(g, s2, back, multiset{there});
    var s3 := s2.(outbox := multiset{there});
    assert s3.outbox == multiset{} + multiset{there} && !Passes(g, s3, there);
    var es3 := TurnedAway(g, s3, there, multiset{});
    ThenMore(g, s2, es2, es3);
    ThenMore(g, s1, es1, es2 + es3);
    es := es1 + (es2 + es3);
  }

  lemma LinePath(a: string, b: string, c: string, verify: Record -> bool)
    requires a != b && b != c && a != c
    ensures Path(Line(a, b, c, verify), [a, b, c]) && GoodGraph(Line(a, b, c, verify))
  {
    assert [a, b, c][1..] == [b, c] && [b, c][1..] == [c];
    assert Path(Line(a, b, c, verify), [c]);
    assert Path(Line(a, b, c, verify), [b, c]);
  }
}
