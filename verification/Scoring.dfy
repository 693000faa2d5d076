/** `scoreNodes`: insertion sort by weighted score, highest first. */
module Scoring {
  import opened Collections
  import opened Nodes

  ghost predicate Descending(s: seq<NodeRecord>) {
    forall i, j :: 0 <= i < j < |s| ==> Score(s[i]) >= Score(s[j])
  }

  /** `x` placed after every element of the descending sequence `s` that scores at least as high. */
  function Insert(s: seq<NodeRecord>, x: NodeRecord): seq<NodeRecord> {
    if s == [] || Score(s[|s| - 1]) >= Score(x) then s + [x]
    else Insert(s[..|s| - 1], x) + [s[|s| - 1]]
  }

  function Ranked(s: seq<NodeRecord>): seq<NodeRecord> {
    if s == [] then [] else Insert(Ranked(s[..|s| - 1]), s[|s| - 1])
  }

  lemma {:induction false} InsertAt(s: seq<NodeRecord>, x: NodeRecord, j: nat)
    requires j <= |s|
    requires forall k :: j <= k < |s| ==> Score(s[k]) < Score(x)
    requires j > 0 ==> Score(s[j - 1]) >= Score(x)
    ensures Insert(s, x) == s[..j] + [x] + s[j..]
  {
    if j < |s| {
      var s' := s[..|s| - 1];
      InsertAt(s', x, j);
      assert s'[..j] == s[..j];
      assert s[j..] == s'[j..] + [s[|s| - 1]];
    }
  }

  /** Where `Insert` puts its element. */
  lemma {:induction false} InsertPosition(s: seq<NodeRecord>, x: NodeRecord) returns (j: nat)
    requires Descending(s)
    ensures j <= |s|
    ensures forall k :: j <= k < |s| ==> Score(s[k]) < Score(x)
    ensures forall k :: 0 <= k < j ==> Score(s[k]) >= Score(x)
    ensures Insert(s, x) == s[..j] + [x] + s[j..]
  {
    j := |s|;
    while j > 0 && Score(s[j - 1]) < Score(x)
      invariant j <= |s|
      invariant forall k :: j <= k < |s| ==> Score(s[k]) < Score(x)
    {
      j := j - 1;
    }
    InsertAt(s, x, j);
  }

  lemma InsertDescending(s: seq<NodeRecord>, x: NodeRecord)
    requires Descending(s)
    ensures Descending(Insert(s, x))
  {
    var j := InsertPosition(s, x);
  }

  lemma {:induction false} InsertStable(s: seq<NodeRecord>, x: NodeRecord, v: real)
    ensures Filter(Insert(s, x), HasScore(v)) == Filter(s + [x], HasScore(v))
  {
    var p := HasScore(v);
    if s != [] && Score(s[|s| - 1]) < Score(x) {
      var s', y := s[..|s| - 1], s[|s| - 1];
      assert s == s' + [y];
      InsertStable(s', x, v);
      FilterSwap(s', x, y, p);
      FilterSnoc(Insert(s', x), y, p);
      FilterSnoc(s' + [x], y, p);
    }
  }

  lemma FilterSwap(s: seq<NodeRecord>, x: NodeRecord, y: NodeRecord, p: NodeRecord -> bool)
    requires !p(x) || !p(y)
    ensures Filter(s + [x] + [y], p) == Filter(s + [y] + [x], p)
  {
  }

  lemma {:induction false} InsertPermutes(s: seq<NodeRecord>, x: NodeRecord)
    ensures multiset(Insert(s, x)) == multiset(s) + multiset{x}
  {
    if s != [] && Score(s[|s| - 1]) < Score(x) {
      var s', y := s[..|s| - 1], s[|s| - 1];
      assert s == s' + [y];
      InsertPermutes(s', x);
    }
  }

  lemma {:induction false} RankedDescending(s: seq<NodeRecord>)
    ensures Descending(Ranked(s))
  {
    if s != [] {
      RankedDescending(s[..|s| - 1]);
      InsertDescending(Ranked(s[..|s| - 1]), s[|s| - 1]);
    }
  }

  lemma {:induction false} RankedPermutes(s: seq<NodeRecord>)
    ensures multiset(Ranked(s)) == multiset(s)
    ensures |Ranked(s)| == |s|
  {
    if s != [] {
      var s', x := s[..|s| - 1], s[|s| - 1];
      assert s == s' + [x];
      RankedPermutes(s');
      InsertPermutes(Ranked(s'), x);
    }
    assert |multiset(Ranked(s))| == |multiset(s)|;
  }

  /** Nodes of equal score keep their relative order. */
  lemma {:induction false} RankedStable(s: seq<NodeRecord>, v: real)
    ensures Filter(Ranked(s), HasScore(v)) == Filter(s, HasScore(v))
  {
    if s != [] {
      var s', x := s[..|s| - 1], s[|s| - 1];
      assert s == s' + [x];
      RankedStable(s', v);
      InsertStable(Ranked(s'), x, v);
      FilterSnoc(Ranked(s'), x, HasScore(v));
    }
  }

  lemma LastWithScore(t: seq<NodeRecord>)
    requires t != []
    ensures var x := t[|t| - 1]; var f := Filter(t, HasScore(Score(x))); f != [] && f[|f| - 1] == x
  {
  }

  lemma {:induction false} SameLast(t: seq<NodeRecord>, u: seq<NodeRecord>)
    requires Descending(t) && Descending(u) && t != []
    requires forall v :: Filter(t, HasScore(v)) == Filter(u, HasScore(v))
    ensures u != [] && t[|t| - 1] == u[|u| - 1]
  {
    var x := t[|t| - 1];
    LastWithScore(t);
    FilterMember(u, HasScore(Score(x)), x);
    LastWithScore(u);
    var y := u[|u| - 1];
    FilterMember(t, HasScore(Score(y)), y);
  }

  /** Order and stability pin the result down: any descending sequence that keeps equal scores in
      input order is the one `Ranked` gives. */
  lemma {:induction false} StableOrderUnique(t: seq<NodeRecord>, u: seq<NodeRecord>)
    requires Descending(t) && Descending(u)
    requires forall v :: Filter(t, HasScore(v)) == Filter(u, HasScore(v))
    ensures t == u
    decreases |t|
  {
    if t == [] {
      if u != [] {
        SameLast(u, t);
      }
    } else {
      SameLast(t, u);
      var t', u', x := t[..|t| - 1], u[..|u| - 1], t[|t| - 1];
      assert t == t' + [x] && u == u' + [x];
      forall v ensures Filter(t', HasScore(v)) == Filter(u', HasScore(v)) {
        assert Filter(t, HasScore(v)) == Filter(u, HasScore(v));
        FilterSnoc(t', x, HasScore(v));
        FilterSnoc(u', x, HasScore(v));
        var l := if HasScore(v)(x) then [x] else [];
        assert (Filter(t', HasScore(v)) + l)[..|Filter(t', HasScore(v))|] == Filter(t', HasScore(v));
        assert (Filter(u', HasScore(v)) + l)[..|Filter(u', HasScore(v))|] == Filter(u', HasScore(v));
      }
      StableOrderUnique(t', u');
    }
  }

  /** While the new element `x` is on its way down, it sits at `j` between the two parts of the sorted
      prefix and outranks everything it has passed; once settled, the prefix is sorted with it. */
  ghost predicate InnerState(base: seq<NodeRecord>, x: NodeRecord, j: nat, now: seq<NodeRecord>) {
    || (j <= |base|
        && now == base[..j] + [x] + base[j..]
        && forall k :: j <= k < |base| ==> Score(base[k]) < Score(x))
    || now == Insert(base, x)
  }

  lemma InnerStep(base: seq<NodeRecord>, x: NodeRecord, j: nat, now: seq<NodeRecord>)
    requires Descending(base) && 0 < j <= |base| && |now| == |base| + 1
    requires InnerState(base, x, j, now)
    ensures InnerState(base, x, j - 1,
                       if Score(now[j]) > Score(now[j - 1]) then now[j := now[j - 1]][j - 1 := now[j]] else now)
  {
    if now == Insert(base, x) {
      InsertDescending(base, x);
    } else if Score(now[j]) > Score(now[j - 1]) {
      var next := now[j := now[j - 1]][j - 1 := now[j]];
      assert next == base[..j - 1] + [x] + base[j - 1..];
    } else {
      InsertAt(base, x, j);
    }
  }

  /** The inner loop runs down to the front without stopping early; every comparison after the element
      has found its place is between neighbours that are already in order. */
  method SinkIntoPlace(out: array<NodeRecord>, i: nat)
    requires i < out.Length && Descending(out[..i])
    modifies out
    ensures out[..i + 1] == Insert(old(out[..i]), old(out[i]))
    ensures out[i + 1..] == old(out[i + 1..])
  {
    ghost var base, x := out[..i], out[i];
    var j := i;
    assert out[..i + 1] == base[..i] + [x] + base[i..];
    while j > 0
      invariant 0 <= j <= i
      invariant InnerState(base, x, j, out[..i + 1])
      invariant out[i + 1..] == old(out[i + 1..])
    {
      ghost var now := out[..i + 1];
      InnerStep(base, x, j, now);
      if Score(out[j]) > Score(out[j - 1]) {
        out[j], out[j - 1] := out[j - 1], out[j];
        assert out[..i + 1] == now[j := now[j - 1]][j - 1 := now[j]];
      }
      j := j - 1;
    }
    if out[..i + 1] != Insert(base, x) {
      InsertAt(base, x, 0);
    }
  }

  method ScoreNodes(nodes: seq<NodeRecord>) returns (ranked: seq<NodeRecord>)
    ensures ranked == Ranked(nodes)
  {
    if nodes == [] {
      return [];
    }
    var out := new NodeRecord[|nodes|](i requires 0 <= i < |nodes| => nodes[i]);
    assert out[..] == nodes;
    var i := 1;
    RankedSingle(nodes[..1]);
    while i < out.Length
      invariant 1 <= i <= out.Length
      invariant out[..i] == Ranked(nodes[..i])
      invariant out[i..] == nodes[i..]
    {
      RankedDescending(nodes[..i]);
      assert out[i] == out[i..][0] == nodes[i];
      assert out[i + 1..] == out[i..][1..] == nodes[i + 1..];
      SinkIntoPlace(out, i);
      assert out[i + 1..] == nodes[i + 1..];
      assert nodes[..i + 1][..i] == nodes[..i];
      i := i + 1;
    }
    ranked := out[..];
    assert nodes[..i] == nodes && out[..i] == out[..];
  }

  lemma RankedSingle(s: seq<NodeRecord>)
    requires |s| == 1
    ensures Ranked(s) == s
  {
    assert Ranked(s[..0]) == [];
    assert s == [s[0]];
  }

  lemma RankedEqual(s: seq<NodeRecord>)
    requires forall x, y :: x in s && y in s ==> Score(x) == Score(y)
    ensures Ranked(s) == s
  {
    RankedDescending(s);
    forall v ensures Filter(Ranked(s), HasScore(v)) == Filter(s, HasScore(v)) {
      RankedStable(s, v);
    }
    StableOrderUnique(Ranked(s), s);
  }

  /** In terms of the announced figures: a full unit of uptime counts as much as 100 SIMs. Whoever ranks
      behind does not make up in SIMs what it lacks in uptime, and with a tie the input order decides. */
  lemma RankedByFigures(s: seq<NodeRecord>, i: nat, j: nat)
    requires i < j < |Ranked(s)|
    ensures var a, b := Ranked(s)[i], Ranked(s)[j];
            100.0 * (a.uptime30d - b.uptime30d) >= (b.simPoolSize - a.simPoolSize) as real
  {
    RankedDescending(s);
  }

  // ----- the documented order -----

  /** Sorted by uptime and then by SIM pool size, as the source describes its ranking. */
  ghost predicate ByUptimeThenPool(s: seq<NodeRecord>) {
    forall i, j :: 0 <= i < j < |s| ==>
      || s[i].uptime30d > s[j].uptime30d
      || (s[i].uptime30d == s[j].uptime30d && s[i].simPoolSize >= s[j].simPoolSize)
  }

  ghost predicate InThatOrder(s: seq<NodeRecord>, a: NodeRecord, b: NodeRecord) {
    exists i, j :: 0 <= i < j < |s| && s[i] == a && s[j] == b
  }

  lemma OrderSnoc(s: seq<NodeRecord>, x: NodeRecord, a: NodeRecord, b: NodeRecord)
    ensures InThatOrder(s + [x], a, b) <==> InThatOrder(s, a, b) || (a in s && b == x)
  {
    var t := s + [x];
    if InThatOrder(s, a, b) {
      var i, j :| 0 <= i < j < |s| && s[i] == a && s[j] == b;
      assert t[i] == a && t[j] == b;
    }
    if a in s && b == x {
      var i :| 0 <= i < |s| && s[i] == a;
      assert t[i] == a && t[|s|] == b;
    }
    if InThatOrder(t, a, b) {
      var i, j :| 0 <= i < j < |t| && t[i] == a && t[j] == b;
      assert t[i] == s[i];
      assert j < |s| ==> t[j] == s[j];
    }
  }

  /** Filtering keeps the order of what it keeps. */
  lemma {:induction false} FilterOrder(s: seq<NodeRecord>, p: NodeRecord -> bool, a: NodeRecord, b: NodeRecord)
    requires p(a) && p(b)
    ensures InThatOrder(Filter(s, p), a, b) <==> InThatOrder(s, a, b)
  {
    if s != [] {
      var s', x := s[..|s| - 1], s[|s| - 1];
      assert s == s' + [x];
      hide Filter, InThatOrder;
      FilterOrder(s', p, a, b);
      FilterSnoc(s', x, p);
      FilterMember(s', p, a);
      OrderSnoc(s', x, a, b);
      OrderSnoc(Filter(s', p), x, a, b);
      assert Filter(s', p) + [] == Filter(s', p);
    }
  }

  /** Two nodes appear in this order in the ranking exactly if the first scores higher, or as high and
      comes first in the input as well. */
  lemma RankedOrderIff(s: seq<NodeRecord>, a: NodeRecord, b: NodeRecord)
    requires a in s && b in s && a != b
    ensures InThatOrder(Ranked(s), a, b) <==> Score(a) > Score(b) || (Score(a) == Score(b) && InThatOrder(s, a, b))
  {
    hide Ranked;
    RankedDescending(s);
    if Score(a) == Score(b) {
      RankedStable(s, Score(a));
      FilterOrder(s, HasScore(Score(a)), a, b);
      FilterOrder(Ranked(s), HasScore(Score(a)), a, b);
    } else {
      RankedPermutes(s);
      assert a in multiset(Ranked(s)) && b in multiset(Ranked(s));
      var i, j :| 0 <= i < |Ranked(s)| && 0 <= j < |Ranked(s)| && Ranked(s)[i] == a && Ranked(s)[j] == b;
    }
  }

  /** The ranking has the described order exactly if no node with more uptime is outweighed by SIMs: its
      score is higher, or as high without a node of less uptime and that score before it. */
  lemma DocumentedOrderIff(s: seq<NodeRecord>)
    ensures ByUptimeThenPool(Ranked(s)) <==>
            forall a, b :: a in s && b in s && a.uptime30d > b.uptime30d ==>
              Score(a) > Score(b) || (Score(a) == Score(b) && !InThatOrder(s, b, a))
  {
    hide Ranked, InThatOrder;
    var t := Ranked(s);
    RankedPermutes(s);
    assert forall x :: x in t <==> x in multiset(t);
    if ByUptimeThenPool(t) {
      forall a, b | a in s && b in s && a.uptime30d > b.uptime30d
        ensures Score(a) > Score(b) || (Score(a) == Score(b) && !InThatOrder(s, b, a))
      {
        RankedOrderIff(s, b, a);
        NotInThatOrder(t, b, a);
      }
    } else {
      var i, j := Misplaced(t);
      RankedDescending(s);
      assert t[i] in t && t[j] in t;
      RankedOrderIff(s, t[i], t[j]);
      SomeOrder(t, i, j);
    }
  }

  lemma NotInThatOrder(t: seq<NodeRecord>, b: NodeRecord, a: NodeRecord)
    requires ByUptimeThenPool(t) && a.uptime30d > b.uptime30d
    ensures !InThatOrder(t, b, a)
  {
  }

  lemma SomeOrder(t: seq<NodeRecord>, i: nat, j: nat)
    requires i < j < |t|
    ensures InThatOrder(t, t[i], t[j])
  {
  }

  lemma Misplaced(t: seq<NodeRecord>) returns (i: nat, j: nat)
    requires !ByUptimeThenPool(t)
    ensures i < j < |t|
    ensures Descending(t) ==> t[i].uptime30d < t[j].uptime30d
  {
    i, j :| 0 <= i < j < |t| && !(t[i].uptime30d > t[j].uptime30d)
            && !(t[i].uptime30d == t[j].uptime30d && t[i].simPoolSize >= t[j].simPoolSize);
  }

  /** Half the uptime and 100 SIMs rank before nine tenths and ten SIMs. */
  lemma UptimeOutweighed(a: NodeRecord, b: NodeRecord)
    requires a.uptime30d == 0.9 && a.simPoolSize == 10 && b.uptime30d == 0.5 && b.simPoolSize == 100
    ensures Ranked([a, b]) == [b, a] && !ByUptimeThenPool(Ranked([a, b]))
  {
    assert [a, b][..1] == [a];
    RankedSingle([a]);
    InsertAt([a], b, 0);
    assert [a][..0] + [b] + [a][0..] == [b, a];
    assert [b, a][0] == b && [b, a][1] == a;
  }
}
