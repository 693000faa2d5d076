/** `selectMiddleHops`: a randomised greedy choice among the three best nodes that are left, which
    avoids the previous hop's jurisdiction unless all of them share it. */
module Selection {
  import opened Collections
  import opened RandomSource
  import opened Nodes
  import opened Scoring

  datatype BuildError =
    | TooFewNodes
    | TooFewJurisdictions
    | RandomFailure(cause: RandomError)
    | InsufficientNodes
    | NoExitNode
    | TokenFailure

  function Top(scored: seq<NodeRecord>): seq<NodeRecord> {
    scored[..Min(3, |scored|)]
  }

  function Eligible(scored: seq<NodeRecord>, last: string): (e: seq<NodeRecord>)
    ensures scored != [] <==> e != []
    ensures |e| <= 3
  {
    FilterShrinks(Top(scored), OutsideOf(last));
    var e := Filter(Top(scored), OutsideOf(last));
    if e == [] then Top(scored) else e
  }

  function Without(scored: seq<NodeRecord>, id: string): seq<NodeRecord> {
    Filter(scored, NotServer(id))
  }

  /** The outcome as a function of the random draws; draw `k` decides the next hop. */
  ghost function Select(scored: seq<NodeRecord>, last: string, n: nat, draws: nat -> Draw, k: nat)
    : (r: Result<seq<NodeRecord>, BuildError>)
    decreases n
  {
    if n == 0 then Ok([])
    else if scored == [] then Err(InsufficientNodes)
    else
      var e := Eligible(scored, last);
      match RandomInt(|e|, draws(k))
      case Err(x) => Err(RandomFailure(x))
      case Ok(i) =>
        Prefixed([e[i]], Select(Without(scored, e[i].serverId), PrimaryJurisdiction(e[i]), n - 1, draws, k + 1))
  }

  ghost function Prefixed(sel: seq<NodeRecord>, r: Result<seq<NodeRecord>, BuildError>)
    : Result<seq<NodeRecord>, BuildError>
  {
    match r
    case Ok(rest) => Ok(sel + rest)
    case Err(x) => Err(x)
  }

  lemma PrefixedTwice(a: seq<NodeRecord>, b: seq<NodeRecord>, r: Result<seq<NodeRecord>, BuildError>)
    ensures Prefixed(a, Prefixed(b, r)) == Prefixed(a + b, r)
    ensures Prefixed([], r) == r
  {
    if r.Ok? {
      assert a + (b + r.value) == (a + b) + r.value;
      assert [] + r.value == r.value;
    }
  }

  lemma SelectNone(scored: seq<NodeRecord>, last: string, draws: nat -> Draw, k: nat)
    ensures Select(scored, last, 0, draws, k) == Ok([])
  {
  }

  /** One iteration, when its draw is readable. */
  lemma SelectStep(scored: seq<NodeRecord>, last: string, n: nat, draws: nat -> Draw, k: nat) returns (i: nat)
    requires n > 0 && scored != [] && draws(k).Bytes?
    ensures RandomInt(|Eligible(scored, last)|, draws(k)) == Ok(i)
    ensures i < |Eligible(scored, last)|
    ensures var x := Eligible(scored, last)[i];
            Select(scored, last, n, draws, k) ==
            Prefixed([x], Select(Without(scored, x.serverId), PrimaryJurisdiction(x), n - 1, draws, k + 1))
  {
    i := RandomInt(|Eligible(scored, last)|, draws(k)).value;
  }

  /** Independent of any draw: each hop is eligible among what its predecessors left over. */
  ghost predicate LegalPicks(scored: seq<NodeRecord>, last: string, sel: seq<NodeRecord>)
    decreases |sel|
  {
    sel == [] ||
    (sel[0] in Eligible(scored, last)
     && LegalPicks(Without(scored, sel[0].serverId), PrimaryJurisdiction(sel[0]), sel[1..]))
  }

  ghost function After(scored: seq<NodeRecord>, picked: seq<NodeRecord>): seq<NodeRecord> {
    Filter(scored, NotAmong(Ids(picked)))
  }

  // ----- the loop -----

  method EligibleNodes(scored: seq<NodeRecord>, last: string) returns (eligible: seq<NodeRecord>)
    ensures eligible == Eligible(scored, last)
  {
    hide Filter;
    var poolSize := 3;
    if |scored| < poolSize {
      poolSize := |scored|;
    }
    var top := scored[..poolSize];
    eligible := [];
    FilterNothing(OutsideOf(last));
    for i := 0 to |top|
      invariant eligible == Filter(top[..i], OutsideOf(last))
    {
      assert top[..i + 1] == top[..i] + [top[i]];
      FilterSnoc(top[..i], top[i], OutsideOf(last));
      if PrimaryJurisdiction(top[i]) != last {
        eligible := eligible + [top[i]];
      }
    }
    assert top[..|top|] == top;
    if |eligible| == 0 {
      eligible := top;
    }
  }

  method RemoveServer(scored: seq<NodeRecord>, id: string) returns (remaining: seq<NodeRecord>)
    ensures remaining == Without(scored, id)
  {
    remaining := [];
    for i := 0 to |scored|
      invariant remaining == Without(scored[..i], id)
    {
      assert scored[..i + 1] == scored[..i] + [scored[i]];
      FilterSnoc(scored[..i], scored[i], NotServer(id));
      if scored[i].serverId != id {
        remaining := remaining + [scored[i]];
      }
    }
    assert scored[..|scored|] == scored;
  }

  method SelectMiddleHops(candidates: seq<NodeRecord>, n: nat, draws: nat -> Draw, k: nat)
    returns (r: Result<seq<NodeRecord>, BuildError>)
    ensures r == Select(Ranked(candidates), "", n, draws, k)
  {
    hide Eligible, Without, Ranked, RandomInt;
    var selected: seq<NodeRecord> := [];
    var last := "";
    var scored := ScoreNodes(candidates);
    ghost var goal := Select(scored, last, n, draws, k);
    PrefixedTwice([], [], goal);
    while |selected| < n && |scored| > 0
      invariant |selected| <= n
      invariant goal == Prefixed(selected, Select(scored, last, n - |selected|, draws, k + |selected|))
    {
      var eligible := EligibleNodes(scored, last);
      var pick := RandomInt(|eligible|, draws(k + |selected|));
      if pick.Err? {
        return Err(RandomFailure(pick.error));
      }
      var chosen := eligible[pick.value];
      ghost var i := SelectStep(scored, last, n - |selected|, draws, k + |selected|);
      PrefixedTwice(selected, [chosen], Select(Without(scored, chosen.serverId), PrimaryJurisdiction(chosen),
                                               n - |selected| - 1, draws, k + |selected| + 1));
      selected := selected + [chosen];
      last := PrimaryJurisdiction(chosen);
      scored := RemoveServer(scored, chosen.serverId);
    }
    if |selected| < n {
      return Err(InsufficientNodes);
    }
    assert selected + [] == selected;
    return Ok(selected);
  }

  // ----- what each pick is -----

  lemma EligibleFromTop(scored: seq<NodeRecord>, last: string, x: NodeRecord)
    requires x in Eligible(scored, last)
    ensures x in Top(scored) && x in scored
    ensures PrimaryJurisdiction(x) == last <==> forall y :: y in Top(scored) ==> PrimaryJurisdiction(y) == last
  {
    var e := Filter(Top(scored), OutsideOf(last));
    FilterMember(Top(scored), OutsideOf(last), x);
    if e != [] {
      FilterMember(Top(scored), OutsideOf(last), e[0]);
    } else {
      forall y | y in Top(scored) ensures PrimaryJurisdiction(y) == last {
        FilterMember(Top(scored), OutsideOf(last), y);
      }
    }
  }

  lemma WithoutIds(s: seq<NodeRecord>, id: string)
    ensures Ids(Without(s, id)) == Ids(s) - {id}
  {
    forall n: NodeRecord {
      FilterMember(s, NotServer(id), n);
    }
    assert forall n :: n in s && n.serverId != id ==> n in Without(s, id);
  }

  lemma {:induction false} AfterOne(s: seq<NodeRecord>, id: string, ids: set<string>)
    ensures Filter(Without(s, id), NotAmong(ids)) == Filter(s, NotAmong(ids + {id}))
  {
    hide Filter;
    if s == [] {
      FilterNothing(NotServer(id));
      FilterNothing(NotAmong(ids));
      FilterNothing(NotAmong(ids + {id}));
    } else {
      var s', x := s[..|s| - 1], s[|s| - 1];
      assert s == s' + [x];
      AfterOne(s', id, ids);
      FilterTwiceSnoc(s', x, NotServer(id), NotAmong(ids));
      FilterSnoc(s', x, NotAmong(ids + {id}));
    }
  }

  /** The pick at position `i` is eligible among exactly the nodes no earlier pick excluded. */
  lemma {:induction false} PickAt(scored: seq<NodeRecord>, last: string, sel: seq<NodeRecord>, i: nat)
    requires LegalPicks(scored, last, sel) && i < |sel|
    ensures sel[i] in Eligible(After(scored, sel[..i]), if i == 0 then last else PrimaryJurisdiction(sel[i - 1]))
    decreases i
  {
    hide Eligible, Without, Filter;
    if i == 0 {
      assert Ids(sel[..0]) == {};
      FilterKeepsAll(scored, NotAmong(Ids(sel[..0])));
    } else {
      var rest := Without(scored, sel[0].serverId);
      PickAt(rest, PrimaryJurisdiction(sel[0]), sel[1..], i - 1);
      AfterOne(scored, sel[0].serverId, Ids(sel[1..][..i - 1]));
      assert sel[..i] == [sel[0]] + sel[1..][..i - 1];
      assert Ids(sel[..i]) == Ids(sel[1..][..i - 1]) + {sel[0].serverId};
      assert After(rest, sel[1..][..i - 1]) == After(scored, sel[..i]);
    }
  }

  lemma PickIsNew(scored: seq<NodeRecord>, last: string, sel: seq<NodeRecord>, i: nat)
    requires LegalPicks(scored, last, sel) && i < |sel|
    ensures sel[i] in scored && sel[i].serverId !in Ids(sel[..i])
    ensures sel[i] in Top(After(scored, sel[..i]))
  {
    PickAt(scored, last, sel, i);
    var l := if i == 0 then last else PrimaryJurisdiction(sel[i - 1]);
    EligibleFromTop(After(scored, sel[..i]), l, sel[i]);
    FilterMember(scored, NotAmong(Ids(sel[..i])), sel[i]);
  }

  lemma PicksDistinct(scored: seq<NodeRecord>, last: string, sel: seq<NodeRecord>)
    requires LegalPicks(scored, last, sel)
    ensures DistinctIds(sel)
    ensures forall x :: x in sel ==> x in scored
  {
    forall i, j | 0 <= i < j < |sel| ensures sel[i].serverId != sel[j].serverId {
      PickIsNew(scored, last, sel, j);
      assert sel[i] in sel[..j];
    }
    forall x | x in sel ensures x in scored {
      var i :| 0 <= i < |sel| && sel[i] == x;
      PickIsNew(scored, last, sel, i);
    }
  }

  // ----- draws and legal picks -----

  /** Every successful run is a legal sequence of picks. */
  lemma {:induction false} SelectIsLegal(scored: seq<NodeRecord>, last: string, n: nat, draws: nat -> Draw, k: nat)
    requires Select(scored, last, n, draws, k).Ok?
    ensures var sel := Select(scored, last, n, draws, k).value; |sel| == n && LegalPicks(scored, last, sel)
    decreases n
  {
    hide Eligible, Without;
    if n > 0 {
      var i := SelectStep(scored, last, n, draws, k);
      var x := Eligible(scored, last)[i];
      SelectIsLegal(Without(scored, x.serverId), PrimaryJurisdiction(x), n - 1, draws, k + 1);
      var sel := Select(scored, last, n, draws, k).value;
      assert sel[0] == x;
      assert sel[1..] == Select(Without(scored, x.serverId), PrimaryJurisdiction(x), n - 1, draws, k + 1).value;
    }
  }

  lemma {:induction false} SelectSameDraws(scored: seq<NodeRecord>, last: string, n: nat,
                                           d: nat -> Draw, e: nat -> Draw, k: nat)
    requires forall i :: k <= i < k + n ==> d(i) == e(i)
    ensures Select(scored, last, n, d, k) == Select(scored, last, n, e, k)
    decreases n
  {
    hide Eligible, Without;
    if n > 0 && scored != [] && d(k).Bytes? {
      var i := SelectStep(scored, last, n, d, k);
      var j := SelectStep(scored, last, n, e, k);
      var x := Eligible(scored, last)[i];
      SelectSameDraws(Without(scored, x.serverId), PrimaryJurisdiction(x), n - 1, d, e, k + 1);
    }
  }

  /** Conversely every legal sequence of picks is the outcome of some draws, so `LegalPicks` describes
      the reachable selections exactly. */
  lemma {:induction false} EveryLegalPickReachable(scored: seq<NodeRecord>, last: string, sel: seq<NodeRecord>, k: nat)
    returns (draws: nat -> Draw)
    requires LegalPicks(scored, last, sel)
    ensures Select(scored, last, |sel|, draws, k) == Ok(sel)
    ensures forall i :: draws(i).Bytes?
    decreases |sel|
  {
    hide Eligible, Without, Select, RandomInt, Draws;
    if sel == [] {
      draws := (i: nat) => Draws(0);
      SelectNone(scored, last, draws, k);
    } else {
      var e := Eligible(scored, last);
      var p :| 0 <= p < |e| && e[p] == sel[0];
      var rest := Without(scored, sel[0].serverId);
      var later := EveryLegalPickReachable(rest, PrimaryJurisdiction(sel[0]), sel[1..], k + 1);
      draws := (i: nat) => if i == k then Draws(p) else later(i);
      SelectSameDraws(rest, PrimaryJurisdiction(sel[0]), |sel| - 1, later, draws, k + 1);
      EveryValueDrawn(|e|, p);
      var i := SelectStep(scored, last, |sel|, draws, k);
      assert [sel[0]] + sel[1..] == sel;
    }
  }

  ghost predicate AllRead(draws: nat -> Draw, k: nat, n: nat) {
    forall i :: k <= i < k + n ==> draws(i).Bytes?
  }

  lemma AllReadFirst(draws: nat -> Draw, k: nat, n: nat)
    requires n > 0
    ensures AllRead(draws, k, n) <==> draws(k).Bytes? && AllRead(draws, k + 1, n - 1)
  {
  }

  lemma OneIdLess(scored: seq<NodeRecord>, x: NodeRecord)
    requires x in scored
    ensures |Ids(Without(scored, x.serverId))| == |Ids(scored)| - 1
  {
    WithoutIds(scored, x.serverId);
    assert x.serverId in Ids(scored);
  }

  /** Selection succeeds exactly when there are enough different servers and every needed read works;
      otherwise the first obstacle is the error. */
  lemma {:induction false} SelectExact(scored: seq<NodeRecord>, last: string, n: nat, draws: nat -> Draw, k: nat)
    ensures Select(scored, last, n, draws, k).Ok? <==> n <= |Ids(scored)| && AllRead(draws, k, n)
    ensures Select(scored, last, n, draws, k) == Err(InsufficientNodes)
        <==> |Ids(scored)| < n && AllRead(draws, k, |Ids(scored)|)
    ensures Select(scored, last, n, draws, k).Err? ==>
              Select(scored, last, n, draws, k).error in {InsufficientNodes, RandomFailure(ReadFailed)}
    decreases n
  {
    hide Eligible, Without;
    if n == 0 {
    } else if scored == [] {
      assert Ids(scored) == {};
    } else {
      OneIdLess(scored, scored[0]);
      AllReadFirst(draws, k, n);
      AllReadFirst(draws, k, |Ids(scored)|);
      if draws(k).Bytes? {
        var i := SelectStep(scored, last, n, draws, k);
        var x := Eligible(scored, last)[i];
        EligibleFromTop(scored, last, x);
        OneIdLess(scored, x);
        SelectExact(Without(scored, x.serverId), PrimaryJurisdiction(x), n - 1, draws, k + 1);
      }
    }
  }

  /** The `i`-th element is the one that its draw points at, among the eligible nodes in ranked order. */
  ghost predicate DrawnAt(scored: seq<NodeRecord>, last: string, sel: seq<NodeRecord>,
                          draws: nat -> Draw, k: nat, i: nat)
    requires i < |sel|
  {
    var e := Eligible(After(scored, sel[..i]), if i == 0 then last else PrimaryJurisdiction(sel[i - 1]));
    var r := RandomInt(|e|, draws(k + i));
    r.Ok? && r.value < |e| && sel[i] == e[r.value]
  }

  lemma DrawnLater(scored: seq<NodeRecord>, x: NodeRecord, last: string, tail: seq<NodeRecord>,
                   draws: nat -> Draw, k: nat, i: nat)
    requires i < |tail|
    requires DrawnAt(Without(scored, x.serverId), PrimaryJurisdiction(x), tail, draws, k + 1, i)
    ensures DrawnAt(scored, last, [x] + tail, draws, k, i + 1)
  {
    hide Eligible, Without, Filter, RandomInt;
    var sel := [x] + tail;
    AfterOne(scored, x.serverId, Ids(tail[..i]));
    assert sel[..i + 1] == [x] + tail[..i];
    assert Ids(sel[..i + 1]) == Ids(tail[..i]) + {x.serverId};
    assert k + 1 + i == k + (i + 1);
  }

  lemma DrawnFirst(scored: seq<NodeRecord>, last: string, sel: seq<NodeRecord>, draws: nat -> Draw, k: nat, p: nat)
    requires sel != [] && p < |Eligible(scored, last)| && sel[0] == Eligible(scored, last)[p]
    requires RandomInt(|Eligible(scored, last)|, draws(k)) == Ok(p)
    ensures DrawnAt(scored, last, sel, draws, k, 0)
  {
    hide Eligible, Filter, RandomInt;
    assert Ids(sel[..0]) == {};
    FilterKeepsAll(scored, NotAmong(Ids(sel[..0])));
  }

  /** Every pick is the one its draw points at. */
  lemma {:induction false} PickDrawn(scored: seq<NodeRecord>, last: string, n: nat, draws: nat -> Draw, k: nat, i: nat)
    requires Select(scored, last, n, draws, k).Ok? && i < n
    ensures var sel := Select(scored, last, n, draws, k).value;
            |sel| == n && DrawnAt(scored, last, sel, draws, k, i)
    decreases n
  {
    hide Select, Eligible, Without, RandomInt, LegalPicks, DrawnAt;
    SelectIsLegal(scored, last, n, draws, k);
    SelectExact(scored, last, n, draws, k);
    assert scored == [] ==> Ids(scored) == {};
    var sel := Select(scored, last, n, draws, k).value;
    var p := SelectStep(scored, last, n, draws, k);
    if i == 0 {
      DrawnFirst(scored, last, sel, draws, k, p);
    } else {
      var x := Eligible(scored, last)[p];
      var rest := Without(scored, x.serverId);
      PickDrawn(rest, PrimaryJurisdiction(x), n - 1, draws, k + 1, i - 1);
      DrawnLater(scored, x, last, Select(rest, PrimaryJurisdiction(x), n - 1, draws, k + 1).value, draws, k, i - 1);
    }
  }

  // ----- quality of the picks -----

  lemma {:induction false} FilterDescending(s: seq<NodeRecord>, p: NodeRecord -> bool)
    requires Descending(s)
    ensures Descending(Filter(s, p))
  {
    if s != [] {
      var s', x := s[..|s| - 1], s[|s| - 1];
      FilterDescending(s', p);
      var f := Filter(s', p);
      forall i | 0 <= i < |f| ensures Score(f[i]) >= Score(x) {
        FilterMember(s', p, f[i]);
        var j :| 0 <= j < |s'| && s'[j] == f[i];
      }
    }
  }

  lemma FewAbove(s: seq<NodeRecord>, p: nat)
    requires Descending(s) && p < |s|
    ensures Count(s, ScoresAbove(Score(s[p]))) <= p
  {
    var q := ScoresAbove(Score(s[p]));
    assert s == s[..p] + s[p..];
    FilterConcat(s[..p], s[p..], q);
    FilterShrinks(s[..p], q);
    if Filter(s[p..], q) != [] {
      var x := Filter(s[p..], q)[0];
      FilterMember(s[p..], q, x);
    }
  }

  lemma RankedAfter(candidates: seq<NodeRecord>, ids: set<string>, v: real)
    ensures Count(Filter(Ranked(candidates), NotAmong(ids)), ScoresAbove(v))
         == Count(Filter(candidates, NotAmong(ids)), ScoresAbove(v))
  {
    RankedPermutes(candidates);
    FilterBoth(Ranked(candidates), ids, v);
    FilterBoth(candidates, ids, v);
    CountPermutation(Ranked(candidates), candidates, AvailableAbove(ids, v));
  }

  ghost function AvailableAbove(ids: set<string>, v: real): NodeRecord -> bool {
    (n: NodeRecord) => n.serverId !in ids && Score(n) > v
  }

  lemma {:induction false} FilterBoth(s: seq<NodeRecord>, ids: set<string>, v: real)
    ensures Filter(Filter(s, NotAmong(ids)), ScoresAbove(v)) == Filter(s, AvailableAbove(ids, v))
  {
    if s != [] {
      var s', x := s[..|s| - 1], s[|s| - 1];
      assert s == s' + [x];
      FilterBoth(s', ids, v);
      FilterTwiceSnoc(s', x, NotAmong(ids), ScoresAbove(v));
    }
  }

  /** At most two of the candidates still available score strictly higher than the one picked. */
  lemma NearBest(candidates: seq<NodeRecord>, sel: seq<NodeRecord>, i: nat)
    requires LegalPicks(Ranked(candidates), "", sel) && i < |sel|
    ensures Count(After(candidates, sel[..i]), ScoresAbove(Score(sel[i]))) <= 2
  {
    var ranked := Ranked(candidates);
    var left := After(ranked, sel[..i]);
    PickIsNew(ranked, "", sel, i);
    var p :| 0 <= p < |Top(left)| && Top(left)[p] == sel[i];
    RankedDescending(candidates);
    FilterDescending(ranked, NotAmong(Ids(sel[..i])));
    FewAbove(left, p);
    RankedAfter(candidates, Ids(sel[..i]), Score(sel[i]));
  }

  /** Two neighbouring hops share a jurisdiction exactly when the whole top pool at that step had it. */
  lemma NeighboursAgreeIff(scored: seq<NodeRecord>, last: string, sel: seq<NodeRecord>, i: nat)
    requires LegalPicks(scored, last, sel) && 0 < i < |sel|
    ensures PrimaryJurisdiction(sel[i]) == PrimaryJurisdiction(sel[i - 1])
       <==> forall y :: y in Top(After(scored, sel[..i])) ==> PrimaryJurisdiction(y) == PrimaryJurisdiction(sel[i - 1])
  {
    PickAt(scored, last, sel, i);
    EligibleFromTop(After(scored, sel[..i]), PrimaryJurisdiction(sel[i - 1]), sel[i]);
  }

  lemma {:induction false} DistinctIdCount(s: seq<NodeRecord>)
    ensures |Ids(s)| <= |s|
    ensures DistinctIds(s) ==> |Ids(s)| == |s|
  {
    if s != [] {
      var s', x := s[..|s| - 1], s[|s| - 1];
      assert s == s' + [x];
      DistinctIdCount(s');
      assert Ids(s) == Ids(s') + {x.serverId};
      if DistinctIds(s) {
        assert DistinctIds(s');
        assert x.serverId !in Ids(s');
      }
    }
  }

  lemma AfterLarge(scored: seq<NodeRecord>, sel: seq<NodeRecord>, i: nat)
    requires |Ids(scored)| == |scored| && i <= |sel|
    ensures |After(scored, sel[..i])| >= |scored| - i
  {
    var taken := Ids(sel[..i]);
    var left := After(scored, sel[..i]);
    forall n: NodeRecord {
      FilterMember(scored, NotAmong(taken), n);
    }
    assert forall n :: n in scored && n.serverId !in taken ==> n in left;
    assert Ids(scored) - taken <= Ids(left);
    SubsetSize(Ids(scored) - taken, Ids(left));
    DifferenceSize(Ids(scored), taken);
    DistinctIdCount(sel[..i]);
    DistinctIdCount(left);
  }

  lemma CountPrefix(s: seq<NodeRecord>, k: nat, q: NodeRecord -> bool)
    requires k <= |s| && forall x :: x in s[..k] ==> q(x)
    ensures Count(s, q) >= k
  {
    assert s == s[..k] + s[k..];
    FilterConcat(s[..k], s[k..], q);
    FilterKeepsAll(s[..k], q);
  }

  ghost predicate AtMostThreePerJurisdiction(s: seq<NodeRecord>) {
    forall j :: Count(s, PrimaryIn(j)) <= 3
  }

  /** With two candidates to spare and no jurisdiction primary for more than three of them, the
      relaxation never yields two equal neighbours. */
  lemma NeighboursDiffer(candidates: seq<NodeRecord>, sel: seq<NodeRecord>, i: nat)
    requires DistinctIds(candidates) && |candidates| >= |sel| + 2
    requires AtMostThreePerJurisdiction(candidates)
    requires LegalPicks(Ranked(candidates), "", sel) && 0 < i < |sel|
    ensures PrimaryJurisdiction(sel[i]) != PrimaryJurisdiction(sel[i - 1])
  {
    var ranked, j := Ranked(candidates), PrimaryJurisdiction(sel[i - 1]);
    NeighboursAgreeIff(ranked, "", sel, i);
    assert Count(candidates, PrimaryIn(j)) <= 3;
    if PrimaryJurisdiction(sel[i]) == j {
      var left := After(ranked, sel[..i]);
      RankedPermutes(candidates);
      SameIds(ranked, candidates);
      DistinctIdCount(candidates);
      AfterLarge(ranked, sel, i);
      CountPrefix(left, 3, PrimaryIn(j));
      PickIsNew(ranked, "", sel, i - 1);
      assert sel[i - 1] in sel[..i];
      CountAfterFilter(ranked, NotAmong(Ids(sel[..i])), PrimaryIn(j), sel[i - 1]);
      CountPermutation(ranked, candidates, PrimaryIn(j));
    }
  }

  lemma SameIds(a: seq<NodeRecord>, b: seq<NodeRecord>)
    requires multiset(a) == multiset(b)
    ensures Ids(a) == Ids(b)
    ensures forall x :: x in a <==> x in b
  {
    forall x ensures x in a <==> x in b {
      assert x in multiset(a) <==> x in multiset(b);
    }
  }
}
