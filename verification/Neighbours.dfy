/** When two neighbouring middle hops can share a jurisdiction, although section 10.2, step 3b, wants
    consecutive hops to differ. */
module Neighbours {
  import opened Collections
  import opened RandomSource
  import opened Nodes
  import opened Scoring
  import opened Selection
  import opened Constructor

  /** The primary jurisdictions of a node list, in order. */
  function Js(s: seq<NodeRecord>): (js: seq<string>)
    ensures |js| == |s|
  {
    seq(|s|, i requires 0 <= i < |s| => PrimaryJurisdiction(s[i]))
  }

  predicate Repeats(js: seq<string>) {
    exists i :: 0 < i < |js| && js[i - 1] == js[i]
  }

  // ----- picks as positions in a list of jurisdictions -----

  function DropAt<T>(s: seq<T>, p: nat): (r: seq<T>)
    requires p < |s|
    ensures |r| == |s| - 1
    ensures forall k :: 0 <= k < |r| ==> r[k] == if k < p then s[k] else s[k + 1]
  {
    s[..p] + s[p + 1..]
  }

  predicate Choice(js: seq<string>, last: string, p: nat) {
    p < 3 && p < |js| && (js[p] != last || forall q :: 0 <= q < |js| && q < 3 ==> js[q] == last)
  }

  ghost predicate Choices(js: seq<string>, last: string, ps: seq<nat>)
    decreases |ps|
  {
    ps == [] || (Choice(js, last, ps[0]) && Choices(DropAt(js, ps[0]), js[ps[0]], ps[1..]))
  }

  /** The elements at positions `ps`, each removed before the next is taken. */
  function Taken<T>(s: seq<T>, ps: seq<nat>): (r: seq<T>)
    ensures |r| <= |ps|
    decreases |ps|
  {
    if ps == [] || ps[0] >= |s| then [] else [s[ps[0]]] + Taken(DropAt(s, ps[0]), ps[1..])
  }

  lemma JsAt(s: seq<NodeRecord>, i: nat)
    requires i < |s|
    ensures Js(s)[i] == PrimaryJurisdiction(s[i])
  {
  }

  lemma JsEmpty()
    ensures Js([]) == []
  {
  }

  lemma JsCons(x: NodeRecord, s: seq<NodeRecord>)
    ensures Js([x] + s) == [PrimaryJurisdiction(x)] + Js(s)
  {
  }

  lemma JsDrop(s: seq<NodeRecord>, p: nat)
    requires p < |s|
    ensures Js(DropAt(s, p)) == DropAt(Js(s), p)
  {
  }

  lemma {:induction false} TakenJs(s: seq<NodeRecord>, ps: seq<nat>)
    ensures Js(Taken(s, ps)) == Taken(Js(s), ps)
    decreases |ps|
  {
    hide Js;
    if ps == [] || ps[0] >= |s| {
      JsEmpty();
    } else {
      TakenJs(DropAt(s, ps[0]), ps[1..]);
      JsDrop(s, ps[0]);
      JsAt(s, ps[0]);
      JsCons(s[ps[0]], Taken(DropAt(s, ps[0]), ps[1..]));
    }
  }

  lemma WithoutIsDrop(s: seq<NodeRecord>, p: nat)
    requires DistinctIds(s) && p < |s|
    ensures Without(s, s[p].serverId) == DropAt(s, p)
    ensures DistinctIds(DropAt(s, p))
  {
    hide Filter;
    var q := NotServer(s[p].serverId);
    assert s == s[..p] + [s[p]] + s[p + 1..];
    FilterConcat(s[..p] + [s[p]], s[p + 1..], q);
    FilterSnoc(s[..p], s[p], q);
    assert forall k :: 0 <= k < |s| && k != p ==> s[k].serverId != s[p].serverId;
    FilterKeepsAll(s[..p], q);
    FilterKeepsAll(s[p + 1..], q);
  }

  lemma EligibleIsChoice(s: seq<NodeRecord>, last: string, x: NodeRecord)
    ensures x in Eligible(s, last) <==> exists p :: 0 <= p < |s| && s[p] == x && Choice(Js(s), last, p)
  {
    hide Filter;
    var top := Top(s);
    forall y { FilterMember(top, OutsideOf(last), y); }
    var e := Filter(top, OutsideOf(last));
    assert forall y :: y in e <==> y in top && PrimaryJurisdiction(y) != last;
    assert forall q :: 0 <= q < |top| ==> top[q] == s[q] && top[q] in top && Js(s)[q] == PrimaryJurisdiction(s[q]);
    if e == [] {
      assert forall q :: 0 <= q < |s| && q < 3 ==> top[q] !in e && Js(s)[q] == last;
    } else {
      assert e[0] in e;
      var q :| 0 <= q < |top| && top[q] == e[0];
      assert Js(s)[q] != last;
    }
    if x in Eligible(s, last) {
      var p :| 0 <= p < |top| && top[p] == x;
      assert s[p] == x && Choice(Js(s), last, p);
    }
  }

  lemma {:induction false} LegalToChoices(s: seq<NodeRecord>, last: string, sel: seq<NodeRecord>) returns (ps: seq<nat>)
    requires DistinctIds(s) && LegalPicks(s, last, sel)
    ensures |ps| == |sel| && Choices(Js(s), last, ps) && Taken(s, ps) == sel
    decreases |sel|
  {
    hide Eligible, Without, Choice;
    if sel == [] {
      ps := [];
    } else {
      EligibleIsChoice(s, last, sel[0]);
      var p :| 0 <= p < |s| && s[p] == sel[0] && Choice(Js(s), last, p);
      WithoutIsDrop(s, p);
      var rest := LegalToChoices(DropAt(s, p), PrimaryJurisdiction(s[p]), sel[1..]);
      ps := [p] + rest;
      assert ps[1..] == rest && Js(DropAt(s, p)) == DropAt(Js(s), p);
      assert sel == [sel[0]] + sel[1..];
    }
  }

  lemma {:induction false} ChoicesToLegal(s: seq<NodeRecord>, last: string, ps: seq<nat>)
    requires DistinctIds(s) && Choices(Js(s), last, ps)
    ensures |Taken(s, ps)| == |ps| && LegalPicks(s, last, Taken(s, ps))
    decreases |ps|
  {
    hide Eligible, Without;
    if ps != [] {
      var p := ps[0];
      EligibleIsChoice(s, last, s[p]);
      WithoutIsDrop(s, p);
      assert Js(DropAt(s, p)) == DropAt(Js(s), p);
      ChoicesToLegal(DropAt(s, p), PrimaryJurisdiction(s[p]), ps[1..]);
      assert Taken(s, ps)[1..] == Taken(DropAt(s, p), ps[1..]);
    }
  }

  /** Choices can always be continued while elements are left. */
  lemma {:induction false} ExtendChoices(js: seq<string>, last: string, ps: seq<nat>, n: nat) returns (qs: seq<nat>)
    requires Choices(js, last, ps) && |ps| <= n <= |js|
    ensures |qs| == n && Choices(js, last, qs) && ps <= qs
    ensures Taken(js, ps) <= Taken(js, qs)
    decreases n
  {
    if n == 0 {
      return [];
    }
    var p: nat := if ps != [] then ps[0] else AnyChoice(js, last);
    var rest := ExtendChoices(DropAt(js, p), js[p], if ps == [] then [] else ps[1..], n - 1);
    qs := [p] + rest;
    assert qs[1..] == rest;
  }

  ghost function AnyChoice(js: seq<string>, last: string): (p: nat)
    requires js != []
    ensures Choice(js, last, p)
  {
    if js[0] != last then 0
    else if |js| > 1 && js[1] != last then 1
    else if |js| > 2 && js[2] != last then 2
    else 0
  }

  // ----- the exact condition -----

  /** Ranked places `i + 1` and `i + 2` and two earlier ones share a jurisdiction, and the other places
      before them have pairwise different ones. */
  predicate Trap(js: seq<string>, i: nat) {
    && i + 2 < |js| && js[i + 1] == js[i + 2]
    && (exists a, b :: 0 <= a < b <= i && js[a] == js[b] == js[i + 1])
    && (forall a, b :: 0 <= a < b <= i && js[a] == js[b] ==> js[a] == js[i + 1])
  }

  predicate Trapped(js: seq<string>, n: nat) {
    exists i :: 1 <= i < n && Trap(js, i)
  }

  lemma SecondRepeats(js: seq<string>, p: nat, q: nat)
    requires |js| >= 4 && Choice(js, "", p) && Choice(DropAt(js, p), js[p], q) && DropAt(js, p)[q] == js[p]
    ensures Trap(js, 1)
  {
    var j, d := js[p], DropAt(js, p);
    assert d[0] == d[1] == d[2] == j;
    assert js[0] == js[1] == js[2] == js[3] == j;
  }

  lemma ThirdRepeats(js: seq<string>, p: nat, q: nat, r: nat)
    requires |js| >= 5 && Choice(js, "", p) && Choice(DropAt(js, p), js[p], q)
    requires var d := DropAt(js, p); Choice(DropAt(d, q), d[q], r) && DropAt(d, q)[r] == d[q]
    ensures Trap(js, 2)
  {
    var d := DropAt(js, p);
    var e, j := DropAt(d, q), d[q];
    assert e[0] == e[1] == e[2] == j;
    assert d[0] == d[1] == d[2] == d[3] == j;
    assert js[3] == js[4] == j;
  }

  lemma FourthRepeats(js: seq<string>, p: nat, q: nat, r: nat, t: nat)
    requires |js| >= 6 && Choice(js, "", p) && Choice(DropAt(js, p), js[p], q) && DropAt(js, p)[q] != js[p]
    requires var d := DropAt(js, p);
             var e := DropAt(d, q);
             Choice(e, d[q], r) && Choice(DropAt(e, r), e[r], t) && DropAt(e, r)[t] == e[r]
    ensures Trap(js, 3)
  {
    var d := DropAt(js, p);
    var e := DropAt(d, q);
    var f, j := DropAt(e, r), e[r];
    assert f[0] == f[1] == f[2] == j;
    assert e[0] == e[1] == e[2] == e[3] == j;
    assert d[3] == d[4] == j;
    assert js[4] == js[5] == j;
  }

  lemma FirstSteps(js: seq<string>, last: string, ps: seq<nat>)
    requires Choices(js, last, ps) && ps != []
    ensures Choice(js, last, ps[0]) && Choices(DropAt(js, ps[0]), js[ps[0]], ps[1..])
    ensures Taken(js, ps) == [js[ps[0]]] + Taken(DropAt(js, ps[0]), ps[1..])
  {
  }

  lemma RepeatIsTrapped(js: seq<string>, ps: seq<nat>)
    requires Choices(js, "", ps) && |ps| <= 4 && |js| >= |ps| + 2 && Repeats(Taken(js, ps))
    ensures Trapped(js, |ps|)
  {
    hide Choice, Choices, Trap, Taken;
    FirstSteps(js, "", ps);
    var d, p1 := DropAt(js, ps[0]), ps[1..];
    if p1 != [] {
      FirstSteps(d, js[ps[0]], p1);
      if d[p1[0]] == js[ps[0]] {
        SecondRepeats(js, ps[0], p1[0]);
      } else {
        var e, p2 := DropAt(d, p1[0]), p1[1..];
        if p2 != [] {
          FirstSteps(e, d[p1[0]], p2);
          if e[p2[0]] == d[p1[0]] {
            ThirdRepeats(js, ps[0], p1[0], p2[0]);
          } else {
            var f, p3 := DropAt(e, p2[0]), p2[1..];
            FirstSteps(f, e[p2[0]], p3);
            FourthRepeats(js, ps[0], p1[0], p2[0], p3[0]);
          }
        }
      }
    }
  }

  /** Taking the front twice from a list that starts with three of one jurisdiction repeats it. */
  lemma FrontTwice(js: seq<string>, last: string)
    requires |js| >= 4 && js[0] == js[1] == js[2] == js[3] != last
    ensures Choices(js, last, [0, 0]) && Taken(js, [0, 0]) == [js[0], js[0]]
  {
    var d := DropAt(js, 0);
    assert Choice(js, last, 0) && Choice(d, js[0], 0);
    assert [0, 0][1..] == [0] && [0][1..] == [];
    assert Choices(DropAt(d, 0), d[0], []) && Choices(d, js[0], [0]);
    assert Taken(DropAt(d, 0), []) == [] && Taken(d, [0]) == [d[0]] + [];
  }

  lemma OneBefore(js: seq<string>, last: string, p: nat, ps: seq<nat>)
    requires Choice(js, last, p) && Choices(DropAt(js, p), js[p], ps)
    ensures Choices(js, last, [p] + ps) && Taken(js, [p] + ps) == [js[p]] + Taken(DropAt(js, p), ps)
  {
    assert ([p] + ps)[1..] == ps;
  }

  lemma RepeatsCons(j: string, js: seq<string>)
    requires js != []
    ensures Repeats([j] + js) <==> js[0] == j || Repeats(js)
  {
    var long := [j] + js;
    assert forall i :: 0 <= i < |js| ==> long[i + 1] == js[i];
    if Repeats(long) {
      var i :| 0 < i < |long| && long[i - 1] == long[i];
      assert i > 1 ==> js[i - 1 - 1] == js[i - 1];
    }
    if Repeats(js) {
      var i :| 0 < i < |js| && js[i - 1] == js[i];
      assert long[i + 1 - 1] == long[i + 1];
    }
    if js[0] == j {
      assert long[1 - 1] == long[1];
    }
  }

  /** Taking the odd one out of the first three leaves four alike. */
  lemma OddOneOut(js: seq<string>, last: string, x: nat, j: string) returns (ps: seq<nat>)
    requires |js| >= 5 && x < 3 && js[x] != j && js[x] != last
    requires forall k :: 0 <= k < 5 && k != x ==> js[k] == j
    ensures |ps| == 3 && Choices(js, last, ps) && Repeats(Taken(js, ps)) && Taken(js, ps) != []
  {
    hide Choices, Taken;
    var d := DropAt(js, x);
    assert d[0] == j && d[1] == j && d[2] == j && d[3] == j;
    FrontTwice(d, js[x]);
    OneBefore(js, last, x, [0, 0]);
    ps := [x] + [0, 0];
    AlikeRepeats(j);
    RepeatsCons(js[x], [j, j]);
  }

  lemma TwoOddOnes(js: seq<string>, x: nat, y: nat, j: string) returns (ps: seq<nat>)
    requires |js| >= 6 && x < y < 4 && js[x] != j && js[y] != j && js[x] != js[y] && js[x] != ""
    requires forall k :: 0 <= k < 6 && k != x && k != y ==> js[k] == j
    ensures |ps| == 4 && Choices(js, "", ps) && Repeats(Taken(js, ps))
  {
    hide Choices, Taken, Repeats;
    var d := DropAt(js, x);
    assert forall k :: 0 <= k < 5 && k != y - 1 ==> d[k] == j;
    var rest := OddOneOut(d, js[x], y - 1, j);
    OneBefore(js, "", x, rest);
    ps := [x] + rest;
    RepeatsCons(js[x], Taken(d, rest));
  }

  /** The odd one in fourth place comes within reach after one pick from the front. */
  lemma OddFourth(js: seq<string>) returns (ps: seq<nat>)
    requires |js| >= 6 && js[0] == js[1] == js[2] == js[4] == js[5] && js[3] != js[0] && js[0] != ""
    ensures |ps| == 4 && Choices(js, "", ps) && Repeats(Taken(js, ps))
  {
    hide Choices, Taken, Repeats;
    var d := DropAt(js, 0);
    assert forall k :: 0 <= k < 5 && k != 2 ==> d[k] == js[0];
    var rest := OddOneOut(d, js[0], 2, js[0]);
    OneBefore(js, "", 0, rest);
    ps := [0] + rest;
    RepeatsCons(js[0], Taken(d, rest));
  }

  lemma TrapSprings(js: seq<string>, i: nat) returns (ps: seq<nat>)
    requires 1 <= i < 4 && Trap(js, i) && forall k :: 0 <= k < |js| ==> js[k] != ""
    ensures |ps| <= i + 1 && Choices(js, "", ps) && Repeats(Taken(js, ps))
  {
    hide Choices, Taken, Repeats;
    var j := js[i + 1];
    if forall k :: 0 <= k < 4 ==> js[k] == j {
      FrontTwice(js, "");
      ps := [0, 0];
      AlikeRepeats(js[0]);
    } else {
      var x :| 0 <= x < 4 && js[x] != j && forall k :: 0 <= k < x ==> js[k] == j;
      if y :| x < y < 4 && js[y] != j {
        ps := TwoOddOnes(js, x, y, j);
      } else if x < 3 {
        ps := OddOneOut(js, "", x, j);
      } else {
        ps := OddFourth(js);
      }
    }
  }

  lemma AlikeRepeats(j: string)
    ensures Repeats([j, j])
  {
    assert [j, j][1 - 1] == [j, j][1];
  }

  /** A repeat needs a trap. */
  lemma RepeatingSelectionTrapped(candidates: seq<NodeRecord>, sel: seq<NodeRecord>)
    requires DistinctIds(candidates) && |candidates| >= |sel| + 2 && |sel| <= MAX_HOPS - 1
    requires LegalPicks(Ranked(candidates), "", sel) && Repeats(Js(sel))
    ensures Trapped(Js(Ranked(candidates)), |sel|)
  {
    hide Repeats, Choices, LegalPicks, Ranked, Trap, Taken;
    RankedDistinct(candidates);
    var ps := LegalToChoices(Ranked(candidates), "", sel);
    TakenJs(Ranked(candidates), ps);
    RepeatIsTrapped(Js(Ranked(candidates)), ps);
  }

  /** With two candidates to spare, each in some jurisdiction, some random choice of `n` middle hops gives
      two neighbours the same jurisdiction exactly when the ranking sets a trap before place `n`. */
  lemma NeighboursAgreeExactly(candidates: seq<NodeRecord>, n: nat)
    requires DistinctIds(candidates) && |candidates| >= n + 2 && n <= MAX_HOPS - 1
    requires forall x :: x in candidates ==> PrimaryJurisdiction(x) != ""
    ensures (exists sel :: |sel| == n && LegalPicks(Ranked(candidates), "", sel) && Repeats(Js(sel)))
       <==> Trapped(Js(Ranked(candidates)), n)
  {
    hide Repeats, Choices, LegalPicks, Ranked, Trap, Taken;
    var ranked := Ranked(candidates);
    RankedDistinct(candidates);
    if sel :| |sel| == n && LegalPicks(ranked, "", sel) && Repeats(Js(sel)) {
      RepeatingSelectionTrapped(candidates, sel);
    }
    if i :| 1 <= i < n && Trap(Js(ranked), i) {
      var ps := TrapSprings(Js(ranked), i);
      var sel := ExtendedSelection(ranked, ps, n);
    }
  }

  lemma RankedDistinct(s: seq<NodeRecord>)
    requires DistinctIds(s)
    ensures DistinctIds(Ranked(s)) && |Ranked(s)| == |s|
    ensures forall k :: 0 <= k < |s| ==> Ranked(s)[k] in s
  {
    RankedPermutes(s);
    SameIds(Ranked(s), s);
    DistinctIdCount(s);
    CountedDistinct(Ranked(s));
  }

  /** As many ids as elements means that none occurs twice. */
  lemma CountedDistinct(s: seq<NodeRecord>)
    requires |Ids(s)| == |s|
    ensures DistinctIds(s)
  {
    forall i, j | 0 <= i < j < |s| ensures s[i].serverId != s[j].serverId {
      if s[i].serverId == s[j].serverId {
        var t := s[..j] + s[j + 1..];
        forall x | x in s ensures x.serverId in Ids(t) {
          var k :| 0 <= k < |s| && s[k] == x;
          var l := if k == j then i else k;
          assert s[l] == t[if l < j then l else l - 1];
        }
        assert Ids(s) <= Ids(t);
        SubsetSize(Ids(s), Ids(t));
        DistinctIdCount(t);
      }
    }
  }

  lemma ExtendedSelection(ranked: seq<NodeRecord>, ps: seq<nat>, n: nat) returns (sel: seq<NodeRecord>)
    requires DistinctIds(ranked) && |ps| <= n <= |ranked|
    requires Choices(Js(ranked), "", ps) && Repeats(Taken(Js(ranked), ps))
    ensures |sel| == n && LegalPicks(ranked, "", sel) && Repeats(Js(sel))
  {
    hide Choices, LegalPicks, Taken;
    var qs := ExtendChoices(Js(ranked), "", ps, n);
    ChoicesToLegal(ranked, "", qs);
    TakenJs(ranked, qs);
    sel := Taken(ranked, qs);
    var t := Taken(Js(ranked), ps);
    var i :| 0 < i < |t| && t[i - 1] == t[i];
    assert Js(sel)[i - 1] == Js(sel)[i];
  }

  /** Without a trap, every circuit that is built changes jurisdiction at every hop, the exit included. */
  lemma UntrappedCircuitsDiffer(own: string, nodes: seq<NodeRecord>, imsi: string, env: Surroundings, i: nat)
    requires BuildResult(own, nodes, imsi, env).Ok? && DistinctIds(nodes)
    requires |Without(nodes, own)| >= MiddleCount(env.draws(0)) + 2
    requires !Trapped(Js(Ranked(Without(nodes, own))), MiddleCount(env.draws(0)))
    requires 0 < i < |BuildResult(own, nodes, imsi, env).value.hops|
    ensures var hops := BuildResult(own, nodes, imsi, env).value.hops; hops[i].jurisdiction != hops[i - 1].jurisdiction
  {
    hide Exits, Ranked, Select, Without, LegalPicks, BuildResult;
    var mids, exit := BuiltFromAllowedChoice(own, nodes, imsi, env);
    var candidates := Without(nodes, own);
    WithoutDistinct(nodes, own);
    if i == |mids| {
      ExitFacts(candidates, mids, exit);
    } else if Js(mids)[i - 1] == Js(mids)[i] {
      RepeatingSelectionTrapped(candidates, mids);
    }
  }

  // ----- every list -----

  /** Decides for any list, however short and whatever repeats in it, whether some random choice of `n`
      more middle hops after `last` repeats a jurisdiction. `first`: there is no hop before these. */
  predicate MayRepeat(scored: seq<NodeRecord>, last: string, first: bool, n: nat)
    decreases n
  {
    && n > 0
    && exists x ::
         && x in Eligible(scored, last)
         && ((!first && PrimaryJurisdiction(x) == last)
             || MayRepeat(Without(scored, x.serverId), PrimaryJurisdiction(x), false, n - 1))
  }

  ghost predicate RepeatsAfter(last: string, first: bool, sel: seq<NodeRecord>) {
    Repeats(if first then Js(sel) else [last] + Js(sel))
  }

  lemma RepeatsAfterFirst(last: string, first: bool, sel: seq<NodeRecord>)
    requires sel != []
    ensures RepeatsAfter(last, first, sel) <==>
            || (!first && PrimaryJurisdiction(sel[0]) == last)
            || RepeatsAfter(PrimaryJurisdiction(sel[0]), false, sel[1..])
  {
    hide Js, Repeats;
    JsCons(sel[0], sel[1..]);
    assert sel == [sel[0]] + sel[1..];
    RepeatsCons(last, Js(sel));
  }

  lemma SomeLegal(scored: seq<NodeRecord>, last: string, n: nat) returns (sel: seq<NodeRecord>)
    requires n <= |Ids(scored)|
    ensures |sel| == n && LegalPicks(scored, last, sel)
  {
    hide Select, LegalPicks;
    var draws := (i: nat) => Draws(0);
    SelectExact(scored, last, n, draws, 0);
    SelectIsLegal(scored, last, n, draws, 0);
    sel := Select(scored, last, n, draws, 0).value;
  }

  lemma LegalIsShort(scored: seq<NodeRecord>, last: string, sel: seq<NodeRecord>)
    requires LegalPicks(scored, last, sel)
    ensures |sel| <= |Ids(scored)|
  {
    PicksDistinct(scored, last, sel);
    DistinctIdCount(sel);
    SubsetSize(Ids(sel), Ids(scored));
  }

  lemma LegalCons(scored: seq<NodeRecord>, last: string, x: NodeRecord, rest: seq<NodeRecord>)
    ensures LegalPicks(scored, last, [x] + rest) <==>
            x in Eligible(scored, last) && LegalPicks(Without(scored, x.serverId), PrimaryJurisdiction(x), rest)
    ensures ([x] + rest)[1..] == rest
  {
    assert ([x] + rest)[1..] == rest;
  }

  lemma {:induction false} MayRepeatIff(scored: seq<NodeRecord>, last: string, first: bool, n: nat)
    ensures (exists sel :: |sel| == n && LegalPicks(scored, last, sel) && RepeatsAfter(last, first, sel))
       <==> n <= |Ids(scored)| && MayRepeat(scored, last, first, n)
    decreases n
  {
    hide Eligible, Without, LegalPicks, RepeatsAfter;
    if sel :| |sel| == n && LegalPicks(scored, last, sel) && RepeatsAfter(last, first, sel) {
      LegalIsShort(scored, last, sel);
      if n == 0 {
        NothingRepeats(last, first, sel);
      }
      var x, rest := sel[0], sel[1..];
      assert sel == [x] + rest;
      LegalCons(scored, last, x, rest);
      RepeatsAfterFirst(last, first, sel);
      MayRepeatIff(Without(scored, x.serverId), PrimaryJurisdiction(x), false, n - 1);
    }
    if n <= |Ids(scored)| && MayRepeat(scored, last, first, n) {
      var x :| x in Eligible(scored, last) && ((!first && PrimaryJurisdiction(x) == last)
               || MayRepeat(Without(scored, x.serverId), PrimaryJurisdiction(x), false, n - 1));
      var left, j := Without(scored, x.serverId), PrimaryJurisdiction(x);
      EligibleFromTop(scored, last, x);
      OneIdLess(scored, x);
      MayRepeatIff(left, j, false, n - 1);
      var rest := SomeLegal(left, j, n - 1);
      if MayRepeat(left, j, false, n - 1) {
        rest :| |rest| == n - 1 && LegalPicks(left, j, rest) && RepeatsAfter(j, false, rest);
      }
      LegalCons(scored, last, x, rest);
      RepeatsAfterFirst(last, first, [x] + rest);
    }
  }

  lemma NothingRepeats(last: string, first: bool, sel: seq<NodeRecord>)
    requires sel == []
    ensures !RepeatsAfter(last, first, sel)
  {
  }

  /** The decision for whole selections. */
  lemma SomeSelectionRepeatsIff(candidates: seq<NodeRecord>, n: nat)
    ensures (exists sel :: |sel| == n && LegalPicks(Ranked(candidates), "", sel) && Repeats(Js(sel)))
       <==> n <= |Ids(candidates)| && MayRepeat(Ranked(candidates), "", true, n)
  {
    hide LegalPicks, MayRepeat, Repeats;
    MayRepeatIff(Ranked(candidates), "", true, n);
    RankedPermutes(candidates);
    SameIds(Ranked(candidates), candidates);
    assert forall sel :: RepeatsAfter("", true, sel) == Repeats(Js(sel));
  }

  // ----- a network where it happens -----

  /** A circuit was built, and its first two hops share a jurisdiction. */
  ghost predicate BuiltAlike(r: Result<Circuit, BuildError>) {
    r.Ok? && |r.value.hops| >= 2 && r.value.hops[0].jurisdiction == r.value.hops[1].jurisdiction
  }

  /** Four servers of one jurisdiction ranked first and an exit elsewhere: a circuit is built whose first
      two hops agree. */
  lemma FourAlikeAgree(own: string, nodes: seq<NodeRecord>, exit: NodeRecord, imsi: string, token: string)
    returns (env: Surroundings)
    requires DistinctIds(nodes) && own !in Ids(nodes) && LargeEnough(nodes) && 4 <= |nodes| <= WORD
    requires var js := Js(Ranked(nodes));
             |js| == |nodes| && js[0] == js[1] == js[2] == js[3] != "" && PrimaryJurisdiction(exit) != js[0]
    requires exit in nodes && exit.exitNode
    ensures BuiltAlike(BuildResult(own, nodes, imsi, env))
  {
    hide Ranked, Filter, LegalPicks, BuildResult, Choices, Taken, Js, Jurisdictions;
    var ranked := Ranked(nodes);
    RankedDistinct(nodes);
    FilterKeepsAll(nodes, NotServer(own));
    FrontTwice(Js(ranked), "");
    ChoicesToLegal(ranked, "", [0, 0]);
    TakenJs(ranked, [0, 0]);
    var mids := Taken(ranked, [0, 0]);
    PicksAreCandidates(nodes, mids);
    assert PrimaryJurisdiction(mids[0]) == PrimaryJurisdiction(mids[1]) == Js(ranked)[0] by {
      JsAt(mids, 0);
      JsAt(mids, 1);
    }
    assert exit.serverId !in Ids(mids) by {
      forall x | x in mids && x.serverId == exit.serverId ensures false {
        SameIdSameNode(nodes, x, exit);
      }
    }
    FilterMember(nodes, CanEnd(mids), exit);
    FilterShrinks(nodes, CanEnd(mids));
    env := AllowedChoiceBuilt(own, nodes, imsi, mids, exit, token, "", 0);
  }

  lemma ThreeJurisdictions(s: seq<NodeRecord>, x: NodeRecord, y: NodeRecord, z: NodeRecord)
    requires x in s && y in s && z in s
    requires |{PrimaryJurisdiction(x), PrimaryJurisdiction(y), PrimaryJurisdiction(z)}| == 3
    ensures LargeEnough(s)
  {
    var three := {PrimaryJurisdiction(x), PrimaryJurisdiction(y), PrimaryJurisdiction(z)};
    SubsetSize(three, Jurisdictions(s));
  }

  const SIX_SERVERS := [
    Plain("a", "SE"), Plain("b", "SE"), Plain("c", "SE"), Plain("d", "SE"), Plain("e", "NO"), Plain("f", "DK")]

  /** Six servers, four of them in "SE" and ranked first: more than section 10.5 asks for. */
  lemma NeighboursCanAgree(own: string, imsi: string, token: string) returns (env: Surroundings)
    requires own !in Ids(SIX_SERVERS)
    ensures DistinctIds(SIX_SERVERS) && LargeEnough(SIX_SERVERS) && Trap(Js(Ranked(SIX_SERVERS)), 1)
    ensures BuiltAlike(BuildResult(own, SIX_SERVERS, imsi, env))
  {
    hide Ranked, BuildResult, LargeEnough, Ids;
    var nodes := SIX_SERVERS;
    ThreeJurisdictions(nodes, nodes[0], nodes[4], nodes[5]);
    assert forall x :: x in nodes ==> Score(x) == 0.0;
    RankedEqual(nodes);
    env := FourAlikeAgree(own, nodes, nodes[4], imsi, token);
  }
}
