/** Exactly which networks let construction succeed whatever the random values are. */
module BuildExact {
  import opened Collections
  import opened RandomSource
  import opened Nodes
  import opened Scoring
  import opened Selection
  import opened Constructor
  import opened Neighbours

  /** Whichever `n` further middle hops are picked after `mids`, there are enough nodes for them and an
      exit is left. At each pick at most three nodes are eligible, so this can be computed. */
  predicate Ends(candidates: seq<NodeRecord>, scored: seq<NodeRecord>, mids: seq<NodeRecord>, n: nat)
    decreases n
  {
    if n == 0 then Exits(candidates, mids) != []
    else
      scored != [] && forall x :: x in Eligible(scored, LastJurisdiction(mids)) ==>
        Ends(candidates, Without(scored, x.serverId), mids + [x], n - 1)
  }

  /** Construction with `n` middle hops cannot fail. */
  predicate Safe(candidates: seq<NodeRecord>, n: nat) {
    LargeEnough(candidates) && Ends(candidates, Ranked(candidates), [], n)
  }

  /** `Ends` without recursion: enough servers, and an exit after every legal selection. */
  lemma {:induction false} EndsIff(candidates: seq<NodeRecord>, scored: seq<NodeRecord>, mids: seq<NodeRecord>, n: nat)
    ensures Ends(candidates, scored, mids, n) <==>
            && n <= |Ids(scored)|
            && forall sel :: |sel| == n && LegalPicks(scored, LastJurisdiction(mids), sel) ==>
                 Exits(candidates, mids + sel) != []
    decreases n
  {
    hide Eligible, Without, Exits, LegalPicks;
    var last := LastJurisdiction(mids);
    if n == 0 {
      EmptyLegal(scored, last);
      assert forall sel: seq<NodeRecord> :: |sel| == 0 ==> mids + sel == mids;
      assert mids + [] == mids;
    } else if scored == [] {
      assert Ids(scored) == {};
    } else {
      forall x | x in Eligible(scored, last)
        ensures Ends(candidates, Without(scored, x.serverId), mids + [x], n - 1) <==>
                && n <= |Ids(scored)|
                && forall rest ::
                     |rest| == n - 1 && LegalPicks(Without(scored, x.serverId), PrimaryJurisdiction(x), rest) ==>
                       Exits(candidates, mids + ([x] + rest)) != []
      {
        EligibleFromTop(scored, last, x);
        OneIdLess(scored, x);
        EndsIff(candidates, Without(scored, x.serverId), mids + [x], n - 1);
        assert forall rest :: mids + [x] + rest == mids + ([x] + rest);
      }
      FirstPick(candidates, scored, mids, n);
      assert Eligible(scored, last)[0] in Eligible(scored, last);
    }
  }

  lemma EmptyLegal(scored: seq<NodeRecord>, last: string)
    ensures LegalPicks(scored, last, [])
  {
  }

  /** Quantifying over selections is quantifying over the first pick and the rest. */
  lemma FirstPick(candidates: seq<NodeRecord>, scored: seq<NodeRecord>, mids: seq<NodeRecord>, n: nat)
    requires n > 0
    ensures var last := LastJurisdiction(mids);
            (forall sel :: |sel| == n && LegalPicks(scored, last, sel) ==> Exits(candidates, mids + sel) != []) <==>
            forall x, rest ::
              (&& x in Eligible(scored, last) && |rest| == n - 1
               && LegalPicks(Without(scored, x.serverId), PrimaryJurisdiction(x), rest))
              ==> Exits(candidates, mids + ([x] + rest)) != []
  {
    hide Eligible, Without, Exits, LegalPicks;
    forall x, rest { LegalCons(scored, LastJurisdiction(mids), x, rest); }
    assert forall sel: seq<NodeRecord> :: |sel| == n ==> sel == [sel[0]] + sel[1..];
  }

  ghost predicate Fortunate(env: Surroundings) {
    env.token.Some? && forall i :: env.draws(i).Bytes?
  }

  lemma RankedIds(candidates: seq<NodeRecord>)
    ensures Ids(Ranked(candidates)) == Ids(candidates)
  {
    RankedPermutes(candidates);
    SameIds(Ranked(candidates), candidates);
  }

  lemma SafeBuilds(own: string, nodes: seq<NodeRecord>, imsi: string, env: Surroundings)
    requires Fortunate(env) && Safe(Without(nodes, own), MiddleCount(env.draws(0)))
    ensures BuildResult(own, nodes, imsi, env).Ok?
  {
    hide Exits, Assemble, Ranked, Select, LegalPicks, Without, Ends;
    var candidates, n := Without(nodes, own), MiddleCount(env.draws(0));
    var ranked := Ranked(candidates);
    EndsIff(candidates, ranked, [], n);
    SelectExact(ranked, "", n, env.draws, 1);
    SelectIsLegal(ranked, "", n, env.draws, 1);
    var mids := Select(ranked, "", n, env.draws, 1).value;
    assert [] + mids == mids;
  }

  /** Middle hops after which no exit is left make construction fail for some random values. */
  lemma DeadEndReached(own: string, nodes: seq<NodeRecord>, imsi: string, mids: seq<NodeRecord>)
    returns (env: Surroundings)
    requires var c := Without(nodes, own);
             LargeEnough(c) && LegalPicks(Ranked(c), "", mids) && Exits(c, mids) == []
    requires MIN_HOPS - 1 <= |mids| <= MAX_HOPS - 1
    ensures Fortunate(env) && MiddleCount(env.draws(0)) == |mids|
    ensures BuildResult(own, nodes, imsi, env) == Err(NoExitNode)
  {
    hide Exits, Assemble, Ranked, Select, Without, LegalPicks;
    var candidates, n := Without(nodes, own), |mids|;
    var inner := EveryLegalPickReachable(Ranked(candidates), "", mids, 1);
    EveryValueDrawn(MAX_HOPS - MIN_HOPS + 1, n + 1 - MIN_HOPS);
    var draws := (i: nat) => if i == 0 then Draws(n + 1 - MIN_HOPS) else inner(i);
    SelectSameDraws(Ranked(candidates), "", n, inner, draws, 1);
    env := Surroundings(draws, Some(""), "", 0);
    assert MiddleCount(env.draws(0)) == n;
  }

  lemma UnsafeFails(own: string, nodes: seq<NodeRecord>, imsi: string, n: nat) returns (env: Surroundings)
    requires MIN_HOPS - 1 <= n <= MAX_HOPS - 1 && !Safe(Without(nodes, own), n)
    ensures Fortunate(env) && MiddleCount(env.draws(0)) == n
    ensures BuildResult(own, nodes, imsi, env).Err?
  {
    hide Exits, Assemble, Ranked, Select, Without, LegalPicks, Ends;
    var candidates := Without(nodes, own);
    EndsIff(candidates, Ranked(candidates), [], n);
    EveryValueDrawn(MAX_HOPS - MIN_HOPS + 1, n + 1 - MIN_HOPS);
    var draws := (i: nat) => Draws(n + 1 - MIN_HOPS);
    env := Surroundings(draws, Some(""), "", 0);
    assert MiddleCount(env.draws(0)) == n;
    if LargeEnough(candidates) {
      SelectExact(Ranked(candidates), "", n, draws, 1);
      if n <= |Ids(Ranked(candidates))| {
        var mids :| |mids| == n && LegalPicks(Ranked(candidates), "", mids) && Exits(candidates, [] + mids) == [];
        assert [] + mids == mids;
        env := DeadEndReached(own, nodes, imsi, mids);
      }
    }
  }

  /** Construction with `n` middle hops succeeds for all random values exactly when `Safe` says so. */
  lemma BuildsWithIff(own: string, nodes: seq<NodeRecord>, imsi: string, n: nat)
    requires MIN_HOPS - 1 <= n <= MAX_HOPS - 1
    ensures (forall env :: Fortunate(env) && MiddleCount(env.draws(0)) == n ==> BuildResult(own, nodes, imsi, env).Ok?)
       <==> Safe(Without(nodes, own), n)
  {
    hide BuildResult, Safe, Without;
    if Safe(Without(nodes, own), n) {
      forall env | Fortunate(env) && MiddleCount(env.draws(0)) == n ensures BuildResult(own, nodes, imsi, env).Ok? {
        SafeBuilds(own, nodes, imsi, env);
      }
    } else {
      var env := UnsafeFails(own, nodes, imsi, n);
    }
  }

  /** Construction succeeds for all random values exactly when it is safe with two, three and four middle
      hops. */
  lemma AlwaysBuildsIff(own: string, nodes: seq<NodeRecord>, imsi: string)
    ensures (forall env :: Fortunate(env) ==> BuildResult(own, nodes, imsi, env).Ok?)
       <==> forall n :: MIN_HOPS - 1 <= n <= MAX_HOPS - 1 ==> Safe(Without(nodes, own), n)
  {
    hide BuildResult, Safe, Without;
    if forall n :: MIN_HOPS - 1 <= n <= MAX_HOPS - 1 ==> Safe(Without(nodes, own), n) {
      forall env | Fortunate(env) ensures BuildResult(own, nodes, imsi, env).Ok? {
        SafeBuilds(own, nodes, imsi, env);
      }
    } else {
      var n :| MIN_HOPS - 1 <= n <= MAX_HOPS - 1 && !Safe(Without(nodes, own), n);
      var env := UnsafeFails(own, nodes, imsi, n);
    }
  }

  // ----- a condition to check by counting -----

  lemma CountedExitsSafe(candidates: seq<NodeRecord>, n: nat)
    requires DistinctIds(candidates) && LargeEnough(candidates) && n > 0
    requires forall j :: Count(candidates, ExitOutsideOf(j)) >= n
    ensures Safe(candidates, n)
  {
    hide Exits, Ranked, LegalPicks, Ends;
    EndsIff(candidates, Ranked(candidates), [], n);
    EnoughForMiddle(candidates, n);
    forall mids | |mids| == n && LegalPicks(Ranked(candidates), "", mids) ensures Exits(candidates, [] + mids) != [] {
      assert [] + mids == mids;
      assert Count(candidates, ExitOutsideOf(LastJurisdiction(mids))) >= n;
      ExitRemains(candidates, mids);
    }
  }

  /** With distinct servers, the gates passed, and for every jurisdiction at least as many exits
      outside it as there are middle hops, construction succeeds whatever the random values are. */
  lemma ExitAlwaysFound(own: string, nodes: seq<NodeRecord>, imsi: string, env: Surroundings)
    requires DistinctIds(nodes) && LargeEnough(Without(nodes, own)) && Fortunate(env)
    requires forall j :: Count(Without(nodes, own), ExitOutsideOf(j)) >= MiddleCount(env.draws(0))
    ensures BuildResult(own, nodes, imsi, env).Ok?
  {
    hide Without, Safe, BuildResult;
    WithoutDistinct(nodes, own);
    CountedExitsSafe(Without(nodes, own), MiddleCount(env.draws(0)));
    SafeBuilds(own, nodes, imsi, env);
  }

  /** One exit fewer is not enough, even where the minimum network of section 10.5 is met: three nodes in
      three jurisdictions, two of them exits, both used up as middle hops. */
  lemma ExitCanBeMissing(own: string, imsi: string) returns (nodes: seq<NodeRecord>, env: Surroundings)
    requires own !in {"a", "b", "c"}
    ensures DistinctIds(nodes) && own !in Ids(nodes) && LargeEnough(nodes) && Fortunate(env)
    ensures forall j :: Count(nodes, ExitOutsideOf(j)) >= MiddleCount(env.draws(0)) - 1
    ensures BuildResult(own, nodes, imsi, env) == Err(NoExitNode)
  {
    hide Filter, Ranked, LegalPicks, BuildResult, LargeEnough;
    var a, b, c := Plain("a", "A"), Plain("b", "B"), Plain("c", "C").(exitNode := false);
    nodes := [a, b, c];
    assert nodes[0] == a && nodes[1] == b && nodes[2] == c;
    ThreeJurisdictions(nodes, a, b, c);
    FilterKeepsAll(nodes, NotServer(own));
    RankedEqual(nodes);
    var mids := BothExitsPicked(nodes);
    if Exits(nodes, mids) != [] {
      FilterMember(nodes, CanEnd(mids), Exits(nodes, mids)[0]);
    }
    env := DeadEndReached(own, nodes, imsi, mids);
    forall j ensures Count(nodes, ExitOutsideOf(j)) >= 1 {
      FilterMember(nodes, ExitOutsideOf(j), a);
      FilterMember(nodes, ExitOutsideOf(j), b);
    }
  }

  lemma BothExitsPicked(nodes: seq<NodeRecord>) returns (mids: seq<NodeRecord>)
    requires DistinctIds(nodes) && |nodes| == 3
    requires Js(nodes)[0] != "" && Js(nodes)[1] != "" && Js(nodes)[0] != Js(nodes)[1]
    ensures mids == [nodes[1], nodes[0]] && LegalPicks(nodes, "", mids)
  {
    var js, ps := Js(nodes), [1, 0];
    var left, rest := DropAt(js, 1), DropAt(nodes, 1);
    assert ps[1..] == [0] && ps[1..][1..] == [];
    assert Choice(js, "", 1) && Choice(left, js[1], 0);
    assert Choices(DropAt(left, 0), left[0], []);
    assert Choices(left, js[1], ps[1..]);
    ChoicesToLegal(nodes, "", ps);
    assert Taken(DropAt(rest, 0), []) == [];
    assert Taken(rest, ps[1..]) == [rest[0]];
    mids := [nodes[1], nodes[0]];
    assert Taken(nodes, ps) == mids;
  }

  // ----- the smallest network -----

  /** Section 10.5 names three nodes as the minimum. The middle hops alone need up to four different
      servers, so the selection is safe from running out for every random choice exactly from four on. */
  lemma NeverRunsOutIff(own: string, nodes: seq<NodeRecord>, imsi: string)
    requires LargeEnough(Without(nodes, own))
    ensures (forall env: Surroundings :: (forall i :: env.draws(i).Bytes?) ==>
               BuildResult(own, nodes, imsi, env) != Err(InsufficientNodes))
       <==> |Ids(Without(nodes, own))| >= MAX_HOPS - 1
  {
    hide Exits, Assemble, Ranked, Select, Without, LegalPicks;
    var candidates := Without(nodes, own);
    RankedIds(candidates);
    if |Ids(candidates)| >= MAX_HOPS - 1 {
      forall env: Surroundings | forall i :: env.draws(i).Bytes?
        ensures BuildResult(own, nodes, imsi, env) != Err(InsufficientNodes)
      {
        SelectExact(Ranked(candidates), "", MiddleCount(env.draws(0)), env.draws, 1);
      }
    } else {
      EveryValueDrawn(3, 2);
      var env := Surroundings((i: nat) => Draws(2), None, "", 0);
      SelectExact(Ranked(candidates), "", MAX_HOPS - 1, env.draws, 1);
      assert MiddleCount(env.draws(0)) == MAX_HOPS - 1;
      assert BuildResult(own, nodes, imsi, env) == Err(InsufficientNodes);
    }
  }

  // ----- every outcome -----

  /** The first-named jurisdictions of the other servers. */
  ghost function FirstJurisdictions(own: string, nodes: seq<NodeRecord>): set<string> {
    set n | n in nodes && n.serverId != own :: if |n.jurisdictions| > 0 then n.jurisdictions[0] else ""
  }

  ghost predicate GatesPassed(own: string, nodes: seq<NodeRecord>) {
    |Without(nodes, own)| >= 3 && |FirstJurisdictions(own, nodes)| >= 3
  }

  /** The first read asks for two, three or four middle hops, there are as many servers, and each pick can
      be read. */
  ghost predicate MiddleChosen(own: string, nodes: seq<NodeRecord>, env: Surroundings) {
    && GatesPassed(own, nodes) && env.draws(0).Bytes?
    && var n := 2 + RandomInt(3, env.draws(0)).value;
       n <= |Ids(Without(nodes, own))| && AllRead(env.draws, 1, n)
  }

  ghost function Chosen(own: string, nodes: seq<NodeRecord>, env: Surroundings): seq<NodeRecord>
    requires MiddleChosen(own, nodes, env)
  {
    var ranked, n := Ranked(Without(nodes, own)), 2 + RandomInt(3, env.draws(0)).value;
    RankedIds(Without(nodes, own));
    SelectExact(ranked, "", n, env.draws, 1);
    Select(ranked, "", n, env.draws, 1).value
  }

  lemma SameJurisdictions(own: string, nodes: seq<NodeRecord>)
    ensures Jurisdictions(Without(nodes, own)) == FirstJurisdictions(own, nodes)
  {
    hide Filter;
    var c := Without(nodes, own);
    forall n ensures n in c <==> n in nodes && n.serverId != own {
      FilterMember(nodes, NotServer(own), n);
    }
  }

  lemma NoExitIff(candidates: seq<NodeRecord>, mids: seq<NodeRecord>)
    requires mids != []
    ensures Exits(candidates, mids) == [] <==> forall x :: !MayEnd(candidates, mids, x)
  {
    hide Exits, MayEnd;
    forall x ensures x in Exits(candidates, mids) <==> MayEnd(candidates, mids, x) {
      ExitsIff(candidates, mids, x);
    }
    if Exits(candidates, mids) != [] {
      assert Exits(candidates, mids)[0] in Exits(candidates, mids);
    }
  }

  /** Construction stops at the gates exactly when fewer than three other servers, or fewer than three
      jurisdictions among them, are known. */
  lemma GateErrorsIff(own: string, nodes: seq<NodeRecord>, imsi: string, env: Surroundings)
    ensures BuildResult(own, nodes, imsi, env) == Err(TooFewNodes) <==> |Without(nodes, own)| < 3
    ensures BuildResult(own, nodes, imsi, env) == Err(TooFewJurisdictions) <==>
            |Without(nodes, own)| >= 3 && |FirstJurisdictions(own, nodes)| < 3
  {
    hide Without, Ranked, Select, Exits, Assemble, FirstJurisdictions, Jurisdictions;
    SameJurisdictions(own, nodes);
    var c := Without(nodes, own);
    if LargeEnough(c) && env.draws(0).Bytes? {
      SelectExact(Ranked(c), "", MiddleCount(env.draws(0)), env.draws, 1);
    }
  }

  /** Some exit is possible and the read that picks it works. */
  ghost predicate ExitChosen(own: string, nodes: seq<NodeRecord>, env: Surroundings) {
    && MiddleChosen(own, nodes, env)
    && (exists x :: MayEnd(Without(nodes, own), Chosen(own, nodes, env), x))
    && env.draws(3 + RandomInt(3, env.draws(0)).value).Bytes?
  }

  lemma MiddleFails(own: string, nodes: seq<NodeRecord>, imsi: string, env: Surroundings)
    requires !MiddleChosen(own, nodes, env)
    ensures BuildResult(own, nodes, imsi, env).Err?
    ensures BuildResult(own, nodes, imsi, env).error !in {NoExitNode, TokenFailure}
    ensures BuildResult(own, nodes, imsi, env) == Err(InsufficientNodes) <==>
            && GatesPassed(own, nodes) && env.draws(0).Bytes?
            && |Ids(Without(nodes, own))| < 2 + RandomInt(3, env.draws(0)).value
            && AllRead(env.draws, 1, |Ids(Without(nodes, own))|)
  {
    hide Without, Ranked, Select, Exits, Finish, FirstJurisdictions, Jurisdictions, AllRead, Ids;
    SameJurisdictions(own, nodes);
    var c := Without(nodes, own);
    RankedIds(c);
    if LargeEnough(c) && env.draws(0).Bytes? {
      SelectExact(Ranked(c), "", MiddleCount(env.draws(0)), env.draws, 1);
    }
  }

  lemma MiddleWorks(own: string, nodes: seq<NodeRecord>, imsi: string, env: Surroundings)
    requires MiddleChosen(own, nodes, env)
    ensures BuildResult(own, nodes, imsi, env)
         == Finish(Without(nodes, own), Chosen(own, nodes, env), imsi, env, 3 + RandomInt(3, env.draws(0)).value)
    ensures Chosen(own, nodes, env) != []
  {
    hide Without, Ranked, Select, Exits, Finish, FirstJurisdictions, Jurisdictions, AllRead, Ids;
    SameJurisdictions(own, nodes);
    var c := Without(nodes, own);
    RankedIds(c);
    SelectExact(Ranked(c), "", MiddleCount(env.draws(0)), env.draws, 1);
    SelectIsLegal(Ranked(c), "", MiddleCount(env.draws(0)), env.draws, 1);
  }

  lemma FinishIff(candidates: seq<NodeRecord>, mids: seq<NodeRecord>, imsi: string, env: Surroundings, k: nat)
    requires mids != []
    ensures var r := Finish(candidates, mids, imsi, env, k);
            var found := exists x :: MayEnd(candidates, mids, x);
            && (r == Err(NoExitNode) <==> !found)
            && (r == Err(TokenFailure) <==> found && env.draws(k).Bytes? && env.token.None?)
            && (r.Ok? <==> found && env.draws(k).Bytes? && env.token.Some?)
            && r != Err(InsufficientNodes)
  {
    hide Exits, MayEnd, Assemble;
    NoExitIff(candidates, mids);
  }

  /** Past the gates: the errors and success in terms of the servers, the reads and the token. */
  lemma OutcomesIff(own: string, nodes: seq<NodeRecord>, imsi: string, env: Surroundings)
    ensures BuildResult(own, nodes, imsi, env) == Err(InsufficientNodes) <==>
            && GatesPassed(own, nodes) && env.draws(0).Bytes?
            && |Ids(Without(nodes, own))| < 2 + RandomInt(3, env.draws(0)).value
            && AllRead(env.draws, 1, |Ids(Without(nodes, own))|)
    ensures BuildResult(own, nodes, imsi, env) == Err(NoExitNode) <==>
            && MiddleChosen(own, nodes, env)
            && forall x :: !MayEnd(Without(nodes, own), Chosen(own, nodes, env), x)
    ensures BuildResult(own, nodes, imsi, env) == Err(TokenFailure) <==>
            ExitChosen(own, nodes, env) && env.token.None?
    ensures BuildResult(own, nodes, imsi, env).Ok? <==> ExitChosen(own, nodes, env) && env.token.Some?
  {
    hide BuildResult, Without, Finish, Chosen, GatesPassed, AllRead, MayEnd, Ids;
    if MiddleChosen(own, nodes, env) {
      MiddleWorks(own, nodes, imsi, env);
      FinishIff(Without(nodes, own), Chosen(own, nodes, env), imsi, env, 3 + RandomInt(3, env.draws(0)).value);
    } else {
      MiddleFails(own, nodes, imsi, env);
    }
  }
}
