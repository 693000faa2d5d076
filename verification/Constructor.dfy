/** `build`: the circuit constructor. */
module Constructor {
  import opened Collections
  import opened RandomSource
  import opened Nodes
  import opened Scoring
  import opened Selection

  const CHAIN_ROTATION_INTERVAL: int := 600 * SECOND
  const MIN_HOPS: nat := 3
  const MAX_HOPS: nat := 5
  const MIN_NETWORK_SIZE: nat := 3
  const MIN_JURISDICTIONS: nat := 3

  datatype Hop = Hop(
    serverId: string,
    wireGuardAddress: string,
    wireGuardPubKey: string,
    jurisdiction: string,
    hopIndex: nat,
    isExit: bool)

  datatype Circuit = Circuit(
    circuitId: string,
    deviceImsi: string,
    sessionToken: string,
    hops: seq<Hop>,
    createdAt: int,
    rotateAt: int)

  /** What one call gets from its surroundings: random reads, the token (if its read works), the
      circuit id and the clock. */
  datatype Surroundings = Surroundings(
    draws: nat -> Draw,
    token: Option<string>,
    circuitId: string,
    now: int)

  function ToHop(n: NodeRecord, index: nat, isExit: bool): Hop {
    Hop(n.serverId, n.wireGuard, n.wireGuardKey, PrimaryJurisdiction(n), index, isExit)
  }

  function Jurisdictions(s: seq<NodeRecord>): set<string> {
    set n | n in s :: PrimaryJurisdiction(n)
  }

  function LastJurisdiction(mids: seq<NodeRecord>): string {
    if mids == [] then "" else PrimaryJurisdiction(mids[|mids| - 1])
  }

  function CanEnd(mids: seq<NodeRecord>): NodeRecord -> bool {
    (n: NodeRecord) => n.exitNode && n.serverId !in Ids(mids) && PrimaryJurisdiction(n) != LastJurisdiction(mids)
  }

  function Exits(candidates: seq<NodeRecord>, mids: seq<NodeRecord>): seq<NodeRecord> {
    Filter(candidates, CanEnd(mids))
  }

  ghost function MiddleHops(mids: seq<NodeRecord>): (h: seq<Hop>)
    ensures |h| == |mids|
  {
    seq(|mids|, i requires 0 <= i < |mids| => ToHop(mids[i], i, false))
  }

  ghost function Assemble(mids: seq<NodeRecord>, exit: NodeRecord): seq<Hop> {
    MiddleHops(mids) + [ToHop(exit, |mids|, true)]
  }

  predicate LargeEnough(candidates: seq<NodeRecord>) {
    |candidates| >= MIN_NETWORK_SIZE && |Jurisdictions(candidates)| >= MIN_JURISDICTIONS
  }

  /** How many middle hops the first draw asks for. */
  ghost function MiddleCount(d: Draw): (n: nat)
    requires d.Bytes?
    ensures MIN_HOPS - 1 <= n <= MAX_HOPS - 1
  {
    MIN_HOPS + RandomInt(MAX_HOPS - MIN_HOPS + 1, d).value - 1
  }

  ghost function Finish(candidates: seq<NodeRecord>, mids: seq<NodeRecord>, imsi: string, env: Surroundings, k: nat)
    : Result<Circuit, BuildError>
  {
    var exits := Exits(candidates, mids);
    if exits == [] then Err(NoExitNode)
    else match RandomInt(|exits|, env.draws(k))
      case Err(x) => Err(RandomFailure(x))
      case Ok(i) =>
        if env.token.None? then Err(TokenFailure)
        else Ok(Circuit(env.circuitId, imsi, env.token.value, Assemble(mids, exits[i]),
                        env.now, env.now + CHAIN_ROTATION_INTERVAL))
  }

  ghost function BuildResult(own: string, nodes: seq<NodeRecord>, imsi: string, env: Surroundings)
    : Result<Circuit, BuildError>
  {
    var candidates := Without(nodes, own);
    if |candidates| < MIN_NETWORK_SIZE then Err(TooFewNodes)
    else if |Jurisdictions(candidates)| < MIN_JURISDICTIONS then Err(TooFewJurisdictions)
    else if env.draws(0).Unreadable? then Err(RandomFailure(ReadFailed))
    else
      var n := MiddleCount(env.draws(0));
      match Select(Ranked(candidates), "", n, env.draws, 1)
      case Err(x) => Err(x)
      case Ok(mids) => Finish(candidates, mids, imsi, env, 1 + n)
  }

  // ----- the loops of the source -----

  method JurisdictionCount(nodes: seq<NodeRecord>) returns (c: nat)
    ensures c == |Jurisdictions(nodes)|
  {
    var seen := {};
    for i := 0 to |nodes|
      invariant seen == Jurisdictions(nodes[..i])
    {
      assert nodes[..i + 1] == nodes[..i] + [nodes[i]];
      seen := seen + {PrimaryJurisdiction(nodes[i])};
    }
    assert nodes[..|nodes|] == nodes;
    c := |seen|;
  }

  method IsIn(hops: seq<NodeRecord>, id: string) returns (found: bool)
    ensures found <==> id in Ids(hops)
  {
    for i := 0 to |hops|
      invariant id !in Ids(hops[..i])
    {
      if hops[i].serverId == id {
        return true;
      }
      assert hops[..i + 1] == hops[..i] + [hops[i]];
    }
    assert hops[..|hops|] == hops;
    return false;
  }

  method ExitCandidates(candidates: seq<NodeRecord>, mids: seq<NodeRecord>) returns (exits: seq<NodeRecord>)
    ensures exits == Exits(candidates, mids)
  {
    exits := [];
    var last := "";
    if |mids| > 0 {
      last := PrimaryJurisdiction(mids[|mids| - 1]);
    }
    for i := 0 to |candidates|
      invariant exits == Exits(candidates[..i], mids)
    {
      var n := candidates[i];
      assert candidates[..i + 1] == candidates[..i] + [n];
      FilterSnoc(candidates[..i], n, CanEnd(mids));
      var used := IsIn(mids, n.serverId);
      if n.exitNode && !used && PrimaryJurisdiction(n) != last {
        exits := exits + [n];
      }
    }
    assert candidates[..|candidates|] == candidates;
  }

  method AssembleHops(mids: seq<NodeRecord>, exit: NodeRecord) returns (hops: seq<Hop>)
    ensures hops == Assemble(mids, exit)
  {
    hops := [];
    for i := 0 to |mids|
      invariant hops == MiddleHops(mids)[..i]
    {
      hops := hops + [ToHop(mids[i], i, false)];
    }
    hops := hops + [ToHop(exit, |hops|, true)];
  }

  method Build(own: string, nodes: seq<NodeRecord>, imsi: string, env: Surroundings)
    returns (r: Result<Circuit, BuildError>)
    ensures r == BuildResult(own, nodes, imsi, env)
  {
    hide Exits, Assemble, Ranked, Select, Without;
    var candidates := RemoveServer(nodes, own);
    if |candidates| < MIN_NETWORK_SIZE {
      return Err(TooFewNodes);
    }
    var diversity := JurisdictionCount(candidates);
    if diversity < MIN_JURISDICTIONS {
      return Err(TooFewJurisdictions);
    }
    var extra := RandomInt(MAX_HOPS - MIN_HOPS + 1, env.draws(0));
    if extra.Err? {
      return Err(RandomFailure(extra.error));
    }
    var hopCount := MIN_HOPS + extra.value;
    var middle := SelectMiddleHops(candidates, hopCount - 1, env.draws, 1);
    if middle.Err? {
      return Err(middle.error);
    }
    var exits := ExitCandidates(candidates, middle.value);
    if |exits| == 0 {
      return Err(NoExitNode);
    }
    var exit := RandomInt(|exits|, env.draws(hopCount));
    if exit.Err? {
      return Err(RandomFailure(exit.error));
    }
    if env.token.None? {
      return Err(TokenFailure);
    }
    var hops := AssembleHops(middle.value, exits[exit.value]);
    return Ok(Circuit(env.circuitId, imsi, env.token.value, hops, env.now, env.now + CHAIN_ROTATION_INTERVAL));
  }

  // ----- which circuits can be built -----

  /** The rules for the exit, one by one. */
  ghost predicate MayEnd(candidates: seq<NodeRecord>, mids: seq<NodeRecord>, exit: NodeRecord) {
    && exit in candidates && exit.exitNode
    && (forall m :: m in mids ==> m.serverId != exit.serverId)
    && (mids != [] ==> PrimaryJurisdiction(exit) != PrimaryJurisdiction(mids[|mids| - 1]))
  }

  lemma ExitsIff(candidates: seq<NodeRecord>, mids: seq<NodeRecord>, exit: NodeRecord)
    requires mids != []
    ensures exit in Exits(candidates, mids) <==> MayEnd(candidates, mids, exit)
  {
    FilterMember(candidates, CanEnd(mids), exit);
  }

  /** `mids` and `exit` are a choice that the rules allow for these nodes. */
  ghost predicate AllowedChoice(candidates: seq<NodeRecord>, mids: seq<NodeRecord>, exit: NodeRecord) {
    && LargeEnough(candidates)
    && 2 <= |mids| <= 4
    && LegalPicks(Ranked(candidates), "", mids)
    && MayEnd(candidates, mids, exit)
  }

  /** Every circuit that is built comes from an allowed choice. */
  lemma BuiltFromAllowedChoice(own: string, nodes: seq<NodeRecord>, imsi: string, env: Surroundings)
    returns (mids: seq<NodeRecord>, exit: NodeRecord)
    requires BuildResult(own, nodes, imsi, env).Ok?
    ensures AllowedChoice(Without(nodes, own), mids, exit)
    ensures |mids| == MiddleCount(env.draws(0))
    ensures Select(Ranked(Without(nodes, own)), "", |mids|, env.draws, 1) == Ok(mids)
    ensures var exits := Exits(Without(nodes, own), mids);
            var r := RandomInt(|exits|, env.draws(1 + |mids|));
            r.Ok? && r.value < |exits| && exit == exits[r.value]
    ensures BuildResult(own, nodes, imsi, env).value
         == Circuit(env.circuitId, imsi, env.token.value, Assemble(mids, exit),
                    env.now, env.now + CHAIN_ROTATION_INTERVAL)
  {
    hide Exits, Assemble, Ranked, Select, Without, LegalPicks;
    var candidates, n := Without(nodes, own), MiddleCount(env.draws(0));
    SelectIsLegal(Ranked(candidates), "", n, env.draws, 1);
    mids := Select(Ranked(candidates), "", n, env.draws, 1).value;
    exit := Exits(candidates, mids)[RandomInt(|Exits(candidates, mids)|, env.draws(1 + n)).value];
    ExitsIff(candidates, mids, exit);
  }

  /** And every allowed choice is built for some random reads, as long as the exit list is short
      enough to be indexed by a 32-bit word. */
  lemma AllowedChoiceBuilt(own: string, nodes: seq<NodeRecord>, imsi: string, mids: seq<NodeRecord>, exit: NodeRecord,
                           token: string, id: string, now: int)
    returns (env: Surroundings)
    requires AllowedChoice(Without(nodes, own), mids, exit)
    requires |Exits(Without(nodes, own), mids)| <= WORD
    ensures BuildResult(own, nodes, imsi, env)
         == Ok(Circuit(id, imsi, token, Assemble(mids, exit), now, now + CHAIN_ROTATION_INTERVAL))
  {
    hide Exits, Assemble, Ranked, Select, Without, LegalPicks;
    var candidates := Without(nodes, own);
    var inner := EveryLegalPickReachable(Ranked(candidates), "", mids, 1);
    var exits := Exits(candidates, mids);
    ExitsIff(candidates, mids, exit);
    var e :| 0 <= e < |exits| && exits[e] == exit;
    var n := |mids|;
    EveryValueDrawn(MAX_HOPS - MIN_HOPS + 1, n + 1 - MIN_HOPS);
    EveryValueDrawn(|exits|, e);
    var draws := (i: nat) => if i == 0 then Draws(n + 1 - MIN_HOPS) else if i == n + 1 then Draws(e) else inner(i);
    SelectSameDraws(Ranked(candidates), "", n, inner, draws, 1);
    env := Surroundings(draws, Some(token), id, now);
    assert MiddleCount(env.draws(0)) == n;
  }

  // ----- well-formed circuits -----

  ghost predicate Made(h: Hop, n: NodeRecord) {
    h.serverId == n.serverId && h.wireGuardAddress == n.wireGuard && h.wireGuardPubKey == n.wireGuardKey
    && h.jurisdiction == (if |n.jurisdictions| > 0 then n.jurisdictions[0] else "")
  }

  ghost predicate WellFormed(own: string, nodes: seq<NodeRecord>, c: Circuit) {
    && 3 <= |c.hops| <= 5
    && (forall i, j :: 0 <= i < j < |c.hops| ==> c.hops[i].serverId != c.hops[j].serverId)
    && (forall i :: 0 <= i < |c.hops| ==> c.hops[i].serverId != own && c.hops[i].hopIndex == i)
    && (forall i :: 0 <= i < |c.hops| ==> (c.hops[i].isExit <==> i == |c.hops| - 1))
    && (forall i :: 0 <= i < |c.hops| ==>
          exists n :: n in nodes && Made(c.hops[i], n) && (c.hops[i].isExit ==> n.exitNode))
    && c.hops[|c.hops| - 1].jurisdiction != c.hops[|c.hops| - 2].jurisdiction
    && c.rotateAt == c.createdAt + 600_000_000_000
  }

  lemma ExitFacts(candidates: seq<NodeRecord>, mids: seq<NodeRecord>, exit: NodeRecord)
    requires MayEnd(candidates, mids, exit) && mids != []
    ensures exit in candidates && exit.exitNode && exit.serverId !in Ids(mids)
    ensures PrimaryJurisdiction(exit) != LastJurisdiction(mids)
  {
  }

  lemma PicksAreCandidates(candidates: seq<NodeRecord>, mids: seq<NodeRecord>)
    requires LegalPicks(Ranked(candidates), "", mids)
    ensures DistinctIds(mids) && forall x :: x in mids ==> x in candidates
  {
    PicksDistinct(Ranked(candidates), "", mids);
    RankedPermutes(candidates);
    SameIds(Ranked(candidates), candidates);
  }

  /** For every node list, repeated server ids included, and all random reads. */
  lemma BuildWellFormed(own: string, nodes: seq<NodeRecord>, imsi: string, env: Surroundings)
    requires BuildResult(own, nodes, imsi, env).Ok?
    ensures WellFormed(own, nodes, BuildResult(own, nodes, imsi, env).value)
    ensures BuildResult(own, nodes, imsi, env).value.deviceImsi == imsi
    ensures env.token == Some(BuildResult(own, nodes, imsi, env).value.sessionToken)
  {
    hide Exits, Ranked, Select, Without, LegalPicks, BuildResult, WellFormed, AllowedChoice, Assemble;
    var mids, exit := BuiltFromAllowedChoice(own, nodes, imsi, env);
    assert env.token.Some? by { BuildNeedsToken(own, nodes, imsi, env); }
    ChoiceWellFormed(own, nodes, mids, exit, BuildResult(own, nodes, imsi, env).value);
  }

  lemma ChoiceWellFormed(own: string, nodes: seq<NodeRecord>, mids: seq<NodeRecord>, exit: NodeRecord, c: Circuit)
    requires AllowedChoice(Without(nodes, own), mids, exit)
    requires c.hops == Assemble(mids, exit) && c.rotateAt == c.createdAt + CHAIN_ROTATION_INTERVAL
    ensures WellFormed(own, nodes, c)
  {
    hide Exits, Ranked, Without, LegalPicks;
    PicksAreCandidates(Without(nodes, own), mids);
    ExitFacts(Without(nodes, own), mids, exit);
    var all := mids + [exit];
    DistinctSnoc(mids, exit);
    assert forall i :: 0 <= i < |all| ==> c.hops[i] == ToHop(all[i], i, i == |mids|);
    forall i | 0 <= i < |all|
      ensures c.hops[i].serverId != own
      ensures exists n :: n in nodes && Made(c.hops[i], n) && (c.hops[i].isExit ==> n.exitNode)
    {
      HopOrigin(own, nodes, all[i], i, i == |mids|);
    }
  }

  lemma DistinctSnoc(s: seq<NodeRecord>, x: NodeRecord)
    requires DistinctIds(s) && x.serverId !in Ids(s)
    ensures DistinctIds(s + [x])
  {
    assert forall i :: 0 <= i < |s| ==> s[i].serverId in Ids(s);
  }

  lemma HopOrigin(own: string, nodes: seq<NodeRecord>, x: NodeRecord, i: nat, isExit: bool)
    requires x in Without(nodes, own) && (isExit ==> x.exitNode)
    ensures var h := ToHop(x, i, isExit);
            h.serverId != own && exists n :: n in nodes && Made(h, n) && (h.isExit ==> n.exitNode)
  {
    CandidateFacts(nodes, own, x);
    assert Made(ToHop(x, i, isExit), x);
  }

  lemma CandidateFacts(nodes: seq<NodeRecord>, own: string, n: NodeRecord)
    requires n in Without(nodes, own)
    ensures n in nodes && n.serverId != own
  {
    FilterMember(nodes, NotServer(own), n);
  }

  lemma BuildNeedsToken(own: string, nodes: seq<NodeRecord>, imsi: string, env: Surroundings)
    requires BuildResult(own, nodes, imsi, env).Ok?
    ensures env.token.Some? && env.draws(0).Bytes?
  {
  }

  // ----- when an exit is always found -----

  /** An exit-capable candidate outside the last hop's jurisdiction survives: the other middle hops
      number one less than such candidates. */
  lemma ExitRemains(candidates: seq<NodeRecord>, mids: seq<NodeRecord>)
    requires DistinctIds(candidates) && mids != []
    requires LegalPicks(Ranked(candidates), "", mids)
    requires Count(candidates, ExitOutsideOf(LastJurisdiction(mids))) >= |mids|
    ensures Exits(candidates, mids) != []
  {
    hide Filter, Ranked, LegalPicks;
    PicksAreCandidates(candidates, mids);
    var j, last := LastJurisdiction(mids), mids[|mids| - 1];
    var n := UnusedExit(candidates, mids[..|mids| - 1], j);
    if n.serverId == last.serverId {
      SameIdSameNode(candidates, n, last);
    }
    assert mids == mids[..|mids| - 1] + [last];
    FilterMember(candidates, CanEnd(mids), n);
  }

  lemma UnusedExit(candidates: seq<NodeRecord>, others: seq<NodeRecord>, j: string) returns (n: NodeRecord)
    requires DistinctIds(candidates) && Count(candidates, ExitOutsideOf(j)) > |others|
    ensures n in candidates && n.exitNode && PrimaryJurisdiction(n) != j && n.serverId !in Ids(others)
  {
    hide Filter;
    var good := Filter(candidates, ExitOutsideOf(j));
    FilterDistinct(candidates, ExitOutsideOf(j));
    DistinctIdCount(good);
    DistinctIdCount(others);
    DifferenceSize(Ids(good), Ids(others));
    var id :| id in Ids(good) - Ids(others);
    n :| n in good && n.serverId == id;
    FilterMember(candidates, ExitOutsideOf(j), n);
  }

  lemma SameIdSameNode(s: seq<NodeRecord>, a: NodeRecord, b: NodeRecord)
    requires DistinctIds(s) && a in s && b in s && a.serverId == b.serverId
    ensures a == b
  {
  }

  lemma {:induction false} FilterDistinct(s: seq<NodeRecord>, p: NodeRecord -> bool)
    requires DistinctIds(s)
    ensures DistinctIds(Filter(s, p))
  {
    if s != [] {
      var s', x := s[..|s| - 1], s[|s| - 1];
      FilterDistinct(s', p);
      var f := Filter(s', p);
      forall i | 0 <= i < |f| ensures f[i].serverId != x.serverId {
        FilterMember(s', p, f[i]);
      }
    }
  }

  lemma WithoutDistinct(nodes: seq<NodeRecord>, own: string)
    requires DistinctIds(nodes)
    ensures DistinctIds(Without(nodes, own))
  {
    FilterDistinct(nodes, NotServer(own));
  }

  lemma EnoughForMiddle(candidates: seq<NodeRecord>, n: nat)
    requires DistinctIds(candidates) && Count(candidates, ExitOutsideOf("")) >= n
    ensures |Ids(Ranked(candidates))| >= n
  {
    FilterShrinks(candidates, ExitOutsideOf(""));
    DistinctIdCount(candidates);
    RankedPermutes(candidates);
    SameIds(Ranked(candidates), candidates);
  }

  // ----- when neighbours differ -----

  /** No two consecutive hops, the exit included, share a jurisdiction. */
  lemma AllNeighboursDiffer(own: string, nodes: seq<NodeRecord>, imsi: string, env: Surroundings, i: nat)
    requires BuildResult(own, nodes, imsi, env).Ok?
    requires DistinctIds(nodes) && AtMostThreePerJurisdiction(Without(nodes, own))
    requires |Without(nodes, own)| >= MiddleCount(env.draws(0)) + 2
    requires 0 < i < |BuildResult(own, nodes, imsi, env).value.hops|
    ensures var hops := BuildResult(own, nodes, imsi, env).value.hops; hops[i].jurisdiction != hops[i - 1].jurisdiction
  {
    hide Exits, Ranked, Select, Without, LegalPicks, BuildResult;
    var mids, exit := BuiltFromAllowedChoice(own, nodes, imsi, env);
    var candidates := Without(nodes, own);
    WithoutDistinct(nodes, own);
    if i == |mids| {
      ExitFacts(candidates, mids, exit);
    } else {
      NeighboursDiffer(candidates, mids, i);
    }
  }
}
