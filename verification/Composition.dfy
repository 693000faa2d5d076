/** From gossip to circuits: the node list that a gossip store hands out meets what the strongest
    construction theorems ask for. */
module Composition {
  import opened Collections
  import opened Nodes
  import opened Selection
  import opened Constructor
  import opened BuildExact
  import opened GossipRecords
  import opened GossipStores
  import opened Flood
  import opened FloodListing
  import opened GossipServers

  /** What circuit construction reads of a listing. */
  ghost function NodesOf(out: seq<Record>): (s: seq<NodeRecord>)
    ensures |s| == |out|
  {
    seq(|out|, i requires 0 <= i < |out| => out[i].node)
  }

  lemma ListingDistinct(st: StoreState, out: seq<Record>)
    requires Lists(st, out)
    ensures DistinctIds(NodesOf(out))
  {
  }

  /** In any state that the network can reach, whatever messages are injected, a circuit built from a
      node's listing runs only through servers whose verified record that node holds and lists as active,
      and never through itself. */
  lemma HopsAreVerified(g: Graph, es: seq<NetEvent>, own: string, out: seq<Record>, imsi: string,
                        env: Surroundings, i: nat)
    returns (r: Record)
    requires GoodGraph(g) && Flood.Valid(g, Start(g), es) && own in g.peers
    requires own in Flood.Final(g, Start(g), es).stores && Lists(Flood.Final(g, Start(g), es).stores[own], out)
    requires BuildResult(own, NodesOf(out), imsi, env).Ok?
    requires i < |BuildResult(own, NodesOf(out), imsi, env).value.hops|
    ensures var h := BuildResult(own, NodesOf(out), imsi, env).value.hops[i];
            r in out && Made(h, r.node) && g.verify(r) && r.ServerId() != own
  {
    hide BuildResult, RecordKey;
    StartScreened(g);
    var history := EachNodeRuns(g, Start(g), es, own, []);
    var n := Node(own, g.verify);
    AlwaysTrustworthy(n, history);
    BuildWellFormed(own, NodesOf(out), imsi, env);
    var h := BuildResult(own, NodesOf(out), imsi, env).value.hops[i];
    var node :| node in NodesOf(out) && Made(h, node);
    var k :| 0 <= k < |out| && NodesOf(out)[k] == node;
    r := out[k];
  }

  /** Enough nodes, exits and jurisdictions for every theorem on construction. */
  ghost predicate Diverse(s: seq<NodeRecord>) {
    && LargeEnough(s) && |s| >= MAX_HOPS + 1 && AtMostThreePerJurisdiction(s)
    && forall j :: Count(s, ExitOutsideOf(j)) >= MAX_HOPS - 1
  }

  /** With enough diversity among the records a node lists, construction succeeds for every random value
      and no two consecutive hops share a jurisdiction, the exit included. The listing itself supplies
      the distinct servers. */
  lemma DiverseListingAlwaysBuilds(st: StoreState, out: seq<Record>, own: string, imsi: string, env: Surroundings)
    requires Lists(st, out) && Diverse(Without(NodesOf(out), own)) && Fortunate(env)
    ensures BuildResult(own, NodesOf(out), imsi, env).Ok?
    ensures var c := BuildResult(own, NodesOf(out), imsi, env).value;
            && WellFormed(own, NodesOf(out), c)
            && forall i :: 0 < i < |c.hops| ==> c.hops[i].jurisdiction != c.hops[i - 1].jurisdiction
  {
    hide BuildResult, WellFormed, Without;
    ListingDistinct(st, out);
    ExitAlwaysFound(own, NodesOf(out), imsi, env);
    BuildWellFormed(own, NodesOf(out), imsi, env);
    var c := BuildResult(own, NodesOf(out), imsi, env).value;
    forall i | 0 < i < |c.hops| ensures c.hops[i].jurisdiction != c.hops[i - 1].jurisdiction {
      AllNeighboursDiffer(own, NodesOf(out), imsi, env, i);
    }
  }

  // ----- the whole network -----

  ghost function OtherNodes(g: Graph, records: string -> Record, own: string): set<NodeRecord> {
    set a | a in g.peers && a != own :: records(a).node
  }

  lemma {:induction false} DistinctAsSet(s: seq<NodeRecord>, all: set<NodeRecord>)
    requires DistinctIds(s) && forall x :: x in s <==> x in all
    ensures multiset(s) == multiset(all)
    decreases |s|
  {
    if s == [] {
      assert forall x :: x in all ==> x in s;
      assert all == {};
    } else {
      var s', x := s[..|s| - 1], s[|s| - 1];
      assert s == s' + [x];
      assert DistinctIds(s') && x !in s';
      var fewer := all - {x};
      assert forall y :: y in s <==> y in s' || y == x;
      hide DistinctIds;
      DistinctAsSet(s', fewer);
      assert multiset(all) == multiset(fewer) + multiset{x} by {
        assert x in all;
      }
    }
  }

  lemma InNodesOf(out: seq<Record>, x: NodeRecord)
    ensures x in NodesOf(out) <==> exists r :: r in out && r.node == x
  {
    if x in NodesOf(out) {
      var i :| 0 <= i < |out| && NodesOf(out)[i] == x;
      assert out[i] in out;
    }
    if r :| r in out && r.node == x {
      var i :| 0 <= i < |out| && out[i] == r;
      assert NodesOf(out)[i] == x;
    }
  }

  /** In a settled network what a node can build from is, up to order, all the other nodes. */
  lemma CandidatesAreTheOthers(g: Graph, es: seq<NetEvent>, records: string -> Record, start: int,
                               own: string, out: seq<Record>)
    requires Settled(g, es, records, start) && own in g.peers
    requires own in Flood.Final(g, Start(g), es).stores && Lists(Flood.Final(g, Start(g), es).stores[own], out)
    ensures multiset(Without(NodesOf(out), own)) == multiset(OtherNodes(g, records, own))
  {
    var s := Without(NodesOf(out), own);
    assert DistinctIds(s) by {
      ListingDistinct(Flood.Final(g, Start(g), es).stores[own], out);
      WithoutDistinct(NodesOf(out), own);
    }
    hide Without, Lists, NodesOf;
    forall x ensures x in s <==> x in OtherNodes(g, records, own) {
      CandidateIff(g, es, records, start, own, out, x);
    }
    DistinctAsSet(s, OtherNodes(g, records, own));
  }

  lemma CandidateIff(g: Graph, es: seq<NetEvent>, records: string -> Record, start: int,
                     own: string, out: seq<Record>, x: NodeRecord)
    requires Settled(g, es, records, start) && own in g.peers
    requires own in Flood.Final(g, Start(g), es).stores && Lists(Flood.Final(g, Start(g), es).stores[own], out)
    ensures x in Without(NodesOf(out), own) <==> x in OtherNodes(g, records, own)
  {
    FilterMember(NodesOf(out), NotServer(own), x);
    InNodesOf(out, x);
    var id := x.serverId;
    assert id in g.peers ==> records(id).ServerId() == id;
    hide Settled, Lists, NodesOf;
    if x in Without(NodesOf(out), own) {
      var r :| r in out && r.node == x;
      ListsExactlyTheOthers(g, es, records, start, own, out, r);
    }
    if x in OtherNodes(g, records, own) {
      var a :| a in g.peers && a != own && records(a).node == x;
      ServerOfRecord(g, es, records, start, a);
      ListsExactlyTheOthers(g, es, records, start, own, out, records(a));
    }
  }

  lemma ServerOfRecord(g: Graph, es: seq<NetEvent>, records: string -> Record, start: int, a: string)
    requires Settled(g, es, records, start) && a in g.peers
    ensures records(a).ServerId() == a
  {
  }

  /** Diversity does not depend on the order. */
  lemma PermutedDiverse(a: seq<NodeRecord>, b: seq<NodeRecord>)
    requires multiset(a) == multiset(b) && Diverse(b)
    ensures Diverse(a)
  {
    SameIds(a, b);
    assert Jurisdictions(a) == Jurisdictions(b);
    assert |multiset(a)| == |a| && |multiset(b)| == |b|;
    hide Count;
    forall j ensures Count(a, PrimaryIn(j)) <= 3 && Count(a, ExitOutsideOf(j)) >= MAX_HOPS - 1 {
      CountPermutation(a, b, PrimaryIn(j));
      CountPermutation(a, b, ExitOutsideOf(j));
    }
  }

  /** Once the announcements of all nodes have spread, each node whose fellow nodes are diverse enough
      builds a well-formed circuit for every random value, with a change of jurisdiction at every hop.
      `others` are the fellow nodes' records in any order. */
  lemma SettledNetworkBuilds(g: Graph, es: seq<NetEvent>, records: string -> Record, start: int, own: string,
                             others: seq<NodeRecord>, out: seq<Record>, imsi: string, env: Surroundings)
    requires Settled(g, es, records, start) && own in g.peers
    requires own in Flood.Final(g, Start(g), es).stores && Lists(Flood.Final(g, Start(g), es).stores[own], out)
    requires multiset(others) == multiset(OtherNodes(g, records, own))
    requires Diverse(others) && Fortunate(env)
    ensures BuildResult(own, NodesOf(out), imsi, env).Ok?
    ensures var c := BuildResult(own, NodesOf(out), imsi, env).value;
            && WellFormed(own, NodesOf(out), c)
            && forall i :: 0 < i < |c.hops| ==> c.hops[i].jurisdiction != c.hops[i - 1].jurisdiction
  {
    var st := Flood.Final(g, Start(g), es).stores[own];
    CandidatesAreTheOthers(g, es, records, start, own, out);
    hide Settled, Lists, Without, BuildResult, WellFormed, NodesOf, OtherNodes, Diverse, Fortunate;
    PermutedDiverse(Without(NodesOf(out), own), others);
    DiverseListingAlwaysBuilds(st, out, own, imsi, env);
  }
}
