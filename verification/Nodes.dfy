/** The node records that circuits are built from. */
module Nodes {

  datatype NodeRecord = NodeRecord(
    serverId: string,
    wireGuardKey: string,
    wireGuard: string,
    jurisdictions: seq<string>,
    regions: seq<string>,
    uptime30d: real,
    simPoolSize: int,
    exitNode: bool,
    maxCircuits: int)

  /** Weighted preference. The source computes it in floating point; rounding is not modelled. */
  function Score(n: NodeRecord): real {
    n.uptime30d * 100.0 + n.simPoolSize as real
  }

  function PrimaryJurisdiction(n: NodeRecord): string {
    if |n.jurisdictions| > 0 then n.jurisdictions[0] else ""
  }

  // Named predicates over nodes, so that filters and counts can be compared.

  function NotServer(id: string): NodeRecord -> bool {
    (n: NodeRecord) => n.serverId != id
  }

  function NotAmong(ids: set<string>): NodeRecord -> bool {
    (n: NodeRecord) => n.serverId !in ids
  }

  function OutsideOf(j: string): NodeRecord -> bool {
    (n: NodeRecord) => PrimaryJurisdiction(n) != j
  }

  function PrimaryIn(j: string): NodeRecord -> bool {
    (n: NodeRecord) => PrimaryJurisdiction(n) == j
  }

  function HasScore(v: real): NodeRecord -> bool {
    (n: NodeRecord) => Score(n) == v
  }

  function ScoresAbove(v: real): NodeRecord -> bool {
    (n: NodeRecord) => Score(n) > v
  }

  function ExitOutsideOf(j: string): NodeRecord -> bool {
    (n: NodeRecord) => n.exitNode && PrimaryJurisdiction(n) != j
  }

  function Ids(s: seq<NodeRecord>): set<string> {
    set n | n in s :: n.serverId
  }

  ghost predicate DistinctIds(s: seq<NodeRecord>) {
    forall i, j :: 0 <= i < j < |s| ==> s[i].serverId != s[j].serverId
  }

  /** A node in one jurisdiction, for examples: its keys and addresses are its id. */
  function Plain(id: string, j: string): NodeRecord {
    NodeRecord(id, id, id, [j], [], 0.0, 0, true, 0)
  }
}
