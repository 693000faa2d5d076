/** `checkRotations` and `rotate`: replacing due circuits, and the delayed teardown of WireGuard peers. */
module CircuitRotation {
  import opened Collections
  import opened Nodes
  import opened Constructor
  import opened CircuitStores

  /** The old circuit of a rotation whose peers are still to be removed, and its replacement. */
  datatype Teardown = Teardown(prior: Circuit, next: Circuit)

  datatype Tunnels = Tunnels(ix: Index, peers: set<string>, pending: seq<Teardown>)

  /** What one rotation attempt meets: the clock when the circuit is examined, the gossip reply (if
      any), what construction reads, and the peer keys whose add command succeeds. */
  datatype Attempt = Attempt(checkedAt: int, nodes: Option<seq<NodeRecord>>, env: Surroundings, addOk: set<string>)

  ghost predicate Due(c: Circuit, t: int) {
    t > c.rotateAt
  }

  ghost function Keys(c: Circuit): set<string> {
    set h | h in c.hops :: h.wireGuardPubKey
  }

  ghost function Servers(c: Circuit): set<string> {
    set h | h in c.hops :: h.serverId
  }

  /** The peer keys that a teardown removes. */
  ghost function Dropped(t: Teardown): set<string> {
    set h | h in t.prior.hops && h.serverId !in Servers(t.next) :: h.wireGuardPubKey
  }

  ghost function Replacement(own: string, c: Circuit, a: Attempt): Option<Circuit> {
    if a.nodes.None? then None
    else match BuildResult(own, a.nodes.value, c.deviceImsi, a.env)
      case Ok(n) => Some(n)
      case Err(_) => None
  }

  ghost function Replace(s: Tunnels, prior: Circuit, next: Circuit, addOk: set<string>): Tunnels {
    Tunnels(PutIndex(s.ix, next), s.peers + Keys(next) * addOk, s.pending + [Teardown(prior, next)])
  }

  ghost function TearDown(s: Tunnels, i: nat, removeOk: set<string>): Tunnels
    requires i < |s.pending|
  {
    Tunnels(s.ix, s.peers - Dropped(s.pending[i]) * removeOk, s.pending[..i] + s.pending[i + 1..])
  }

  ghost function TryRotate(own: string, s: Tunnels, c: Circuit, a: Attempt): Tunnels {
    match Replacement(own, c, a)
    case None => s
    case Some(next) => Replace(s, c, next, a.addOk)
  }

  /** The pass over the first `n` circuits of a snapshot. */
  ghost function Pass(own: string, s: Tunnels, cs: seq<Circuit>, attempts: nat -> Attempt, n: nat): Tunnels
    requires n <= |cs|
  {
    if n == 0 then s
    else
      var before := Pass(own, s, cs, attempts, n - 1);
      if Due(cs[n - 1], attempts(n - 1).checkedAt)
      then TryRotate(own, before, cs[n - 1], attempts(n - 1))
      else before
  }

  method HopInCircuit(c: Circuit, id: string) returns (found: bool)
    ensures found <==> id in Servers(c)
  {
    for i := 0 to |c.hops|
      invariant forall k :: 0 <= k < i ==> c.hops[k].serverId != id
    {
      if c.hops[i].serverId == id {
        return true;
      }
    }
    return false;
  }

  class RotationManager {
    const own: string
    const store: CircuitStore
    var peers: set<string>
    var pending: seq<Teardown>

    constructor (own: string, store: CircuitStore)
      ensures this.own == own && this.store == store && peers == {} && pending == []
    {
      this.own, this.store := own, store;
      peers, pending := {}, [];
    }

    ghost function View(): Tunnels
      reads this, store
    {
      Tunnels(store.View(), peers, pending)
    }

    method AddPeers(c: Circuit, addOk: set<string>)
      modifies this`peers
      ensures peers == old(peers) + Keys(c) * addOk
    {
      for i := 0 to |c.hops|
        invariant peers == old(peers) + (set h | h in c.hops[..i] :: h.wireGuardPubKey) * addOk
      {
        assert c.hops[..i + 1] == c.hops[..i] + [c.hops[i]];
        if c.hops[i].wireGuardPubKey in addOk {
          peers := peers + {c.hops[i].wireGuardPubKey};
        }
      }
      assert c.hops[..|c.hops|] == c.hops;
    }

    method Rotate(prior: Circuit, a: Attempt) returns (rotated: bool)
      modifies this, store
      ensures View() == TryRotate(own, old(View()), prior, a)
      ensures rotated <==> Replacement(own, prior, a).Some?
    {
      hide BuildResult, Keys, PutIndex;
      if a.nodes.None? {
        return false;
      }
      var built := Build(own, a.nodes.value, prior.deviceImsi, a.env);
      if built.Err? {
        return false;
      }
      var next := built.value;
      AddPeers(next, a.addOk);
      store.Put(next);
      pending := pending + [Teardown(prior, next)];
      return true;
    }

    /** The delayed part of a rotation, once its overlap window has passed. */
    method FinishTeardown(i: nat, removeOk: set<string>)
      requires i < |pending|
      modifies this
      ensures View() == TearDown(old(View()), i, removeOk)
    {
      var t := pending[i];
      ghost var peers0 := peers;
      for k := 0 to |t.prior.hops|
        invariant pending == old(pending)
        invariant peers == peers0 - removeOk
                         * set h | h in t.prior.hops[..k] && h.serverId !in Servers(t.next) :: h.wireGuardPubKey
      {
        assert t.prior.hops[..k + 1] == t.prior.hops[..k] + [t.prior.hops[k]];
        var kept := HopInCircuit(t.next, t.prior.hops[k].serverId);
        if !kept && t.prior.hops[k].wireGuardPubKey in removeOk {
          peers := peers - {t.prior.hops[k].wireGuardPubKey};
        }
      }
      assert t.prior.hops[..|t.prior.hops|] == t.prior.hops;
      pending := pending[..i] + pending[i + 1..];
    }

    method CheckRotations(attempts: nat -> Attempt) returns (cs: seq<Circuit>)
      requires Sound(store.View())
      modifies this, store
      ensures Snapshot(old(store.View()), cs)
      ensures View() == Pass(own, old(View()), cs, attempts, |cs|)
      ensures Sound(store.View())
    {
      cs := store.All();
      for i := 0 to |cs|
        invariant View() == Pass(own, old(View()), cs, attempts, i)
      {
        if attempts(i).checkedAt > cs[i].rotateAt {
          var rotated := Rotate(cs[i], attempts(i));
        }
      }
      PassPerDevice(own, old(View()), cs, attempts, |cs|);
    }
  }

  // ----- the rotation pass -----

  /** What a device's circuit becomes. */
  ghost function Outcome(own: string, c: Circuit, a: Attempt): Circuit {
    if Due(c, a.checkedAt) && Replacement(own, c, a).Some? then Replacement(own, c, a).value else c
  }

  lemma ReplacementFacts(own: string, c: Circuit, a: Attempt)
    requires Replacement(own, c, a).Some?
    ensures var next := Replacement(own, c, a).value;
            && next.deviceImsi == c.deviceImsi
            && WellFormed(own, a.nodes.value, next)
            && Some(next.sessionToken) == a.env.token
            && next.rotateAt == a.env.now + CHAIN_ROTATION_INTERVAL
  {
    hide BuildResult, WellFormed;
    BuildWellFormed(own, a.nodes.value, c.deviceImsi, a.env);
    var mids, exit := BuiltFromAllowedChoice(own, a.nodes.value, c.deviceImsi, a.env);
  }

  lemma PassIndexStep(own: string, s: Tunnels, cs: seq<Circuit>, attempts: nat -> Attempt, n: nat)
    requires 0 < n <= |cs|
    ensures var c := cs[n - 1]; var a := attempts(n - 1); var ix := Pass(own, s, cs, attempts, n - 1).ix;
            Pass(own, s, cs, attempts, n).ix ==
            if Due(c, a.checkedAt) && Replacement(own, c, a).Some?
            then PutIndex(ix, Replacement(own, c, a).value) else ix
  {
    hide BuildResult, PutIndex, Keys;
  }

  lemma PassNothing(own: string, s: Tunnels, cs: seq<Circuit>, attempts: nat -> Attempt)
    ensures Pass(own, s, cs, attempts, 0) == s
  {
  }

  lemma PutCircuits(ix: Index, c: Circuit)
    ensures PutIndex(ix, c).circuits == ix.circuits[c.deviceImsi := c]
  {
  }

  /** Whatever mix of rotations fails, the pass treats each device by itself: no device appears or
      disappears, and each ends with its own outcome. */
  lemma {:induction false} PassPerDevice(own: string, s: Tunnels, cs: seq<Circuit>, attempts: nat -> Attempt, n: nat)
    requires Sound(s.ix) && Snapshot(s.ix, cs) && n <= |cs|
    ensures var ix := Pass(own, s, cs, attempts, n).ix;
            && Sound(ix)
            && ix.circuits.Keys == s.ix.circuits.Keys
            && forall i :: 0 <= i < |cs| ==>
                 ix.circuits[cs[i].deviceImsi] == if i < n then Outcome(own, cs[i], attempts(i)) else cs[i]
    decreases n
  {
    hide Replacement, Pass, PutIndex, WellFormed;
    if n == 0 {
      PassNothing(own, s, cs, attempts);
    } else {
      PassPerDevice(own, s, cs, attempts, n - 1);
      PassIndexStep(own, s, cs, attempts, n);
      var c, a := cs[n - 1], attempts(n - 1);
      if Due(c, a.checkedAt) && Replacement(own, c, a).Some? {
        ReplacementFacts(own, c, a);
        PutSound(Pass(own, s, cs, attempts, n - 1).ix, Replacement(own, c, a).value);
        PutCircuits(Pass(own, s, cs, attempts, n - 1).ix, Replacement(own, c, a).value);
      }
    }
  }

  /** Each device keeps its circuit or has a well-formed new one; a circuit that was due when examined
      is still stored exactly when its rotation failed. The clock does not run backwards between the
      examination and the construction. */
  lemma RotationPass(own: string, s: Tunnels, cs: seq<Circuit>, attempts: nat -> Attempt, i: nat)
    requires Sound(s.ix) && Snapshot(s.ix, cs) && i < |cs|
    requires attempts(i).checkedAt <= attempts(i).env.now
    ensures var c := cs[i]; var a := attempts(i);
            var after := Pass(own, s, cs, attempts, |cs|).ix.circuits;
            && after.Keys == s.ix.circuits.Keys
            && (after[c.deviceImsi] == c
                || (a.nodes.Some? && after[c.deviceImsi].deviceImsi == c.deviceImsi
                    && WellFormed(own, a.nodes.value, after[c.deviceImsi])))
            && (Due(c, a.checkedAt) ==> (after[c.deviceImsi] == c <==> Replacement(own, c, a).None?))
            && (!Due(c, a.checkedAt) ==> after[c.deviceImsi] == c)
  {
    hide Replacement, WellFormed, Pass;
    PassPerDevice(own, s, cs, attempts, |cs|);
    if Replacement(own, cs[i], attempts(i)).Some? {
      ReplacementFacts(own, cs[i], attempts(i));
      assert attempts(i).nodes.Some? by { ReplacementNeedsNodes(own, cs[i], attempts(i)); }
    }
  }

  /** When a device gets a new circuit, on the fields alone: exactly when the clock at its examination is after
      its circuit's rotation time, the gossip query worked and construction succeeded. */
  lemma RotatedIff(own: string, s: Tunnels, cs: seq<Circuit>, attempts: nat -> Attempt, i: nat)
    requires Sound(s.ix) && Snapshot(s.ix, cs) && i < |cs|
    requires attempts(i).checkedAt <= attempts(i).env.now
    ensures var c, a := cs[i], attempts(i);
            var after := Pass(own, s, cs, attempts, |cs|).ix.circuits;
            && c.deviceImsi in after
            && (after[c.deviceImsi] != c <==>
                && a.checkedAt > c.rotateAt && a.nodes.Some?
                && BuildResult(own, a.nodes.value, c.deviceImsi, a.env).Ok?)
            && (after[c.deviceImsi] != c ==>
                  Ok(after[c.deviceImsi]) == BuildResult(own, a.nodes.value, c.deviceImsi, a.env))
  {
    hide WellFormed, Pass, BuildResult;
    PassPerDevice(own, s, cs, attempts, |cs|);
    if Replacement(own, cs[i], attempts(i)).Some? {
      ReplacementFacts(own, cs[i], attempts(i));
    }
  }

  /** A circuit built at time `t` outlives every pass that examines it up to 600 seconds later, and no later
      pass that can build another one. */
  lemma CircuitLastsTenMinutes(own: string, s: Tunnels, cs: seq<Circuit>, attempts: nat -> Attempt, i: nat,
                               nodes: seq<NodeRecord>, built: Surroundings)
    requires Sound(s.ix) && Snapshot(s.ix, cs) && i < |cs|
    requires attempts(i).checkedAt <= attempts(i).env.now
    requires BuildResult(own, nodes, cs[i].deviceImsi, built) == Ok(cs[i])
    ensures var c, a := cs[i], attempts(i);
            var after := Pass(own, s, cs, attempts, |cs|).ix.circuits;
            && c.deviceImsi in after
            && (a.checkedAt <= built.now + 600_000_000_000 ==> after[c.deviceImsi] == c)
            && (a.checkedAt > built.now + 600_000_000_000 ==>
                  (after[c.deviceImsi] != c <==>
                   a.nodes.Some? && BuildResult(own, a.nodes.value, c.deviceImsi, a.env).Ok?))
  {
    hide Pass, BuildResult;
    var mids, exit := BuiltFromAllowedChoice(own, nodes, cs[i].deviceImsi, built);
    RotatedIff(own, s, cs, attempts, i);
  }

  lemma ReplacementNeedsNodes(own: string, c: Circuit, a: Attempt)
    requires Replacement(own, c, a).Some?
    ensures a.nodes.Some?
  {
  }

  /** Random tokens: pairwise different and none of them held before the pass. */
  ghost predicate FreshTokens(ix: Index, attempts: nat -> Attempt, n: nat) {
    && (forall i, d :: 0 <= i < n && d in ix.circuits ==> attempts(i).env.token != Some(ix.circuits[d].sessionToken))
    && (forall i, j :: 0 <= i < j < n && attempts(i).env.token.Some? ==> attempts(i).env.token != attempts(j).env.token)
  }

  lemma TokenUnheld(own: string, s: Tunnels, cs: seq<Circuit>, attempts: nat -> Attempt, n: nat)
    requires Sound(s.ix) && Snapshot(s.ix, cs) && 0 < n <= |cs| && FreshTokens(s.ix, attempts, |cs|)
    requires Replacement(own, cs[n - 1], attempts(n - 1)).Some?
    ensures !HeldByOther(Pass(own, s, cs, attempts, n - 1).ix, Replacement(own, cs[n - 1], attempts(n - 1)).value)
  {
    hide Replacement, Pass, WellFormed;
    PassPerDevice(own, s, cs, attempts, n - 1);
    var ix, next := Pass(own, s, cs, attempts, n - 1).ix, Replacement(own, cs[n - 1], attempts(n - 1)).value;
    ReplacementFacts(own, cs[n - 1], attempts(n - 1));
    forall d | d in ix.circuits && d != next.deviceImsi ensures ix.circuits[d].sessionToken != next.sessionToken {
      assert s.ix.circuits[d] in cs;
      var i :| 0 <= i < |cs| && cs[i] == s.ix.circuits[d];
      assert cs[i].deviceImsi == d;
      if i < n - 1 && Replacement(own, cs[i], attempts(i)).Some? {
        ReplacementFacts(own, cs[i], attempts(i));
      }
    }
  }

  lemma {:induction false} PassKeepsTokens(own: string, s: Tunnels, cs: seq<Circuit>, attempts: nat -> Attempt, n: nat)
    requires Sound(s.ix) && Complete(s.ix) && Snapshot(s.ix, cs) && n <= |cs|
    requires FreshTokens(s.ix, attempts, |cs|)
    ensures Complete(Pass(own, s, cs, attempts, n).ix)
    decreases n
  {
    hide Replacement, Pass, PutIndex, WellFormed;
    if n == 0 {
      PassNothing(own, s, cs, attempts);
    } else {
      PassKeepsTokens(own, s, cs, attempts, n - 1);
      PassIndexStep(own, s, cs, attempts, n);
      PassPerDevice(own, s, cs, attempts, n - 1);
      var c, a := cs[n - 1], attempts(n - 1);
      var ix := Pass(own, s, cs, attempts, n - 1).ix;
      if Due(c, a.checkedAt) && Replacement(own, c, a).Some? {
        var next := Replacement(own, c, a).value;
        TokenUnheld(own, s, cs, attempts, n);
        PutCompleteIff(ix, next);
      }
    }
  }

  /** The pass keeps both indexes in agreement and of equal size when its tokens are fresh. */
  lemma PassKeepsAgreement(own: string, s: Tunnels, cs: seq<Circuit>, attempts: nat -> Attempt)
    requires Sound(s.ix) && Complete(s.ix) && Snapshot(s.ix, cs) && FreshTokens(s.ix, attempts, |cs|)
    ensures var ix := Pass(own, s, cs, attempts, |cs|).ix;
            Sound(ix) && Complete(ix) && |ix.circuits| == |ix.byToken| == |s.ix.circuits|
  {
    PassPerDevice(own, s, cs, attempts, |cs|);
    PassKeepsTokens(own, s, cs, attempts, |cs|);
    var ix := Pass(own, s, cs, attempts, |cs|).ix;
    SizesAgreeIff(ix);
    assert |ix.circuits| == |ix.circuits.Keys| == |s.ix.circuits.Keys|;
  }

  // ----- peers over whole runs -----

  datatype TunnelEvent = Rotated(next: Circuit, addOk: set<string>) | TornDown(i: nat, removeOk: set<string>)

  ghost predicate Enabled(s: Tunnels, e: TunnelEvent) {
    match e
    case Rotated(next, _) => next.deviceImsi in s.ix.circuits
    case TornDown(i, _) => i < |s.pending|
  }

  ghost function Step(s: Tunnels, e: TunnelEvent): Tunnels
    requires Enabled(s, e)
  {
    match e
    case Rotated(next, addOk) => Replace(s, s.ix.circuits[next.deviceImsi], next, addOk)
    case TornDown(i, removeOk) => TearDown(s, i, removeOk)
  }

  /** Each successful rotation of a pass is one such event: the circuit it replaces is the stored one. */
  lemma PassTakesTunnelSteps(own: string, s: Tunnels, cs: seq<Circuit>, attempts: nat -> Attempt, n: nat)
    requires Sound(s.ix) && Snapshot(s.ix, cs) && 0 < n <= |cs|
    requires Due(cs[n - 1], attempts(n - 1).checkedAt) && Replacement(own, cs[n - 1], attempts(n - 1)).Some?
    ensures var before := Pass(own, s, cs, attempts, n - 1);
            var e := Rotated(Replacement(own, cs[n - 1], attempts(n - 1)).value, attempts(n - 1).addOk);
            Enabled(before, e) && Pass(own, s, cs, attempts, n) == Step(before, e)
  {
    hide Replacement, WellFormed, PutIndex, Keys;
    PassPerDevice(own, s, cs, attempts, n - 1);
    ReplacementFacts(own, cs[n - 1], attempts(n - 1));
  }

  ghost predicate AddsPeer(e: TunnelEvent, k: string) {
    e.Rotated? && k in e.addOk && exists h :: h in e.next.hops && h.wireGuardPubKey == k
  }

  ghost predicate RemovesPeer(s: Tunnels, e: TunnelEvent, k: string)
    requires Enabled(s, e)
  {
    && e.TornDown? && k in e.removeOk
    && exists h :: && h in s.pending[e.i].prior.hops && h.wireGuardPubKey == k
                   && forall n :: n in s.pending[e.i].next.hops ==> n.serverId != h.serverId
  }

  /** Which peers there are after a step, also when commands fail: those added by a command that worked, and
      those there before that no working command removed. */
  lemma PeerAfterIff(s: Tunnels, e: TunnelEvent, k: string)
    requires Enabled(s, e)
    ensures k in Step(s, e).peers <==> AddsPeer(e, k) || (k in s.peers && !RemovesPeer(s, e, k))
  {
    hide PutIndex;
  }

  ghost predicate KeyOneToOne(keyOf: string -> string) {
    forall a, b :: keyOf(a) == keyOf(b) ==> a == b
  }

  ghost predicate Keyed(keyOf: string -> string, c: Circuit) {
    forall h :: h in c.hops ==> h.wireGuardPubKey == keyOf(h.serverId)
  }

  ghost predicate Tearing(s: Tunnels, imsi: string) {
    exists t :: t in s.pending && t.next.deviceImsi == imsi
  }

  /** Commands succeed, server id and key determine each other, and a device is not rotated while
      its previous teardown is outstanding. */
  ghost predicate Orderly(keyOf: string -> string, s: Tunnels, e: TunnelEvent)
    requires Enabled(s, e)
  {
    match e
    case Rotated(next, addOk) => Keys(next) <= addOk && Keyed(keyOf, next) && !Tearing(s, next.deviceImsi)
    case TornDown(i, removeOk) => Dropped(s.pending[i]) <= removeOk
  }

  ghost function StoredKeys(s: Tunnels): set<string> {
    set d, h | d in s.ix.circuits && h in s.ix.circuits[d].hops :: h.wireGuardPubKey
  }

  ghost function OldKeys(s: Tunnels): set<string> {
    set t, h | t in s.pending && h in t.prior.hops :: h.wireGuardPubKey
  }

  /** Every stored circuit has all its peers. */
  ghost predicate Covered(s: Tunnels) {
    forall d :: d in s.ix.circuits ==> Keys(s.ix.circuits[d]) <= s.peers
  }

  ghost predicate Consistent(keyOf: string -> string, s: Tunnels) {
    && Sound(s.ix)
    && (forall d :: d in s.ix.circuits ==> Keyed(keyOf, s.ix.circuits[d]))
    && (forall t :: t in s.pending ==> Keyed(keyOf, t.prior) && t.next.deviceImsi in s.ix.circuits
                                       && s.ix.circuits[t.next.deviceImsi] == t.next)
    && (forall i, j :: 0 <= i < j < |s.pending| ==> s.pending[i].next.deviceImsi != s.pending[j].next.deviceImsi)
    && s.peers <= StoredKeys(s) + OldKeys(s)
  }

  lemma RotateKeeps(keyOf: string -> string, s: Tunnels, e: TunnelEvent)
    requires e.Rotated? && Enabled(s, e) && Consistent(keyOf, s) && Orderly(keyOf, s, e)
    ensures Consistent(keyOf, Step(s, e))
    ensures Covered(s) ==> Covered(Step(s, e))
  {
    hide PutIndex, StoredKeys, OldKeys;
    PutSound(s.ix, e.next);
    PutCircuits(s.ix, e.next);
    RotateLeaksNothing(keyOf, s, e);
  }

  lemma RotateLeaksNothing(keyOf: string -> string, s: Tunnels, e: TunnelEvent)
    requires e.Rotated? && Enabled(s, e) && Consistent(keyOf, s)
    ensures Step(s, e).peers <= StoredKeys(Step(s, e)) + OldKeys(Step(s, e))
  {
    var s', prior := Step(s, e), s.ix.circuits[e.next.deviceImsi];
    PutCircuits(s.ix, e.next);
    hide PutIndex;
    assert s'.pending[|s.pending|] == Teardown(prior, e.next);
    forall k | k in s'.peers ensures k in StoredKeys(s') + OldKeys(s') {
      if k in Keys(e.next) {
        var h :| h in e.next.hops && h.wireGuardPubKey == k;
        assert s'.ix.circuits[e.next.deviceImsi] == e.next;
      } else if k in StoredKeys(s) {
        var d, h :| d in s.ix.circuits && h in s.ix.circuits[d].hops && h.wireGuardPubKey == k;
        assert d == e.next.deviceImsi ==> Teardown(prior, e.next) in s'.pending && h in prior.hops;
        assert d != e.next.deviceImsi ==> s'.ix.circuits[d] == s.ix.circuits[d];
      } else {
        var t, h :| t in s.pending && h in t.prior.hops && h.wireGuardPubKey == k;
        assert t in s'.pending;
      }
    }
  }

  lemma RemainingPending(s: Tunnels, i: nat, t: Teardown)
    requires i < |s.pending|
    ensures t in s.pending[..i] + s.pending[i + 1..] ==> t in s.pending
    ensures t in s.pending && t != s.pending[i] ==> t in s.pending[..i] + s.pending[i + 1..]
  {
  }

  lemma FinishKeeps(keyOf: string -> string, s: Tunnels, e: TunnelEvent)
    requires e.TornDown? && Enabled(s, e) && Consistent(keyOf, s) && Orderly(keyOf, s, e)
    ensures Consistent(keyOf, Step(s, e))
  {
    var s', gone := Step(s, e), s.pending[e.i];
    forall t { RemainingPending(s, e.i, t); }
    assert StoredKeys(s') == StoredKeys(s);
    forall k | k in s'.peers ensures k in StoredKeys(s') + OldKeys(s') {
      if k in OldKeys(s) {
        var t, h :| t in s.pending && h in t.prior.hops && h.wireGuardPubKey == k;
        if h.serverId in Servers(t.next) {
          KeptKeyStored(keyOf, s, t, h);
        } else if t != gone {
          assert t in s'.pending;
        }
      }
    }
  }

  lemma KeptKeyStored(keyOf: string -> string, s: Tunnels, t: Teardown, h: Hop)
    requires Consistent(keyOf, s) && t in s.pending && h in t.prior.hops && h.serverId in Servers(t.next)
    ensures h.wireGuardPubKey in StoredKeys(s)
  {
  }

  /** Servers that a teardown drops and that another device's circuit still runs through. */
  ghost predicate DropsNeededServer(s: Tunnels, i: nat)
    requires i < |s.pending|
  {
    var t := s.pending[i];
    exists d, id :: d in s.ix.circuits && d != t.next.deviceImsi
                 && id in Servers(t.prior) && id !in Servers(t.next) && id in Servers(s.ix.circuits[d])
  }

  /** A teardown leaves every stored circuit its peers exactly when no server it drops is on another
      device's circuit. */
  lemma TeardownKeepsCoverIff(keyOf: string -> string, s: Tunnels, e: TunnelEvent)
    requires KeyOneToOne(keyOf)
    requires e.TornDown? && Enabled(s, e) && Consistent(keyOf, s) && Orderly(keyOf, s, e) && Covered(s)
    ensures Covered(Step(s, e)) <==> !DropsNeededServer(s, e.i)
  {
    var s', t := Step(s, e), s.pending[e.i];
    if DropsNeededServer(s, e.i) {
      var d, id :| d in s.ix.circuits && d != t.next.deviceImsi
                && id in Servers(t.prior) && id !in Servers(t.next) && id in Servers(s.ix.circuits[d]);
      var h :| h in t.prior.hops && h.serverId == id;
      var g :| g in s.ix.circuits[d].hops && g.serverId == id;
      assert Keyed(keyOf, t.prior) && Keyed(keyOf, s.ix.circuits[d]);
      assert keyOf(id) in Dropped(t) && keyOf(id) in Keys(s.ix.circuits[d]);
      assert keyOf(id) !in s'.peers;
      assert d in s'.ix.circuits;
    } else {
      forall d, k | d in s.ix.circuits && k in Keys(s.ix.circuits[d]) ensures k in s'.peers {
        assert k in s.peers;
        if k in Dropped(t) {
          DroppedKeyNeeded(keyOf, s, e.i, d, k);
        }
      }
    }
  }

  lemma DroppedKeyNeeded(keyOf: string -> string, s: Tunnels, i: nat, d: string, k: string)
    requires KeyOneToOne(keyOf) && Consistent(keyOf, s) && i < |s.pending|
    requires k in Dropped(s.pending[i]) && d in s.ix.circuits && k in Keys(s.ix.circuits[d])
    ensures DropsNeededServer(s, i)
  {
  }

  // ----- two devices that share a server -----

  /** A circuit over three servers, each in a jurisdiction of its own. */
  ghost function ThreeHops(imsi: string, token: string, x: string, p: string, q: string): Circuit {
    Circuit("", imsi, token, Assemble([Plain(x, x), Plain(p, p)], Plain(q, q)), 0, CHAIN_ROTATION_INTERVAL)
  }

  lemma ThreeHopsShape(imsi: string, token: string, x: string, p: string, q: string)
    ensures var hops := ThreeHops(imsi, token, x, p, q).hops;
            hops == [Hop(x, x, x, x, 0, false), Hop(p, p, p, p, 1, false), Hop(q, q, q, q, 2, true)]
  {
  }

  lemma ThreeHopsWellFormed(own: string, nodes: seq<NodeRecord>, imsi: string, token: string,
                            x: string, p: string, q: string)
    requires x != p && p != q && q != x && own !in {x, p, q}
    requires Plain(x, x) in nodes && Plain(p, p) in nodes && Plain(q, q) in nodes
    ensures WellFormed(own, nodes, ThreeHops(imsi, token, x, p, q))
  {
    ThreeHopsShape(imsi, token, x, p, q);
    var c := ThreeHops(imsi, token, x, p, q);
    hide Assemble;
    assert Made(c.hops[0], Plain(x, x)) && Made(c.hops[1], Plain(p, p)) && Made(c.hops[2], Plain(q, q));
  }

  lemma AmongFour(a: NodeRecord, b: NodeRecord, c: NodeRecord, d: NodeRecord)
    ensures var s := [a, b, c, d]; a in s && b in s && c in s && d in s
  {
  }

  ghost function SameName(): string -> string {
    (id: string) => id
  }

  lemma ThreeHopsSets(imsi: string, token: string, x: string, p: string, q: string)
    ensures var c := ThreeHops(imsi, token, x, p, q);
            && c.deviceImsi == imsi && c.sessionToken == token
            && Keys(c) == {x, p, q} == Servers(c) && Keyed(SameName(), c)
  {
    ThreeHopsShape(imsi, token, x, p, q);
    var c := ThreeHops(imsi, token, x, p, q);
    hide Assemble;
    assert c.hops[0] in c.hops && c.hops[1] in c.hops && c.hops[2] in c.hops;
  }

  /** The state of two devices, each with its circuit stored and its peers added. */
  ghost function TwoDevices(c: Circuit, d: Circuit): Tunnels {
    Tunnels(PutIndex(PutIndex(EMPTY_INDEX, c), d), Keys(c) + Keys(d), [])
  }

  lemma TwoDevicesConsistent(keyOf: string -> string, c: Circuit, d: Circuit)
    requires c.deviceImsi != d.deviceImsi && c.sessionToken != d.sessionToken && Keyed(keyOf, c) && Keyed(keyOf, d)
    ensures var s := TwoDevices(c, d);
            && Sound(s.ix) && Complete(s.ix) && Consistent(keyOf, s) && Covered(s)
            && s.ix.circuits == map[c.deviceImsi := c, d.deviceImsi := d]
  {
    var s := TwoDevices(c, d);
    PutSound(EMPTY_INDEX, c);
    PutSound(PutIndex(EMPTY_INDEX, c), d);
    assert s.ix.circuits == map[c.deviceImsi := c, d.deviceImsi := d];
    forall k | k in s.peers ensures k in StoredKeys(s) {
      if k in Keys(c) {
        var h :| h in c.hops && h.wireGuardPubKey == k;
        assert h in s.ix.circuits[c.deviceImsi].hops;
      } else {
        var h :| h in d.hops && h.wireGuardPubKey == k;
        assert h in s.ix.circuits[d.deviceImsi].hops;
      }
    }
  }

  lemma LosesPeer(s: Tunnels, up: TunnelEvent, down: TunnelEvent, a: string, b: string, x: string)
    requires up.Rotated? && Enabled(s, up) && Consistent(SameName(), s) && Covered(s) && s.pending == []
    requires up.next.deviceImsi == a && Keyed(SameName(), up.next) && up.addOk == Keys(up.next)
    requires a != b && b in s.ix.circuits
    requires x in Servers(s.ix.circuits[a]) && x in Servers(s.ix.circuits[b]) && x !in Servers(up.next)
    requires down == TornDown(0, Dropped(Teardown(s.ix.circuits[a], up.next)))
    ensures Orderly(SameName(), s, up) && Covered(Step(s, up))
    ensures Enabled(Step(s, up), down) && Orderly(SameName(), Step(s, up), down)
    ensures !Covered(Step(Step(s, up), down))
  {
    var mid := Step(s, up);
    RotateKeeps(SameName(), s, up);
    PutCircuits(s.ix, up.next);
    hide PutIndex;
    assert mid.pending == [Teardown(s.ix.circuits[a], up.next)];
    assert b in mid.ix.circuits && mid.ix.circuits[b] == s.ix.circuits[b];
    assert DropsNeededServer(mid, 0) by {
      hide Servers;
      assert x in Servers(mid.pending[0].prior) && x !in Servers(mid.pending[0].next);
    }
    TeardownKeepsCoverIff(SameName(), mid, down);
  }

  lemma FreshToken(c: Circuit, d: Circuit, next: Circuit)
    requires c.deviceImsi != d.deviceImsi && next.sessionToken !in {c.sessionToken, d.sessionToken}
    ensures !HeldByOther(TwoDevices(c, d).ix, next)
  {
  }

  /** Any two devices whose circuits share a server that the first one's next circuit leaves: the teardown
      takes the peer away from the second, although commands succeed and tokens are fresh. */
  lemma LeavingSharedServer(prior: Circuit, other: Circuit, next: Circuit, x: string)
    requires prior.deviceImsi == next.deviceImsi != other.deviceImsi && prior.sessionToken != other.sessionToken
    requires next.sessionToken !in {prior.sessionToken, other.sessionToken}
    requires Keyed(SameName(), prior) && Keyed(SameName(), other) && Keyed(SameName(), next)
    requires x in Servers(prior) && x in Servers(other) && x !in Servers(next)
    ensures var s := TwoDevices(prior, other);
            && Sound(s.ix) && Complete(s.ix) && Consistent(SameName(), s) && Covered(s) && !HeldByOther(s.ix, next)
            && s.ix.circuits == map[prior.deviceImsi := prior, other.deviceImsi := other]
    ensures var s := TwoDevices(prior, other);
            var up, down := Rotated(next, Keys(next)), TornDown(0, Dropped(Teardown(prior, next)));
            && Enabled(s, up) && Orderly(SameName(), s, up) && Covered(Step(s, up))
            && Enabled(Step(s, up), down) && Orderly(SameName(), Step(s, up), down)
            && !Covered(Step(Step(s, up), down))
  {
    hide Keyed, Keys, Servers, Sound, Complete, Covered, HeldByOther, PutIndex, Orderly, Consistent, Step, Dropped;
    TwoDevicesConsistent(SameName(), prior, other);
    FreshToken(prior, other, next);
    var down := TornDown(0, Dropped(Teardown(prior, next)));
    LosesPeer(TwoDevices(prior, other), Rotated(next, Keys(next)), down, prior.deviceImsi, other.deviceImsi, x);
  }

  /** Such circuits exist, and all of them are well-formed: devices `a` and `b` run through `x`, and `a`
      moves on to `y`. */
  lemma SharedServerLosesPeer(own: string, a: string, b: string, tokens: seq<string>,
                              x: string, y: string, p: string, q: string)
    returns (prior: Circuit, other: Circuit, next: Circuit)
    requires a != b && |tokens| == 3 && tokens[0] != tokens[1] && tokens[2] !in {tokens[0], tokens[1]}
    requires own !in {x, y, p, q} && x !in {y, p, q} && y !in {p, q} && p != q
    ensures var nodes := [Plain(x, x), Plain(y, y), Plain(p, p), Plain(q, q)];
            WellFormed(own, nodes, prior) && WellFormed(own, nodes, other) && WellFormed(own, nodes, next)
    ensures prior.deviceImsi == next.deviceImsi == a && other.deviceImsi == b
    ensures var s := TwoDevices(prior, other);
            var up, down := Rotated(next, Keys(next)), TornDown(0, Dropped(Teardown(prior, next)));
            && Sound(s.ix) && Complete(s.ix) && Consistent(SameName(), s) && Covered(s) && !HeldByOther(s.ix, next)
            && Enabled(s, up) && Orderly(SameName(), s, up) && Covered(Step(s, up))
            && Enabled(Step(s, up), down) && Orderly(SameName(), Step(s, up), down)
            && !Covered(Step(Step(s, up), down))
  {
    var nodes := [Plain(x, x), Plain(y, y), Plain(p, p), Plain(q, q)];
    hide *;
    prior, other := ThreeHops(a, tokens[0], x, p, q), ThreeHops(b, tokens[1], x, p, q);
    next := ThreeHops(a, tokens[2], y, p, q);
    AmongFour(Plain(x, x), Plain(y, y), Plain(p, p), Plain(q, q));
    ThreeHopsWellFormed(own, nodes, a, tokens[0], x, p, q);
    ThreeHopsWellFormed(own, nodes, b, tokens[1], x, p, q);
    ThreeHopsWellFormed(own, nodes, a, tokens[2], y, p, q);
    ThreeHopsSets(a, tokens[0], x, p, q);
    ThreeHopsSets(b, tokens[1], x, p, q);
    ThreeHopsSets(a, tokens[2], y, p, q);
    LeavingSharedServer(prior, other, next, x);
  }

  ghost predicate OrderlyRun(keyOf: string -> string, s: Tunnels, es: seq<TunnelEvent>)
    decreases |es|
  {
    es == [] ||
    (Enabled(s, es[0]) && Orderly(keyOf, s, es[0])
     && (es[0].TornDown? ==> !DropsNeededServer(s, es[0].i))
     && OrderlyRun(keyOf, Step(s, es[0]), es[1..]))
  }

  ghost function Final(keyOf: string -> string, s: Tunnels, es: seq<TunnelEvent>): Tunnels
    requires OrderlyRun(keyOf, s, es)
    decreases |es|
  {
    if es == [] then s else Final(keyOf, Step(s, es[0]), es[1..])
  }

  /** Over any orderly run, with any number of devices, every stored circuit keeps its peers; and
      whenever no teardown is outstanding the peers are exactly those of the stored circuits. */
  lemma {:induction false} PeersFollowCircuits(keyOf: string -> string, s: Tunnels, es: seq<TunnelEvent>)
    requires KeyOneToOne(keyOf) && Consistent(keyOf, s) && Covered(s) && OrderlyRun(keyOf, s, es)
    ensures var f := Final(keyOf, s, es);
            && Consistent(keyOf, f) && Covered(f)
            && (f.pending == [] ==> f.peers == StoredKeys(f))
    decreases |es|
  {
    hide Consistent, Orderly, Enabled, Covered, DropsNeededServer;
    if es == [] {
      AllStored(keyOf, s);
    } else {
      if es[0].Rotated? {
        RotateKeeps(keyOf, s, es[0]);
      } else {
        FinishKeeps(keyOf, s, es[0]);
        TeardownKeepsCoverIff(keyOf, s, es[0]);
      }
      PeersFollowCircuits(keyOf, Step(s, es[0]), es[1..]);
    }
  }

  lemma AllStored(keyOf: string -> string, s: Tunnels)
    requires Consistent(keyOf, s) && Covered(s)
    ensures s.pending == [] ==> s.peers == StoredKeys(s)
  {
  }

  /** One device by itself: both circuits are covered during the overlap, and afterwards the peers are
      exactly the new circuit's. */
  lemma SingleDeviceOverlap(keyOf: string -> string, s: Tunnels, imsi: string, up: TunnelEvent, down: TunnelEvent)
    requires KeyOneToOne(keyOf) && Consistent(keyOf, s) && Covered(s)
    requires s.ix.circuits.Keys == {imsi} && s.pending == []
    requires up.Rotated? && Enabled(s, up) && Orderly(keyOf, s, up)
    requires down.TornDown? && down.i == 0 && Dropped(Teardown(s.ix.circuits[imsi], up.next)) <= down.removeOk
    ensures var mid := Step(s, up);
            && mid.peers == Keys(s.ix.circuits[imsi]) + Keys(up.next)
            && Enabled(mid, down)
            && Step(mid, down).peers == Keys(up.next)
            && Step(mid, down).pending == []
  {
  }
}
