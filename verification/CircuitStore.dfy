/** The circuit store: circuits by device, and an index of the same circuits by session token. */
module CircuitStores {
  import opened Collections
  import opened Constructor

  datatype Index = Index(circuits: map<string, Circuit>, byToken: map<string, Circuit>)

  const EMPTY_INDEX := Index(map[], map[])

  ghost function PutIndex(ix: Index, c: Circuit): Index {
    var tokens :=
      if c.deviceImsi in ix.circuits then ix.byToken - {ix.circuits[c.deviceImsi].sessionToken} else ix.byToken;
    Index(ix.circuits[c.deviceImsi := c], tokens[c.sessionToken := c])
  }

  ghost function RemoveIndex(ix: Index, imsi: string): Index {
    if imsi in ix.circuits
    then Index(ix.circuits - {imsi}, ix.byToken - {ix.circuits[imsi].sessionToken})
    else ix
  }

  /** Each token entry is the circuit now stored for its own device, under its own token. */
  ghost predicate Sound(ix: Index) {
    && (forall d :: d in ix.circuits ==> ix.circuits[d].deviceImsi == d)
    && (forall t :: t in ix.byToken ==>
          && ix.byToken[t].sessionToken == t
          && ix.byToken[t].deviceImsi in ix.circuits
          && ix.circuits[ix.byToken[t].deviceImsi] == ix.byToken[t])
  }

  /** Each stored circuit is found by its token. */
  ghost predicate Complete(ix: Index) {
    forall d :: d in ix.circuits ==>
      ix.circuits[d].sessionToken in ix.byToken && ix.byToken[ix.circuits[d].sessionToken] == ix.circuits[d]
  }

  ghost predicate HeldByOther(ix: Index, c: Circuit) {
    exists d :: d in ix.circuits && d != c.deviceImsi && ix.circuits[d].sessionToken == c.sessionToken
  }

  class CircuitStore {
    var circuits: map<string, Circuit>
    var byToken: map<string, Circuit>

    ghost function View(): Index
      reads this
    {
      Index(circuits, byToken)
    }

    constructor ()
      ensures View() == EMPTY_INDEX && Sound(View())
    {
      circuits, byToken := map[], map[];
    }

    method Put(c: Circuit)
      modifies this
      ensures View() == PutIndex(old(View()), c)
      ensures old(Sound(View())) ==> Sound(View())
    {
      if Sound(View()) {
        PutSound(View(), c);
      }
      if c.deviceImsi in circuits {
        byToken := byToken - {circuits[c.deviceImsi].sessionToken};
      }
      circuits := circuits[c.deviceImsi := c];
      byToken := byToken[c.sessionToken := c];
    }

    method GetByImsi(imsi: string) returns (r: Option<Circuit>)
      ensures r == if imsi in circuits then Some(circuits[imsi]) else None
    {
      r := if imsi in circuits then Some(circuits[imsi]) else None;
    }

    method Remove(imsi: string)
      modifies this
      ensures View() == RemoveIndex(old(View()), imsi)
      ensures old(Sound(View())) ==> Sound(View())
    {
      if Sound(View()) {
        RemoveKeepsBoth(View(), imsi);
      }
      if imsi in circuits {
        byToken := byToken - {circuits[imsi].sessionToken};
        circuits := circuits - {imsi};
      }
    }

    /** Every stored circuit once, in whatever order the map is walked. */
    method All() returns (out: seq<Circuit>)
      requires Sound(View())
      ensures Snapshot(View(), out)
    {
      out := [];
      var todo := circuits.Keys;
      while todo != {}
        invariant todo <= circuits.Keys
        invariant forall i :: 0 <= i < |out| ==>
                    out[i].deviceImsi in circuits.Keys - todo && circuits[out[i].deviceImsi] == out[i]
        invariant forall i, j :: 0 <= i < j < |out| ==> out[i].deviceImsi != out[j].deviceImsi
        invariant forall d :: d in circuits.Keys - todo ==> circuits[d] in out
      {
        var d :| d in todo;
        ghost var before := out;
        out := out + [circuits[d]];
        todo := todo - {d};
        assert forall e :: e in before ==> e in out;
      }
    }

    method Count() returns (n: nat)
      ensures n == |circuits|
    {
      n := |circuits|;
    }
  }

  ghost predicate Snapshot(ix: Index, cs: seq<Circuit>) {
    && (forall i :: 0 <= i < |cs| ==> cs[i].deviceImsi in ix.circuits && ix.circuits[cs[i].deviceImsi] == cs[i])
    && (forall i, j :: 0 <= i < j < |cs| ==> cs[i].deviceImsi != cs[j].deviceImsi)
    && (forall d :: d in ix.circuits ==> ix.circuits[d] in cs)
  }

  // ----- one operation -----

  lemma PutSound(ix: Index, c: Circuit)
    requires Sound(ix)
    ensures Sound(PutIndex(ix, c))
  {
  }

  /** Storing a circuit keeps the token index complete exactly when no other device holds its token. */
  lemma PutCompleteIff(ix: Index, c: Circuit)
    requires Sound(ix) && Complete(ix)
    ensures Complete(PutIndex(ix, c)) <==> !HeldByOther(ix, c)
  {
    var ix' := PutIndex(ix, c);
    if HeldByOther(ix, c) {
      var d :| d in ix.circuits && d != c.deviceImsi && ix.circuits[d].sessionToken == c.sessionToken;
      assert ix'.circuits[d] == ix.circuits[d];
      assert ix'.byToken[c.sessionToken].deviceImsi != ix'.circuits[d].deviceImsi;
    }
  }

  lemma RemoveKeepsBoth(ix: Index, imsi: string)
    requires Sound(ix)
    ensures Sound(RemoveIndex(ix, imsi))
    ensures Complete(ix) ==> Complete(RemoveIndex(ix, imsi))
  {
  }

  /** The token index never outgrows the store, and has its size exactly when it is complete. */
  lemma SizesAgreeIff(ix: Index)
    requires Sound(ix)
    ensures |ix.byToken| <= |ix.circuits|
    ensures |ix.byToken| == |ix.circuits| <==> Complete(ix)
  {
    var device := map t | t in ix.byToken :: ix.byToken[t].deviceImsi;
    InjectiveMapSize(device);
    assert device.Keys == ix.byToken.Keys;
    assert device.Values <= ix.circuits.Keys;
    SubsetSize(device.Values, ix.circuits.Keys);
    if Complete(ix) {
      forall d | d in ix.circuits ensures d in device.Values {
        assert device[ix.circuits[d].sessionToken] == d;
      }
      assert device.Values == ix.circuits.Keys;
    }
    if device.Values == ix.circuits.Keys {
      forall d | d in ix.circuits
        ensures ix.circuits[d].sessionToken in ix.byToken && ix.byToken[ix.circuits[d].sessionToken] == ix.circuits[d]
      {
        assert d in device.Values;
        var t :| t in device && device[t] == d;
      }
    }
  }

  // ----- any sequence of operations -----

  datatype Op = Put(circuit: Circuit) | Remove(imsi: string)

  ghost function Apply(ix: Index, op: Op): Index {
    match op
    case Put(c) => PutIndex(ix, c)
    case Remove(imsi) => RemoveIndex(ix, imsi)
  }

  ghost function Run(ix: Index, ops: seq<Op>): Index
    decreases |ops|
  {
    if ops == [] then ix else Run(Apply(ix, ops[0]), ops[1..])
  }

  /** No circuit is put under a token that another device holds at that moment. */
  ghost predicate TokensFresh(ix: Index, ops: seq<Op>)
    decreases |ops|
  {
    ops == [] || ((ops[0].Put? ==> !HeldByOther(ix, ops[0].circuit)) && TokensFresh(Apply(ix, ops[0]), ops[1..]))
  }

  lemma {:induction false} RunSound(ix: Index, ops: seq<Op>)
    requires Sound(ix)
    ensures Sound(Run(ix, ops))
    decreases |ops|
  {
    if ops != [] {
      match ops[0] {
        case Put(c) => PutSound(ix, c);
        case Remove(imsi) => RemoveKeepsBoth(ix, imsi);
      }
      RunSound(Apply(ix, ops[0]), ops[1..]);
    }
  }

  lemma {:induction false} RunComplete(ix: Index, ops: seq<Op>)
    requires Sound(ix) && Complete(ix) && TokensFresh(ix, ops)
    ensures Complete(Run(ix, ops)) && |Run(ix, ops).circuits| == |Run(ix, ops).byToken|
    decreases |ops|
  {
    if ops == [] {
      SizesAgreeIff(ix);
    } else {
      match ops[0] {
        case Put(c) => PutSound(ix, c); PutCompleteIff(ix, c);
        case Remove(imsi) => RemoveKeepsBoth(ix, imsi);
      }
      RunComplete(Apply(ix, ops[0]), ops[1..]);
    }
  }

  /** From the empty store: agreement needs nothing, completeness needs fresh tokens. */
  lemma StoreAgreement(ops: seq<Op>)
    ensures Sound(Run(EMPTY_INDEX, ops))
    ensures TokensFresh(EMPTY_INDEX, ops) ==>
              Complete(Run(EMPTY_INDEX, ops)) && |Run(EMPTY_INDEX, ops).circuits| == |Run(EMPTY_INDEX, ops).byToken|
  {
    RunSound(EMPTY_INDEX, ops);
    if TokensFresh(EMPTY_INDEX, ops) {
      RunComplete(EMPTY_INDEX, ops);
    }
  }

  // ----- what a run leaves for each device -----

  ghost predicate Concerns(op: Op, d: string) {
    match op
    case Put(c) => c.deviceImsi == d
    case Remove(imsi) => imsi == d
  }

  /** The last operation on a device, if there was one. */
  ghost function LastOp(ops: seq<Op>, d: string): Option<Op>
    decreases |ops|
  {
    if ops == [] then None
    else if LastOp(ops[1..], d).Some? then LastOp(ops[1..], d)
    else if Concerns(ops[0], d) then Some(ops[0])
    else None
  }

  lemma ApplyElsewhere(ix: Index, op: Op, d: string)
    ensures !Concerns(op, d) ==> (d in Apply(ix, op).circuits <==> d in ix.circuits)
    ensures !Concerns(op, d) && d in ix.circuits ==> Apply(ix, op).circuits[d] == ix.circuits[d]
    ensures Concerns(op, d) && op.Put? ==> d in Apply(ix, op).circuits && Apply(ix, op).circuits[d] == op.circuit
    ensures Concerns(op, d) && op.Remove? ==> d !in Apply(ix, op).circuits
  {
  }

  /** Each device has the circuit of its last put, or none after a removal; operations on other devices do
      not touch it. */
  lemma {:induction false} RunPerDevice(ix: Index, ops: seq<Op>, d: string)
    ensures var last, end := LastOp(ops, d), Run(ix, ops).circuits;
            match last
            case None => (d in end <==> d in ix.circuits) && (d in end ==> end[d] == ix.circuits[d])
            case Some(Put(c)) => d in end && end[d] == c
            case Some(Remove(_)) => d !in end
    decreases |ops|
  {
    hide Apply, Concerns;
    if ops != [] {
      ApplyElsewhere(ix, ops[0], d);
      RunPerDevice(Apply(ix, ops[0]), ops[1..], d);
    }
  }

  /** From the empty store and with fresh tokens, a token leads to a circuit exactly when that circuit was the
      last put for its device, was not removed since and carries the token. */
  lemma FoundByTokenIff(ops: seq<Op>, t: string, c: Circuit)
    requires TokensFresh(EMPTY_INDEX, ops)
    ensures var tokens := Run(EMPTY_INDEX, ops).byToken;
            t in tokens && tokens[t] == c <==> c.sessionToken == t && LastOp(ops, c.deviceImsi) == Some(Op.Put(c))
  {
    StoreAgreement(ops);
    RunPerDevice(EMPTY_INDEX, ops, c.deviceImsi);
    LastOpConcerns(ops, c.deviceImsi);
  }

  lemma {:induction false} LastOpConcerns(ops: seq<Op>, d: string)
    ensures LastOp(ops, d).Some? ==> Concerns(LastOp(ops, d).value, d) && LastOp(ops, d).value in ops
    decreases |ops|
  {
    if ops != [] {
      LastOpConcerns(ops[1..], d);
    }
  }
}
