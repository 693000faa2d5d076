/** The pool manager itself: the loops over the SIM map, each proved to take the step that the state
    machine allows. Map iteration visits the keys in an arbitrary order, as in the source. */
module SimPoolCode {
  import opened Collections
  import opened SimPool

  datatype PoolError = NoAvailableSim | SessionNotFound | SimNotFound | RandomFailed

  /** `randomInt` over the system's random source, for one call: any value of the range, or a failure. */
  type Random = int -> Option<int>

  ghost predicate InRange(random: Random) {
    forall n :: n > 0 && random(n).Some? ==> 0 <= random(n).value < n
  }

  class PoolManager {
    var sims: map<string, Sim>
    var sessions: map<string, string>
    var lastRotation: int

    ghost function View(): Pool
      reads this
    {
      Pool(sims, sessions, lastRotation)
    }

    constructor (now: int)
      ensures View() == Pool(map[], map[], now)
    {
      sims, sessions, lastRotation := map[], map[], now;
    }

    method Register(sim: Sim)
      modifies this
      ensures View() == Next(old(View()), Add(sim))
    {
      sims := sims[sim.imsi := sim.(state := Dormant)];
    }

    /** The available SIMs, each once, in whatever order the map is walked. */
    method AvailableSims() returns (out: seq<string>)
      ensures |out| == |Available(View())| && forall i :: i in out <==> i in Available(View())
    {
      hide Available;
      out := [];
      AvailableFacts(View());
      ghost var avail := Available(View());
      var todo := sims.Keys;
      assert avail - todo == {};
      while todo != {}
        invariant todo <= sims.Keys
        invariant forall i :: i in out <==> i in avail - todo
        invariant |out| == |avail - todo|
      {
        var i :| i in todo;
        Visit(avail, todo, i);
        todo := todo - {i};
        if sims[i].IsAvailable() {
          out := out + [i];
        }
      }
      assert avail - {} == avail;
    }

    method AllocateSim(token: string, now: int, random: Random) returns (r: Result<string, PoolError>)
      requires Keyed(View()) && InRange(random)
      modifies this
      ensures r.Ok? ==> Enabled(old(View()), Allocate(token, r.value, now))
                        && View() == Next(old(View()), Allocate(token, r.value, now))
      ensures r.Err? ==> View() == old(View()) && r.error in {NoAvailableSim, RandomFailed}
      ensures r == Err(NoAvailableSim) <==> old(Available(View())) == {}
      ensures r == Err(RandomFailed) <==> old(Available(View())) != {} && random(old(|Available(View())|)).None?
    {
      hide Available;
      var candidates := AvailableSims();
      AvailableFacts(View());
      if |candidates| == 0 {
        return Err(NoAvailableSim);
      }
      var idx := random(|candidates|);
      if idx.None? {
        return Err(RandomFailed);
      }
      var chosen := candidates[idx.value];
      sims := sims[chosen := sims[chosen].(currentSession := token, lastActive := now)];
      sessions := sessions[token := sims[chosen].imsi];
      return Ok(sims[chosen].imsi);
    }

    method ReleaseSim(token: string) returns (r: Result<(), PoolError>)
      modifies this
      ensures token !in old(sessions) ==> r == Err(SessionNotFound) && View() == old(View())
      ensures token in old(sessions) ==>
                Enabled(old(View()), Release(token)) && View() == Next(old(View()), Release(token))
      ensures token in old(sessions) ==> (r.Ok? <==> old(sessions[token]) in sims) && r != Err(SessionNotFound)
      ensures old(Paired(View())) ==> r != Err(SimNotFound)
    {
      if token !in sessions {
        return Err(SessionNotFound);
      }
      var imsi := sessions[token];
      sessions := sessions - {token};
      if imsi !in sims {
        return Err(SimNotFound);
      }
      sims := sims[imsi := sims[imsi].(currentSession := "")];
      return Ok(());
    }

    method Stats() returns (total: nat, active: nat, available: nat)
      ensures total == |sims| && active == |InState(View(), Active)| && available == |Available(View())|
    {
      hide InState, Available;
      total, active, available := 0, 0, 0;
      ghost var act, avail := InState(View(), Active), Available(View());
      ghost var p := View();
      var all := sims;
      var todo := all.Keys;
      InsidePool(p);
      assert act - todo == {} && avail - todo == {};
      while todo != {}
        invariant todo <= all.Keys
        invariant total + |todo| == |all|
        invariant active == |act - todo|
        invariant available == |avail - todo|
      {
        var i :| i in todo;
        MemberFacts(p, i);
        Visit(act, todo, i);
        Visit(avail, todo, i);
        todo := todo - {i};
        total := total + 1;
        if all[i].state == Active {
          active := active + 1;
          if all[i].currentSession == "" {
            available := available + 1;
          }
        }
      }
      assert act - {} == act && avail - {} == avail;
    }

    method MarkUnavailable(imsi: string)
      modifies this
      ensures View() == Next(old(View()), Fail(imsi))
    {
      if imsi in sims {
        sims := sims[imsi := sims[imsi].(state := Unavailable, failCount := sims[imsi].failCount + 1)];
      }
    }

    method MarkDormant(imsi: string)
      modifies this
      ensures View() == Next(old(View()), Recover(imsi))
    {
      if imsi in sims {
        sims := sims[imsi := sims[imsi].(state := Dormant, failCount := 0)];
      }
    }

    method StampHealth(imsi: string, now: int)
      modifies this
      ensures View() == Next(old(View()), Stamp(imsi, now))
    {
      if imsi in sims {
        sims := sims[imsi := sims[imsi].(lastHealthCheck := now)];
      }
    }

    // ----- the rotator -----

    /** Up to `limit` dormant SIMs. */
    method PickDormant(limit: nat) returns (picked: set<string>)
      ensures picked <= InState(View(), Dormant) && |picked| == Min(limit, |InState(View(), Dormant)|)
    {
      picked := {};
      var todo := sims.Keys;
      while todo != {} && |picked| < limit
        invariant todo <= sims.Keys && |picked| <= limit
        invariant picked == InState(View(), Dormant) - todo
      {
        var i :| i in todo;
        todo := todo - {i};
        if sims[i].IsDormantCandidate() {
          picked := picked + {i};
        }
      }
      SubsetSize(picked, InState(View(), Dormant));
    }

    /** Up to `limit` SIMs that may be retired. */
    method PickRetirable(limit: nat) returns (picked: set<string>)
      ensures picked <= Retirable(View()) && |picked| == Min(limit, |Retirable(View())|)
    {
      picked := {};
      var todo := sims.Keys;
      while todo != {} && |picked| < limit
        invariant todo <= sims.Keys && |picked| <= limit
        invariant picked == Retirable(View()) - todo
      {
        var i :| i in todo;
        todo := todo - {i};
        if sims[i].IsRetirementCandidate(lastRotation) {
          picked := picked + {i};
        }
      }
      SubsetSize(picked, Retirable(View()));
    }

    /** Promote dormant SIMs one by one until `limit` of them have been promoted. */
    method PromoteUpTo(limit: nat) returns (ghost promoted: set<string>)
      modifies this`sims
      ensures promoted <= old(InState(View(), Dormant)) && |promoted| == Min(limit, old(|InState(View(), Dormant)|))
      ensures sims == WithState(old(sims), promoted, Active)
    {
      hide InState, WithState;
      promoted := {};
      ghost var p, dormant := View(), InState(View(), Dormant);
      InsidePool(p);
      var count := 0;
      var todo := sims.Keys;
      WithStateNone(p.sims, Active);
      assert {} == dormant - todo;
      while todo != {} && count < limit
        invariant todo <= p.sims.Keys && count == |promoted| <= limit
        invariant promoted == dormant - todo
        invariant sims == WithState(p.sims, promoted, Active)
      {
        var i :| i in todo;
        WithStateAt(p.sims, promoted, i, Active);
        MemberFacts(p, i);
        todo := todo - {i};
        if sims[i].state == Dormant {
          WithStateOneMore(p.sims, promoted, i, Active);
          sims := sims[i := sims[i].(state := Active)];
          count := count + 1;
          promoted := promoted + {i};
        }
      }
      SubsetSize(promoted, dormant);
    }

    method InitActiveSubset() returns (ghost promoted: set<string>)
      modifies this
      ensures Enabled(old(View()), Init(promoted)) && View() == Next(old(View()), Init(promoted))
    {
      promoted := PromoteUpTo(TargetCount(|sims|));
    }

    /** The phase of a rotation that runs under the lock. */
    method RotateLocked(now: int, random: Random) returns (retire: set<string>, ghost plan: Plan)
      requires InRange(random)
      modifies this
      ensures retire == plan.retire
      ensures plan.replace == match random(Max(1, old(|InState(View(), Active)|) / 2))
                              case None => 1
                              case Some(v) => Max(1, v)
      ensures Enabled(old(View()), Rotate(plan, now)) && View() == Next(old(View()), Rotate(plan, now))
    {
      hide InState, Retirable, WithState, ValidPlan;
      var target := TargetCount(|sims|);
      var _, activeCount, _ := Stats();
      var maxReplace := activeCount / 2;
      if maxReplace < 1 {
        maxReplace := 1;
      }
      var draw := random(maxReplace);
      var replaceCount := if draw.None? || draw.value == 0 then 1 else draw.value;
      var promote := PickDormant(replaceCount);
      retire := PickRetirable(|promote|);
      ghost var before := View();
      Promote(promote);
      ghost var middle := View();
      var _, activeAfter, _ := Stats();
      ghost var topUp := {};
      if activeAfter < target {
        topUp := PromoteUpTo(target - activeAfter);
      }
      plan := Plan(replaceCount, promote, topUp, retire);
      PlanAssembled(before, middle, plan);
      WithStateTwice(before.sims, promote, topUp, Active);
      lastRotation := now;
    }

    method Promote(ids: set<string>)
      modifies this`sims
      ensures sims == WithState(old(sims), ids, Active)
    {
      var todo := ids;
      assert WithState(sims, {}, Active) == sims;
      while todo != {}
        invariant todo <= ids
        invariant sims == WithState(old(sims), ids - todo, Active)
      {
        var i :| i in todo;
        todo := todo - {i};
        if i in sims {
          WithStateOneMore(old(sims), ids - todo - {i}, i, Active);
          sims := sims[i := sims[i].(state := Active)];
        }
      }
    }

    /** The delayed phase: retire what is still without a session. */
    method DrainRetired(retire: set<string>)
      modifies this
      ensures View() == Next(old(View()), Drain(retire))
    {
      ghost var before := View();
      var todo := retire;
      assert WithState(before.sims, {}, Dormant) == before.sims;
      while todo != {}
        invariant todo <= retire
        invariant sessions == before.sessions && lastRotation == before.lastRotation
        invariant sims == WithState(before.sims, retire - todo - Busy(before), Dormant)
      {
        var i :| i in todo;
        todo := todo - {i};
        if i in sims && sims[i].currentSession == "" {
          WithStateOneMore(before.sims, retire - todo - {i} - Busy(before), i, Dormant);
          sims := sims[i := sims[i].(state := Dormant)];
        }
      }
    }
  }

  lemma MemberFacts(p: Pool, i: string)
    requires i in p.sims
    ensures i in InState(p, Active) <==> p.sims[i].state == Active
    ensures i in InState(p, Dormant) <==> p.sims[i].state == Dormant
    ensures i in Available(p) <==> p.sims[i].state == Active && p.sims[i].currentSession == ""
  {
  }

  lemma AvailableFacts(p: Pool)
    ensures forall i :: i in Available(p) <==> i in p.sims && p.sims[i].IsAvailable()
  {
  }

  lemma InsidePool(p: Pool)
    ensures InState(p, Active) <= p.sims.Keys && InState(p, Dormant) <= p.sims.Keys && Available(p) <= p.sims.Keys
  {
  }

  lemma PlanAssembled(p: Pool, q: Pool, plan: Plan)
    requires 1 <= plan.replace && (plan.replace == 1 || plan.replace < |InState(p, Active)| / 2)
    requires plan.promote <= InState(p, Dormant) && |plan.promote| == Min(plan.replace, |InState(p, Dormant)|)
    requires plan.retire <= Retirable(p) && |plan.retire| == Min(|plan.promote|, |Retirable(p)|)
    requires q == p.(sims := WithState(p.sims, plan.promote, Active))
    requires plan.topUp <= InState(q, Dormant)
    requires |plan.topUp| == Min(Max(0, TargetCount(|p.sims|) - |InState(q, Active)|), |InState(q, Dormant)|)
    ensures ValidPlan(p, plan)
  {
    PromotedCounts(p, q, plan.promote);
  }

  lemma Visit<T>(s: set<T>, todo: set<T>, i: T)
    requires i in todo
    ensures |s - (todo - {i})| == |s - todo| + if i in s then 1 else 0
  {
    if i in s {
      assert s - (todo - {i}) == (s - todo) + {i};
    } else {
      assert s - (todo - {i}) == s - todo;
    }
  }

  lemma WithStateOneMore(sims: map<string, Sim>, ids: set<string>, i: string, st: SimState)
    requires i in sims
    ensures WithState(sims, ids, st)[i := sims[i].(state := st)] == WithState(sims, ids + {i}, st)
  {
  }

  lemma WithStateAt(sims: map<string, Sim>, ids: set<string>, i: string, st: SimState)
    requires i in sims
    ensures i in WithState(sims, ids, st)
    ensures WithState(sims, ids, st)[i] == if i in ids then sims[i].(state := st) else sims[i]
  {
  }

  lemma WithStateNone(sims: map<string, Sim>, st: SimState)
    ensures WithState(sims, {}, st) == sims
  {
  }

  lemma WithStateTwice(sims: map<string, Sim>, a: set<string>, b: set<string>, st: SimState)
    ensures WithState(WithState(sims, a, st), b, st) == WithState(sims, a + b, st)
    ensures WithState(sims, a, st) == WithState(sims, a + {}, st)
  {
    assert a + {} == a;
  }

  lemma PromotedCounts(p: Pool, q: Pool, promote: set<string>)
    requires promote <= InState(p, Dormant) && q == p.(sims := WithState(p.sims, promote, Active))
    ensures |q.sims| == |p.sims|
    ensures InState(q, Dormant) == InState(p, Dormant) - promote
    ensures |InState(q, Dormant)| == |InState(p, Dormant)| - |promote|
    ensures |InState(q, Active)| == |InState(p, Active)| + |promote|
  {
    PromoteSets(p, promote, p.lastRotation);
    assert InState(p, Active) !! promote;
  }
}
