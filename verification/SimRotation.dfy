/** Rotation cycles of the SIM pool: the floor on the active count and the bound on turnover. */
module SimRotation {
  import opened Collections
  import opened SimPool

  /** The pool together with the SIMs that the current cycle still has to drain. */
  datatype Cycle = Cycle(pool: Pool, pending: set<string>)

  /** Runs after start-up without liveness failures, where a drain is over before the next rotation. */
  ghost predicate CycleEnabled(c: Cycle, e: Event) {
    Enabled(c.pool, e) &&
    match e
    case Rotate(_, _) => c.pending == {}
    case Drain(retire) => retire == c.pending
    case Allocate(_, _, _) => true
    case Release(_) => true
    case Stamp(_, _) => true
    case _ => false
  }

  ghost function CycleNext(c: Cycle, e: Event): Cycle
    requires CycleEnabled(c, e)
  {
    Cycle(Next(c.pool, e),
          match e
          case Rotate(plan, _) => plan.retire
          case Drain(_) => {}
          case _ => c.pending)
  }

  ghost predicate CycleRun(c: Cycle, es: seq<Event>)
    decreases |es|
  {
    es == [] || (CycleEnabled(c, es[0]) && CycleRun(CycleNext(c, es[0]), es[1..]))
  }

  ghost function CycleFinal(c: Cycle, es: seq<Event>): Cycle
    requires CycleRun(c, es)
    decreases |es|
  {
    if es == [] then c else CycleFinal(CycleNext(c, es[0]), es[1..])
  }

  /** Active SIMs that no outstanding drain can take away. */
  ghost function Committed(c: Cycle): set<string> {
    InState(c.pool, Active) - c.pending
  }

  // ----- one rotation -----

  /** With or without failures, the locked phase ends at the target or with no dormant SIM left. */
  lemma RotateReachesTarget(p: Pool, plan: Plan, now: int)
    requires ValidPlan(p, plan)
    ensures var q := Next(p, Rotate(plan, now));
            && |InState(q, Active)| == |InState(p, Active)| + |plan.promote| + |plan.topUp|
            && (|InState(q, Active)| >= TargetCount(|q.sims|) || InState(q, Dormant) == {})
  {
    RotateSets(p, plan, now);
    var active, dormant := InState(p, Active), InState(p, Dormant);
    SubsetSize(plan.promote, dormant);
    assert |dormant - plan.promote| == |dormant| - |plan.promote|;
    SubsetSize(plan.topUp, dormant - plan.promote);
    assert active !! plan.promote + plan.topUp && plan.promote !! plan.topUp;
  }

  lemma RotateSets(p: Pool, plan: Plan, now: int)
    requires ValidPlan(p, plan)
    ensures var q := Next(p, Rotate(plan, now));
            && |q.sims| == |p.sims|
            && InState(q, Active) == InState(p, Active) + (plan.promote + plan.topUp)
            && InState(q, Dormant) == InState(p, Dormant) - (plan.promote + plan.topUp)
  {
    PlanDisjoint(p, plan);
    hide InState, WithState, ValidPlan, MostReplaced;
    PromoteSets(p, plan.promote + plan.topUp, now);
  }

  lemma PlanDisjoint(p: Pool, plan: Plan)
    requires ValidPlan(p, plan)
    ensures plan.promote <= InState(p, Dormant) && plan.topUp <= InState(p, Dormant) - plan.promote
    ensures plan.retire <= InState(p, Active) && plan.retire !! plan.promote + plan.topUp
    ensures |plan.retire| <= |plan.promote| <= MostReplaced(|InState(p, Active)|)
  {
  }

  lemma RotateCommits(c: Cycle, e: Event)
    requires e.Rotate? && CycleEnabled(c, e)
    ensures |Committed(CycleNext(c, e))| >= |Committed(c)|
    ensures Committed(CycleNext(c, e)) == (InState(c.pool, Active) - e.plan.retire) + (e.plan.promote + e.plan.topUp)
  {
    var d, plan := CycleNext(c, e), e.plan;
    RotateSets(c.pool, plan, e.now);
    PlanDisjoint(c.pool, plan);
    RotateReachesTarget(c.pool, plan, e.now);
    assert d.pool == Next(c.pool, e);
    hide Next, WithState, ValidPlan, InState;
    assert plan.retire <= InState(d.pool, Active);
    assert |Committed(d)| == |InState(d.pool, Active)| - |plan.retire|;
  }

  lemma OtherStepsKeep(c: Cycle, e: Event)
    requires !e.Rotate? && CycleEnabled(c, e)
    ensures Committed(c) <= Committed(CycleNext(c, e))
  {
  }

  lemma TotalUnchanged(c: Cycle, e: Event)
    requires CycleEnabled(c, e)
    ensures Keyed(c.pool) ==> Keyed(CycleNext(c, e).pool)
    ensures CycleNext(c, e).pool.sims.Keys == c.pool.sims.Keys
  {
  }

  // ----- whole runs -----

  /** The number of committed SIMs never falls. */
  lemma {:induction false} CommittedMonotone(c: Cycle, es: seq<Event>)
    requires CycleRun(c, es)
    ensures |Committed(c)| <= |Committed(CycleFinal(c, es))|
    ensures CycleFinal(c, es).pool.sims.Keys == c.pool.sims.Keys
    decreases |es|
  {
    hide CycleEnabled, CycleNext, Committed;
    if es != [] {
      if es[0].Rotate? {
        RotateCommits(c, es[0]);
      } else {
        OtherStepsKeep(c, es[0]);
        SubsetSize(Committed(c), Committed(CycleNext(c, es[0])));
      }
      TotalUnchanged(c, es[0]);
      CommittedMonotone(CycleNext(c, es[0]), es[1..]);
    }
  }

  /** No run of complete cycles lowers the active count. */
  lemma CyclesNeverLower(c: Cycle, es: seq<Event>)
    requires CycleRun(c, es) && c.pending == {}
    ensures |InState(c.pool, Active)| <= |InState(CycleFinal(c, es).pool, Active)|
  {
    CommittedMonotone(c, es);
    assert Committed(c) == InState(c.pool, Active);
    SubsetSize(Committed(CycleFinal(c, es)), InState(CycleFinal(c, es).pool, Active));
  }

  /** From the initial promotion on, and at every moment after it, at least the target number of SIMs is
      active, or all of them if the pool is smaller. */
  lemma ActiveFloor(p: Pool, promoted: set<string>, es: seq<Event>)
    requires InState(p, Dormant) == p.sims.Keys
    requires Enabled(p, Init(promoted)) && CycleRun(Cycle(Next(p, Init(promoted)), {}), es)
    ensures var f := CycleFinal(Cycle(Next(p, Init(promoted)), {}), es).pool;
            |f.sims| == |p.sims| && |InState(f, Active)| >= Min(|p.sims|, TargetCount(|p.sims|))
  {
    var q := Next(p, Init(promoted));
    var c := Cycle(q, {});
    CyclesNeverLower(c, es);
    CommittedMonotone(c, es);
    var f := CycleFinal(c, es).pool;
    assert q.sims.Keys == p.sims.Keys;
    assert |f.sims| == |f.sims.Keys| == |p.sims.Keys|;
    assert promoted <= InState(q, Active);
    SubsetSize(promoted, InState(q, Active));
  }

  lemma {:induction false} WithinCycle(c: Cycle, es: seq<Event>)
    requires CycleRun(c, es) && forall e :: e in es ==> !e.Rotate?
    ensures Committed(c) <= Committed(CycleFinal(c, es))
    decreases |es|
  {
    hide CycleEnabled, CycleNext, Committed;
    if es != [] {
      assert es[0] in es;
      OtherStepsKeep(c, es[0]);
      assert forall e :: e in es[1..] ==> e in es;
      WithinCycle(CycleNext(c, es[0]), es[1..]);
    }
  }

  /** At every moment of a cycle, its drain included: the SIMs it promoted are active, it retires no
      more than it promoted and none of those, and at least active - max(1, active/2 - 1) of the SIMs
      that were active before are active still. */
  lemma BoundedTurnover(c: Cycle, rotate: Event, es: seq<Event>)
    requires rotate.Rotate? && CycleEnabled(c, rotate)
    requires CycleRun(CycleNext(c, rotate), es) && forall e :: e in es ==> !e.Rotate?
    ensures var f := CycleFinal(CycleNext(c, rotate), es).pool;
            var before, plan := InState(c.pool, Active), rotate.plan;
            && plan.promote + plan.topUp <= InState(f, Active)
            && plan.retire !! plan.promote + plan.topUp
            && |plan.retire| <= |plan.promote|
            && before - InState(f, Active) <= plan.retire
            && |before * InState(f, Active)| >= |before| - Max(1, |before| / 2 - 1)
  {
    var d := CycleNext(c, rotate);
    var f := CycleFinal(d, es).pool;
    var before, plan := InState(c.pool, Active), rotate.plan;
    RotateCommits(c, rotate);
    PlanDisjoint(c.pool, plan);
    WithinCycle(d, es);
    assert Committed(d) <= InState(f, Active);
    assert before - plan.retire <= before * InState(f, Active);
    SubsetSize(before - plan.retire, before * InState(f, Active));
    assert |before - plan.retire| == |before| - |plan.retire|;
  }

  /** The SIM was used after the last rotation. */
  ghost predicate UsedThisCycle(p: Pool, i: string) {
    i in p.sims && p.sims[i].lastActive > p.lastRotation
  }

  lemma UseRemembered(c: Cycle, e: Event, i: string)
    requires CycleEnabled(c, e) && !e.Rotate? && UsedThisCycle(c.pool, i)
    requires e.Allocate? ==> e.now > c.pool.lastRotation
    ensures UsedThisCycle(CycleNext(c, e).pool, i) && CycleNext(c, e).pool.lastRotation == c.pool.lastRotation
  {
    hide InState, ValidPlan;
  }

  lemma {:induction false} UseRememberedInRun(c: Cycle, es: seq<Event>, i: string)
    requires CycleRun(c, es) && UsedThisCycle(c.pool, i)
    requires forall e :: e in es ==> !e.Rotate? && (e.Allocate? ==> e.now > c.pool.lastRotation)
    ensures UsedThisCycle(CycleFinal(c, es).pool, i)
    decreases |es|
  {
    hide CycleEnabled, CycleNext, UsedThisCycle;
    if es != [] {
      assert es[0] in es;
      UseRemembered(c, es[0], i);
      assert forall e :: e in es[1..] ==> e in es;
      UseRememberedInRun(CycleNext(c, es[0]), es[1..], i);
    }
  }

  /** A SIM used in one cycle, and not already being drained in it, is still active throughout the next
      cycle, even if its session has ended: it is never retired by the rotation that follows its use. */
  lemma UsedSimSurvivesNextCycle(c: Cycle, es: seq<Event>, rotate: Event, later: seq<Event>, i: string)
    requires CycleRun(c, es) && UsedThisCycle(c.pool, i) && i in Committed(c)
    requires forall e :: e in es ==> !e.Rotate? && (e.Allocate? ==> e.now > c.pool.lastRotation)
    requires rotate.Rotate? && CycleEnabled(CycleFinal(c, es), rotate)
    requires CycleRun(CycleNext(CycleFinal(c, es), rotate), later) && forall e :: e in later ==> !e.Rotate?
    ensures i in InState(CycleFinal(CycleNext(CycleFinal(c, es), rotate), later).pool, Active)
  {
    hide Next, CycleRun;
    var mid := CycleFinal(c, es);
    UseRememberedInRun(c, es, i);
    WithinCycle(c, es);
    BoundedTurnover(mid, rotate, later);
    assert i !in rotate.plan.retire;
  }
}
