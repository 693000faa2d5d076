/** What a rotation cycle of the SIM pool does exactly, and how the pool comes to its first cycle. */
module SimCycle {
  import opened Collections
  import opened SimPool
  import opened SimRotation

  // ----- which SIMs a drain retires -----

  /** The event neither fails, recovers nor registers the SIM, and is no drain. */
  ghost predicate LeavesAlone(e: Event, i: string) {
    LeavesFailed(e, i) && !(e.Fail? && e.imsi == i)
  }

  lemma StepStaysActive(p: Pool, e: Event, i: string)
    requires Enabled(p, e) && LeavesAlone(e, i) && i in p.sims && p.sims[i].state == Active
    ensures i in Next(p, e).sims && Next(p, e).sims[i].state == Active
  {
    hide ValidPlan, TargetCount;
  }

  lemma {:induction false} StaysActive(p: Pool, es: seq<Event>, i: string)
    requires Valid(p, es) && i in p.sims && p.sims[i].state == Active && forall e :: e in es ==> LeavesAlone(e, i)
    ensures i in Final(p, es).sims && Final(p, es).sims[i].state == Active
    decreases |es|
  {
    hide Enabled, Next, LeavesAlone;
    if es != [] {
      assert es[0] in es;
      StepStaysActive(p, es[0], i);
      assert forall e :: e in es[1..] ==> e in es;
      StaysActive(Next(p, es[0]), es[1..], i);
    }
  }

  lemma PlannedIsActive(p: Pool, plan: Plan, now: int, i: string)
    requires ValidPlan(p, plan) && i in plan.retire
    ensures i in Next(p, Rotate(plan, now)).sims && Next(p, Rotate(plan, now)).sims[i].state == Active
  {
  }

  lemma DrainOne(q: Pool, retire: set<string>, i: string)
    requires i in retire && i in q.sims && q.sims[i].state == Active
    ensures i in Next(q, Drain(retire)).sims
    ensures Next(q, Drain(retire)).sims[i].state == if q.sims[i].currentSession == "" then Dormant else Active
  {
  }

  /** Over any run from a rotation to its drain, a SIM chosen for retirement that has not failed meanwhile
      ends dormant exactly if it holds no session at the drain, and stays active otherwise. */
  lemma RetiredAtDrainIff(p: Pool, plan: Plan, now: int, es: seq<Event>, i: string)
    requires Enabled(p, Rotate(plan, now)) && Valid(Next(p, Rotate(plan, now)), es) && i in plan.retire
    requires forall e :: e in es ==> LeavesAlone(e, i)
    ensures var q := Final(Next(p, Rotate(plan, now)), es);
            var end := Next(q, Drain(plan.retire)).sims;
            && i in q.sims && i in end
            && (end[i].state == Dormant <==> q.sims[i].currentSession == "")
            && (end[i].state == Active <==> q.sims[i].currentSession != "")
  {
    PlannedIsActive(p, plan, now, i);
    hide ValidPlan, LeavesAlone;
    StaysActive(Next(p, Rotate(plan, now)), es, i);
    DrainOne(Final(Next(p, Rotate(plan, now)), es), plan.retire, i);
  }

  /** Initialisation, rotation and drain change the states of SIMs and nothing else of them. */
  lemma PhasesChangeOnlyStates(p: Pool, e: Event, i: string)
    requires Enabled(p, e) && (e.Init? || e.Rotate? || e.Drain?)
    ensures Next(p, e).sims.Keys == p.sims.Keys && Next(p, e).sessions == p.sessions
    ensures i in p.sims ==> Next(p, e).sims[i] == p.sims[i].(state := Next(p, e).sims[i].state)
  {
    hide ValidPlan, TargetCount;
  }

  // ----- the active subset after a cycle -----

  ghost predicate BetweenPhases(e: Event) {
    e.Allocate? || e.Release? || e.Stamp?
  }

  lemma StepKeepsStates(p: Pool, e: Event)
    requires Enabled(p, e) && BetweenPhases(e)
    ensures InState(Next(p, e), Active) == InState(p, Active)
  {
  }

  lemma {:induction false} RunKeepsStates(p: Pool, es: seq<Event>)
    requires Valid(p, es) && forall e :: e in es ==> BetweenPhases(e)
    ensures InState(Final(p, es), Active) == InState(p, Active)
    decreases |es|
  {
    hide Enabled, Next, InState, BetweenPhases;
    if es != [] {
      assert es[0] in es;
      StepKeepsStates(p, es[0]);
      assert forall e :: e in es[1..] ==> e in es;
      RunKeepsStates(Next(p, es[0]), es[1..]);
    }
  }

  lemma DrainedActive(q: Pool, retire: set<string>)
    ensures InState(Next(q, Drain(retire)), Active) == InState(q, Active) - (retire - Busy(q))
  {
  }

  /** After a cycle without failures exactly these SIMs are active: those that were, less the ones chosen
      for retirement that hold no session at the drain, and the ones promoted and topped up. */
  lemma ActiveAfterCycle(p: Pool, plan: Plan, now: int, es: seq<Event>)
    requires Enabled(p, Rotate(plan, now)) && Valid(Next(p, Rotate(plan, now)), es)
    requires forall e :: e in es ==> BetweenPhases(e)
    ensures var q := Final(Next(p, Rotate(plan, now)), es);
            var before, after := InState(p, Active), InState(Next(q, Drain(plan.retire)), Active);
            && after == (before - (plan.retire - Busy(q))) + (plan.promote + plan.topUp)
            && |after| == |before| + |plan.promote| + |plan.topUp| - |plan.retire - Busy(q)|
  {
    hide ValidPlan, InState, Next, Busy, MostReplaced, BetweenPhases;
    RotateSets(p, plan, now);
    PlanDisjoint(p, plan);
    RotateReachesTarget(p, plan, now);
    var p1 := Next(p, Rotate(plan, now));
    RunKeepsStates(p1, es);
    DrainedActive(Final(p1, es), plan.retire);
    var before, more, gone := InState(p, Active), plan.promote + plan.topUp, plan.retire - Busy(Final(p1, es));
    assert gone <= plan.retire;
    Exchange(before, more, gone);
  }

  lemma Exchange(before: set<string>, more: set<string>, gone: set<string>)
    requires gone <= before && gone !! more
    ensures before + more - gone == (before - gone) + more
    ensures |before + more - gone| == |before + more| - |gone|
    ensures more !! before ==> before - ((before - gone) + more) == gone && ((before - gone) + more) - before == more
  {
    assert gone <= before + more;
  }

  /** Every active SIM is idle and has not been used since the last rotation. */
  ghost predicate AtRest(p: Pool) {
    forall i :: i in p.sims && p.sims[i].state == Active ==>
      p.sims[i].currentSession == "" && p.sims[i].lastActive <= p.lastRotation
  }

  lemma PlanAtRest(p: Pool, plan: Plan)
    requires ValidPlan(p, plan) && AtRest(p)
    requires |InState(p, Active)| >= TargetCount(|p.sims|) && |InState(p, Dormant)| >= plan.replace
    ensures |plan.promote| == |plan.retire| == plan.replace && plan.topUp == {}
  {
    assert Retirable(p) == InState(p, Active);
  }

  /** A pool at rest with the target active and enough dormant SIMs: a cycle in which no session begins
      exchanges exactly as many SIMs as were drawn and leaves their number as it is. */
  lemma RestingCycleExchanges(p: Pool, plan: Plan, now: int)
    requires Enabled(p, Rotate(plan, now)) && AtRest(p)
    requires |InState(p, Active)| >= TargetCount(|p.sims|) && |InState(p, Dormant)| >= plan.replace
    ensures var before := InState(p, Active);
            var after := InState(Next(Next(p, Rotate(plan, now)), Drain(plan.retire)), Active);
            && |after| == |before| && |before - after| == |after - before| == plan.replace
  {
    hide ValidPlan, AtRest, InState, Next, Busy, MostReplaced, TargetCount;
    var p1 := Next(p, Rotate(plan, now));
    ActiveAfterCycle(p, plan, now, []);
    PlanAtRest(p, plan);
    PlanDisjoint(p, plan);
    RetiredIdle(p, plan, now);
    assert plan.retire - Busy(p1) == plan.retire;
    assert plan.promote !! InState(p, Active) by { StatesDisjoint(p); }
    Exchange(InState(p, Active), plan.promote, plan.retire);
    assert plan.promote + plan.topUp == plan.promote;
  }

  lemma StatesDisjoint(p: Pool)
    ensures InState(p, Dormant) !! InState(p, Active)
  {
  }

  lemma RetiredIdle(p: Pool, plan: Plan, now: int)
    requires ValidPlan(p, plan)
    ensures plan.retire !! Busy(Next(p, Rotate(plan, now)))
  {
  }

  // ----- which SIMs the next rotation may retire -----

  /** Use is recorded against the time of the last rotation. */
  lemma StepUse(p: Pool, e: Event, i: string)
    requires Enabled(p, e) && !e.Rotate? && !e.Add? && i in p.sims && (e.Allocate? ==> e.now > p.lastRotation)
    ensures Next(p, e).lastRotation == p.lastRotation && i in Next(p, e).sims
    ensures Next(p, e).sims[i].lastActive > p.lastRotation <==>
            p.sims[i].lastActive > p.lastRotation || (e.Allocate? && e.imsi == i)
  {
    hide ValidPlan, TargetCount, InState;
  }

  lemma {:induction false} RunUse(p: Pool, es: seq<Event>, i: string)
    requires Valid(p, es) && i in p.sims
    requires forall e :: e in es ==> !e.Rotate? && !e.Add? && (e.Allocate? ==> e.now > p.lastRotation)
    ensures Final(p, es).lastRotation == p.lastRotation && i in Final(p, es).sims
    ensures Final(p, es).sims[i].lastActive > p.lastRotation <==>
            p.sims[i].lastActive > p.lastRotation || exists e :: e in es && e.Allocate? && e.imsi == i
    decreases |es|
  {
    hide Enabled, Next;
    if es != [] {
      assert es == [es[0]] + es[1..] && es[0] in es;
      StepUse(p, es[0], i);
      assert forall e :: e in es[1..] ==> e in es;
      RunUse(Next(p, es[0]), es[1..], i);
    }
  }

  /** After a rotation at time `now` and any events without another one, the next rotation may retire
      exactly the active SIMs that hold no session and have not been allocated since. */
  lemma RetirableNextIff(p: Pool, plan: Plan, now: int, es: seq<Event>, i: string)
    requires Enabled(p, Rotate(plan, now)) && Valid(Next(p, Rotate(plan, now)), es)
    requires i in p.sims && p.sims[i].lastActive <= now
    requires forall e :: e in es ==> !e.Rotate? && !e.Add? && (e.Allocate? ==> e.now > now)
    ensures var q := Final(Next(p, Rotate(plan, now)), es);
            && i in q.sims
            && (i in Retirable(q) <==>
                && q.sims[i].state == Active && q.sims[i].currentSession == ""
                && !exists e :: e in es && e.Allocate? && e.imsi == i)
  {
    var p1 := Next(p, Rotate(plan, now));
    assert p1.lastRotation == now && i in p1.sims && p1.sims[i].lastActive == p.sims[i].lastActive;
    hide Next, ValidPlan;
    RunUse(p1, es, i);
  }

  // ----- from the empty pool -----

  lemma {:induction false} AfterRegistration(p: Pool, es: seq<Event>)
    requires forall e :: e in es ==> e.Add?
    ensures Valid(p, es)
    ensures Final(p, es).sims.Keys == p.sims.Keys + set e | e in es :: e.sim.imsi
    ensures InState(p, Dormant) == p.sims.Keys ==> InState(Final(p, es), Dormant) == Final(p, es).sims.Keys
    ensures forall i :: i in Final(p, es).sims ==>
              || (i in p.sims && Final(p, es).sims[i] == p.sims[i])
              || exists e :: e in es && e.sim.imsi == i && Final(p, es).sims[i] == e.sim.(state := Dormant)
    ensures Final(p, es).sessions == p.sessions && Final(p, es).lastRotation == p.lastRotation
    decreases |es|
  {
    if es != [] {
      assert es[0] in es && es == [es[0]] + es[1..];
      assert forall e :: e in es[1..] ==> e in es;
      var q := Next(p, es[0]);
      assert q.sims.Keys == p.sims.Keys + {es[0].sim.imsi};
      if InState(p, Dormant) == p.sims.Keys {
        assert InState(q, Dormant) == q.sims.Keys;
      }
      hide InState, Next, Enabled;
      AfterRegistration(q, es[1..]);
    }
  }

  /** From the empty pool: after any registrations and the initial promotion exactly the target number of
      SIMs is active, or all of them if there are fewer, and at no later moment of complete cycles are
      there fewer. */
  lemma FloorFromEmpty(start: int, adds: seq<Event>, promoted: set<string>, es: seq<Event>)
    requires forall e :: e in adds ==> e.Add?
    requires var p := Pool(map[], map[], start);
             && Valid(p, adds) && Enabled(Final(p, adds), Init(promoted))
             && CycleRun(Cycle(Next(Final(p, adds), Init(promoted)), {}), es)
    ensures var p := Final(Pool(map[], map[], start), adds);
            var total := |set e | e in adds :: e.sim.imsi|;
            var floor := Min(total, TargetCount(total));
            && |InState(Next(p, Init(promoted)), Active)| == floor
            && |InState(CycleFinal(Cycle(Next(p, Init(promoted)), {}), es).pool, Active)| >= floor
  {
    var empty := Pool(map[], map[], start);
    assert InState(empty, Dormant) == {};
    hide InState, Next, Enabled, CycleRun, CycleFinal, TargetCount;
    AfterRegistration(empty, adds);
    var p := Final(empty, adds);
    assert p.sims.Keys == set e | e in adds :: e.sim.imsi;
    assert |p.sims| == |p.sims.Keys|;
    ActiveFloor(p, promoted, es);
    InitiallyActive(p, promoted);
  }

  lemma InitiallyActive(p: Pool, promoted: set<string>)
    requires InState(p, Dormant) == p.sims.Keys && Enabled(p, Init(promoted))
    ensures |InState(Next(p, Init(promoted)), Active)| == Min(TargetCount(|p.sims|), |p.sims.Keys|)
  {
    assert InState(Next(p, Init(promoted)), Active) == promoted;
  }
}
