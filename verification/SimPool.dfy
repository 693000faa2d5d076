/** The SIM pool as a state machine. Each event is one section that the source runs under the pool's lock. */
module SimPool {
  import opened Collections

  datatype SimState = Active | Dormant | Unavailable

  datatype Sim = Sim(
    imsi: string,
    state: SimState,
    lastHealthCheck: int,
    lastActive: int,
    failCount: int,
    currentSession: string)
  {
    predicate IsAvailable() {
      state == Active && currentSession == ""
    }

    predicate IsDormantCandidate() {
      state == Dormant
    }

    predicate IsRetirementCandidate(lastRotation: int) {
      state == Active && currentSession == "" && lastActive <= lastRotation
    }
  }

  datatype Pool = Pool(sims: map<string, Sim>, sessions: map<string, string>, lastRotation: int)

  const MIN_ACTIVE_COUNT: nat := 4

  /** 35% of the pool rounded down, but at least the minimum. */
  function TargetCount(total: nat): (t: nat)
    ensures t >= 4 && 35 * total < 100 * (t + 1)
    ensures t > 4 ==> 100 * t <= 35 * total
  {
    Max(MIN_ACTIVE_COUNT, 35 * total / 100)
  }

  ghost function InState(p: Pool, st: SimState): set<string> {
    set i | i in p.sims && p.sims[i].state == st
  }

  ghost function Busy(p: Pool): set<string> {
    set i | i in p.sims && p.sims[i].currentSession != ""
  }

  ghost function Available(p: Pool): set<string> {
    set i | i in p.sims && p.sims[i].IsAvailable()
  }

  ghost function Retirable(p: Pool): set<string> {
    set i | i in p.sims && p.sims[i].IsRetirementCandidate(p.lastRotation)
  }

  ghost function WithState(sims: map<string, Sim>, ids: set<string>, st: SimState): map<string, Sim> {
    map i | i in sims :: if i in ids then sims[i].(state := st) else sims[i]
  }

  lemma PromoteSets(p: Pool, ids: set<string>, now: int)
    requires ids <= InState(p, Dormant)
    ensures var q := p.(sims := WithState(p.sims, ids, Active), lastRotation := now);
            && |q.sims| == |p.sims|
            && InState(q, Active) == InState(p, Active) + ids
            && InState(q, Dormant) == InState(p, Dormant) - ids
  {
    var q := p.(sims := WithState(p.sims, ids, Active), lastRotation := now);
    assert q.sims.Keys == p.sims.Keys && |q.sims| == |q.sims.Keys| && |p.sims| == |p.sims.Keys|;
  }

  /** The choices of one rotation: how many SIMs to replace, which to promote, which to promote on top
      to reach the target, and which to retire once their drain window has passed. */
  datatype Plan = Plan(replace: nat, promote: set<string>, topUp: set<string>, retire: set<string>)

  /** The largest number of SIMs one rotation replaces: a draw below half the active count, but not zero. */
  function MostReplaced(active: nat): (m: nat) {
    Max(1, active / 2 - 1)
  }

  ghost predicate ValidPlan(p: Pool, plan: Plan) {
    var active, dormant := InState(p, Active), InState(p, Dormant);
    && 1 <= plan.replace <= MostReplaced(|active|)
    && plan.promote <= dormant
    && |plan.promote| == Min(plan.replace, |dormant|)
    && plan.retire <= Retirable(p)
    && |plan.retire| == Min(|plan.promote|, |Retirable(p)|)
    && plan.topUp <= dormant - plan.promote
    && |plan.topUp| == Min(|dormant| - |plan.promote|, Max(0, TargetCount(|p.sims|) - |active| - |plan.promote|))
  }

  datatype Event =
    | Add(sim: Sim)
    | Allocate(token: string, imsi: string, now: int)
    | Release(token: string)
    | Init(promoted: set<string>)
    | Rotate(plan: Plan, now: int)
    | Drain(retire: set<string>)
    | Fail(imsi: string)
    | Recover(imsi: string)
    | Stamp(imsi: string, now: int)

  ghost predicate Enabled(p: Pool, e: Event) {
    match e
    case Allocate(_, imsi, _) => imsi in Available(p)
    case Release(token) => token in p.sessions
    case Init(promoted) =>
      promoted <= InState(p, Dormant) && |promoted| == Min(TargetCount(|p.sims|), |InState(p, Dormant)|)
    case Rotate(plan, _) => ValidPlan(p, plan)
    case _ => true
  }

  ghost function Update(p: Pool, imsi: string, f: Sim -> Sim): Pool {
    if imsi in p.sims then p.(sims := p.sims[imsi := f(p.sims[imsi])]) else p
  }

  ghost function Next(p: Pool, e: Event): Pool
    requires Enabled(p, e)
  {
    match e
    case Add(sim) => p.(sims := p.sims[sim.imsi := sim.(state := Dormant)])
    case Allocate(token, imsi, now) =>
      p.(sims := p.sims[imsi := p.sims[imsi].(currentSession := token, lastActive := now)],
         sessions := p.sessions[token := p.sims[imsi].imsi])
    case Release(token) =>
      Update(p.(sessions := p.sessions - {token}), p.sessions[token], (s: Sim) => s.(currentSession := ""))
    case Init(promoted) => p.(sims := WithState(p.sims, promoted, Active))
    case Rotate(plan, now) => p.(sims := WithState(p.sims, plan.promote + plan.topUp, Active), lastRotation := now)
    case Drain(retire) => p.(sims := WithState(p.sims, retire - Busy(p), Dormant))
    case Fail(imsi) => Update(p, imsi, (s: Sim) => s.(state := Unavailable, failCount := s.failCount + 1))
    case Recover(imsi) => Update(p, imsi, (s: Sim) => s.(state := Dormant, failCount := 0))
    case Stamp(imsi, now) => Update(p, imsi, (s: Sim) => s.(lastHealthCheck := now))
  }

  ghost predicate Valid(p: Pool, es: seq<Event>)
    decreases |es|
  {
    es == [] || (Enabled(p, es[0]) && Valid(Next(p, es[0]), es[1..]))
  }

  ghost function Final(p: Pool, es: seq<Event>): Pool
    requires Valid(p, es)
    decreases |es|
  {
    if es == [] then p else Final(Next(p, es[0]), es[1..])
  }

  // ----- sessions -----

  ghost predicate Keyed(p: Pool) {
    forall i :: i in p.sims ==> p.sims[i].imsi == i
  }

  lemma KeyedStep(p: Pool, e: Event)
    requires Keyed(p) && Enabled(p, e)
    ensures Keyed(Next(p, e))
  {
    hide InState, ValidPlan, TargetCount;
  }

  /** In every run, disciplined or not, SIMs stay filed under their own identifiers. */
  lemma {:induction false} KeyedAlways(p: Pool, es: seq<Event>)
    requires Keyed(p) && Valid(p, es)
    ensures Keyed(Final(p, es))
    decreases |es|
  {
    hide Keyed, Enabled, Next;
    if es != [] {
      KeyedStep(p, es[0]);
      KeyedAlways(Next(p, es[0]), es[1..]);
    }
  }

  /** The session table and the SIMs' session fields are inverse to each other. */
  ghost predicate Paired(p: Pool) {
    && Keyed(p)
    && (forall t :: t in p.sessions ==>
          t != "" && p.sessions[t] in p.sims && p.sims[p.sessions[t]].currentSession == t)
    && (forall i :: i in p.sims && p.sims[i].currentSession != "" ==>
          p.sims[i].currentSession in p.sessions && p.sessions[p.sims[i].currentSession] == i)
  }

  function Held(p: Pool, imsi: string): string {
    if imsi in p.sims then p.sims[imsi].currentSession else ""
  }

  /** What callers owe: allocation under a non-empty token that is not live, and registration of a SIM
      whose session field agrees with what the pool has under that IMSI. */
  ghost predicate Disciplined(p: Pool, e: Event) {
    match e
    case Allocate(token, _, _) => token != "" && token !in p.sessions
    case Add(sim) => sim.currentSession == Held(p, sim.imsi)
    case _ => true
  }

  lemma AddPairedIff(p: Pool, sim: Sim)
    requires Paired(p)
    ensures Paired(Next(p, Add(sim))) <==> Disciplined(p, Add(sim))
  {
    var q := Next(p, Add(sim));
    assert q.sims[sim.imsi].currentSession == sim.currentSession;
    if sim.imsi in p.sims && p.sims[sim.imsi].currentSession != "" {
      assert p.sessions[p.sims[sim.imsi].currentSession] == sim.imsi;
    }
  }

  lemma AllocatePairedIff(p: Pool, e: Event)
    requires Paired(p) && e.Allocate? && Enabled(p, e)
    ensures Paired(Next(p, e)) <==> Disciplined(p, e)
  {
    var q := Next(p, e);
    assert e.token in q.sessions;
    if e.token in p.sessions {
      var other := p.sessions[e.token];
      assert other != e.imsi;
      assert q.sims[other].currentSession == e.token;
    }
  }

  lemma ReleasePaired(p: Pool, token: string)
    requires Paired(p) && token in p.sessions
    ensures Paired(Next(p, Release(token)))
  {
  }

  ghost predicate SameSessions(p: Pool, q: Pool) {
    && q.sessions == p.sessions && q.sims.Keys == p.sims.Keys
    && forall i :: i in p.sims ==>
         q.sims[i].currentSession == p.sims[i].currentSession && q.sims[i].imsi == p.sims[i].imsi
  }

  /** No other event touches the session table or a session field. */
  lemma OtherEventsLeaveSessions(p: Pool, e: Event)
    requires Enabled(p, e) && !e.Add? && !e.Allocate? && !e.Release?
    ensures SameSessions(p, Next(p, e))
  {
    hide InState, ValidPlan, TargetCount;
  }

  lemma SameSessionsPaired(p: Pool, q: Pool)
    requires Paired(p) && SameSessions(p, q)
    ensures Paired(q)
  {
  }

  lemma ReleaseNeedsSession(p: Pool, e: Event)
    requires e.Release? && Enabled(p, e)
    ensures e.token in p.sessions
  {
  }

  /** One step keeps the pairing exactly when the caller keeps the discipline. */
  lemma StepPairedIff(p: Pool, e: Event)
    requires Paired(p) && Enabled(p, e)
    ensures Paired(Next(p, e)) <==> Disciplined(p, e)
  {
    hide Paired, Enabled, Next;
    if e.Add? {
      AddPairedIff(p, e.sim);
    } else if e.Allocate? {
      AllocatePairedIff(p, e);
    } else if e.Release? {
      assert e.token in p.sessions by { ReleaseNeedsSession(p, e); }
      ReleasePaired(p, e.token);
    } else {
      OtherEventsLeaveSessions(p, e);
      SameSessionsPaired(p, Next(p, e));
      assert Disciplined(p, e);
    }
  }

  ghost predicate DisciplinedRun(p: Pool, es: seq<Event>)
    requires Valid(p, es)
    decreases |es|
  {
    es == [] || (Disciplined(p, es[0]) && DisciplinedRun(Next(p, es[0]), es[1..]))
  }

  /** Busy SIMs and live sessions are equally many. */
  lemma BusyCount(p: Pool)
    requires Paired(p)
    ensures |Busy(p)| == |p.sessions|
  {
    InjectiveMapSize(p.sessions);
    forall i | i in Busy(p) ensures i in p.sessions.Values {
      assert p.sessions[p.sims[i].currentSession] == i;
    }
    assert Busy(p) == p.sessions.Values;
  }

  /** Through every interleaving of all events: the pairing holds, busy SIMs number the live sessions,
      and the SIM of every live session is in the pool, so that release never misses it. */
  lemma {:induction false} SessionsPaired(p: Pool, es: seq<Event>)
    requires Paired(p) && Valid(p, es) && DisciplinedRun(p, es)
    ensures Paired(Final(p, es))
    ensures |Busy(Final(p, es))| == |Final(p, es).sessions|
    ensures forall t :: t in Final(p, es).sessions ==> Final(p, es).sessions[t] in Final(p, es).sims
    decreases |es|
  {
    hide Disciplined, Enabled, Next;
    if es == [] {
      BusyCount(p);
    } else {
      StepPairedIff(p, es[0]);
      SessionsPaired(Next(p, es[0]), es[1..]);
    }
  }

  /** Allocating and then releasing frees exactly the SIM that was taken; only its time of last use differs. */
  lemma ReleaseUndoesAllocate(p: Pool, e: Event)
    requires Paired(p) && e.Allocate? && Enabled(p, e) && Disciplined(p, e)
    ensures var q := Next(p, e);
            && Enabled(q, Release(e.token))
            && Next(q, Release(e.token)) == p.(sims := p.sims[e.imsi := p.sims[e.imsi].(lastActive := e.now)])
  {
  }

  // ----- sessions and the active subset -----

  ghost predicate BusyAreActive(p: Pool) {
    Busy(p) <= InState(p, Active)
  }

  /** The only steps that can take a SIM with a session out of the active subset. */
  ghost predicate Strands(p: Pool, e: Event) {
    match e
    case Fail(imsi) => imsi in Busy(p)
    case Recover(imsi) => imsi in Busy(p)
    case Add(sim) => sim.currentSession != ""
    case _ => false
  }

  lemma StepStrandsIff(p: Pool, e: Event)
    requires BusyAreActive(p) && Enabled(p, e)
    ensures BusyAreActive(Next(p, e)) <==> !Strands(p, e)
  {
    var q := Next(p, e);
    if Strands(p, e) {
      var i := if e.Add? then e.sim.imsi else e.imsi;
      assert i in Busy(q) && i !in InState(q, Active);
    } else {
      forall i | i in Busy(q) ensures i in InState(q, Active) {
        assert !(e.Allocate? && e.imsi == i) ==> i in Busy(p);
      }
    }
  }

  ghost predicate NothingStrands(p: Pool, es: seq<Event>)
    requires Valid(p, es)
    decreases |es|
  {
    es == [] || (!Strands(p, es[0]) && NothingStrands(Next(p, es[0]), es[1..]))
  }

  lemma StatsSplit(p: Pool)
    requires BusyAreActive(p)
    ensures |InState(p, Active)| - |Available(p)| == |Busy(p)|
  {
    assert InState(p, Active) == Available(p) + Busy(p);
    assert Available(p) !! Busy(p);
  }

  /** A SIM that holds a session stays active until its release, whatever rotations and drains happen
      meanwhile and whichever SIMs the drains were meant to retire. */
  lemma {:induction false} NoSessionStranded(p: Pool, es: seq<Event>)
    requires Paired(p) && BusyAreActive(p) && Valid(p, es) && DisciplinedRun(p, es) && NothingStrands(p, es)
    ensures BusyAreActive(Final(p, es))
    ensures |InState(Final(p, es), Active)| - |Available(Final(p, es))| == |Final(p, es).sessions|
    decreases |es|
  {
    hide Disciplined, Enabled, Next, Paired, BusyAreActive, Strands;
    if es == [] {
      StatsSplit(p);
      BusyCount(p);
    } else {
      StepPairedIff(p, es[0]);
      StepStrandsIff(p, es[0]);
      NoSessionStranded(Next(p, es[0]), es[1..]);
    }
  }

  /** Runs without liveness events and registrations are among those. */
  lemma {:induction false} FailureFreeNeverStrands(p: Pool, es: seq<Event>)
    requires Valid(p, es) && forall e :: e in es ==> !e.Fail? && !e.Recover? && !e.Add?
    ensures NothingStrands(p, es)
    decreases |es|
  {
    if es != [] {
      assert es[0] in es;
      FailureFreeNeverStrands(Next(p, es[0]), es[1..]);
    }
  }

  // ----- a SIM that fails between a rotation and its drain -----

  /** Neither a recovery nor a registration of the SIM, nor a drain. */
  ghost predicate LeavesFailed(e: Event, i: string) {
    !(e.Recover? && e.imsi == i) && !(e.Add? && e.sim.imsi == i) && !e.Drain?
  }

  /** An unavailable SIM stays so and can only lose its session, by release of its token. */
  lemma StepWhileFailed(p: Pool, e: Event, i: string)
    requires Paired(p) && Enabled(p, e) && LeavesFailed(e, i) && i in InState(p, Unavailable)
    ensures i in InState(Next(p, e), Unavailable)
    ensures var t := p.sims[i].currentSession;
            Next(p, e).sims[i].currentSession == if e == Release(t) then "" else t
  {
    if e.Release? {
      assert p.sessions[e.token] == i ==> e.token == p.sims[i].currentSession;
    }
  }

  lemma {:induction false} RunWhileFailed(p: Pool, es: seq<Event>, i: string)
    requires Paired(p) && Valid(p, es) && DisciplinedRun(p, es) && i in InState(p, Unavailable)
    requires forall e :: e in es ==> LeavesFailed(e, i)
    ensures i in InState(Final(p, es), Unavailable)
    ensures var t := p.sims[i].currentSession;
            Final(p, es).sims[i].currentSession == "" <==> t == "" || Release(t) in es
    decreases |es|
  {
    if es != [] {
      var e, q := es[0], Next(p, es[0]);
      assert es == [e] + es[1..];
      StepWhileFailed(p, e, i);
      StepPairedIff(p, e);
      hide Paired, Enabled, Next, Disciplined, LeavesFailed, InState;
      RunWhileFailed(q, es[1..], i);
    }
  }

  /** A SIM fails between a rotation and its drain and does not recover meanwhile. The drain makes it
      dormant all the same, exactly when the rotation had chosen it for retirement and it either had no
      session when it failed or has lost it since by release. */
  lemma DrainRevivesIff(p: Pool, plan: Plan, now: int, before: seq<Event>, i: string, after: seq<Event>)
    requires Paired(p) && Enabled(p, Rotate(plan, now))
    requires Valid(Next(p, Rotate(plan, now)), before) && DisciplinedRun(Next(p, Rotate(plan, now)), before)
    requires var q := Final(Next(p, Rotate(plan, now)), before);
             i in q.sims && Valid(Next(q, Fail(i)), after) && DisciplinedRun(Next(q, Fail(i)), after)
    requires forall e :: e in after ==> LeavesFailed(e, i)
    ensures var q := Final(Next(p, Rotate(plan, now)), before);
            var t := q.sims[i].currentSession;
            i in InState(Next(Final(Next(q, Fail(i)), after), Drain(plan.retire)), Dormant)
            <==> i in plan.retire && (t == "" || Release(t) in after)
  {
    StepPairedIff(p, Rotate(plan, now));
    SessionsPaired(Next(p, Rotate(plan, now)), before);
    var q := Final(Next(p, Rotate(plan, now)), before);
    StepPairedIff(q, Fail(i));
    var failed := Next(q, Fail(i));
    assert i in InState(failed, Unavailable) && failed.sims[i].currentSession == q.sims[i].currentSession;
    RunWhileFailed(failed, after, i);
    DrainOfFailed(Final(failed, after), plan.retire, i);
  }

  lemma DrainOfFailed(p: Pool, retire: set<string>, i: string)
    requires i in InState(p, Unavailable)
    ensures i in InState(Next(p, Drain(retire)), Dormant) <==> i in retire && p.sims[i].currentSession == ""
  {
  }

  /** All SIMs dormant and idle, as after start-up, and more of them than the target. */
  ghost predicate FreshPool(p: Pool) {
    && Keyed(p) && |p.sims| > TargetCount(|p.sims|) && p.sessions == map[]
    && forall i :: i in p.sims ==>
         p.sims[i].state == Dormant && p.sims[i].currentSession == "" && p.sims[i].lastActive <= p.lastRotation
  }

  lemma FirstPlan(p: Pool, promoted: set<string>, a: string, e: string)
    requires FreshPool(p) && Enabled(p, Init(promoted)) && a in promoted && e in p.sims.Keys - promoted
    ensures ValidPlan(Next(p, Init(promoted)), Plan(1, {e}, {}, {a}))
  {
    var q := Next(p, Init(promoted));
    assert InState(p, Dormant) == p.sims.Keys && |p.sims| == |p.sims.Keys|;
    assert q.sims.Keys == p.sims.Keys && |q.sims| == |q.sims.Keys|;
    assert InState(q, Active) == promoted && InState(q, Dormant) == p.sims.Keys - promoted;
    assert a in Retirable(q);
    SubsetSize({a}, Retirable(q));
    SubsetSize({e}, InState(q, Dormant));
  }

  lemma EventThen(p: Pool, e: Event, rest: seq<Event>)
    requires Enabled(p, e) && Valid(Next(p, e), rest)
    ensures Valid(p, [e] + rest) && Final(p, [e] + rest) == Final(Next(p, e), rest)
  {
    assert ([e] + rest)[1..] == rest;
  }

  /** From every fresh pool there is a run in which a SIM fails, never recovers and is dormant at the end:
      initialisation, a rotation, the failure, the rotation's drain. */
  lemma FailedSimRevived(p: Pool, promoted: set<string>, now: int) returns (plan: Plan, a: string, es: seq<Event>)
    requires FreshPool(p) && Enabled(p, Init(promoted))
    ensures es == [Init(promoted), Rotate(plan, now), Fail(a), Drain(plan.retire)] && Valid(p, es)
    ensures a in p.sims && a in InState(Final(p, es), Dormant)
    ensures Final(p, es).sims[a].failCount == p.sims[a].failCount + 1
  {
    assert InState(p, Dormant) == p.sims.Keys && |p.sims| == |p.sims.Keys|;
    a :| a in promoted;
    DifferenceSize(p.sims.Keys, promoted);
    var e :| e in p.sims.Keys - promoted;
    plan := Plan(1, {e}, {}, {a});
    FirstPlan(p, promoted, a, e);
    var p1 := Next(p, Init(promoted));
    assert p1.sims[a] == p.sims[a].(state := Active);
    var end := RetiredThenFailed(p1, plan, now, a);
    EventThen(p, Init(promoted), end);
    es := [Init(promoted)] + end;
  }

  lemma RetiredThenFailed(p: Pool, plan: Plan, now: int, a: string) returns (es: seq<Event>)
    requires ValidPlan(p, plan) && a in plan.retire && a in p.sims && p.sims[a].currentSession == ""
    ensures es == [Rotate(plan, now), Fail(a), Drain(plan.retire)] && Valid(p, es)
    ensures a in InState(Final(p, es), Dormant)
    ensures Final(p, es).sims[a].failCount == p.sims[a].failCount + 1
  {
    var p2 := Next(p, Rotate(plan, now));
    assert a in p2.sims && p2.sims[a].failCount == p.sims[a].failCount && p2.sims[a].currentSession == "";
    hide ValidPlan;
    var p3 := Next(p2, Fail(a));
    DrainOfFailed(p3, plan.retire, a);
    EventThen(p3, Drain(plan.retire), []);
    EventThen(p2, Fail(a), [Drain(plan.retire)] + []);
    EventThen(p, Rotate(plan, now), [Fail(a)] + ([Drain(plan.retire)] + []));
    es := [Rotate(plan, now)] + ([Fail(a)] + ([Drain(plan.retire)] + []));
  }
}
