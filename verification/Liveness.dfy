/** Liveness monitoring of the SIM pool. */
module Liveness {
  import opened Collections
  import opened SimPool
  import opened SimPoolCode

  /** `time.Duration`: nanoseconds in 64 bits. Arithmetic that left the range would not verify. */
  newtype Duration = n: int | -0x8000_0000_0000_0000 <= n < 0x8000_0000_0000_0000

  const DORMANT_LIVENESS_INTERVAL: Duration := 3_600_000_000_000
  const MAX_BACKOFF_INTERVAL: Duration := 14_400_000_000_000

  ghost function Pow2(k: nat): (p: nat)
    ensures p >= 1
  {
    if k == 0 then 1 else 2 * Pow2(k - 1)
  }

  /** The wait doubles with each failure, up to four hours. */
  ghost function Backoff(failCount: int): int {
    if failCount <= 0 then DORMANT_LIVENESS_INTERVAL as int
    else Min(DORMANT_LIVENESS_INTERVAL as int * Pow2(failCount), MAX_BACKOFF_INTERVAL as int)
  }

  lemma {:induction false} Pow2Monotone(a: nat, b: nat)
    requires a <= b
    ensures Pow2(a) <= Pow2(b)
    decreases b
  {
    if a < b {
      Pow2Monotone(a, b - 1);
    }
  }

  /** Waits never get shorter as failures add up, and they stay between one and four hours. */
  lemma BackoffMonotone(a: int, b: int)
    requires a <= b
    ensures DORMANT_LIVENESS_INTERVAL as int <= Backoff(a) <= Backoff(b) <= MAX_BACKOFF_INTERVAL as int
  {
    if a > 0 {
      Pow2Monotone(a, b);
    }
  }

  method BackoffDuration(failCount: int) returns (d: Duration)
    ensures d as int == Backoff(failCount)
  {
    if failCount <= 0 {
      return DORMANT_LIVENESS_INTERVAL;
    }
    d := DORMANT_LIVENESS_INTERVAL;
    for i := 0 to failCount
      invariant d <= MAX_BACKOFF_INTERVAL
      invariant d as int == DORMANT_LIVENESS_INTERVAL as int * Pow2(i)
    {
      d := d * 2;
      if d > MAX_BACKOFF_INTERVAL {
        Pow2Monotone(i + 1, failCount);
        return MAX_BACKOFF_INTERVAL;
      }
    }
  }

  /** The carrier check of each SIM, and the clock when it is examined. */
  datatype Probe = Probe(reachable: string -> bool, clock: string -> int)

  ghost function AfterActiveCheck(s: Sim, probe: Probe): Sim {
    if s.state != Active then s
    else if probe.reachable(s.imsi) then s.(lastHealthCheck := probe.clock(s.imsi))
    else s.(state := Unavailable, failCount := s.failCount + 1)
  }

  ghost function AfterDormantCheck(s: Sim, probe: Probe): Sim {
    match s.state
    case Active => s
    case Dormant =>
      if probe.reachable(s.imsi) then s.(lastHealthCheck := probe.clock(s.imsi))
      else s.(state := Unavailable, failCount := s.failCount + 1)
    case Unavailable =>
      if probe.clock(s.imsi) - s.lastHealthCheck < Backoff(s.failCount) then s
      else if probe.reachable(s.imsi) then s.(state := Dormant, failCount := 0)
      else s.(state := Unavailable, failCount := s.failCount + 1, lastHealthCheck := probe.clock(s.imsi))
  }

  ghost predicate LivenessEvent(e: Event) {
    e.Fail? || e.Recover? || e.Stamp?
  }

  /** The wait after `k` failures in hours: one, two, and then four. */
  lemma BackoffHours(k: int)
    ensures Backoff(k) == 3_600_000_000_000 * (if k <= 0 then 1 else if k == 1 then 2 else 4)
  {
    assert Pow2(1) == 2 && Pow2(2) == 4;
    if k > 2 {
      Pow2Monotone(2, k);
    }
  }

  /** Enough hours have passed since the last check of a SIM with that many failures. */
  ghost predicate RetryDue(s: Sim, now: int) {
    now - s.lastHealthCheck >= 3_600_000_000_000 * (if s.failCount <= 0 then 1 else if s.failCount == 1 then 2 else 4)
  }

  ghost predicate Reached(p: Pool, i: string, probe: Probe, st: SimState) {
    i in InState(p, st) && probe.reachable(i)
  }

  /** What a pass over the active SIMs does: those that answer are stamped and stay active, the others become
      unavailable with one failure more, and no other SIM changes. */
  ghost predicate ActivePass(p: Pool, q: Pool, probe: Probe) {
    && q.sims.Keys == p.sims.Keys
    && InState(q, Active) == set i | i in p.sims && Reached(p, i, probe, Active)
    && InState(q, Dormant) == InState(p, Dormant)
    && forall i :: i in p.sims ==>
         && (p.sims[i].state != Active ==> q.sims[i] == p.sims[i])
         && (Reached(p, i, probe, Active) ==> q.sims[i] == p.sims[i].(lastHealthCheck := probe.clock(i)))
         && (p.sims[i].state == Active && !probe.reachable(i) ==>
               q.sims[i] == p.sims[i].(state := Unavailable, failCount := p.sims[i].failCount + 1))
  }

  /** What a pass over the other SIMs does: dormant afterwards are the dormant SIMs that answer and the
      unavailable ones that answer once their wait is over, the latter with their failures cleared; active SIMs
      and those still waiting do not change; every other SIM has one failure more. */
  ghost predicate DormantPass(p: Pool, q: Pool, probe: Probe) {
    && q.sims.Keys == p.sims.Keys
    && InState(q, Active) == InState(p, Active)
    && InState(q, Dormant) == set i | i in p.sims
                                && (Reached(p, i, probe, Dormant)
                                    || (Reached(p, i, probe, Unavailable) && RetryDue(p.sims[i], probe.clock(i))))
    && forall i :: i in p.sims ==>
         && (p.sims[i].state == Active ==> q.sims[i] == p.sims[i])
         && (p.sims[i].state == Unavailable && !RetryDue(p.sims[i], probe.clock(i)) ==> q.sims[i] == p.sims[i])
         && (Reached(p, i, probe, Dormant) ==> q.sims[i] == p.sims[i].(lastHealthCheck := probe.clock(i)))
         && (Reached(p, i, probe, Unavailable) && RetryDue(p.sims[i], probe.clock(i)) ==>
               q.sims[i] == p.sims[i].(state := Dormant, failCount := 0))
         && (p.sims[i].state == Dormant && !probe.reachable(i) ==>
               q.sims[i] == p.sims[i].(state := Unavailable, failCount := p.sims[i].failCount + 1))
         && (p.sims[i].state == Unavailable && !probe.reachable(i) && RetryDue(p.sims[i], probe.clock(i)) ==>
               q.sims[i] == p.sims[i].(failCount := p.sims[i].failCount + 1, lastHealthCheck := probe.clock(i)))
  }

  lemma ActivePassEffect(p: Pool, q: Pool, probe: Probe)
    requires Keyed(p) && q.sims == map i | i in p.sims :: AfterActiveCheck(p.sims[i], probe)
    ensures ActivePass(p, q, probe)
  {
  }

  lemma DormantPassEffect(p: Pool, q: Pool, probe: Probe)
    requires Keyed(p) && q.sims == map i | i in p.sims :: AfterDormantCheck(p.sims[i], probe)
    ensures DormantPass(p, q, probe)
  {
    forall i | i in p.sims ensures RetryDue(p.sims[i], probe.clock(i)) <==>
                                   probe.clock(i) - p.sims[i].lastHealthCheck >= Backoff(p.sims[i].failCount)
    {
      BackoffHours(p.sims[i].failCount);
    }
    hide Backoff, RetryDue;
  }

  /** Each pass examines every SIM once. It is a run of single liveness events of the pool, so the
      theorems about all runs cover it, and its net effect is the same per-SIM function everywhere. */
  method CheckActive(pool: PoolManager, probe: Probe) returns (ghost es: seq<Event>)
    requires Keyed(pool.View())
    modifies pool
    ensures Valid(old(pool.View()), es) && pool.View() == Final(old(pool.View()), es)
    ensures forall e :: e in es ==> LivenessEvent(e)
    ensures pool.sims == map i | i in old(pool.sims) :: AfterActiveCheck(old(pool.sims)[i], probe)
    ensures ActivePass(old(pool.View()), pool.View(), probe)
  {
    es := [];
    ghost var start := pool.View();
    var todo := pool.sims.Keys;
    while todo != {}
      invariant pool.sims.Keys == start.sims.Keys && todo <= start.sims.Keys
      invariant Valid(start, es) && pool.View() == Final(start, es)
      invariant forall e :: e in es ==> LivenessEvent(e)
      invariant forall i :: i in todo ==> pool.sims[i] == start.sims[i]
      invariant forall i :: i in start.sims.Keys - todo ==> pool.sims[i] == AfterActiveCheck(start.sims[i], probe)
    {
      var i :| i in todo;
      todo := todo - {i};
      ghost var more := ExamineActive(pool, i, probe);
      ValidAppend(start, es, more);
      es := es + more;
    }
    ActivePassEffect(start, pool.View(), probe);
  }

  method ExamineActive(pool: PoolManager, i: string, probe: Probe) returns (ghost es: seq<Event>)
    requires i in pool.sims && pool.sims[i].imsi == i
    modifies pool
    ensures Valid(old(pool.View()), es) && pool.View() == Final(old(pool.View()), es)
    ensures forall e :: e in es ==> LivenessEvent(e)
    ensures pool.sims == old(pool.sims)[i := AfterActiveCheck(old(pool.sims)[i], probe)]
  {
    es := [];
    if pool.sims[i].state == Active {
      OneEvent(pool.View(), Fail(i));
      OneEvent(pool.View(), Stamp(i, probe.clock(i)));
      if !probe.reachable(i) {
        pool.MarkUnavailable(i);
        es := [Fail(i)];
      } else {
        pool.StampHealth(i, probe.clock(i));
        es := [Stamp(i, probe.clock(i))];
      }
    }
  }

  method CheckDormant(pool: PoolManager, probe: Probe) returns (ghost es: seq<Event>)
    requires Keyed(pool.View())
    modifies pool
    ensures Valid(old(pool.View()), es) && pool.View() == Final(old(pool.View()), es)
    ensures forall e :: e in es ==> LivenessEvent(e)
    ensures pool.sims == map i | i in old(pool.sims) :: AfterDormantCheck(old(pool.sims)[i], probe)
    ensures DormantPass(old(pool.View()), pool.View(), probe)
  {
    es := [];
    ghost var start := pool.View();
    var todo := pool.sims.Keys;
    while todo != {}
      invariant pool.sims.Keys == start.sims.Keys && todo <= start.sims.Keys
      invariant Valid(start, es) && pool.View() == Final(start, es)
      invariant forall e :: e in es ==> LivenessEvent(e)
      invariant forall i :: i in todo ==> pool.sims[i] == start.sims[i]
      invariant forall i :: i in start.sims.Keys - todo ==> pool.sims[i] == AfterDormantCheck(start.sims[i], probe)
    {
      var i :| i in todo;
      todo := todo - {i};
      ghost var more := ExamineDormant(pool, i, probe);
      ValidAppend(start, es, more);
      es := es + more;
    }
    DormantPassEffect(start, pool.View(), probe);
  }

  method ExamineDormant(pool: PoolManager, i: string, probe: Probe) returns (ghost es: seq<Event>)
    requires i in pool.sims && pool.sims[i].imsi == i
    modifies pool
    ensures Valid(old(pool.View()), es) && pool.View() == Final(old(pool.View()), es)
    ensures forall e :: e in es ==> LivenessEvent(e)
    ensures pool.sims == old(pool.sims)[i := AfterDormantCheck(old(pool.sims)[i], probe)]
  {
    es := [];
    var now := probe.clock(i);
    OneEvent(pool.View(), Fail(i));
    OneEvent(pool.View(), Stamp(i, now));
    OneEvent(pool.View(), Recover(i));
    match pool.sims[i].state {
      case Active =>
      case Dormant =>
        if !probe.reachable(i) {
          pool.MarkUnavailable(i);
          es := [Fail(i)];
        } else {
          pool.StampHealth(i, now);
          es := [Stamp(i, now)];
        }
      case Unavailable =>
        var backoff := BackoffDuration(pool.sims[i].failCount);
        if now - pool.sims[i].lastHealthCheck >= backoff as int {
          if probe.reachable(i) {
            pool.MarkDormant(i);
            es := [Recover(i)];
          } else {
            pool.StampHealth(i, now);
            OneEvent(pool.View(), Fail(i));
            pool.MarkUnavailable(i);
            es := [Stamp(i, now), Fail(i)];
            ValidAppend(old(pool.View()), [Stamp(i, now)], [Fail(i)]);
            assert [Stamp(i, now)] + [Fail(i)] == es;
          }
        }
    }
  }

  lemma OneEvent(p: Pool, e: Event)
    requires Enabled(p, e)
    ensures Valid(p, [e]) && Final(p, [e]) == Next(p, e)
  {
    assert [e][1..] == [];
  }

  lemma {:induction false} ValidAppend(p: Pool, es: seq<Event>, more: seq<Event>)
    requires Valid(p, es) && Valid(Final(p, es), more)
    ensures Valid(p, es + more) && Final(p, es + more) == Final(Final(p, es), more)
    decreases |es|
  {
    if es == [] {
      assert es + more == more;
    } else {
      assert (es + more)[1..] == es[1..] + more;
      ValidAppend(Next(p, es[0]), es[1..], more);
    }
  }
}
