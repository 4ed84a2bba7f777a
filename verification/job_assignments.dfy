/**
 * A job assignment row and its derived values (src/entities/job_assignment.ts).
 * Times are milliseconds; `now` stands for the clock.
 */
module JobAssignments {
  import opened Types
  import opened Entities

  /** The highest success chance any job can have. */
  const MaxSuccessChance: real := 0.9

  /** A job_assignment row, keyed by (user, slot) in the world. */
  datatype JobAssignment = JobAssignment(
    card: Option<CardId>,
    activeUntil: Option<int>,
    startedAt: Option<int>,
    guildId: string,
    channelId: string)
  {
    /** isActive: a job is running exactly while activeUntil is set. */
    predicate IsActive()
    {
      activeUntil.Some?
    }
  }

  /**
   * progress: the elapsed fraction of the job, capped at 1 but not floored at 0.
   * None stands for the non-finite values a zero-length job gives (NaN, or -Infinity before it starts);
   * +Infinity is capped to 1.
   */
  function Progress(j: JobAssignment, now: int): (p: Option<real>)
    ensures j.activeUntil.None? || j.startedAt.None? ==> p == Some(0.0)
    ensures p.Some? ==> p.value <= 1.0
    ensures p.None? <==> j.activeUntil.Some? && j.startedAt.Some?
                         && j.activeUntil.value == j.startedAt.value && now <= j.startedAt.value
  {
    if j.activeUntil.None? || j.startedAt.None? then Some(0.0)
    else
      var duration := j.activeUntil.value - j.startedAt.value;
      var activeDuration := now - j.startedAt.value;
      if duration == 0 then (if activeDuration > 0 then Some(1.0) else None)
      else
        var progress := activeDuration as real / duration as real;
        if progress > 1.0 then Some(1.0) else Some(progress)
  }

  /** timeRemaining: time until activeUntil, never negative. The source dereferences activeUntil unguarded. */
  function TimeRemaining(j: JobAssignment, now: int): (r: int)
    requires j.activeUntil.Some?
    ensures r >= 0
    ensures r == 0 <==> now >= j.activeUntil.value
    ensures r > 0 ==> now + r == j.activeUntil.value
  {
    var remaining := j.activeUntil.value - now;
    if remaining < 0 then 0 else remaining
  }

  /** A running job's progress lies in [0, 1] while it runs and is 1 exactly when no time remains. */
  lemma {:induction false} ProgressAgreesWithTimeRemaining(j: JobAssignment, now: int)
    requires j.activeUntil.Some? && j.startedAt.Some? && j.startedAt.value < j.activeUntil.value
    requires j.startedAt.value <= now
    ensures Progress(j, now).Some?
    ensures 0.0 <= Progress(j, now).value <= 1.0
    ensures Progress(j, now).value == 1.0 <==> TimeRemaining(j, now) == 0
  {
    var d := (j.activeUntil.value - j.startedAt.value) as real;
    var a := (now - j.startedAt.value) as real;
    assert d > 0.0 && a >= 0.0;
    if a < d {
      assert a / d < 1.0;
    } else {
      assert a / d >= 1.0;
    }
  }

  /** Progress never goes backwards as time passes. */
  lemma {:induction false} ProgressMonotone(j: JobAssignment, t1: int, t2: int)
    requires j.activeUntil.Some? && j.startedAt.Some? && j.startedAt.value < j.activeUntil.value
    requires t1 <= t2
    ensures Progress(j, t1).Some? && Progress(j, t2).Some?
    ensures Progress(j, t1).value <= Progress(j, t2).value
  {
    var d := (j.activeUntil.value - j.startedAt.value) as real;
    var a1 := (t1 - j.startedAt.value) as real;
    var a2 := (t2 - j.startedAt.value) as real;
    assert d > 0.0 && a1 <= a2;
    assert a1 / d <= a2 / d;
  }

  /**
   * successChance: 0.3 + 0.7 * (motivation / 10) * root, halved when mindblocked and capped at 0.9.
   * `effortRoot` is (jobBaseEffort / 240) ^ 0.25, computed by Math.pow outside the model.
   */
  function SuccessChance(motivation: int, effortRoot: real, mindblocked: bool): (c: real)
    ensures c <= MaxSuccessChance
  {
    CappedChance((motivation as real / 10.0) * effortRoot, mindblocked)
  }

  /** The chance for a scaled motivation value: 0.3 + 0.7 * value, halved when mindblocked, capped at 0.9. */
  function CappedChance(value: real, mindblocked: bool): (c: real)
    ensures c <= MaxSuccessChance
  {
    var value' := 0.3 + value * 0.7;
    var value'' := if mindblocked then value' * 0.5 else value';
    if value'' > 0.9 then 0.9 else value''
  }

  /**
   * With non-negative motivation and root, the chance is at least 0.3 (0.15 when mindblocked),
   * a mindblock never raises it, and more motivation never lowers it.
   */
  lemma {:induction false} SuccessChanceBounds(m1: int, m2: int, effortRoot: real, mindblocked: bool)
    requires 0 <= m1 <= m2 && effortRoot >= 0.0
    ensures SuccessChance(m1, effortRoot, false) >= 0.3
    ensures SuccessChance(m1, effortRoot, true) >= 0.15
    ensures SuccessChance(m1, effortRoot, true) <= SuccessChance(m1, effortRoot, false)
    ensures SuccessChance(m1, effortRoot, mindblocked) <= SuccessChance(m2, effortRoot, mindblocked)
  {
    var v1 := (m1 as real / 10.0) * effortRoot;
    var v2 := (m2 as real / 10.0) * effortRoot;
    ProductBounds(m1 as real / 10.0, m2 as real / 10.0, effortRoot);
    ChanceFromValue(v1, v2, mindblocked);
  }

  /** Both factors non-negative and the first growing: the product is non-negative and grows. */
  lemma {:induction false} ProductBounds(a1: real, a2: real, r: real)
    requires 0.0 <= a1 <= a2 && r >= 0.0
    ensures 0.0 <= a1 * r <= a2 * r
  {
    assert a2 * r - a1 * r == (a2 - a1) * r;
  }

  /** For non-negative values the capped chance has the floors, the mindblock order and the monotonicity. */
  lemma {:induction false} ChanceFromValue(v1: real, v2: real, mindblocked: bool)
    requires 0.0 <= v1 <= v2
    ensures CappedChance(v1, false) >= 0.3 && CappedChance(v1, true) >= 0.15
    ensures CappedChance(v1, true) <= CappedChance(v1, false)
    ensures CappedChance(v1, mindblocked) <= CappedChance(v2, mindblocked)
  {
  }
}
