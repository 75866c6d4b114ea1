/**
 Node jobs: the verdict over the tasks of a job, with its decimal rounding, and the phase
 machine that timeouts and reconciles drive.
 */
module NodeJobs {
  import opened Common

  datatype JobPhase = NotInitialized | Init | InProgress | Completed | Failure

  /** spec.failureTolerate as strconv.ParseFloat sees it. */
  datatype Tolerance = Unspecified | Unparsable | NotFinite | Value(v: real)

  const E13: int := 10000000000000
  const E14: int := 100000000000000
  const E16: int := 10000000000000000

  // ---------------------------------------------------------------- the arithmetic of the verdict

  /** decimal.Div: fail/total in units of 10^-16, rounded half up. */
  function Quotient16(fail: nat, total: nat): nat
    requires total > 0
  {
    var n := fail * E16;
    if 2 * (n % total) >= total then n / total + 1 else n / total
  }

  /** Round(2): the quotient in hundredths, rounded half up once more. */
  function Hundredths(fail: nat, total: nat): nat
    requires total > 0
  {
    (Quotient16(fail, total) / E13 + 5) / 10
  }

  /** fail/total in hundredths, rounded half up once. */
  function ExactHundredths(fail: nat, total: nat): nat
    requires total > 0
  {
    (200 * fail + total) / (2 * total)
  }

  /** The distance, in units of 1/(200 total), from fail/total up to the next rounding boundary. */
  function Gap(fail: nat, total: nat): int
    requires total > 0
  {
    (2 * ExactHundredths(fail, total) + 1) * total - 200 * fail
  }

  function Ratio(fail: nat, total: nat): real
    requires total > 0
  {
    fail as real / total as real
  }

  lemma DivBounds(n: int, d: int)
    requires d > 0
    ensures d * (n / d) <= n < d * (n / d) + d
  {
  }

  lemma QuotientBounds(fail: nat, total: nat)
    requires total > 0
    ensures 2 * E16 * fail - total < 2 * total * Quotient16(fail, total) <= 2 * E16 * fail + total
  {
    var n := fail * E16;
    var q, r := n / total, n % total;
    assert n == total * q + r;
    assert total * (q + 1) == total * q + total;
    if 2 * r >= total {
      assert 2 * total * Quotient16(fail, total) == 2 * (total * q) + 2 * total;
    } else {
      assert 2 * total * Quotient16(fail, total) == 2 * (total * q);
    }
  }

  lemma ExactBounds(fail: nat, total: nat)
    requires total > 0
    ensures var k := ExactHundredths(fail, total);
            (2 * k - 1) * total <= 200 * fail < (2 * k + 1) * total
  {
    var k := ExactHundredths(fail, total);
    DivBounds(200 * fail + total, 2 * total);
    assert (2 * k - 1) * total == 2 * total * k - total;
    assert (2 * k + 1) * total == 2 * total * k + total;
  }

  /** Twofold rounding differs from single rounding, upward by one hundredth, exactly when the
      boundary is closer than half of 10^-16. */
  lemma DoubleRoundingIff(fail: nat, total: nat)
    requires total > 0
    ensures Gap(fail, total) >= 1
    ensures Hundredths(fail, total) ==
              ExactHundredths(fail, total) + (if E14 * Gap(fail, total) <= total then 1 else 0)
  {
    var k, q, gap := ExactHundredths(fail, total), Quotient16(fail, total), Gap(fail, total);
    QuotientBounds(fail, total);
    ExactBounds(fail, total);
    // q is at least the boundary below, and reaches the boundary above only when the gap is small
    QuotientVersus(fail, total, q, 2 * k - 1);
    QuotientVersus(fail, total, q, 2 * k + 1);
    QuotientVersus(fail, total, q, 2 * k + 3);
    assert (2 * k + 3) * total == (2 * k + 1) * total + 2 * total;
  }

  /** The rounded quotient reaches b half-hundredths exactly when fail/total does, up to half a unit. */
  lemma QuotientVersus(fail: nat, total: nat, q: int, b: int)
    requires total > 0 && 2 * E16 * fail - total < 2 * total * q <= 2 * E16 * fail + total
    ensures q >= 50 * 1000000000000 * b <==> E14 * (b * total - 200 * fail) <= total
  {
    var edge := 50 * 1000000000000 * b;
    assert 2 * total * edge == E14 * (b * total);
    if q >= edge {
      assert 2 * total * q >= 2 * total * edge;
    } else {
      assert 2 * total * q <= 2 * total * (edge - 1);
      assert 2 * total * (edge - 1) == 2 * total * edge - 2 * total;
    }
  }

  // ---------------------------------------------------------------- the verdict

  function Limit(tolerance: Tolerance): real {
    if tolerance.Value? then tolerance.v else 0.0
  }

  /** fail/total, rounded to hundredths, exceeds the tolerance. */
  predicate Exceeds(fail: nat, total: nat, limit: real)
    requires total > 0
  {
    fail > 0 && Hundredths(fail, total) as real / 100.0 > limit
  }

  /** CalculatePhaseWithCounts; None is the panic on a tolerance that is not finite. */
  function CalculatePhase(total: nat, processing: nat, fail: nat, tolerance: Tolerance): Option<JobPhase> {
    if total == 0 then Some(Failure)
    else if processing > 0 then Some(InProgress)
    else if fail > 0 && tolerance.NotFinite? then None
    else if Exceeds(fail, total, Limit(tolerance)) then Some(Failure)
    else Some(Completed)
  }

  lemma {:induction false} ProductAsReal(a: int, n: nat)
    ensures (a * n) as real == a as real * n as real
  {
    if n > 0 {
      ProductAsReal(a, n - 1);
      assert a * n == a * (n - 1) + a;
      assert a as real * n as real == a as real * (n - 1) as real + a as real;
    }
  }

  /** The exact hundredths bound the ratio from both sides. */
  lemma ExactBoundsReal(fail: nat, total: nat)
    requires total > 0
    ensures var k := ExactHundredths(fail, total) as real;
            k / 100.0 - 0.005 <= Ratio(fail, total) < k / 100.0 + 0.005
  {
    var k: int := ExactHundredths(fail, total);
    ExactBounds(fail, total);
    RatioBelow(2 * k - 1, fail, total);
    RatioAbove(2 * k + 1, fail, total);
  }

  lemma RatioBelow(b: int, fail: nat, total: nat)
    requires total > 0 && b * total <= 200 * fail
    ensures b as real / 200.0 <= Ratio(fail, total)
  {
    ProductAsReal(b, total);
    assert Ratio(fail, total) * total as real == fail as real;
    CancelLess(b as real / 200.0, Ratio(fail, total), total as real);
  }

  lemma RatioAbove(b: int, fail: nat, total: nat)
    requires total > 0 && 200 * fail < b * total
    ensures Ratio(fail, total) < b as real / 200.0
  {
    ProductAsReal(b, total);
    assert Ratio(fail, total) * total as real == fail as real;
    CancelLess(Ratio(fail, total), b as real / 200.0, total as real);
  }

  lemma CancelLess(a: real, b: real, d: real)
    requires d > 0.0
    ensures a * d <= b * d ==> a <= b
    ensures a * d < b * d ==> a < b
  {
    if a > b {
      assert (a - b) * d > 0.0;
    }
  }

  /** Completed with failures: fail/total is below the tolerance plus half a hundredth. */
  lemma CompletedBound(fail: nat, total: nat, limit: real)
    requires total > 0 && fail > 0 && !Exceeds(fail, total, limit)
    ensures Ratio(fail, total) < limit + 0.005
  {
    DoubleRoundingIff(fail, total);
    ExactBoundsReal(fail, total);
  }

  /** Failure implies fail/total above the tolerance minus half a hundredth, for every tolerance,
      exactly when the next rounding boundary is not within half of 10^-16. */
  lemma FailureBoundIff(fail: nat, total: nat)
    requires total > 0 && fail > 0
    ensures (forall limit :: Exceeds(fail, total, limit) ==> Ratio(fail, total) > limit - 0.005) <==>
              E14 * Gap(fail, total) > total
  {
    DoubleRoundingIff(fail, total);
    ExactBoundsReal(fail, total);
    if E14 * Gap(fail, total) <= total {
      assert Exceeds(fail, total, Ratio(fail, total) + 0.005);
    }
  }

  /** So the bound holds for every job of fewer than 10^14 nodes. */
  lemma FailureBound(fail: nat, total: nat, limit: real)
    requires 0 < total < E14 && Exceeds(fail, total, limit)
    ensures Ratio(fail, total) > limit - 0.005
  {
    DoubleRoundingIff(fail, total);
    FailureBoundIff(fail, total);
  }

  /** And fails beyond: one node more than 10^14, 0.5% of them failed, and a tolerance just below 1%. */
  lemma FailureBoundBroken()
    ensures Exceeds(500000000000, E14 + 1, 0.00999999999999999)
    ensures Ratio(500000000000, E14 + 1) <= 0.00999999999999999 - 0.005
  {
    assert ExactHundredths(500000000000, E14 + 1) == 0;
    DoubleRoundingIff(500000000000, E14 + 1);
  }

  /** The share of failed nodes that a job tolerates: none when it does not say, or not in a way that parses. */
  ghost predicate Tolerates(tolerance: Tolerance, share: real) {
    match tolerance
    case Value(v) => share == v
    case _ => share == 0.0
  }

  /** The verdict against the tolerance of the job: on Failure, more nodes have failed than it tolerates, and
      on Completed no more, up to half a hundredth. */
  lemma VerdictMeetsTolerance(total: nat, processing: nat, fail: nat, tolerance: Tolerance, share: real)
    requires 0 < total < E14 && fail > 0 && !tolerance.NotFinite? && Tolerates(tolerance, share)
    ensures CalculatePhase(total, processing, fail, tolerance) == Some(Failure) ==> Ratio(fail, total) > share - 0.005
    ensures CalculatePhase(total, processing, fail, tolerance) == Some(Completed) ==> Ratio(fail, total) < share + 0.005
  {
    if Exceeds(fail, total, share) {
      FailureBound(fail, total, share);
    } else {
      CompletedBound(fail, total, share);
    }
  }

  /** More failures never turn Failure into success. */
  lemma VerdictMonotone(total: nat, fail: nat, more: nat, tolerance: Tolerance)
    requires total > 0 && fail <= more
    requires CalculatePhase(total, 0, fail, tolerance) == Some(Failure)
    ensures CalculatePhase(total, 0, more, tolerance) == Some(Failure)
  {
    HundredthsMonotone(fail, more, total);
  }

  lemma HundredthsMonotone(fail: nat, more: nat, total: nat)
    requires total > 0 && fail <= more
    ensures Hundredths(fail, total) <= Hundredths(more, total)
  {
    QuotientBounds(fail, total);
    QuotientBounds(more, total);
    CancelInt(Quotient16(fail, total), Quotient16(more, total), 2 * total);
  }

  lemma CancelInt(a: int, b: int, d: int)
    requires d > 0
    ensures d * a < d * b + d ==> a <= b
  {
    if a >= b + 1 {
      assert d * a >= d * (b + 1);
    }
  }

  // ---------------------------------------------------------------- the job

  datatype TaskPhase = Pending | Running | Successful | Failed | Unknown

  /** lastAction: None without actions; otherwise its time, or None when that does not parse. */
  datatype Task = Task(phase: TaskPhase, lastAction: Option<Option<int>>)

  datatype Reason = NoReason | InitError | TooManyFailures(failed: nat, total: nat)

  datatype Spec = Spec(tolerance: Tolerance, timeoutSeconds: Option<int>, created: int)

  datatype Job = Job(phase: JobPhase, reason: Reason, tasks: seq<Task>)

  predicate Unfinished(t: Task) {
    t.phase.Pending? || t.phase.Running?
  }

  predicate CountsAsFailed(t: Task) {
    t.phase.Failed? || t.phase.Unknown?
  }

  function Count(ts: seq<Task>, p: Task -> bool): nat {
    if ts == [] then 0 else Count(ts[..|ts| - 1], p) + (if p(ts[|ts| - 1]) then 1 else 0)
  }

  predicate IsFinal(p: JobPhase) {
    p.Completed? || p.Failure?
  }

  /** CalculateStatus; a panic leaves the job as it was. */
  function Calculated(job: Job, spec: Spec): Job {
    var failed := Count(job.tasks, CountsAsFailed);
    match CalculatePhase(|job.tasks|, Count(job.tasks, Unfinished), failed, spec.tolerance)
    case None => job
    case Some(p) => Job(p, if p.Failure? then TooManyFailures(failed, |job.tasks|) else NoReason, job.tasks)
  }

  predicate TimeoutEnabled(spec: Spec) {
    spec.timeoutSeconds.Some? && spec.timeoutSeconds.value > 0
  }

  /** The deadline of a task; None when the time of its last action does not parse. */
  function Deadline(t: Task, spec: Spec): Option<int>
    requires TimeoutEnabled(spec)
  {
    match t.lastAction
    case None => Some(spec.created + spec.timeoutSeconds.value)
    case Some(None) => None
    case Some(Some(time)) => Some(time + spec.timeoutSeconds.value)
  }

  predicate Readable(t: Task, spec: Spec)
    requires TimeoutEnabled(spec)
  {
    !Unfinished(t) || Deadline(t, spec).Some?
  }

  function Expired(t: Task, spec: Spec, now: int): Task
    requires TimeoutEnabled(spec)
  {
    if Unfinished(t) && Deadline(t, spec).Some? && now > Deadline(t, spec).value then t.(phase := Unknown) else t
  }

  /** CheckTimeout; an unreadable time makes it fail before anything is written back. */
  function TimeoutChecked(job: Job, spec: Spec, now: int): Job {
    if !job.phase.InProgress? || !TimeoutEnabled(spec) then job
    else if exists i :: 0 <= i < |job.tasks| && !Readable(job.tasks[i], spec) then job
    else job.(tasks := seq(|job.tasks|, i requires 0 <= i < |job.tasks| => Expired(job.tasks[i], spec, now)))
  }

  /** RunReconcile on a job that has its finalizer, is not deleted, and was initialised. */
  function Reconciled(job: Job, spec: Spec): Job {
    if IsFinal(job.phase) then job else Calculated(job, spec)
  }

  // ---------------------------------------------------------------- the handler

  class JobHandler {
    const spec: Spec
    var phase: JobPhase
    var reason: Reason
    var tasks: seq<Task>

    ghost function View(): Job
      reads this
    {
      Job(phase, reason, tasks)
    }

    constructor (spec: Spec)
      ensures this.spec == spec && View() == Job(NotInitialized, NoReason, [])
    {
      this.spec, phase, reason, tasks := spec, NotInitialized, NoReason, [];
    }

    /** InitNodesStatus: the verified nodes, true for the valid ones; None is a verification error. */
    method InitNodesStatus(verified: Option<seq<bool>>)
      modifies this
      ensures verified.None? ==> View() == Job(Failure, InitError, old(tasks))
      ensures verified.Some? ==>
                && phase == Init && reason == old(reason) && |tasks| == |verified.value|
                && (forall i :: 0 <= i < |tasks| ==>
                      tasks[i] == Task(if verified.value[i] then Pending else Failed, None))
    {
      if verified.None? {
        phase, reason := Failure, InitError;
        return;
      }
      phase := Init;
      var status := [];
      for i := 0 to |verified.value|
        invariant |status| == i && phase == Init && reason == old(reason)
        invariant forall j :: 0 <= j < i ==> status[j] == Task(if verified.value[j] then Pending else Failed, None)
      {
        status := status + [Task(if verified.value[i] then Pending else Failed, None)];
      }
      tasks := status;
    }

    /** CalculateStatus reports whether it changed the job; None is the panic. */
    method CalculateStatus() returns (changed: Option<bool>)
      modifies this
      ensures View() == Calculated(old(View()), spec)
      ensures changed.Some? ==> (changed.value <==> View() != old(View()))
      ensures var unfinished, failed := Count(tasks, Unfinished), Count(tasks, CountsAsFailed);
              changed.None? <==> CalculatePhase(|tasks|, unfinished, failed, spec.tolerance).None?
      ensures changed.Some? && spec.tolerance != NotFinite ==> Justified(View(), spec.tolerance)
    {
      var processing, failed := 0, 0;
      for i := 0 to |tasks|
        invariant processing == Count(tasks[..i], Unfinished) && failed == Count(tasks[..i], CountsAsFailed)
        invariant View() == old(View())
      {
        assert tasks[..i + 1][..i] == tasks[..i];
        if CountsAsFailed(tasks[i]) {
          failed := failed + 1;
        } else if !tasks[i].phase.Successful? {
          processing := processing + 1;
        }
      }
      assert tasks[..|tasks|] == tasks;
      var verdict := CalculatePhase(|tasks|, processing, failed, spec.tolerance);
      if verdict.None? {
        return None;
      }
      var newReason := if verdict.value.Failure? then TooManyFailures(failed, |tasks|) else NoReason;
      changed := Some(phase != verdict.value || reason != newReason);
      phase, reason := verdict.value, newReason;
      if spec.tolerance != NotFinite {
        CalculatedIsJustified(old(View()), spec);
      }
    }

    /** CheckTimeout at a given time; the job it loads is written back only at the end. */
    method CheckTimeout(now: int) returns (ok: bool)
      modifies this
      ensures View() == TimeoutChecked(old(View()), spec, now)
      ensures !ok <==> old(phase).InProgress? && TimeoutEnabled(spec) &&
                       exists i :: 0 <= i < |old(tasks)| && !Readable(old(tasks)[i], spec)
    {
      if !phase.InProgress? || !TimeoutEnabled(spec) {
        return true;
      }
      var loaded := tasks;
      for i := 0 to |loaded|
        invariant |loaded| == |tasks| && View() == old(View())
        invariant forall j :: 0 <= j < i ==> Readable(tasks[j], spec) && loaded[j] == Expired(tasks[j], spec, now)
        invariant forall j :: i <= j < |tasks| ==> loaded[j] == tasks[j]
      {
        if Unfinished(loaded[i]) {
          var deadline := Deadline(loaded[i], spec);
          if deadline.None? {
            assert !Readable(tasks[i], spec);
            return false;
          }
          if now > deadline.value {
            loaded := loaded[i := loaded[i].(phase := Unknown)];
          }
        }
      }
      tasks := loaded;
      return true;
    }
  }

  // ---------------------------------------------------------------- progress and permanence

  lemma {:induction false} CountZeroIff(ts: seq<Task>, p: Task -> bool)
    ensures Count(ts, p) == 0 <==> forall i :: 0 <= i < |ts| ==> !p(ts[i])
  {
    if ts != [] {
      var n := |ts| - 1;
      CountZeroIff(ts[..n], p);
      assert forall i :: 0 <= i < n ==> ts[..n][i] == ts[i];
    }
  }

  predicate HasFailed(t: Task) {
    t.phase == Failed || t.phase == Unknown
  }

  lemma {:induction false} CountFailed(ts: seq<Task>)
    ensures Count(ts, CountsAsFailed) == Count(ts, HasFailed)
  {
    if ts != [] {
      CountFailed(ts[..|ts| - 1]);
    }
  }

  /** The phase of the job is what its tasks and its tolerance make it: Failure without tasks, InProgress while
      one is pending or running, Completed when all have succeeded, and otherwise decided by the share of
      failed and unknown ones, which the reason of a failure states. */
  ghost predicate Justified(job: Job, tolerance: Tolerance) {
    var total, failed := |job.tasks|, Count(job.tasks, HasFailed);
    && job.phase in {InProgress, Completed, Failure}
    && (total == 0 ==> job.phase == Failure)
    && (job.phase == InProgress <==>
          exists i :: 0 <= i < total && (job.tasks[i].phase == Pending || job.tasks[i].phase == Running))
    && (total > 0 && (forall i :: 0 <= i < total ==> job.tasks[i].phase == Successful) ==> job.phase == Completed)
    && (0 < total < E14 && failed > 0 ==>
          forall share | Tolerates(tolerance, share) ::
            && (job.phase == Failure ==> Ratio(failed, total) > share - 0.005)
            && (job.phase == Completed ==> Ratio(failed, total) < share + 0.005))
    && job.reason == if job.phase == Failure then TooManyFailures(failed, total) else NoReason
  }

  /** A reconcile of an initialised job leaves such a phase, and the tasks as they are. */
  lemma CalculatedIsJustified(job: Job, spec: Spec)
    requires spec.tolerance != NotFinite
    ensures Justified(Calculated(job, spec), spec.tolerance) && Calculated(job, spec).tasks == job.tasks
    ensures job.phase == Init || job.phase == InProgress ==> Reconciled(job, spec) == Calculated(job, spec)
  {
    var total, unfinished, failed := |job.tasks|, Count(job.tasks, Unfinished), Count(job.tasks, HasFailed);
    CountFailed(job.tasks);
    CountZeroIff(job.tasks, Unfinished);
    CountZeroIff(job.tasks, HasFailed);
    if 0 < total < E14 && failed > 0 {
      forall share | Tolerates(spec.tolerance, share)
        ensures CalculatePhase(total, unfinished, failed, spec.tolerance) == Some(Failure) ==>
                  Ratio(failed, total) > share - 0.005
        ensures CalculatePhase(total, unfinished, failed, spec.tolerance) == Some(Completed) ==>
                  Ratio(failed, total) < share + 0.005
      {
        VerdictMeetsTolerance(total, unfinished, failed, spec.tolerance, share);
      }
    }
  }

  // ---------------------------------------------------------------- timeouts

  /** When the clock of a task started: with its last action, or with the job. */
  ghost predicate Since(t: Task, spec: Spec, start: int) {
    t.lastAction == Some(Some(start)) || (t.lastAction == None && start == spec.created)
  }

  /** When every clock can be read, a task of a running job times out, and becomes unknown, exactly if it is
      pending or running, a positive timeout is set, and more than that has passed; nothing else changes. */
  lemma TimesOutIff(job: Job, spec: Spec, now: int, i: nat, start: int)
    requires job.phase == InProgress && i < |job.tasks| && Since(job.tasks[i], spec, start)
    requires forall k :: 0 <= k < |job.tasks| && Unfinished(job.tasks[k]) ==> job.tasks[k].lastAction != Some(None)
    ensures var t, after := job.tasks[i], TimeoutChecked(job, spec, now);
            && |after.tasks| == |job.tasks| && after.phase == job.phase && after.reason == job.reason
            && after.tasks[i] ==
                 if (t.phase == Pending || t.phase == Running) && spec.timeoutSeconds.Some? &&
                    spec.timeoutSeconds.value > 0 && now - start > spec.timeoutSeconds.value
                 then Task(Unknown, t.lastAction) else t
  {
    if TimeoutEnabled(spec) {
      forall k | 0 <= k < |job.tasks| ensures Readable(job.tasks[k], spec) {
      }
    }
  }

  /** Timeouts are on, and there is a readable deadline, which has passed. */
  predicate Late(t: Task, spec: Spec, now: int) {
    TimeoutEnabled(spec) && Deadline(t, spec).Some? && now > Deadline(t, spec).value
  }

  lemma CountZeroForGood(ts: seq<Task>)
    ensures Count(ts, Unfinished) == 0 && Count(ts, CountsAsFailed) == 0 <==>
              forall i :: 0 <= i < |ts| ==> ts[i].phase.Successful?
  {
    CountZeroIff(ts, Unfinished);
    CountZeroIff(ts, CountsAsFailed);
  }

  /** What the timeout check leaves unfinished: with an unreadable time, everything. */
  lemma UnfinishedAfterCheck(job: Job, spec: Spec, now: int)
    requires job.phase.InProgress?
    ensures var checked := TimeoutChecked(job, spec, now);
            && |checked.tasks| == |job.tasks|
            && ((forall i :: 0 <= i < |job.tasks| ==> !Unfinished(checked.tasks[i])) <==>
                (forall i :: 0 <= i < |job.tasks| && Unfinished(job.tasks[i]) ==> Late(job.tasks[i], spec, now)))
  {
    var checked := TimeoutChecked(job, spec, now);
    if !TimeoutEnabled(spec) {
      assert checked == job;
    } else if k :| 0 <= k < |job.tasks| && !Readable(job.tasks[k], spec) {
      assert checked == job && Unfinished(job.tasks[k]) && !Late(job.tasks[k], spec, now);
    } else {
      assert forall i :: 0 <= i < |job.tasks| ==> checked.tasks[i] == Expired(job.tasks[i], spec, now);
    }
  }

  /** With a tolerance that is no finite number nothing may have failed, by itself or by the check. */
  lemma FailedAfterCheck(job: Job, spec: Spec, now: int)
    requires job.phase.InProgress?
    ensures var checked := TimeoutChecked(job, spec, now);
            && |checked.tasks| == |job.tasks|
            && ((forall i :: 0 <= i < |job.tasks| ==> checked.tasks[i].phase.Successful?) <==>
                (forall i :: 0 <= i < |job.tasks| ==> job.tasks[i].phase.Successful?))
  {
    var checked := TimeoutChecked(job, spec, now);
    forall i | 0 <= i < |job.tasks|
      ensures checked.tasks[i].phase.Successful? <==> job.tasks[i].phase.Successful?
    {
    }
  }

  /** A timeout check and a reconcile end an in-progress job exactly when it has no tasks, or every
      unfinished task is past a readable deadline, with timeouts on, and, if the tolerance is no finite
      number, every task has succeeded. */
  lemma JobSettlesIff(job: Job, spec: Spec, now: int)
    requires job.phase.InProgress?
    ensures IsFinal(Reconciled(TimeoutChecked(job, spec, now), spec).phase) <==>
              || job.tasks == []
              || (&& (forall i :: 0 <= i < |job.tasks| && Unfinished(job.tasks[i]) ==> Late(job.tasks[i], spec, now))
                  && (spec.tolerance.NotFinite? ==>
                        forall i :: 0 <= i < |job.tasks| ==> job.tasks[i].phase.Successful?))
  {
    var checked := TimeoutChecked(job, spec, now);
    UnfinishedAfterCheck(job, spec, now);
    FailedAfterCheck(job, spec, now);
    CountZeroIff(checked.tasks, Unfinished);
    CountZeroForGood(checked.tasks);
  }

  datatype Event = Reconcile | CheckTimeout(now: int) | Report(node: nat, task: Task)

  function After(job: Job, spec: Spec, e: Event): Job {
    match e
    case Reconcile => Reconciled(job, spec)
    case CheckTimeout(now) => TimeoutChecked(job, spec, now)
    case Report(i, t) => if i < |job.tasks| then job.(tasks := job.tasks[i := t]) else job
  }

  function AfterAll(job: Job, spec: Spec, es: seq<Event>): Job {
    if es == [] then job else After(AfterAll(job, spec, es[..|es| - 1]), spec, es[|es| - 1])
  }

  /** A final phase is for good: whatever reconciles, timeout checks and node reports follow. */
  lemma {:induction false} FinalPhaseIsPermanent(job: Job, spec: Spec, es: seq<Event>)
    requires IsFinal(job.phase)
    ensures AfterAll(job, spec, es).phase == job.phase && AfterAll(job, spec, es).reason == job.reason
  {
    if es != [] {
      FinalPhaseIsPermanent(job, spec, es[..|es| - 1]);
    }
  }

  /** A job whose tolerance is no finite number and one of whose tasks has failed goes on panicking:
      no reconciles and timeout checks ever end it. */
  lemma {:induction false} NotFiniteNeverSettles(job: Job, spec: Spec, es: seq<Event>, k: nat)
    requires job.phase.InProgress? && spec.tolerance.NotFinite? && k < |job.tasks| && CountsAsFailed(job.tasks[k])
    requires forall e :: e in es ==> !e.Report?
    ensures var job' := AfterAll(job, spec, es);
            job'.phase.InProgress? && k < |job'.tasks| && CountsAsFailed(job'.tasks[k])
  {
    if es != [] {
      var n := |es| - 1;
      NotFiniteNeverSettles(job, spec, es[..n], k);
      assert es[n] in es;
      CountZeroIff(AfterAll(job, spec, es[..n]).tasks, CountsAsFailed);
    }
  }

  /** Such as a job with tolerance "NaN" and one failed node. */
  lemma NaNJobIsStuck(es: seq<Event>)
    requires forall e :: e in es ==> !e.Report?
    ensures AfterAll(Job(InProgress, NoReason, [Task(Failed, None)]), Spec(NotFinite, None, 0), es).phase.InProgress?
  {
    NotFiniteNeverSettles(Job(InProgress, NoReason, [Task(Failed, None)]), Spec(NotFinite, None, 0), es, 0);
  }
}
