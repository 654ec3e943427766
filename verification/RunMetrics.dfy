/** Agent-run metrics: counters and samples gathered in two loops, against their declarative totals. */
module RunMetrics {
  import opened Outcomes
  import Text

  /** Times in milliseconds. */
  datatype Run = Run(status: string, createdAt: int, startedAt: Option<int>, completedAt: Option<int>)

  datatype PayloadValue = Numeric(x: real) | Textual(s: string) | OtherValue

  /** A checkpoint; a payload that is no object counts as empty. */
  datatype Checkpoint = Checkpoint(key: string, payload: map<string, PayloadValue>)

  // ---------------------------------------------------------------- what is counted

  datatype Tally =
    | Queued | Planning | WaitingApproval | Running
    | Created | Started | Completed
    | Succeeded | Failed | Cancelled
    | QueueToStartMs | CompletionMs

  predicate Since(t: Option<int>, from: int) { t.Some? && t.value >= from }

  function One(b: bool): int { if b then 1 else 0 }

  function Max0(n: int): int { if n < 0 then 0 else n }

  /** What one run adds to a tally, for a window that begins at `from`. */
  function Weight(t: Tally, r: Run, from: int): int {
    match t
    case Queued => One(r.status == "queued")
    case Planning => One(r.status == "planning")
    case WaitingApproval => One(r.status == "waiting_approval")
    case Running => One(r.status == "running")
    case Created => One(r.createdAt >= from)
    case Started => One(Since(r.startedAt, from))
    case Completed => One(Since(r.completedAt, from))
    case Succeeded => One(Since(r.completedAt, from) && r.status == "succeeded")
    case Failed => One(Since(r.completedAt, from) && r.status == "failed")
    case Cancelled => One(Since(r.completedAt, from) && r.status == "cancelled")
    case QueueToStartMs => if Since(r.startedAt, from) then Max0(r.startedAt.value - r.createdAt) else 0
    case CompletionMs => if Since(r.completedAt, from) then Max0(r.completedAt.value - r.createdAt) else 0
  }

  function Total(t: Tally, runs: seq<Run>, from: int): int {
    if |runs| == 0 then 0 else Total(t, runs[..|runs| - 1], from) + Weight(t, runs[|runs| - 1], from)
  }

  datatype CheckpointTally =
    | ReviewsPlanned | ReviewsSucceeded | QualityPlanned | QualitySucceeded
    | PolicyDenied | ReviewExecutionFailed | QualityValidationFailed | SettledFailed

  function NumberAt(c: Checkpoint, field: string): real {
    if field in c.payload && c.payload[field].Numeric? then c.payload[field].x else 0.0
  }

  predicate SettledAsFailed(c: Checkpoint) {
    Text.EndsWith(c.key, "_settled") && "settledStatus" in c.payload && c.payload["settledStatus"] == Textual("failed")
  }

  function Amount(t: CheckpointTally, c: Checkpoint): real {
    match t
    case ReviewsPlanned => if c.key == "planned_review_actions" then NumberAt(c, "selectedCount") else 0.0
    case ReviewsSucceeded => if c.key == "review_execution_completed" then NumberAt(c, "succeededCount") else 0.0
    case QualityPlanned => if c.key == "planned_quality_checks" then NumberAt(c, "selectedCount") else 0.0
    case QualitySucceeded => if c.key == "quality_validation_completed" then NumberAt(c, "succeededCount") else 0.0
    case PolicyDenied => if c.key == "policy_denied" then 1.0 else 0.0
    case ReviewExecutionFailed => if c.key == "review_execution_failed" then 1.0 else 0.0
    case QualityValidationFailed => if c.key == "quality_validation_failed" then 1.0 else 0.0
    case SettledFailed => if SettledAsFailed(c) then 1.0 else 0.0
  }

  function TotalAmount(t: CheckpointTally, cs: seq<Checkpoint>): real {
    if |cs| == 0 then 0.0 else TotalAmount(t, cs[..|cs| - 1]) + Amount(t, cs[|cs| - 1])
  }

  // ---------------------------------------------------------------- rounding

  /** Rounding half up, as `Math.round` does. */
  function Round(x: real): int { (x + 0.5).Floor }

  function Average(sum: int, count: nat): (avg: Option<int>)
    ensures avg.None? <==> count == 0
  {
    if count == 0 then None else Some(Round(sum as real / count as real))
  }

  /** Four decimals, as `toFixed(4)` keeps them. */
  function FourDecimals(x: real): real { Round(x * 10000.0) as real / 10000.0 }

  function WindowHours(value: Option<real>): (h: int)
    ensures 1 <= h <= 720
    ensures value.None? ==> h == 24
    ensures value.Some? ==> (value.value < 2.0 <==> h == 1) && (720.0 <= value.value <==> h == 720)
    ensures value.Some? && 1.0 <= value.value < 721.0 ==> h as real <= value.value < h as real + 1.0
  {
    if value.None? then 24
    else if value.value.Floor > 720 then 720 else if value.value.Floor < 1 then 1 else value.value.Floor
  }

  function WindowStart(now: int, hours: int): int { now - hours * 60 * 60 * 1000 }

  // ---------------------------------------------------------------- the two loops

  datatype QueueCounts = QueueCounts(queued: int, planning: int, waitingApproval: int, running: int)

  datatype OutcomeCounts = OutcomeCounts(succeeded: int, failed: int, cancelled: int)

  datatype RunCounts = RunCounts(
    queue: QueueCounts, outcomes: OutcomeCounts,
    created: int, started: int, completed: int,
    queueToStart: seq<int>, completion: seq<int>)

  function Sum(samples: seq<int>): int {
    if |samples| == 0 then 0 else Sum(samples[..|samples| - 1]) + samples[|samples| - 1]
  }

  lemma SumAppend(samples: seq<int>, x: int)
    ensures Sum(samples + [x]) == Sum(samples) + x
  {
  }

  ghost predicate QueueIs(c: QueueCounts, total: Tally -> int) {
    && c.queued == total(Queued) && c.planning == total(Planning)
    && c.waitingApproval == total(WaitingApproval) && c.running == total(Running)
  }

  ghost predicate OutcomesAre(c: OutcomeCounts, total: Tally -> int) {
    c.succeeded == total(Succeeded) && c.failed == total(Failed) && c.cancelled == total(Cancelled)
  }

  ghost predicate CountsAre(c: RunCounts, total: Tally -> int) {
    && QueueIs(c.queue, total) && OutcomesAre(c.outcomes, total)
    && c.created == total(Created) && c.started == total(Started) && c.completed == total(Completed)
    && Sum(c.queueToStart) == total(QueueToStartMs) && |c.queueToStart| == total(Started)
    && Sum(c.completion) == total(CompletionMs) && |c.completion| == total(Completed)
  }

  /** The counters and samples gathered from some runs are their totals. */
  ghost predicate Tallied(c: RunCounts, runs: seq<Run>, from: int) {
    CountsAre(c, t => Total(t, runs, from))
  }

  lemma TotalAppend(t: Tally, runs: seq<Run>, run: Run, from: int)
    ensures Total(t, runs + [run], from) == Total(t, runs, from) + Weight(t, run, from)
  {
  }

  method CountStatus(c: QueueCounts, run: Run, from: int, ghost total: Tally -> int) returns (next: QueueCounts)
    requires QueueIs(c, total)
    ensures QueueIs(next, t => total(t) + Weight(t, run, from))
  {
    next := c;
    if run.status == "queued" {
      next := next.(queued := next.queued + 1);
    } else if run.status == "planning" {
      next := next.(planning := next.planning + 1);
    } else if run.status == "waiting_approval" {
      next := next.(waitingApproval := next.waitingApproval + 1);
    } else if run.status == "running" {
      next := next.(running := next.running + 1);
    }
  }

  method CountOutcome(c: OutcomeCounts, run: Run, from: int, ghost total: Tally -> int) returns (next: OutcomeCounts)
    requires OutcomesAre(c, total)
    ensures OutcomesAre(next, t => total(t) + Weight(t, run, from))
  {
    next := c;
    if !(run.completedAt.Some? && run.completedAt.value >= from) {
      return;
    }
    if run.status == "succeeded" {
      next := next.(succeeded := next.succeeded + 1);
    } else if run.status == "failed" {
      next := next.(failed := next.failed + 1);
    } else if run.status == "cancelled" {
      next := next.(cancelled := next.cancelled + 1);
    }
  }

  /** A run started in the window: counted, with the time it waited. */
  method CountStarted(started: int, samples: seq<int>, run: Run, from: int, ghost total: Tally -> int)
    returns (started': int, samples': seq<int>)
    requires started == total(Started) == |samples| && Sum(samples) == total(QueueToStartMs)
    ensures started' == total(Started) + Weight(Started, run, from) == |samples'|
    ensures Sum(samples') == total(QueueToStartMs) + Weight(QueueToStartMs, run, from)
  {
    started', samples' := started, samples;
    if run.startedAt.Some? && run.startedAt.value >= from {
      var sample := Max0(run.startedAt.value - run.createdAt);
      SumAppend(samples, sample);
      started', samples' := started + 1, samples + [sample];
    }
  }

  /** A run completed in the window: counted, with the time it took. */
  method CountCompleted(completed: int, samples: seq<int>, run: Run, from: int, ghost total: Tally -> int)
    returns (completed': int, samples': seq<int>)
    requires completed == total(Completed) == |samples| && Sum(samples) == total(CompletionMs)
    ensures completed' == total(Completed) + Weight(Completed, run, from) == |samples'|
    ensures Sum(samples') == total(CompletionMs) + Weight(CompletionMs, run, from)
  {
    completed', samples' := completed, samples;
    if run.completedAt.Some? && run.completedAt.value >= from {
      var sample := Max0(run.completedAt.value - run.createdAt);
      SumAppend(samples, sample);
      completed', samples' := completed + 1, samples + [sample];
    }
  }

  /** One turn of the first loop. */
  method CountRun(c: RunCounts, run: Run, from: int, ghost total: Tally -> int) returns (next: RunCounts)
    requires CountsAre(c, total)
    ensures CountsAre(next, t => total(t) + Weight(t, run, from))
  {
    var queue := CountStatus(c.queue, run, from, total);
    var created := if run.createdAt >= from then c.created + 1 else c.created;
    var started, queueToStart := CountStarted(c.started, c.queueToStart, run, from, total);
    var completed, completion := CountCompleted(c.completed, c.completion, run, from, total);
    var outcomes := CountOutcome(c.outcomes, run, from, total);
    next := RunCounts(queue, outcomes, created, started, completed, queueToStart, completion);
  }

  method CountRuns(runs: seq<Run>, from: int) returns (c: RunCounts)
    ensures Tallied(c, runs, from)
  {
    c := RunCounts(QueueCounts(0, 0, 0, 0), OutcomeCounts(0, 0, 0), 0, 0, 0, [], []);
    for k := 0 to |runs|
      invariant Tallied(c, runs[..k], from)
    {
      c := CountRun(c, runs[k], from, t => Total(t, runs[..k], from));
      assert runs[..k] + [runs[k]] == runs[..k + 1];
      forall t: Tally ensures Total(t, runs[..k + 1], from) == Total(t, runs[..k], from) + Weight(t, runs[k], from) {
        TotalAppend(t, runs[..k], runs[k], from);
      }
    }
    assert runs[..|runs|] == runs;
  }

  datatype CheckpointCounts = CheckpointCounts(
    reviewsPlanned: real, reviewsSucceeded: real, qualityPlanned: real, qualitySucceeded: real,
    policyDenied: real, reviewExecutionFailed: real, qualityValidationFailed: real, settledFailed: real)

  ghost predicate Summed(c: CheckpointCounts, cs: seq<Checkpoint>) {
    && c.reviewsPlanned == TotalAmount(ReviewsPlanned, cs) && c.reviewsSucceeded == TotalAmount(ReviewsSucceeded, cs)
    && c.qualityPlanned == TotalAmount(QualityPlanned, cs) && c.qualitySucceeded == TotalAmount(QualitySucceeded, cs)
    && c.policyDenied == TotalAmount(PolicyDenied, cs)
    && c.reviewExecutionFailed == TotalAmount(ReviewExecutionFailed, cs)
    && c.qualityValidationFailed == TotalAmount(QualityValidationFailed, cs)
    && c.settledFailed == TotalAmount(SettledFailed, cs)
  }

  lemma OrdinaryKeysAreNotSettled()
    ensures forall key :: key in {"planned_review_actions", "review_execution_completed", "planned_quality_checks",
              "quality_validation_completed", "policy_denied", "review_execution_failed", "quality_validation_failed"}
              ==> !Text.EndsWith(key, "_settled")
  {
  }

  method CountCheckpoint(
      c: CheckpointCounts, checkpoint: Checkpoint, ghost before: seq<Checkpoint>)
    returns (next: CheckpointCounts)
    requires Summed(c, before)
    ensures Summed(next, before + [checkpoint])
  {
    OrdinaryKeysAreNotSettled();
    assert (before + [checkpoint])[..|before|] == before;
    if checkpoint.key == "planned_review_actions" {
      next := c.(reviewsPlanned := c.reviewsPlanned + NumberAt(checkpoint, "selectedCount"));
    } else if checkpoint.key == "review_execution_completed" {
      next := c.(reviewsSucceeded := c.reviewsSucceeded + NumberAt(checkpoint, "succeededCount"));
    } else if checkpoint.key == "planned_quality_checks" {
      next := c.(qualityPlanned := c.qualityPlanned + NumberAt(checkpoint, "selectedCount"));
    } else if checkpoint.key == "quality_validation_completed" {
      next := c.(qualitySucceeded := c.qualitySucceeded + NumberAt(checkpoint, "succeededCount"));
    } else if checkpoint.key == "policy_denied" {
      next := c.(policyDenied := c.policyDenied + 1.0);
    } else if checkpoint.key == "review_execution_failed" {
      next := c.(reviewExecutionFailed := c.reviewExecutionFailed + 1.0);
    } else if checkpoint.key == "quality_validation_failed" {
      next := c.(qualityValidationFailed := c.qualityValidationFailed + 1.0);
    } else if SettledAsFailed(checkpoint) {
      next := c.(settledFailed := c.settledFailed + 1.0);
    } else {
      next := c;
    }
  }

  method CountCheckpoints(cs: seq<Checkpoint>) returns (c: CheckpointCounts)
    ensures Summed(c, cs)
  {
    c := CheckpointCounts(0.0, 0.0, 0.0, 0.0, 0.0, 0.0, 0.0, 0.0);
    for k := 0 to |cs|
      invariant Summed(c, cs[..k])
    {
      c := CountCheckpoint(c, cs[k], cs[..k]);
      assert cs[..k] + [cs[k]] == cs[..k + 1];
    }
    assert cs[..|cs|] == cs;
  }

  /** The figures derived from the counters. */
  datatype Figures = Figures(backlog: int, completionRate: Option<real>, queueToStartAvg: Option<int>,
      completionAvg: Option<int>)

  method GetMetrics(runs: seq<Run>, cs: seq<Checkpoint>, now: int, windowHours: Option<real>)
    returns (counts: RunCounts, amounts: CheckpointCounts, figures: Figures)
    ensures var from := WindowStart(now, WindowHours(windowHours));
            && Tallied(counts, runs, from) && Summed(amounts, cs)
            && figures.backlog == Total(Queued, runs, from) + Total(Planning, runs, from)
                                  + Total(WaitingApproval, runs, from) + Total(Running, runs, from)
            && figures.completionRate
                == CompletionRate(
                  Total(Succeeded, runs, from),
                  Total(Succeeded, runs, from) + Total(Failed, runs, from) + Total(Cancelled, runs, from))
            && Total(Started, runs, from) >= 0 && Total(Completed, runs, from) >= 0
            && figures.queueToStartAvg == Average(Total(QueueToStartMs, runs, from), Total(Started, runs, from))
            && figures.completionAvg == Average(Total(CompletionMs, runs, from), Total(Completed, runs, from))
  {
    var from := WindowStart(now, WindowHours(windowHours));
    counts := CountRuns(runs, from);
    amounts := CountCheckpoints(cs);
    var completedTotal := counts.outcomes.succeeded + counts.outcomes.failed + counts.outcomes.cancelled;
    var rate := if completedTotal == 0 then None
                else Some(FourDecimals(counts.outcomes.succeeded as real / completedTotal as real));
    var queue := counts.queue;
    figures := Figures(queue.queued + queue.planning + queue.waitingApproval + queue.running, rate,
                       Average(Sum(counts.queueToStart), |counts.queueToStart|),
                       Average(Sum(counts.completion), |counts.completion|));
  }

  function CompletionRate(succeeded: int, total: int): Option<real> {
    if total == 0 then None else Some(FourDecimals(succeeded as real / total as real))
  }

  // ---------------------------------------------------------------- what the figures mean

  /** The totals of two sets of runs add up. */
  lemma {:induction false} TotalsAddUp(t: Tally, a: seq<Run>, b: seq<Run>, from: int)
    ensures Total(t, a + b, from) == Total(t, a, from) + Total(t, b, from)
  {
    if |b| == 0 {
      assert a + b == a;
    } else {
      TotalsAddUp(t, a, b[..|b| - 1], from);
      assert (a + b)[..|a + b| - 1] == a + b[..|b| - 1];
    }
  }

  lemma {:induction false} AmountsAddUp(t: CheckpointTally, a: seq<Checkpoint>, b: seq<Checkpoint>)
    ensures TotalAmount(t, a + b) == TotalAmount(t, a) + TotalAmount(t, b)
  {
    if |b| == 0 {
      assert a + b == a;
    } else {
      AmountsAddUp(t, a, b[..|b| - 1]);
      assert (a + b)[..|a + b| - 1] == a + b[..|b| - 1];
    }
  }

  /** Taking one run out of the middle. */
  lemma TakeOut(t: Tally, runs: seq<Run>, k: nat, from: int)
    requires k < |runs|
    ensures Total(t, runs, from) == Total(t, runs[..k] + runs[k + 1..], from) + Weight(t, runs[k], from)
  {
    assert runs == (runs[..k] + [runs[k]]) + runs[k + 1..];
    TotalsAddUp(t, runs[..k] + [runs[k]], runs[k + 1..], from);
    TotalAppend(t, runs[..k], runs[k], from);
    TotalsAddUp(t, runs[..k], runs[k + 1..], from);
  }

  lemma TakenOut<T>(rows: seq<T>, k: nat)
    requires k < |rows|
    ensures multiset(rows[..k] + rows[k + 1..]) == multiset(rows) - multiset{rows[k]}
  {
    assert rows == rows[..k] + [rows[k]] + rows[k + 1..];
  }

  lemma RestsAgree<T>(a: seq<T>, b: seq<T>, k: nat)
    requires |a| > 0 && multiset(a) == multiset(b) && k < |b| && b[k] == a[|a| - 1]
    ensures multiset(a[..|a| - 1]) == multiset(b[..k] + b[k + 1..])
  {
    var n := |a| - 1;
    TakenOut(a, n);
    TakenOut(b, k);
    assert a[..n] + a[n + 1..] == a[..n];
  }

  /** The order in which the database returns the runs does not matter. */
  lemma {:induction false} OrderDoesNotMatter(t: Tally, a: seq<Run>, b: seq<Run>, from: int)
    requires multiset(a) == multiset(b)
    ensures Total(t, a, from) == Total(t, b, from)
    decreases |a|
  {
    if |a| == 0 {
      assert |multiset(b)| == 0;
    } else {
      assert a[|a| - 1] in multiset(b);
      var k :| 0 <= k < |b| && b[k] == a[|a| - 1];
      TakeOut(t, b, k, from);
      RestsAgree(a, b, k);
      OrderDoesNotMatter(t, a[..|a| - 1], b[..k] + b[k + 1..], from);
    }
  }

  /** Nor does the order in which it returns the checkpoints. */
  lemma {:induction false} CheckpointOrderDoesNotMatter(t: CheckpointTally, a: seq<Checkpoint>, b: seq<Checkpoint>)
    requires multiset(a) == multiset(b)
    ensures TotalAmount(t, a) == TotalAmount(t, b)
    decreases |a|
  {
    if |a| == 0 {
      assert |multiset(b)| == 0;
    } else {
      assert a[|a| - 1] in multiset(b);
      var k :| 0 <= k < |b| && b[k] == a[|a| - 1];
      TakeOutCheckpoint(t, b, k);
      RestsAgree(a, b, k);
      CheckpointOrderDoesNotMatter(t, a[..|a| - 1], b[..k] + b[k + 1..]);
    }
  }

  lemma TakeOutCheckpoint(t: CheckpointTally, cs: seq<Checkpoint>, k: nat)
    requires k < |cs|
    ensures TotalAmount(t, cs) == TotalAmount(t, cs[..k] + cs[k + 1..]) + Amount(t, cs[k])
  {
    assert cs == (cs[..k] + [cs[k]]) + cs[k + 1..];
    AmountsAddUp(t, cs[..k] + [cs[k]], cs[k + 1..]);
    assert (cs[..k] + [cs[k]])[..k] == cs[..k];
    AmountsAddUp(t, cs[..k], cs[k + 1..]);
  }

  /** Outcomes are outcomes of completed runs, and no more. */
  lemma {:induction false} OutcomesAreCompleted(runs: seq<Run>, from: int)
    ensures Total(Succeeded, runs, from) + Total(Failed, runs, from) + Total(Cancelled, runs, from)
         <= Total(Completed, runs, from)
    ensures Total(Succeeded, runs, from) >= 0 && Total(Failed, runs, from) >= 0 && Total(Cancelled, runs, from) >= 0
  {
    if |runs| > 0 {
      OutcomesAreCompleted(runs[..|runs| - 1], from);
    }
  }

  /** Widening the window never lowers a tally. */
  lemma {:induction false} WiderWindowCountsMore(t: Tally, runs: seq<Run>, now: int, hours: int, more: int)
    requires hours <= more
    ensures Total(t, runs, WindowStart(now, hours)) <= Total(t, runs, WindowStart(now, more))
  {
    if |runs| > 0 {
      WiderWindowCountsMore(t, runs[..|runs| - 1], now, hours, more);
    }
  }

  /** Rounding is off by half a unit at most. */
  lemma RoundIsNear(x: real)
    ensures x - 0.5 < Round(x) as real <= x + 0.5
  {
  }

  /** The completion rate lies between 0 and 1 and within half a unit of the fourth decimal of the exact ratio. */
  lemma CompletionRateIsNear(runs: seq<Run>, from: int)
    ensures var succeeded := Total(Succeeded, runs, from);
            var total := succeeded + Total(Failed, runs, from) + Total(Cancelled, runs, from);
            && (CompletionRate(succeeded, total).None? <==> total == 0)
            && (total != 0 ==>
                  var rate := CompletionRate(succeeded, total).value;
                  && 0.0 <= rate <= 1.0
                  && -0.00005 <= rate - succeeded as real / total as real <= 0.00005)
  {
    OutcomesAreCompleted(runs, from);
    var succeeded := Total(Succeeded, runs, from);
    var total := succeeded + Total(Failed, runs, from) + Total(Cancelled, runs, from);
    if total != 0 {
      var x := succeeded as real / total as real;
      assert 0.0 <= x <= 1.0 by { RatioInUnit(succeeded, total); }
      RoundIsNear(x * 10000.0);
      assert 0 <= Round(x * 10000.0) <= 10000;
    }
  }

  lemma RatioInUnit(a: int, b: int)
    requires 0 <= a <= b && b > 0
    ensures 0.0 <= a as real / b as real <= 1.0
  {
  }

  /** An average is the mean of its samples, to half a millisecond. */
  lemma AverageIsNear(samples: seq<int>)
    requires |samples| > 0
    ensures var avg := Average(Sum(samples), |samples|).value as real;
            var mean := Sum(samples) as real / |samples| as real;
            mean - 0.5 < avg <= mean + 0.5
  {
  }

  // ---------------------------------------------------------------- what the tallies count

  /** The run is one of those a counter counts: by its status, or by a time in the window that begins at `from`. */
  ghost predicate CountedIn(t: Tally, r: Run, from: int) {
    match t
    case Queued => r.status == "queued"
    case Planning => r.status == "planning"
    case WaitingApproval => r.status == "waiting_approval"
    case Running => r.status == "running"
    case Created => from <= r.createdAt
    case Started => r.startedAt.Some? && from <= r.startedAt.value
    case Completed => r.completedAt.Some? && from <= r.completedAt.value
    case Succeeded => r.status == "succeeded" && r.completedAt.Some? && from <= r.completedAt.value
    case Failed => r.status == "failed" && r.completedAt.Some? && from <= r.completedAt.value
    case Cancelled => r.status == "cancelled" && r.completedAt.Some? && from <= r.completedAt.value
    case QueueToStartMs => false
    case CompletionMs => false
  }

  predicate Counter(t: Tally) { !t.QueueToStartMs? && !t.CompletionMs? }

  /** The places of the runs with a property. */
  ghost function Places(runs: seq<Run>, p: Run -> bool): set<int> { set k: int | 0 <= k < |runs| && p(runs[k]) }

  ghost function Counting(t: Tally, from: int): Run -> bool { r => CountedIn(t, r, from) }

  lemma OneMorePlace(runs: seq<Run>, p: Run -> bool)
    requires |runs| > 0
    ensures var n := |runs| - 1;
            |Places(runs, p)| == |Places(runs[..n], p)| + if p(runs[n]) then 1 else 0
  {
    var n := |runs| - 1;
    var before := Places(runs[..n], p);
    if p(runs[n]) {
      assert Places(runs, p) == before + {n};
    } else {
      assert Places(runs, p) == before;
    }
  }

  lemma CounterWeight(t: Tally, r: Run, from: int)
    requires Counter(t)
    ensures Weight(t, r, from) == if CountedIn(t, r, from) then 1 else 0
  {
  }

  /** A counter is the number of runs of its kind. */
  lemma {:induction false} CounterIsCardinality(t: Tally, runs: seq<Run>, from: int)
    requires Counter(t)
    ensures Total(t, runs, from) == |Places(runs, Counting(t, from))|
  {
    if |runs| > 0 {
      CounterIsCardinality(t, runs[..|runs| - 1], from);
      OneMorePlace(runs, Counting(t, from));
      CounterWeight(t, runs[|runs| - 1], from);
    }
  }

  /** Each run started or completed in the window adds the time since its creation, or nothing if that is negative. */
  lemma DelaysAreAdded(runs: seq<Run>, r: Run, from: int)
    ensures Total(QueueToStartMs, runs + [r], from) - Total(QueueToStartMs, runs, from)
         == if r.startedAt.Some? && from <= r.startedAt.value && r.createdAt <= r.startedAt.value
            then r.startedAt.value - r.createdAt else 0
    ensures Total(CompletionMs, runs + [r], from) - Total(CompletionMs, runs, from)
         == if r.completedAt.Some? && from <= r.completedAt.value && r.createdAt <= r.completedAt.value
            then r.completedAt.value - r.createdAt else 0
  {
    TotalAppend(QueueToStartMs, runs, r, from);
    TotalAppend(CompletionMs, runs, r, from);
  }

  /** The checkpoint settles a run as failed. */
  ghost predicate SettlesFailed(c: Checkpoint) {
    && (exists stem: string :: c.key == stem + "_settled")
    && "settledStatus" in c.payload && c.payload["settledStatus"] == Textual("failed")
  }

  lemma SettledKeys(c: Checkpoint)
    ensures SettledAsFailed(c) <==> SettlesFailed(c)
  {
    if Text.EndsWith(c.key, "_settled") {
      var stem := c.key[..|c.key| - 8];
      assert c.key == stem + "_settled";
    }
    if stem: string :| c.key == stem + "_settled" {
      assert c.key[|c.key| - 8..] == "_settled";
    }
  }

  /** The number a payload has in a field, if it has one there. */
  ghost predicate Gives(c: Checkpoint, field: string, x: real) {
    if field in c.payload && c.payload[field].Numeric? then c.payload[field] == Numeric(x) else x == 0.0
  }

  /** What one more checkpoint adds to each amount. */
  lemma AmountsAdded(cs: seq<Checkpoint>, c: Checkpoint, t: CheckpointTally, selected: real, succeeded: real)
    requires Gives(c, "selectedCount", selected) && Gives(c, "succeededCount", succeeded)
    ensures TotalAmount(t, cs + [c]) - TotalAmount(t, cs)
         == match t
            case ReviewsPlanned => if c.key == "planned_review_actions" then selected else 0.0
            case ReviewsSucceeded => if c.key == "review_execution_completed" then succeeded else 0.0
            case QualityPlanned => if c.key == "planned_quality_checks" then selected else 0.0
            case QualitySucceeded => if c.key == "quality_validation_completed" then succeeded else 0.0
            case PolicyDenied => if c.key == "policy_denied" then 1.0 else 0.0
            case ReviewExecutionFailed => if c.key == "review_execution_failed" then 1.0 else 0.0
            case QualityValidationFailed => if c.key == "quality_validation_failed" then 1.0 else 0.0
            case SettledFailed => if SettlesFailed(c) then 1.0 else 0.0
  {
    SettledKeys(c);
    assert (cs + [c])[..|cs|] == cs;
  }

  /** The window ends now and lasts its hours. */
  lemma WindowLasts(now: int, hours: int)
    ensures now - WindowStart(now, hours) == hours * 3_600_000
  {
  }
}
