/** The duplicate window: when do retries, lost acknowledgements and crashes leave more than one
    copy of a row in the stream? Exactly when the retry horizon does not fit in the window. */
module OutboxWindow {
  import opened Timing
  import opened Events
  import opened Outbox
  import opened OutboxSafety

  /** The operational hypothesis behind the horizon, which the code bounds but does not enforce:
      a publish call is made and its outcome recorded within `PerAttempt` of the moment it was due.
      A row with no committed failure is due from its first publish call on, however many
      transactions around it died. */
  ghost predicate Timely(cfg: Config, s: System, step: Step) {
    step.Publish? && Enabled(cfg, s, step) ==>
      var id := s.drains[step.replica].todo[0];
      var slack := cfg.delays.PerAttempt();
      if s.rows[id].attempts == 0 then
        && step.answer.recordedAt <= step.answer.at + slack
        && (forall t | t in s.tries && t.id == id :: step.answer.recordedAt <= t.at + slack)
      else
        step.answer.recordedAt <= s.rows[id].nextAttemptAt + slack
  }

  ghost predicate TimelyRun(cfg: Config, s: System, steps: seq<Step>)
    decreases |steps|
  {
    steps == [] || (Timely(cfg, s, steps[0]) && TimelyRun(cfg, Next(cfg, s, steps[0]), steps[1..]))
  }

  /** Jitter is a proportion, the first delay clears the floor under sampled backoffs, and the
      operational delays are durations. */
  ghost predicate ConfigOk(cfg: Config) {
    cfg.policy.jitterRatio >= 0.0 && FloorCovered(cfg.policy) && cfg.delays.PerAttempt() >= 0.0
  }

  /** A row is published at least once, even under a limit of zero attempts. */
  function Attempts(p: RetryPolicy): int { if p.maxAttempts >= 1 then p.maxAttempts else 1 }

  /** How long after the first publish call a row with k committed failures may come due. */
  function DueBound(cfg: Config, k: int): real {
    k as real * cfg.delays.PerAttempt() + GapSum(cfg.policy, k)
  }

  /** The longest span between two publish calls of one row. */
  function Span(cfg: Config): real {
    DueBound(cfg, Attempts(cfg.policy) - 1) + cfg.delays.PerAttempt()
  }

  ghost predicate OneCopyEach(log: seq<Message>) {
    forall i, j | 0 <= i < j < |log| :: log[i].id != log[j].id
  }

  ghost predicate DueInTime(cfg: Config, tries: seq<Try>, id: nat, row: Row) {
    row.status.Pending? && row.attempts > 0 ==>
      forall t | t in tries && t.id == id :: row.nextAttemptAt <= t.at + DueBound(cfg, row.attempts)
  }

  ghost predicate WithinSpan(cfg: Config, tries: seq<Try>) {
    forall i, j | 0 <= i < j < |tries| && tries[i].id == tries[j].id ::
      tries[j].at - tries[i].at <= Span(cfg)
  }

  ghost predicate TimedInv(cfg: Config, s: System) {
    && Inv(cfg, s)
    && (forall id | 0 <= id < |s.rows| :: DueInTime(cfg, s.tries, id, s.rows[id]))
    && (forall r, id | r in s.drains && id in s.drains[r].work :: DueInTime(cfg, s.tries, id, s.drains[r].work[id]))
    && WithinSpan(cfg, s.tries)
  }

  // ---------------------------------------------------------------- sufficiency

  lemma {:induction false} DueBoundMonotone(cfg: Config, j: int, k: int)
    requires ConfigOk(cfg) && 0 <= j <= k
    ensures 0.0 <= DueBound(cfg, j) <= DueBound(cfg, k)
    decreases k
  {
    if k > 0 {
      DueBoundStep(cfg, k);
      DueBoundMonotone(cfg, if j < k then j else k - 1, k - 1);
    }
  }

  lemma DueBoundStep(cfg: Config, k: int)
    requires ConfigOk(cfg) && k > 0
    ensures DueBound(cfg, k) == DueBound(cfg, k - 1) + cfg.delays.PerAttempt() + BackoffFor(cfg.policy, k)
    ensures BackoffFor(cfg.policy, k) >= 0.0
  {
    var slack := cfg.delays.PerAttempt();
    assert k as real * slack == (k - 1) as real * slack + slack;
    SampledBackoffBound(cfg.policy, k, 0.0);
  }

  /** A timely publish call at committed attempt count k, and the recording of its outcome, come
      within the k-th bound of every publish call of that row, this one included. */
  lemma TimelyPublish(cfg: Config, s: System, step: Step, t: Try)
    requires TimedInv(cfg, s) && ConfigOk(cfg)
    requires step.Publish? && Enabled(cfg, s, step) && Timely(cfg, s, step)
    requires t.id == s.drains[step.replica].todo[0]
    requires t in s.tries || t.at == step.answer.at
    ensures var k := s.rows[t.id].attempts;
            && 0 <= k < Attempts(cfg.policy)
            && step.answer.recordedAt <= t.at + DueBound(cfg, k) + cfg.delays.PerAttempt()
            && s.rows[t.id].nextAttemptAt <= step.answer.at
    ensures step.answer.at - t.at <= Span(cfg)
  {
    assert Publishable(cfg, s, t.id, step.answer.at) by { PublishedRowIsDue(cfg, s, step); }
    assert 0.0 <= DueBound(cfg, s.rows[t.id].attempts) <= DueBound(cfg, Attempts(cfg.policy) - 1) by {
      DueBoundMonotone(cfg, s.rows[t.id].attempts, Attempts(cfg.policy) - 1);
    }
  }

  /** What the invariant says of a row about to be published. */
  ghost predicate Publishable(cfg: Config, s: System, id: nat, at: real) {
    && id < |s.rows| && s.rows[id].status.Pending? && 0 <= s.rows[id].attempts < Attempts(cfg.policy)
    && s.rows[id].nextAttemptAt <= at && DueInTime(cfg, s.tries, id, s.rows[id])
  }

  lemma PublishedRowIsDue(cfg: Config, s: System, step: Step)
    requires TimedInv(cfg, s) && step.Publish? && Enabled(cfg, s, step)
    ensures Publishable(cfg, s, s.drains[step.replica].todo[0], step.answer.at)
  {
    var id := s.drains[step.replica].todo[0];
    assert DrainOk(cfg, s, s.drains[step.replica]);
    assert RowOk(cfg, s.rows[id]) && DueInTime(cfg, s.tries, id, s.rows[id]);
  }

  lemma NextDue(cfg: Config, s: System, step: Step)
    requires TimedInv(cfg, s) && ConfigOk(cfg)
    requires step.Publish? && Enabled(cfg, s, step) && Timely(cfg, s, step)
    ensures var id := s.drains[step.replica].todo[0];
            DueInTime(cfg, Next(cfg, s, step).tries, id, RowAfter(cfg, s.rows[id], step.answer))
  {
    var id := s.drains[step.replica].todo[0];
    var w := RowAfter(cfg, s.rows[id], step.answer);
    forall t | t in Next(cfg, s, step).tries && t.id == id && w.status.Pending? && w.attempts > 0
      ensures w.nextAttemptAt <= t.at + DueBound(cfg, w.attempts)
    {
      TimelyPublish(cfg, s, step, t);
      SampledBackoffBound(cfg.policy, w.attempts, step.answer.draw);
      DueBoundStep(cfg, w.attempts);
      assert DrainOk(cfg, s, s.drains[step.replica]);
    }
  }

  lemma DueRowsStay(cfg: Config, s: System, step: Step)
    requires TimedInv(cfg, s) && ConfigOk(cfg) && step.Publish? && Enabled(cfg, s, step)
    ensures var s' := Next(cfg, s, step);
            forall k | 0 <= k < |s'.rows| :: DueInTime(cfg, s'.tries, k, s'.rows[k])
  {
    var s' := Next(cfg, s, step);
    assert DrainOk(cfg, s, s.drains[step.replica]);
    DueBoundNonNegative(cfg);
    forall k | 0 <= k < |s'.rows|
      ensures DueInTime(cfg, s'.tries, k, s'.rows[k])
    {
      assert DueInTime(cfg, s.tries, k, s.rows[k]);
    }
  }

  lemma DueWorkStays(cfg: Config, s: System, step: Step, r: nat, k: nat)
    requires TimedInv(cfg, s) && step.Publish? && Enabled(cfg, s, step)
    requires r in s.drains && k in s.drains[r].work
    requires r != step.replica || k != s.drains[step.replica].todo[0]
    ensures DueInTime(cfg, Next(cfg, s, step).tries, k, s.drains[r].work[k])
  {
    var id := s.drains[step.replica].todo[0];
    if r != step.replica {
      assert s.drains[r].Held() !! s.drains[step.replica].Held();
      assert k in s.drains[r].Held() && id in s.drains[step.replica].Held();
    }
    assert DueInTime(cfg, s.tries, k, s.drains[r].work[k]);
  }

  lemma SpanGrows(cfg: Config, s: System, step: Step)
    requires TimedInv(cfg, s) && ConfigOk(cfg)
    requires step.Publish? && Enabled(cfg, s, step) && Timely(cfg, s, step)
    ensures WithinSpan(cfg, Next(cfg, s, step).tries)
  {
    var tries := Next(cfg, s, step).tries;
    forall i, j | 0 <= i < j < |tries| && tries[i].id == tries[j].id
      ensures tries[j].at - tries[i].at <= Span(cfg)
    {
      if j == |s.tries| {
        TimelyPublish(cfg, s, step, s.tries[i]);
      }
    }
  }

  lemma TimedPublish(cfg: Config, s: System, step: Step)
    requires TimedInv(cfg, s) && ConfigOk(cfg)
    requires step.Publish? && Enabled(cfg, s, step) && Timely(cfg, s, step)
    ensures TimedInv(cfg, Next(cfg, s, step))
  {
    var s' := Next(cfg, s, step);
    InvNext(cfg, s, step);
    NextDue(cfg, s, step);
    DueRowsStay(cfg, s, step);
    SpanGrows(cfg, s, step);
    forall r, k | r in s'.drains && k in s'.drains[r].work
      ensures DueInTime(cfg, s'.tries, k, s'.drains[r].work[k])
    {
      if r != step.replica || k != s.drains[step.replica].todo[0] {
        DueWorkStays(cfg, s, step, r, k);
      }
    }
  }

  lemma DueBoundNonNegative(cfg: Config)
    requires ConfigOk(cfg)
    ensures forall k: int | k >= 0 :: 0.0 <= DueBound(cfg, k)
  {
    forall k: int | k >= 0
      ensures 0.0 <= DueBound(cfg, k)
    {
      DueBoundMonotone(cfg, k, k);
    }
  }

  lemma TimedNext(cfg: Config, s: System, step: Step)
    requires TimedInv(cfg, s) && ConfigOk(cfg) && Timely(cfg, s, step)
    ensures TimedInv(cfg, Next(cfg, s, step))
  {
    InvNext(cfg, s, step);
    if Enabled(cfg, s, step) {
      match step
      case Publish(_, _) => TimedPublish(cfg, s, step);
      case Commit(r) => assert DrainOk(cfg, s, s.drains[r]);
      case _ =>
    }
  }

  lemma OneCopyNext(cfg: Config, s: System, step: Step)
    requires TimedInv(cfg, s) && ConfigOk(cfg) && Timely(cfg, s, step)
    requires OneCopyEach(s.log) && Span(cfg) <= cfg.window
    ensures OneCopyEach(Next(cfg, s, step).log)
  {
    if Enabled(cfg, s, step) && step.Publish? {
      var id := s.drains[step.replica].todo[0];
      if InLog(s.log, id) {
        var m :| m in s.log && m.id == id;
        TimelyPublish(cfg, s, step, Try(m.id, m.at));
        assert Remembered(s.log, id, step.answer.at, cfg.window);
      }
    }
  }

  lemma {:induction false} OneCopyRun(cfg: Config, s: System, steps: seq<Step>)
    requires TimedInv(cfg, s) && ConfigOk(cfg) && TimelyRun(cfg, s, steps)
    ensures TimedInv(cfg, Run(cfg, s, steps))
    ensures OneCopyEach(s.log) && Span(cfg) <= cfg.window ==> OneCopyEach(Run(cfg, s, steps).log)
    decreases |steps|
  {
    if steps != [] {
      TimedNext(cfg, s, steps[0]);
      if OneCopyEach(s.log) && Span(cfg) <= cfg.window {
        OneCopyNext(cfg, s, steps[0]);
      }
      OneCopyRun(cfg, Next(cfg, s, steps[0]), steps[1..]);
    }
  }

  /** Any two publish calls of one row are no further apart than the span, whatever the number of
      replicas, crashes, failures and lost acknowledgements. */
  lemma PublishCallsWithinSpan(cfg: Config, steps: seq<Step>)
    requires ConfigOk(cfg) && TimelyRun(cfg, INITIAL, steps)
    ensures WithinSpan(cfg, Run(cfg, INITIAL, steps).tries)
  {
    OneCopyRun(cfg, INITIAL, steps);
  }

  // ---------------------------------------------------------------- necessity

  ghost predicate Schedule(cfg: Config, s: System, steps: seq<Step>) {
    Legal(cfg, s, steps) && TimelyRun(cfg, s, steps)
  }

  lemma {:induction false} ScheduleAppend(cfg: Config, s: System, a: seq<Step>, b: seq<Step>)
    requires Schedule(cfg, s, a) && Schedule(cfg, Run(cfg, s, a), b)
    ensures Schedule(cfg, s, a + b) && Run(cfg, s, a + b) == Run(cfg, Run(cfg, s, a), b)
    decreases |a|
  {
    RunAppend(cfg, s, a, b);
    if a == [] {
      assert a + b == b;
    } else {
      assert (a + b)[0] == a[0] && (a + b)[1..] == a[1..] + b;
      ScheduleAppend(cfg, Next(cfg, s, a[0]), a[1..], b);
    }
  }

  lemma SingleStep(cfg: Config, s: System, step: Step)
    requires Enabled(cfg, s, step) && Timely(cfg, s, step)
    ensures Schedule(cfg, s, [step]) && Run(cfg, s, [step]) == Next(cfg, s, step)
  {
    assert [step][1..] == [];
  }

  /** No acknowledgement is lost and no transaction dies. */
  predicate Plain(steps: seq<Step>) {
    forall i | 0 <= i < |steps| :: Allowed(steps[i], false, false)
  }

  /** May the step happen, if only these faults may? */
  predicate Allowed(step: Step, lostAcks: bool, crashes: bool) {
    && (step.Publish? && step.answer.outcome.StoredAckLost? ==> lostAcks)
    && (step.Crash? ==> crashes)
  }

  /** One row, stored at time zero, with k committed failures, due as late as it can be. */
  ghost predicate Overdue(cfg: Config, e: Event, s: System, k: nat) {
    && s.rows == [Row(e, 0.0, Pending, k, Attempts(cfg.policy), DueBound(cfg, k))]
    && s.drains == map[]
    && s.log == [Message(0, 0.0, e)]
    && s.now <= DueBound(cfg, k)
    && (k == 0 ==> forall t | t in s.tries :: t.at == 0.0)
  }

  /** Replica 0 claims the only row as soon as it is due and publishes it. */
  lemma ClaimAndPublish(cfg: Config, s: System, due: real, answer: Answer) returns (steps: seq<Step>)
    requires |s.rows| == 1 && s.rows[0].status.Pending? && s.rows[0].nextAttemptAt <= due
    requires s.drains == map[] && s.now <= due <= answer.at <= answer.recordedAt && 0.0 <= answer.draw <= 1.0
    requires cfg.batch >= 1
    requires if s.rows[0].attempts == 0
             then answer.recordedAt <= answer.at + cfg.delays.PerAttempt()
                  && forall t | t in s.tries && t.id == 0 :: answer.recordedAt <= t.at + cfg.delays.PerAttempt()
             else answer.recordedAt <= s.rows[0].nextAttemptAt + cfg.delays.PerAttempt()
    ensures Schedule(cfg, s, steps) && steps == [Claim(0, [0], due), Publish(0, answer)]
    ensures Run(cfg, s, steps) ==
            System(answer.at, s.rows,
                   map[0 := Drain([], map[0 := RowAfter(cfg, s.rows[0], answer)])],
                   Stored(s.log, Message(0, answer.at, s.rows[0].event), answer.outcome, cfg.window),
                   s.tries + [Try(0, answer.at)])
  {
    var claim, publish := Claim(0, [0], due), Publish(0, answer);
    assert forall id: nat | Claimable(s, id, due) :: id in [0];
    var claimed := Next(cfg, s, claim);
    assert claimed.drains[0] == Drain([0], map[]);
    SingleStep(cfg, s, claim);
    SingleStep(cfg, claimed, publish);
    ScheduleAppend(cfg, s, [claim], [publish]);
    steps := [claim] + [publish];
    assert [0][1..] == [];
  }

  /** The broker stores and acknowledges the row, and the transaction dies. */
  lemma FirstCopy(cfg: Config, e: Event) returns (steps: seq<Step>)
    requires ConfigOk(cfg) && cfg.batch >= 1
    ensures Schedule(cfg, INITIAL, steps) && Overdue(cfg, e, Run(cfg, INITIAL, steps), 0)
    ensures forall i | 0 <= i < |steps| :: Allowed(steps[i], false, true)
  {
    var enqueue := Enqueue(e, Attempts(cfg.policy), 0.0);
    SingleStep(cfg, INITIAL, enqueue);
    var staged := Next(cfg, INITIAL, enqueue);
    var publish := ClaimAndPublish(cfg, staged, 0.0, Answer(Acked, 0.0, 0.0, 0.0));
    var published := Run(cfg, staged, publish);
    SingleStep(cfg, published, Crash(0));
    ScheduleAppend(cfg, staged, publish, [Crash(0)]);
    ScheduleAppend(cfg, INITIAL, [enqueue], publish + [Crash(0)]);
    steps := [enqueue] + (publish + [Crash(0)]);
    assert DueBound(cfg, 0) == 0.0;
  }

  lemma OneMoreFailure(cfg: Config, e: Event, s: System, k: nat) returns (steps: seq<Step>)
    requires ConfigOk(cfg) && cfg.batch >= 1 && k + 1 < Attempts(cfg.policy) && Overdue(cfg, e, s, k)
    ensures Schedule(cfg, s, steps) && Overdue(cfg, e, Run(cfg, s, steps), k + 1) && Plain(steps)
  {
    var due := DueBound(cfg, k);
    var answer := Answer(Failed, due, due + cfg.delays.PerAttempt(), 1.0);
    assert DueBound(cfg, 0) == 0.0;
    var publish := ClaimAndPublish(cfg, s, due, answer);
    var published := Run(cfg, s, publish);
    SingleStep(cfg, published, Commit(0));
    ScheduleAppend(cfg, s, publish, [Commit(0)]);
    steps := publish + [Commit(0)];
    TopSampleIsTheBound(cfg.policy, k + 1);
    DueBoundStep(cfg, k + 1);
  }

  lemma {:induction false} KeepFailing(cfg: Config, e: Event, s: System, j: nat, k: nat) returns (steps: seq<Step>)
    requires ConfigOk(cfg) && cfg.batch >= 1 && j <= k < Attempts(cfg.policy) && Overdue(cfg, e, s, j)
    ensures Schedule(cfg, s, steps) && Overdue(cfg, e, Run(cfg, s, steps), k) && Plain(steps)
    decreases k - j
  {
    steps := [];
    if j < k {
      var more := OneMoreFailure(cfg, e, s, j);
      var rest := KeepFailing(cfg, e, Run(cfg, s, more), j + 1, k);
      ScheduleAppend(cfg, s, more, rest);
      steps := more + rest;
    }
  }

  lemma SecondCopy(cfg: Config, e: Event) returns (steps: seq<Step>)
    requires ConfigOk(cfg) && cfg.batch >= 1 && Span(cfg) > cfg.window
    ensures Schedule(cfg, INITIAL, steps) && !OneCopyEach(Run(cfg, INITIAL, steps).log)
  {
    var k := Attempts(cfg.policy) - 1;
    var first := FirstCopy(cfg, e);
    var failing := KeepFailing(cfg, e, Run(cfg, INITIAL, first), 0, k);
    ScheduleAppend(cfg, INITIAL, first, failing);
    var before := first + failing;
    var s := Run(cfg, INITIAL, before);
    var due := DueBound(cfg, k);
    var at := due + cfg.delays.PerAttempt();
    assert DueBound(cfg, 0) == 0.0;
    var last := ClaimAndPublish(cfg, s, due, Answer(Acked, at, at, 0.0));
    ScheduleAppend(cfg, INITIAL, before, last);
    steps := before + last;
    var log := Run(cfg, INITIAL, steps).log;
    assert !Remembered(s.log, 0, at, cfg.window);
    assert log[0].id == log[1].id == 0;
  }

  // ---------------------------------------------------------------- main results

  /** The stream keeps at most one copy of every row in every timely run if and only if the span fits in
      the broker's window: the horizon is a bound, and no smaller bound would do. */
  lemma OneCopyIff(cfg: Config)
    requires ConfigOk(cfg) && cfg.batch >= 1
    ensures Span(cfg) <= cfg.window <==>
            forall steps | Schedule(cfg, INITIAL, steps) :: OneCopyEach(Run(cfg, INITIAL, steps).log)
  {
    if Span(cfg) <= cfg.window {
      forall steps | Schedule(cfg, INITIAL, steps)
        ensures OneCopyEach(Run(cfg, INITIAL, steps).log)
      {
        OneCopyRun(cfg, INITIAL, steps);
      }
    } else {
      var steps := SecondCopy(cfg, ForeignEvent(""));
    }
  }

  /** With at least one attempt, the horizon the gate computes is that span. */
  lemma SpanIsHorizon(cfg: Config)
    requires cfg.policy.maxAttempts >= 1
    ensures Span(cfg) == Horizon(cfg.policy, cfg.delays)
  {
    var n, slack := cfg.policy.maxAttempts, cfg.delays.PerAttempt();
    assert n as real * slack == (n - 1) as real * slack + slack;
  }

  /** The startup gate works: a service that starts stores each row at most once, in every timely run. */
  lemma GatedRunsStoreOneCopy(cfg: Config, margin: real, steps: seq<Step>)
    requires ConfigOk(cfg) && cfg.policy.maxAttempts >= 1 && cfg.window >= 0.0 && margin <= 1.0
    requires GateFor(cfg.policy, cfg.delays, cfg.window, margin).Utilisation?
    requires TimelyRun(cfg, INITIAL, steps)
    ensures OneCopyEach(Run(cfg, INITIAL, steps).log)
    ensures WithinSpan(cfg, Run(cfg, INITIAL, steps).tries)
    ensures Span(cfg) == Horizon(cfg.policy, cfg.delays)
  {
    GateBoundsHorizon(cfg.policy, cfg.delays, cfg.window, margin);
    SpanIsHorizon(cfg);
    OneCopyRun(cfg, INITIAL, steps);
  }

  /** Nothing in the code refuses a limit of zero attempts. The gate then sees a horizon of zero,
      while rows are still published, and a crash can leave two copies. */
  lemma ZeroAttemptsEscapeTheGate() returns (cfg: Config, steps: seq<Step>)
    ensures ConfigOk(cfg) && cfg.policy.maxAttempts == 0 && cfg.window > 0.0
    ensures GateFor(cfg.policy, cfg.delays, cfg.window, 0.75).Utilisation?
    ensures Schedule(cfg, INITIAL, steps) && !OneCopyEach(Run(cfg, INITIAL, steps).log)
  {
    cfg := Config(RetryPolicy(0, 1.0, 300.0, 0.25), Delays(5.0, 5.0, 5.0, 60.0, 1.0), 60.0, 100);
    assert Span(cfg) == 76.0;
    steps := SecondCopy(cfg, ForeignEvent(""));
  }
}
