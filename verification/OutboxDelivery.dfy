/** Does `dead` mean undelivered? Exactly when neither of two faults occurs. */
module OutboxDelivery {
  import opened Timing
  import opened Events
  import opened Outbox
  import opened OutboxSafety
  import opened OutboxWindow

  /** No dead row is in the stream. */
  ghost predicate DeadIsUndelivered(s: System) {
    forall id | 0 <= id < |s.rows| && s.rows[id].status.Dead? :: !InLog(s.log, id)
  }

  predicate OnlyFaults(steps: seq<Step>, lostAcks: bool, crashes: bool) {
    forall i | 0 <= i < |steps| :: Allowed(steps[i], lostAcks, crashes)
  }

  // ---------------------------------------------------------------- without faults

  ghost predicate AboutToBePublished(drains: map<nat, Drain>, id: nat) {
    exists r | r in drains :: id in drains[r].work && drains[r].work[id].status.Published?
  }

  ghost predicate Accounted(s: System, id: nat) {
    id < |s.rows| && (s.rows[id].status.Published? || AboutToBePublished(s.drains, id))
  }

  /** Every stored row is published, or will be when an open transaction commits. */
  ghost predicate AllAccounted(s: System) {
    forall m | m in s.log :: Accounted(s, m.id)
  }

  /** A row that a transaction has yet to publish is not in the stream. */
  lemma TodoIsNotStored(cfg: Config, s: System, r: nat, id: nat)
    requires DrainsOk(cfg, s) && LocksOk(s.drains) && r in s.drains && id in s.drains[r].todo
    ensures !Accounted(s, id)
  {
    assert DrainOk(cfg, s, s.drains[r]);
    forall q | q in s.drains
      ensures id !in s.drains[q].work
    {
      if q != r {
        assert s.drains[q].Held() !! s.drains[r].Held();
        assert id in s.drains[r].Held();
      }
    }
  }

  lemma PublishAccounts(cfg: Config, s: System, step: Step)
    requires Inv(cfg, s) && AllAccounted(s) && step.Publish? && Enabled(cfg, s, step) && Allowed(step, false, false)
    ensures AllAccounted(Next(cfg, s, step))
  {
    var s', r := Next(cfg, s, step), step.replica;
    var id := s.drains[r].todo[0];
    TodoIsNotStored(cfg, s, r, id);
    StoredContains(s.log, Message(id, step.answer.at, s.rows[id].event), step.answer.outcome, cfg.window);
    forall m | m in s'.log
      ensures Accounted(s', m.id)
    {
      if m in s.log {
        assert Accounted(s, m.id) && m.id != id;
        PublishLeavesOthers(cfg, s, step, m.id);
      } else {
        assert s'.drains[r].work[id].status.Published?;
      }
    }
  }

  lemma PublishLeavesOthers(cfg: Config, s: System, step: Step, id: nat)
    requires step.Publish? && Enabled(cfg, s, step) && id != s.drains[step.replica].todo[0] && Accounted(s, id)
    ensures Accounted(Next(cfg, s, step), id)
  {
    var s' := Next(cfg, s, step);
    if AboutToBePublished(s.drains, id) {
      var q :| q in s.drains && id in s.drains[q].work && s.drains[q].work[id].status.Published?;
      assert id in s'.drains[q].work && s'.drains[q].work[id].status.Published?;
    }
  }

  lemma CommitAccounts(cfg: Config, s: System, r: nat)
    requires Inv(cfg, s) && AllAccounted(s) && Enabled(cfg, s, Commit(r))
    ensures AllAccounted(Next(cfg, s, Commit(r)))
  {
    var s' := Next(cfg, s, Commit(r));
    assert DrainOk(cfg, s, s.drains[r]);
    forall m | m in s'.log
      ensures Accounted(s', m.id)
    {
      assert Accounted(s, m.id);
      if !s.rows[m.id].status.Published? {
        var q :| q in s.drains && m.id in s.drains[q].work && s.drains[q].work[m.id].status.Published?;
        if q != r {
          assert q in s'.drains;
        }
      }
    }
  }

  lemma ClaimAccounts(cfg: Config, s: System, step: Step)
    requires AllAccounted(s) && (step.Enqueue? || step.Claim?) && Enabled(cfg, s, step)
    ensures AllAccounted(Next(cfg, s, step))
  {
    var s' := Next(cfg, s, step);
    forall m | m in s'.log
      ensures Accounted(s', m.id)
    {
      assert Accounted(s, m.id);
      if AboutToBePublished(s.drains, m.id) {
        var q :| q in s.drains && m.id in s.drains[q].work && s.drains[q].work[m.id].status.Published?;
        assert q in s'.drains && s'.drains[q] == s.drains[q];
      }
    }
  }

  lemma AccountsNext(cfg: Config, s: System, step: Step)
    requires Inv(cfg, s) && AllAccounted(s) && Allowed(step, false, false)
    ensures AllAccounted(Next(cfg, s, step))
  {
    if Enabled(cfg, s, step) {
      match step
      case Publish(_, _) => PublishAccounts(cfg, s, step);
      case Commit(r) => CommitAccounts(cfg, s, r);
      case Crash(_) =>
      case _ => ClaimAccounts(cfg, s, step);
    }
  }

  lemma {:induction false} AccountsRun(cfg: Config, s: System, steps: seq<Step>)
    requires Inv(cfg, s) && AllAccounted(s) && OnlyFaults(steps, false, false)
    ensures Inv(cfg, Run(cfg, s, steps)) && AllAccounted(Run(cfg, s, steps))
    decreases |steps|
  {
    if steps != [] {
      assert Allowed(steps[0], false, false);
      AccountsNext(cfg, s, steps[0]);
      InvNext(cfg, s, steps[0]);
      AccountsRun(cfg, Next(cfg, s, steps[0]), steps[1..]);
    }
  }

  /** In every run in which no acknowledgement is lost and no transaction dies, dead rows are not in
      the stream. */
  lemma DeadIsUndeliveredWithoutFaults(cfg: Config, steps: seq<Step>)
    requires OnlyFaults(steps, false, false)
    ensures DeadIsUndelivered(Run(cfg, INITIAL, steps))
  {
    AccountsRun(cfg, INITIAL, steps);
    AccountedIsNotDead(cfg, Run(cfg, INITIAL, steps));
  }

  lemma AccountedIsNotDead(cfg: Config, s: System)
    requires DrainsOk(cfg, s) && AllAccounted(s)
    ensures DeadIsUndelivered(s)
  {
    forall id | 0 <= id < |s.rows| && InLog(s.log, id)
      ensures !s.rows[id].status.Dead?
    {
      var m :| m in s.log && m.id == id;
      assert Accounted(s, id);
      forall r | r in s.drains
        ensures DrainOk(cfg, s, s.drains[r])
      {
      }
    }
  }

  // ---------------------------------------------------------------- either fault is enough

  /** One row, stored and dead. */
  ghost predicate DeadAndStored(s: System) {
    |s.rows| == 1 && s.rows[0].status.Dead? && InLog(s.log, 0)
  }

  /** The row's last failure. */
  lemma LastFailure(cfg: Config, e: Event, s: System) returns (steps: seq<Step>)
    requires ConfigOk(cfg) && cfg.batch >= 1 && Overdue(cfg, e, s, Attempts(cfg.policy) - 1)
    ensures Schedule(cfg, s, steps) && Plain(steps) && DeadAndStored(Run(cfg, s, steps))
  {
    var due := DueBound(cfg, Attempts(cfg.policy) - 1);
    assert DueBound(cfg, 0) == 0.0;
    var publish := ClaimAndPublish(cfg, s, due, Answer(Failed, due, due, 0.0));
    var published := Run(cfg, s, publish);
    SingleStep(cfg, published, Commit(0));
    ScheduleAppend(cfg, s, publish, [Commit(0)]);
    steps := publish + [Commit(0)];
    assert published.log[0] == Message(0, 0.0, e);
  }

  lemma FailToDeath(cfg: Config, e: Event, before: seq<Step>, k: nat) returns (steps: seq<Step>)
    requires ConfigOk(cfg) && cfg.batch >= 1 && k < Attempts(cfg.policy)
    requires Schedule(cfg, INITIAL, before) && Overdue(cfg, e, Run(cfg, INITIAL, before), k)
    ensures Schedule(cfg, INITIAL, before + steps) && Plain(steps)
    ensures DeadAndStored(Run(cfg, INITIAL, before + steps))
  {
    var s := Run(cfg, INITIAL, before);
    var failing := KeepFailing(cfg, e, s, k, Attempts(cfg.policy) - 1);
    var last := LastFailure(cfg, e, Run(cfg, s, failing));
    ScheduleAppend(cfg, s, failing, last);
    ScheduleAppend(cfg, INITIAL, before, failing + last);
    steps := failing + last;
  }

  /** An acknowledged publish whose transaction dies, followed by nothing but failures. */
  lemma CrashDelivers(cfg: Config, e: Event) returns (steps: seq<Step>)
    requires ConfigOk(cfg) && cfg.batch >= 1
    ensures Schedule(cfg, INITIAL, steps) && OnlyFaults(steps, false, true)
    ensures DeadAndStored(Run(cfg, INITIAL, steps))
  {
    var first := FirstCopy(cfg, e);
    var more := FailToDeath(cfg, e, first, 0);
    steps := first + more;
  }

  lemma LoseFirstAck(cfg: Config, e: Event) returns (steps: seq<Step>)
    requires ConfigOk(cfg) && cfg.batch >= 1
    ensures Schedule(cfg, INITIAL, steps) && OnlyFaults(steps, true, false)
    ensures var s := Run(cfg, INITIAL, steps);
            if Attempts(cfg.policy) == 1 then DeadAndStored(s) else Overdue(cfg, e, s, 1)
  {
    var slack := cfg.delays.PerAttempt();
    var enqueue := Enqueue(e, Attempts(cfg.policy), 0.0);
    SingleStep(cfg, INITIAL, enqueue);
    var staged := Next(cfg, INITIAL, enqueue);
    var publish := ClaimAndPublish(cfg, staged, 0.0, Answer(StoredAckLost, 0.0, slack, 1.0));
    var published := Run(cfg, staged, publish);
    SingleStep(cfg, published, Commit(0));
    ScheduleAppend(cfg, staged, publish, [Commit(0)]);
    ScheduleAppend(cfg, INITIAL, [enqueue], publish + [Commit(0)]);
    steps := [enqueue] + (publish + [Commit(0)]);
    assert published.log[0] == Message(0, 0.0, e);
    assert DueBound(cfg, 0) == 0.0;
    TopSampleIsTheBound(cfg.policy, 1);
    DueBoundStep(cfg, 1);
  }

  /** A publish call stored without an acknowledgement, followed by nothing but failures. */
  lemma LostAckDelivers(cfg: Config, e: Event) returns (steps: seq<Step>)
    requires ConfigOk(cfg) && cfg.batch >= 1
    ensures Schedule(cfg, INITIAL, steps) && OnlyFaults(steps, true, false)
    ensures DeadAndStored(Run(cfg, INITIAL, steps))
  {
    steps := LoseFirstAck(cfg, e);
    if Attempts(cfg.policy) > 1 {
      var more := FailToDeath(cfg, e, steps, 1);
      steps := steps + more;
    }
  }

  /** `dead` means undelivered, in every timely run, if and only if acknowledgements are not lost and
      transactions do not die. Each of the two faults is enough by itself, under every limit. */
  lemma DeadIsUndeliveredIff(cfg: Config, lostAcks: bool, crashes: bool)
    requires ConfigOk(cfg) && cfg.batch >= 1
    ensures !lostAcks && !crashes <==>
            forall steps | Schedule(cfg, INITIAL, steps) && OnlyFaults(steps, lostAcks, crashes) ::
              DeadIsUndelivered(Run(cfg, INITIAL, steps))
  {
    if lostAcks {
      var steps := LostAckDelivers(cfg, ForeignEvent(""));
      assert !DeadIsUndelivered(Run(cfg, INITIAL, steps));
    } else if crashes {
      var steps := CrashDelivers(cfg, ForeignEvent(""));
      assert !DeadIsUndelivered(Run(cfg, INITIAL, steps));
    } else {
      forall steps | OnlyFaults(steps, lostAcks, crashes)
        ensures DeadIsUndelivered(Run(cfg, INITIAL, steps))
      {
        DeadIsUndeliveredWithoutFaults(cfg, steps);
      }
    }
  }
}
