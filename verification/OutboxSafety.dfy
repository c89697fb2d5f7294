/** What every run of the outbox keeps, whatever the replicas, the broker and crashes do. */
module OutboxSafety {
  import opened Outbox

  ghost predicate InLog(log: seq<Message>, id: nat) {
    exists m :: m in log && m.id == id
  }

  /** `w` is what one publish call can make of `row`. */
  ghost predicate Succeeds(cfg: Config, row: Row, w: Row) {
    && w.event == row.event && w.createdAt == row.createdAt && w.maxAttempts == row.maxAttempts
    && match w.status
       case Published => w.attempts == row.attempts
       case Dead => w.attempts == row.attempts + 1 && w.attempts >= Limit(cfg, row)
       case Pending => w.attempts == row.attempts + 1 && w.attempts < Limit(cfg, row)
  }

  ghost predicate RowOk(cfg: Config, row: Row) {
    row.status.Pending? ==> 0 <= row.attempts && (row.attempts == 0 || row.attempts < Limit(cfg, row))
  }

  ghost predicate DrainOk(cfg: Config, s: System, d: Drain) {
    && Distinct(d.todo)
    && (forall id | id in d.todo ::
          id !in d.work && id < |s.rows| && s.rows[id].status.Pending? && s.rows[id].nextAttemptAt <= s.now)
    && (forall id | id in d.work ::
          && id < |s.rows| && s.rows[id].status.Pending? && Succeeds(cfg, s.rows[id], d.work[id])
          && (d.work[id].status.Published? ==> InLog(s.log, id)))
  }

  /** No row is held by two open transactions. */
  ghost predicate LocksOk(drains: map<nat, Drain>) {
    forall q, r | q in drains && r in drains && q != r :: drains[q].Held() !! drains[r].Held()
  }

  ghost predicate RowsOk(cfg: Config, rows: seq<Row>) {
    forall id | 0 <= id < |rows| :: RowOk(cfg, rows[id])
  }

  ghost predicate PublishedIsStored(rows: seq<Row>, log: seq<Message>) {
    forall id | 0 <= id < |rows| && rows[id].status.Published? :: InLog(log, id)
  }

  ghost predicate DrainsOk(cfg: Config, s: System) {
    forall r | r in s.drains :: DrainOk(cfg, s, s.drains[r])
  }

  /** The stream holds only what was staged, and every message of it was a publish call. */
  ghost predicate Genuine(rows: seq<Row>, log: seq<Message>, tries: seq<Try>) {
    && (forall m | m in log :: m.id < |rows| && m.event == rows[m.id].event)
    && (forall m | m in log :: Try(m.id, m.at) in tries)
  }

  ghost predicate TriesOk(s: System) {
    forall t | t in s.tries :: t.id < |s.rows| && t.at <= s.now
  }

  ghost predicate Inv(cfg: Config, s: System) {
    && RowsOk(cfg, s.rows) && PublishedIsStored(s.rows, s.log)
    && DrainsOk(cfg, s) && LocksOk(s.drains)
    && Genuine(s.rows, s.log, s.tries) && TriesOk(s)
  }

  lemma InvInitially(cfg: Config)
    ensures Inv(cfg, INITIAL)
  {
  }

  lemma InvEnqueue(cfg: Config, s: System, step: Step)
    requires Inv(cfg, s) && step.Enqueue? && Enabled(cfg, s, step)
    ensures Inv(cfg, Next(cfg, s, step))
  {
    var s' := Next(cfg, s, step);
    forall r | r in s'.drains
      ensures DrainOk(cfg, s', s'.drains[r])
    {
      assert DrainOk(cfg, s, s.drains[r]);
    }
  }

  lemma InvClaim(cfg: Config, s: System, step: Step)
    requires Inv(cfg, s) && step.Claim? && Enabled(cfg, s, step)
    ensures Inv(cfg, Next(cfg, s, step))
  {
    var s' := Next(cfg, s, step);
    var taken := s'.drains[step.replica];
    forall id | id in taken.Held()
      ensures Claimable(s, id, step.at)
    {
    }
    forall r | r in s'.drains
      ensures DrainOk(cfg, s', s'.drains[r])
      ensures r != step.replica ==> s'.drains[r].Held() !! taken.Held()
    {
      assert r != step.replica ==> DrainOk(cfg, s, s.drains[r]);
      forall id | id in taken.Held() && r != step.replica
        ensures id !in s'.drains[r].Held()
      {
        assert Claimable(s, id, step.at);
      }
    }
  }

  lemma RowAfterSucceeds(cfg: Config, row: Row, answer: Answer)
    requires row.status.Pending?
    ensures Succeeds(cfg, row, RowAfter(cfg, row, answer))
  {
  }

  lemma StoredContains(log: seq<Message>, msg: Message, outcome: Outcome, window: real)
    ensures var after := Stored(log, msg, outcome, window);
            && (forall m | m in after :: m in log || m == msg)
            && (forall m | m in log :: m in after)
            && (!outcome.Failed? ==> InLog(after, msg.id))
  {
    var after := Stored(log, msg, outcome, window);
    if !outcome.Failed? && !Remembered(log, msg.id, msg.at, window) {
      assert after[|log|] == msg;
    }
  }

  lemma LogGrows(log: seq<Message>, msg: Message, outcome: Outcome, window: real)
    ensures forall id | InLog(log, id) :: InLog(Stored(log, msg, outcome, window), id)
  {
    forall id | InLog(log, id)
      ensures InLog(Stored(log, msg, outcome, window), id)
    {
      var m :| m in log && m.id == id;
      assert m in Stored(log, msg, outcome, window);
    }
  }

  // What a publish call leaves of the system.
  ghost predicate AfterPublish(cfg: Config, s: System, step: Step, s': System) {
    step.Publish? && Enabled(cfg, s, step) && s' == Next(cfg, s, step)
  }

  lemma PublishKeepsDrains(cfg: Config, s: System, step: Step, s': System)
    requires DrainsOk(cfg, s) && AfterPublish(cfg, s, step, s')
    ensures DrainsOk(cfg, s')
    ensures s'.drains.Keys == s.drains.Keys && forall r | r in s.drains :: s'.drains[r].Held() == s.drains[r].Held()
  {
    var d, d' := s.drains[step.replica], s'.drains[step.replica];
    var id := d.todo[0];
    assert DrainOk(cfg, s, d);
    assert d.todo == [id] + d'.todo;
    assert d'.Held() == d.Held();
    LogGrows(s.log, Message(id, step.answer.at, s.rows[id].event), step.answer.outcome, cfg.window);
    PublishingDrainOk(cfg, s, step, s');
    forall r | r in s'.drains
      ensures DrainOk(cfg, s', s'.drains[r])
    {
      assert DrainOk(cfg, s, s.drains[r]);
    }
  }

  lemma PublishingDrainOk(cfg: Config, s: System, step: Step, s': System)
    requires AfterPublish(cfg, s, step, s') && DrainOk(cfg, s, s.drains[step.replica])
    ensures DrainOk(cfg, s', s'.drains[step.replica])
  {
    var d, d' := s.drains[step.replica], s'.drains[step.replica];
    var id := d.todo[0];
    var msg := Message(id, step.answer.at, s.rows[id].event);
    StoredContains(s.log, msg, step.answer.outcome, cfg.window);
    LogGrows(s.log, msg, step.answer.outcome, cfg.window);
    RowAfterSucceeds(cfg, s.rows[id], step.answer);
    assert d.todo == [id] + d'.todo;
  }

  lemma PublishKeepsGenuine(cfg: Config, s: System, step: Step, s': System)
    requires Genuine(s.rows, s.log, s.tries) && AfterPublish(cfg, s, step, s')
    ensures Genuine(s'.rows, s'.log, s'.tries)
  {
    var id := s.drains[step.replica].todo[0];
    var msg := Message(id, step.answer.at, s.rows[id].event);
    StoredContains(s.log, msg, step.answer.outcome, cfg.window);
    assert s'.tries[|s.tries|] == Try(msg.id, msg.at);
    forall m | m in s'.log
      ensures Try(m.id, m.at) in s'.tries
    {
      if m != msg {
        assert Try(m.id, m.at) in s.tries;
      }
    }
  }

  lemma PublishKeepsStored(cfg: Config, s: System, step: Step, s': System)
    requires PublishedIsStored(s.rows, s.log) && TriesOk(s) && AfterPublish(cfg, s, step, s')
    ensures PublishedIsStored(s'.rows, s'.log) && TriesOk(s')
  {
    var id := s.drains[step.replica].todo[0];
    LogGrows(s.log, Message(id, step.answer.at, s.rows[id].event), step.answer.outcome, cfg.window);
  }

  lemma InvPublish(cfg: Config, s: System, step: Step)
    requires Inv(cfg, s) && step.Publish? && Enabled(cfg, s, step)
    ensures Inv(cfg, Next(cfg, s, step))
  {
    var s' := Next(cfg, s, step);
    PublishKeepsDrains(cfg, s, step, s');
    PublishKeepsGenuine(cfg, s, step, s');
    PublishKeepsStored(cfg, s, step, s');
    SameLocks(s.drains, s'.drains);
  }

  lemma SameLocks(a: map<nat, Drain>, b: map<nat, Drain>)
    requires LocksOk(a) && b.Keys == a.Keys && forall r | r in a :: b[r].Held() == a[r].Held()
    ensures LocksOk(b)
  {
  }

  lemma InvCommit(cfg: Config, s: System, step: Step)
    requires Inv(cfg, s) && step.Commit? && Enabled(cfg, s, step)
    ensures Inv(cfg, Next(cfg, s, step))
  {
    var s' := Next(cfg, s, step);
    var d := s.drains[step.replica];
    assert DrainOk(cfg, s, d);
    forall id | 0 <= id < |s'.rows|
      ensures RowOk(cfg, s'.rows[id]) && s'.rows[id].event == s.rows[id].event
    {
      assert RowOk(cfg, s.rows[id]);
    }
    forall r | r in s'.drains
      ensures DrainOk(cfg, s', s'.drains[r])
    {
      assert DrainOk(cfg, s, s.drains[r]);
      assert s.drains[r].Held() !! d.Held();
      forall id | id in s'.drains[r].Held()
        ensures id < |s.rows| && s'.rows[id] == s.rows[id]
      {
        assert id !in d.Held();
      }
      forall id | id in s'.drains[r].work
        ensures id < |s'.rows| && s'.rows[id] == s.rows[id]
      {
        assert id in s'.drains[r].Held();
      }
    }
  }

  lemma InvCrash(cfg: Config, s: System, step: Step)
    requires Inv(cfg, s) && step.Crash? && Enabled(cfg, s, step)
    ensures Inv(cfg, Next(cfg, s, step))
  {
    var s' := Next(cfg, s, step);
    forall r | r in s'.drains
      ensures DrainOk(cfg, s', s'.drains[r])
    {
      assert DrainOk(cfg, s, s.drains[r]);
    }
  }

  lemma InvNext(cfg: Config, s: System, step: Step)
    requires Inv(cfg, s)
    ensures Inv(cfg, Next(cfg, s, step))
  {
    if Enabled(cfg, s, step) {
      match step
      case Enqueue(_, _, _) => InvEnqueue(cfg, s, step);
      case Claim(_, _, _) => InvClaim(cfg, s, step);
      case Publish(_, _) => InvPublish(cfg, s, step);
      case Commit(_) => InvCommit(cfg, s, step);
      case Crash(_) => InvCrash(cfg, s, step);
    }
  }

  lemma {:induction false} InvRun(cfg: Config, s: System, steps: seq<Step>)
    requires Inv(cfg, s)
    ensures Inv(cfg, Run(cfg, s, steps))
    decreases |steps|
  {
    if steps != [] {
      InvNext(cfg, s, steps[0]);
      InvRun(cfg, Next(cfg, s, steps[0]), steps[1..]);
    }
  }

  // ---------------------------------------------------------------- main results

  /** From the empty outbox, in every reachable state: locks are exclusive, a committed
      `published` row is in the stream, and the stream holds only what was staged. */
  lemma ReachableIsSafe(cfg: Config, steps: seq<Step>)
    ensures var s := Run(cfg, INITIAL, steps);
            && LocksOk(s.drains)
            && (forall id | 0 <= id < |s.rows| && s.rows[id].status.Published? :: InLog(s.log, id))
            && (forall m | m in s.log :: m.id < |s.rows| && m.event == s.rows[m.id].event)
  {
    InvRun(cfg, INITIAL, steps);
  }

  ghost predicate Preserved(s: System, t: System) {
    && |s.rows| <= |t.rows|
    && (forall id | 0 <= id < |s.rows| ::
          && t.rows[id].event == s.rows[id].event && t.rows[id].createdAt == s.rows[id].createdAt
          && t.rows[id].maxAttempts == s.rows[id].maxAttempts
          && (!s.rows[id].status.Pending? ==> t.rows[id] == s.rows[id]))
    && s.log <= t.log
    && s.tries <= t.tries
  }

  lemma PreservedNext(cfg: Config, s: System, step: Step)
    requires Inv(cfg, s)
    ensures Preserved(s, Next(cfg, s, step))
  {
    if Enabled(cfg, s, step) && step.Commit? {
      assert DrainOk(cfg, s, s.drains[step.replica]);
    }
  }

  /** No staged row is lost, `published` and `dead` are final, and the broker never forgets
      a message, over any continuation of any reachable state. */
  lemma {:induction false} NothingIsLost(cfg: Config, s: System, steps: seq<Step>)
    requires Inv(cfg, s)
    ensures Preserved(s, Run(cfg, s, steps))
    decreases |steps|
  {
    if steps != [] {
      var s' := Next(cfg, s, steps[0]);
      InvNext(cfg, s, steps[0]);
      PreservedNext(cfg, s, steps[0]);
      NothingIsLost(cfg, s', steps[1..]);
    }
  }

  /** A replica that dies after publishing any part of its batch leaves the table, and every other
      replica's transaction, exactly as they were before it claimed; only the broker moved. */
  lemma {:induction false} CrashRestoresCommittedRows(cfg: Config, s: System, r: nat, answers: seq<Answer>)
    requires r in s.drains
    ensures var t := Run(cfg, s, seq(|answers|, i requires 0 <= i < |answers| => Publish(r, answers[i])) + [Crash(r)]);
            t.rows == s.rows && t.drains == s.drains - {r} && s.log <= t.log
    decreases |answers|
  {
    var publishes := seq(|answers|, i requires 0 <= i < |answers| => Publish(r, answers[i]));
    if answers == [] {
      assert publishes + [Crash(r)] == [Crash(r)];
      assert [Crash(r)][1..] == [];
    } else {
      var rest := answers[1..];
      var tail := seq(|rest|, i requires 0 <= i < |rest| => Publish(r, rest[i])) + [Crash(r)];
      assert (publishes + [Crash(r)])[1..] == tail;
      var s' := Next(cfg, s, Publish(r, answers[0]));
      assert s'.drains - {r} == s.drains - {r};
      CrashRestoresCommittedRows(cfg, s', r, rest);
    }
  }
}
