/** The two limits on a row's attempts: the policy's and the row's own. Whichever is smaller rules. */
module OutboxLimits {
  import opened Timing
  import opened Outbox
  import opened OutboxSafety

  /** A failure counts one attempt. It is the row's last exactly when either limit is reached; otherwise
      the row stays pending, due again after the sampled delay. Nothing else of the row changes. */
  lemma FailureEndsIff(cfg: Config, row: Row, recordedAt: real, draw: real)
    requires row.status.Pending?
    ensures var w := FailedRow(cfg, row, recordedAt, draw);
            if row.attempts + 1 >= cfg.policy.maxAttempts || row.attempts + 1 >= row.maxAttempts
            then w == row.(status := Dead, attempts := row.attempts + 1)
            else w == row.(attempts := row.attempts + 1,
                           nextAttemptAt := recordedAt + ComputeBackoff(cfg.policy, row.attempts + 1, draw))
  {
  }

  function AtLeastOne(n: int): int { if n >= 1 then n else 1 }

  /** A row never has more attempts than either limit allows, one being allowed always; a dead row has
      reached one of them, and no other row has. A row with no failed attempt is due from when it was written. */
  ghost predicate WithinLimits(cfg: Config, row: Row) {
    && 0 <= row.attempts <= AtLeastOne(cfg.policy.maxAttempts) && row.attempts <= AtLeastOne(row.maxAttempts)
    && (row.status.Dead? ==> row.attempts >= 1
                             && (row.attempts >= cfg.policy.maxAttempts || row.attempts >= row.maxAttempts))
    && (!row.status.Dead? && row.attempts > 0 ==>
          row.attempts < cfg.policy.maxAttempts && row.attempts < row.maxAttempts)
    && (row.attempts == 0 ==> row.nextAttemptAt == row.createdAt)
  }

  ghost predicate AllWithinLimits(cfg: Config, s: System) {
    && (forall id | 0 <= id < |s.rows| :: WithinLimits(cfg, s.rows[id]))
    && (forall r, id | r in s.drains && id in s.drains[r].work :: WithinLimits(cfg, s.drains[r].work[id]))
  }

  lemma PublishingStaysWithin(cfg: Config, row: Row, answer: Answer)
    requires WithinLimits(cfg, row) && row.status.Pending?
    ensures WithinLimits(cfg, RowAfter(cfg, row, answer))
  {
    FailureEndsIff(cfg, row, answer.recordedAt, answer.draw);
  }

  lemma PublishKeepsLimits(cfg: Config, s: System, step: Step)
    requires DrainsOk(cfg, s) && AllWithinLimits(cfg, s) && step.Publish? && Enabled(cfg, s, step)
    ensures AllWithinLimits(cfg, Next(cfg, s, step))
  {
    var d := s.drains[step.replica];
    assert DrainOk(cfg, s, d);
    PublishingStaysWithin(cfg, s.rows[d.todo[0]], step.answer);
  }

  lemma LimitsNext(cfg: Config, s: System, step: Step)
    requires DrainsOk(cfg, s) && AllWithinLimits(cfg, s)
    ensures AllWithinLimits(cfg, Next(cfg, s, step))
  {
    if step.Publish? && Enabled(cfg, s, step) {
      PublishKeepsLimits(cfg, s, step);
    }
  }

  lemma {:induction false} LimitsRun(cfg: Config, s: System, steps: seq<Step>)
    requires Inv(cfg, s) && AllWithinLimits(cfg, s)
    ensures AllWithinLimits(cfg, Run(cfg, s, steps))
    decreases |steps|
  {
    if steps != [] {
      LimitsNext(cfg, s, steps[0]);
      InvNext(cfg, s, steps[0]);
      LimitsRun(cfg, Next(cfg, s, steps[0]), steps[1..]);
    }
  }

  /** In every reachable state every row is within both limits. */
  lemma RowsStayWithinLimits(cfg: Config, steps: seq<Step>, id: nat)
    ensures var s := Run(cfg, INITIAL, steps); id < |s.rows| ==> WithinLimits(cfg, s.rows[id])
  {
    LimitsRun(cfg, INITIAL, steps);
  }

  /** The oldest row that can be claimed is claimed: a younger one is never preferred. */
  lemma OldestIsClaimed(cfg: Config, s: System, r: nat, ids: seq<nat>, at: real, id: nat)
    requires Enabled(cfg, s, Claim(r, ids, at)) && cfg.batch >= 1 && Claimable(s, id, at)
    requires forall other: nat | Claimable(s, other, at) && other != id ::
               s.rows[id].createdAt < s.rows[other].createdAt
    ensures id in ids
  {
    assert id in ids || |ids| == cfg.batch;
    assert |ids| > 0 ==> Claimable(s, ids[0], at);
    assert ids[0] == id || s.rows[id].createdAt < s.rows[ids[0]].createdAt;
  }

  // ---------------------------------------------------------------- the batch

  ghost predicate WithinBatch(cfg: Config, s: System) {
    forall r | r in s.drains :: |s.drains[r].todo| + |s.drains[r].work| <= cfg.batch
  }

  lemma BatchNext(cfg: Config, s: System, step: Step)
    requires DrainsOk(cfg, s) && WithinBatch(cfg, s)
    ensures WithinBatch(cfg, Next(cfg, s, step))
  {
    if step.Publish? && Enabled(cfg, s, step) {
      assert DrainOk(cfg, s, s.drains[step.replica]);
    }
  }

  lemma {:induction false} BatchRun(cfg: Config, s: System, steps: seq<Step>)
    requires Inv(cfg, s) && WithinBatch(cfg, s)
    ensures Inv(cfg, Run(cfg, s, steps)) && WithinBatch(cfg, Run(cfg, s, steps))
    decreases |steps|
  {
    if steps != [] {
      BatchNext(cfg, s, steps[0]);
      InvNext(cfg, s, steps[0]);
      BatchRun(cfg, Next(cfg, s, steps[0]), steps[1..]);
    }
  }

  /** In every reachable state no transaction has taken more rows than a batch, published or still to be
      published, and each row still to be published is pending and due. */
  lemma DrainsTakeDueRows(cfg: Config, steps: seq<Step>, r: nat)
    ensures var s := Run(cfg, INITIAL, steps);
            r in s.drains ==>
              && |s.drains[r].todo| + |s.drains[r].work| <= cfg.batch
              && forall id | id in s.drains[r].todo ::
                   id < |s.rows| && s.rows[id].status.Pending? && s.rows[id].nextAttemptAt <= s.now
  {
    BatchRun(cfg, INITIAL, steps);
    var s := Run(cfg, INITIAL, steps);
    assert r in s.drains ==> DrainOk(cfg, s, s.drains[r]);
  }

  // ---------------------------------------------------------------- the order

  ghost predicate OldestFirst(rows: seq<Row>, ids: seq<nat>) {
    forall i, j | 0 <= i < j < |ids| && ids[i] < |rows| && ids[j] < |rows| ::
      rows[ids[i]].createdAt <= rows[ids[j]].createdAt
  }

  ghost predicate AllOldestFirst(s: System) {
    forall r | r in s.drains :: OldestFirst(s.rows, s.drains[r].todo)
  }

  /** What a step leaves a transaction to publish: what it had, or all but the first of it, or a claim. */
  lemma TodoAfter(cfg: Config, s: System, step: Step, r: nat)
    requires r in Next(cfg, s, step).drains
    ensures var t := Next(cfg, s, step);
            || (r in s.drains && t.drains[r].todo == s.drains[r].todo)
            || (r in s.drains && s.drains[r].todo != [] && t.drains[r].todo == s.drains[r].todo[1..])
            || (t.rows == s.rows && OldestFirst(s.rows, t.drains[r].todo))
  {
  }

  lemma OrderStays(before: seq<Row>, after: seq<Row>, ids: seq<nat>, left: seq<nat>)
    requires OldestFirst(before, ids) && |before| <= |after| && (forall id | id in ids :: id < |before|)
    requires forall id | 0 <= id < |before| :: after[id].createdAt == before[id].createdAt
    requires left == ids || (ids != [] && left == ids[1..])
    ensures OldestFirst(after, left)
  {
    forall i, j | 0 <= i < j < |left| && left[i] < |after| && left[j] < |after|
      ensures after[left[i]].createdAt <= after[left[j]].createdAt
    {
      var k := if left == ids then 0 else 1;
      assert left[i] == ids[i + k] && left[j] == ids[j + k];
      assert ids[i + k] in ids && ids[j + k] in ids;
    }
  }

  lemma OrderNext(cfg: Config, s: System, step: Step, r: nat)
    requires Inv(cfg, s) && AllOldestFirst(s) && r in Next(cfg, s, step).drains
    ensures var t := Next(cfg, s, step); OldestFirst(t.rows, t.drains[r].todo)
  {
    var t := Next(cfg, s, step);
    PreservedNext(cfg, s, step);
    TodoAfter(cfg, s, step, r);
    if r in s.drains && (t.drains[r].todo == s.drains[r].todo
                         || (s.drains[r].todo != [] && t.drains[r].todo == s.drains[r].todo[1..])) {
      assert DrainOk(cfg, s, s.drains[r]);
      OrderStays(s.rows, t.rows, s.drains[r].todo, t.drains[r].todo);
    }
  }

  lemma {:induction false} OrderRun(cfg: Config, s: System, steps: seq<Step>)
    requires Inv(cfg, s) && AllOldestFirst(s)
    ensures AllOldestFirst(Run(cfg, s, steps))
    decreases |steps|
  {
    if steps != [] {
      var t := Next(cfg, s, steps[0]);
      forall r | r in t.drains
        ensures OldestFirst(t.rows, t.drains[r].todo)
      {
        OrderNext(cfg, s, steps[0], r);
      }
      InvNext(cfg, s, steps[0]);
      OrderRun(cfg, t, steps[1..]);
    }
  }

  /** In every reachable state each transaction has its rows still to be published in the order they were
      written. */
  lemma OldestIsPublishedFirst(cfg: Config, steps: seq<Step>, r: nat)
    ensures var s := Run(cfg, INITIAL, steps); r in s.drains ==> OldestFirst(s.rows, s.drains[r].todo)
  {
    OrderRun(cfg, INITIAL, steps);
  }
}
