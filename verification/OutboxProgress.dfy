/** Draining terminates: every committed batch spends at least one unit of a finite budget for
    each row it claimed. */
module OutboxProgress {
  import opened Drains
  import opened Outbox
  import opened OutboxSafety

  function Budget(cfg: Config, row: Row): int {
    if !row.status.Pending? then 0
    else (if Limit(cfg, row) >= 1 then Limit(cfg, row) else 1) - row.attempts
  }

  function BudgetOf(cfg: Config, rows: seq<Row>, n: nat): int
    requires n <= |rows|
  {
    if n == 0 then 0 else BudgetOf(cfg, rows, n - 1) + Budget(cfg, rows[n - 1])
  }

  function Remaining(cfg: Config, rows: seq<Row>): int { BudgetOf(cfg, rows, |rows|) }

  lemma {:induction false} BudgetIsZeroIff(cfg: Config, rows: seq<Row>, n: nat)
    requires RowsOk(cfg, rows) && n <= |rows|
    ensures BudgetOf(cfg, rows, n) >= 0
    ensures BudgetOf(cfg, rows, n) == 0 <==> forall id | 0 <= id < n :: !rows[id].status.Pending?
  {
    if n > 0 {
      BudgetIsZeroIff(cfg, rows, n - 1);
      assert RowOk(cfg, rows[n - 1]);
    }
  }

  ghost function Below(work: map<nat, Row>, n: nat): set<nat> { set id | id in work && id < n }

  lemma BelowStep(work: map<nat, Row>, n: nat)
    ensures |Below(work, n + 1)| == |Below(work, n)| + if n in work then 1 else 0
  {
    assert Below(work, n + 1) == Below(work, n) + if n in work then {n} else {};
  }

  lemma SucceedingSpends(cfg: Config, row: Row, w: Row)
    requires row.status.Pending? && RowOk(cfg, row) && Succeeds(cfg, row, w)
    ensures Budget(cfg, w) < Budget(cfg, row)
  {
  }

  lemma {:induction false} OverlaySpends(cfg: Config, rows: seq<Row>, work: map<nat, Row>, n: nat)
    requires n <= |rows|
    requires forall id | id in work && id < |rows| ::
               rows[id].status.Pending? && RowOk(cfg, rows[id]) && Succeeds(cfg, rows[id], work[id])
    ensures BudgetOf(cfg, Overlay(rows, work), n) + |Below(work, n)| <= BudgetOf(cfg, rows, n)
  {
    if n == 0 {
      assert Below(work, 0) == {};
    } else {
      OverlaySpends(cfg, rows, work, n - 1);
      BelowStep(work, n - 1);
      if n - 1 in work {
        SucceedingSpends(cfg, rows[n - 1], work[n - 1]);
      }
    }
  }

  lemma CommitSpends(cfg: Config, s: System, r: nat)
    requires Inv(cfg, s) && Enabled(cfg, s, Commit(r))
    ensures Remaining(cfg, Next(cfg, s, Commit(r)).rows) + |s.drains[r].work| <= Remaining(cfg, s.rows)
  {
    var work := s.drains[r].work;
    assert DrainOk(cfg, s, s.drains[r]);
    forall id | id in work
      ensures RowOk(cfg, s.rows[id])
    {
    }
    OverlaySpends(cfg, s.rows, work, |s.rows|);
    assert Below(work, |s.rows|) == work.Keys;
  }

  /** Rows claimed by batches that committed. */
  ghost function CommittedRows(cfg: Config, s: System, steps: seq<Step>): nat
    decreases |steps|
  {
    if steps == [] then 0 else
    (if steps[0].Commit? && Enabled(cfg, s, steps[0]) then |s.drains[steps[0].replica].work| else 0)
    + CommittedRows(cfg, Next(cfg, s, steps[0]), steps[1..])
  }

  predicate NothingEnqueued(steps: seq<Step>) {
    forall i | 0 <= i < |steps| :: !steps[i].Enqueue?
  }

  /** However many batches commit, fail or crash, they commit no more rows than the budget. */
  lemma {:induction false} DrainingIsBounded(cfg: Config, s: System, steps: seq<Step>)
    requires Inv(cfg, s) && NothingEnqueued(steps)
    ensures Remaining(cfg, Run(cfg, s, steps).rows) + CommittedRows(cfg, s, steps) <= Remaining(cfg, s.rows)
    decreases |steps|
  {
    if steps != [] {
      InvNext(cfg, s, steps[0]);
      if steps[0].Commit? && Enabled(cfg, s, steps[0]) {
        CommitSpends(cfg, s, steps[0].replica);
      }
      DrainingIsBounded(cfg, Next(cfg, s, steps[0]), steps[1..]);
    }
  }

  /** Once that many rows have been committed, in whatever interleaving, no row is pending. */
  lemma SpentBudgetIsDrained(cfg: Config, s: System, steps: seq<Step>)
    requires Inv(cfg, s) && NothingEnqueued(steps)
    requires CommittedRows(cfg, s, steps) >= Remaining(cfg, s.rows)
    ensures var t := Run(cfg, s, steps); |t.rows| == |s.rows| && !AnyPending(t.rows)
  {
    DrainingIsBounded(cfg, s, steps);
    InvRun(cfg, s, steps);
    BudgetIsSpent(cfg, Run(cfg, s, steps).rows);
    TableKeepsLength(cfg, s, steps);
  }

  lemma {:induction false} TableKeepsLength(cfg: Config, s: System, steps: seq<Step>)
    requires NothingEnqueued(steps)
    ensures |Run(cfg, s, steps).rows| == |s.rows|
    decreases |steps|
  {
    if steps != [] {
      TableKeepsLength(cfg, Next(cfg, s, steps[0]), steps[1..]);
    }
  }

  // ---------------------------------------------------------------- draining ends

  predicate AnyPending(rows: seq<Row>) {
    exists id | 0 <= id < |rows| :: rows[id].status.Pending?
  }

  /** Every pending row is due by then. */
  predicate LateEnough(rows: seq<Row>, at: real) {
    forall id | 0 <= id < |rows| && rows[id].status.Pending? :: rows[id].nextAttemptAt <= at
  }

  /** Some row can be claimed, unless none is pending. */
  predicate Claimables(s: System, at: real) {
    AnyPending(s.rows) ==> exists id :: 0 <= id < |s.rows| && Claimable(s, id, at)
  }

  predicate NoneEnqueued(p: Plan) {
    forall i | 0 <= i < |p.others| :: NothingEnqueued(p.others[i])
  }

  /** A drain that finds a row to claim, if one is pending, and runs to its commit, whatever the other
      replicas do in between, and while no row is staged. */
  ghost predicate Complete(cfg: Config, s: System, p: Plan) {
    WellFormed(p) && NoneEnqueued(p) && p.commits && Feasible(cfg, s, p) && Claimables(s, p.at)
  }

  /** The claim takes something whenever there is something to take. */
  lemma ClaimTakesSome(cfg: Config, s: System, p: Plan)
    requires cfg.batch >= 1 && AnyPending(s.rows) && Claimables(s, p.at) && Enabled(cfg, s, Begin(p))
    ensures p.ids != []
  {
    var id: nat :| id < |s.rows| && Claimable(s, id, p.at);
    assert id in p.ids || |p.ids| == cfg.batch;
  }

  /** No step of anybody raises the budget, while no row is staged. */
  lemma BudgetOnlyFalls(cfg: Config, s: System, steps: seq<Step>)
    requires Inv(cfg, s) && NothingEnqueued(steps)
    ensures Remaining(cfg, Run(cfg, s, steps).rows) <= Remaining(cfg, s.rows)
  {
    DrainingIsBounded(cfg, s, steps);
  }

  lemma BudgetFallsAcross(cfg: Config, s: System, step: Step, rest: seq<Step>)
    requires Inv(cfg, s) && !step.Enqueue? && NothingEnqueued(rest)
    ensures var t := Run(cfg, Next(cfg, s, step), rest);
            Remaining(cfg, t.rows) <= Remaining(cfg, s.rows) && |t.rows| == |s.rows|
  {
    OneThen(cfg, s, step, rest);
    BudgetOnlyFalls(cfg, s, [step] + rest);
    TableKeepsLength(cfg, s, [step] + rest);
  }

  lemma {:induction false} WorldBudget(cfg: Config, s: System, p: Plan, n: nat)
    requires Inv(cfg, s) && n <= |p.answers| < |p.others| && NoneEnqueued(p)
    ensures var t := World(cfg, s, p, n); Remaining(cfg, t.rows) <= Remaining(cfg, s.rows) && |t.rows| == |s.rows|
  {
    if n == 0 {
      BudgetFallsAcross(cfg, s, Begin(p), p.others[0]);
    } else {
      WorldBudget(cfg, s, p, n - 1);
      InvWorld(cfg, s, p, n - 1);
      BudgetFallsAcross(cfg, World(cfg, s, p, n - 1), Call(p, n - 1), p.others[n]);
    }
  }

  lemma CompleteCommits(cfg: Config, s: System, p: Plan)
    requires Inv(cfg, s) && Complete(cfg, s, p)
    ensures var t := World(cfg, s, p, |p.answers|);
            && Inv(cfg, t) && Enabled(cfg, t, Commit(p.replica))
            && (p.ids != [] ==> t.drains[p.replica].work != map[])
  {
    var n := |p.answers|;
    InvWorld(cfg, s, p, n);
    HeldThroughout(cfg, s, p, n);
    EndWrites(cfg, s, p, World(cfg, s, p, n));
    if p.ids != [] {
      WorkHas(cfg, s.rows, p.ids, p.answers, n, 0);
    }
  }

  /** A complete drain, and whatever happens meanwhile, spends some of the budget while a row is pending. */
  lemma CompleteSpends(cfg: Config, s: System, p: Plan)
    requires cfg.batch >= 1 && Inv(cfg, s) && Complete(cfg, s, p)
    ensures var t := After(cfg, s, p);
            && Inv(cfg, t) && |t.rows| == |s.rows|
            && Remaining(cfg, t.rows) <= Remaining(cfg, s.rows) - if AnyPending(s.rows) then 1 else 0
  {
    var t := World(cfg, s, p, |p.answers|);
    WorldBudget(cfg, s, p, |p.answers|);
    CompleteCommits(cfg, s, p);
    CommitSpends(cfg, t, p.replica);
    InvNext(cfg, t, Commit(p.replica));
    if AnyPending(s.rows) {
      ClaimTakesSome(cfg, s, p);
      assert |t.drains[p.replica].work| >= 1;
    }
  }

  ghost predicate AllComplete(cfg: Config, s: System, plans: seq<Plan>)
    decreases |plans|
  {
    plans == [] || (Complete(cfg, s, plans[0]) && AllComplete(cfg, After(cfg, s, plans[0]), plans[1..]))
  }

  ghost function AfterAll(cfg: Config, s: System, plans: seq<Plan>): System
    requires AllComplete(cfg, s, plans)
    decreases |plans|
  {
    if plans == [] then s else AfterAll(cfg, After(cfg, s, plans[0]), plans[1..])
  }

  lemma BudgetIsSpent(cfg: Config, rows: seq<Row>)
    requires RowsOk(cfg, rows)
    ensures Remaining(cfg, rows) >= 0 && (Remaining(cfg, rows) == 0 <==> !AnyPending(rows))
  {
    BudgetIsZeroIff(cfg, rows, |rows|);
  }

  /** Draining terminates. After as many complete drains as the budget, by whichever replicas, with any
      steps of the others in between and whatever the broker answered, every row is `published` or
      `dead`. */
  lemma {:induction false} DrainingEnds(cfg: Config, s: System, plans: seq<Plan>)
    requires cfg.batch >= 1 && Inv(cfg, s) && AllComplete(cfg, s, plans)
    requires |plans| >= Remaining(cfg, s.rows)
    ensures var t := AfterAll(cfg, s, plans); |t.rows| == |s.rows| && !AnyPending(t.rows)
    decreases |plans|
  {
    BudgetIsSpent(cfg, s.rows);
    if plans != [] {
      CompleteSpends(cfg, s, plans[0]);
      BudgetIsSpent(cfg, After(cfg, s, plans[0]).rows);
      DrainingEnds(cfg, After(cfg, s, plans[0]), plans[1..]);
    }
  }

  // ---------------------------------------------------------------- such drains exist

  ghost predicate Waiting(s: System, at: real, ids: seq<nat>, id: nat) { Claimable(s, id, at) && id !in ids }

  /** The oldest of the waiting rows below n. */
  lemma {:induction false} Oldest(s: System, at: real, ids: seq<nat>, n: nat) returns (m: nat)
    requires exists id :: 0 <= id < n && Waiting(s, at, ids, id)
    ensures Waiting(s, at, ids, m)
    ensures forall id | 0 <= id < n && Waiting(s, at, ids, id) :: s.rows[m].createdAt <= s.rows[id].createdAt
  {
    if exists id :: 0 <= id < n - 1 && Waiting(s, at, ids, id) {
      m := Oldest(s, at, ids, n - 1);
      if Waiting(s, at, ids, n - 1) && s.rows[n - 1].createdAt < s.rows[m].createdAt {
        m := n - 1;
      }
    } else {
      m := n - 1;
    }
  }

  /** What a claim with a batch of k takes. */
  lemma {:induction false} TakeOldest(cfg: Config, s: System, at: real, k: nat) returns (ids: seq<nat>)
    ensures IsClaim(cfg.(batch := k), s, ids, at)
  {
    ids := [];
    if k > 0 {
      ids := TakeOldest(cfg, s, at, k - 1);
      if exists id: nat :: Waiting(s, at, ids, id) {
        var id: nat :| Waiting(s, at, ids, id);
        assert id < |s.rows|;
        var m := Oldest(s, at, ids, |s.rows|);
        TakeOneMore(cfg, s, at, ids, k - 1, m);
        ids := ids + [m];
      } else {
        assert forall id: nat | Claimable(s, id, at) :: !Waiting(s, at, ids, id);
      }
    }
  }

  lemma TakeOneMore(cfg: Config, s: System, at: real, ids: seq<nat>, k: nat, m: nat)
    requires IsClaim(cfg.(batch := k), s, ids, at) && Waiting(s, at, ids, m)
    requires forall id: nat | Waiting(s, at, ids, id) :: s.rows[m].createdAt <= s.rows[id].createdAt
    ensures IsClaim(cfg.(batch := k + 1), s, ids + [m], at)
  {
    var more := ids + [m];
    forall id: nat | Claimable(s, id, at) && id !in more
      ensures |more| == k + 1 && forall i | 0 <= i < |more| :: s.rows[more[i]].createdAt <= s.rows[id].createdAt
    {
      assert Waiting(s, at, ids, id);
    }
  }

  function LatestDue(rows: seq<Row>, at: real): (r: real)
    ensures at <= r && LateEnough(rows, r)
  {
    if rows == [] then at
    else
      var n := |rows|;
      var before := LatestDue(rows[..n - 1], at);
      if before <= rows[n - 1].nextAttemptAt then rows[n - 1].nextAttemptAt else before
  }

  /** In any state with no open transaction a replica can carry out a complete drain, whatever the
      broker answers about each row. */
  lemma CompleteDrainExists(cfg: Config, s: System, r: nat, outcome: nat -> Outcome) returns (p: Plan)
    requires Inv(cfg, s) && s.drains == map[]
    ensures Complete(cfg, s, p) && Undisturbed(p) && LateEnough(s.rows, p.at) && p.replica == r
    ensures forall i | 0 <= i < |p.ids| :: p.answers[i].outcome == outcome(p.ids[i])
  {
    var at := LatestDue(s.rows, s.now);
    var ids := TakeOldest(cfg, s, at, cfg.batch);
    var answers := seq(|ids|, i requires 0 <= i < |ids| => Answer(outcome(ids[i]), at, at, 0.0));
    p := Plan(r, ids, at, answers, seq(|ids| + 1, i => []), true);
    assert cfg.(batch := cfg.batch) == cfg;
    UndisturbedIsFeasible(cfg, s, p);
    DueRowsAreClaimable(s, at);
  }

  lemma DueRowsAreClaimable(s: System, at: real)
    requires s.drains == map[] && LateEnough(s.rows, at)
    ensures Claimables(s, at)
  {
    if AnyPending(s.rows) {
      var id: nat :| id < |s.rows| && s.rows[id].status.Pending?;
      assert Claimable(s, id, at);
    }
  }

  lemma UndisturbedLeavesNothingOpen(cfg: Config, s: System, p: Plan)
    requires Inv(cfg, s) && s.drains == map[] && Complete(cfg, s, p) && Undisturbed(p)
    ensures After(cfg, s, p).drains == map[]
  {
    DrainWrites(cfg, s, p);
    UndisturbedWorld(cfg, s, p, |p.answers|);
  }

  /** So as many of them as one likes. */
  lemma {:induction false} CompleteDrainsExist(cfg: Config, s: System, outcomes: seq<nat -> Outcome>)
          returns (plans: seq<Plan>)
    requires cfg.batch >= 1 && Inv(cfg, s) && s.drains == map[]
    ensures AllComplete(cfg, s, plans) && |plans| == |outcomes|
    decreases |outcomes|
  {
    plans := [];
    if outcomes != [] {
      var p := CompleteDrainExists(cfg, s, 0, outcomes[0]);
      CompleteSpends(cfg, s, p);
      UndisturbedLeavesNothingOpen(cfg, s, p);
      var rest := CompleteDrainsExist(cfg, After(cfg, s, p), outcomes[1..]);
      plans := [p] + rest;
      assert plans[1..] == rest;
    }
  }
}
