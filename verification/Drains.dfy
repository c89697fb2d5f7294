/** One replica's drain amid the steps of everybody else. */
module Drains {
  import opened Outbox
  import opened OutboxSafety

  // A claim, one publish call per answer, and a commit or a crash. Before the i-th publish call, and
  // before the end, everybody else takes the steps `others[i]`.
  datatype Plan = Plan(replica: nat, ids: seq<nat>, at: real, answers: seq<Answer>, others: seq<seq<Step>>,
          commits: bool)

  predicate Foreign(step: Step, r: nat) { step.Enqueue? || step.replica != r }

  predicate AllForeign(steps: seq<Step>, r: nat) {
    forall i | 0 <= i < |steps| :: Foreign(steps[i], r)
  }

  predicate WellFormed(p: Plan) {
    && |p.answers| <= |p.ids| && (p.commits ==> |p.answers| == |p.ids|)
    && |p.others| == |p.answers| + 1
    && forall i | 0 <= i < |p.others| :: AllForeign(p.others[i], p.replica)
  }

  function Begin(p: Plan): Step { Claim(p.replica, p.ids, p.at) }

  function Call(p: Plan, n: nat): Step
    requires n < |p.answers|
  {
    Publish(p.replica, p.answers[n])
  }

  function End(p: Plan): Step {
    if p.commits then Commit(p.replica) else Crash(p.replica)
  }

  /** The state just before the n-th publish call. */
  ghost function World(cfg: Config, s: System, p: Plan, n: nat): System
    requires n <= |p.answers| < |p.others|
  {
    if n == 0 then Run(cfg, Next(cfg, s, Begin(p)), p.others[0])
    else Run(cfg, Next(cfg, World(cfg, s, p, n - 1), Call(p, n - 1)), p.others[n])
  }

  /** The state after the drain has ended. */
  ghost function After(cfg: Config, s: System, p: Plan): System
    requires |p.answers| < |p.others|
  {
    Next(cfg, World(cfg, s, p, |p.answers|), End(p))
  }

  ghost predicate CallEnabled(cfg: Config, s: System, p: Plan, n: nat)
    requires n < |p.answers| < |p.others|
  {
    Enabled(cfg, World(cfg, s, p, n), Call(p, n))
  }

  /** The drain's own steps are enabled when their turn comes. */
  ghost predicate Feasible(cfg: Config, s: System, p: Plan)
    requires |p.answers| < |p.others|
  {
    && Enabled(cfg, s, Begin(p))
    && forall n | 0 <= n < |p.answers| :: CallEnabled(cfg, s, p, n)
  }

  /** Uncommitted row values after publishing the first n claimed rows. */
  function Work(cfg: Config, rows: seq<Row>, ids: seq<nat>, answers: seq<Answer>, n: nat): map<nat, Row>
    requires n <= |answers| <= |ids| && forall k | 0 <= k < |ids| :: ids[k] < |rows|
  {
    if n == 0 then map[]
    else Work(cfg, rows, ids, answers, n - 1)[ids[n - 1] := RowAfter(cfg, rows[ids[n - 1]], answers[n - 1])]
  }

  lemma {:induction false} WorkHas(cfg: Config, rows: seq<Row>, ids: seq<nat>, answers: seq<Answer>, n: nat, k: nat)
    requires k < n <= |answers| <= |ids| && forall k | 0 <= k < |ids| :: ids[k] < |rows|
    ensures ids[k] in Work(cfg, rows, ids, answers, n)
  {
    if k < n - 1 {
      WorkHas(cfg, rows, ids, answers, n - 1, k);
    }
  }

  // ---------------------------------------------------------------- what a drain holds stays put

  /** State t still has the drain d of replica r, and the rows it holds as they were in s. */
  ghost predicate Keeps(s: System, t: System, r: nat, d: Drain) {
    && r in t.drains && t.drains[r] == d && |s.rows| <= |t.rows|
    && forall id | id in d.Held() && id < |s.rows| :: t.rows[id] == s.rows[id]
  }

  lemma OtherStepKeeps(cfg: Config, s: System, step: Step, r: nat)
    requires LocksOk(s.drains) && r in s.drains && Foreign(step, r)
    ensures Keeps(s, Next(cfg, s, step), r, s.drains[r])
  {
    if Enabled(cfg, s, step) && step.Commit? {
      assert s.drains[r].Held() !! s.drains[step.replica].Held();
    }
  }

  lemma {:induction false} OthersKeep(cfg: Config, s: System, steps: seq<Step>, r: nat)
    requires Inv(cfg, s) && r in s.drains && AllForeign(steps, r)
    ensures Keeps(s, Run(cfg, s, steps), r, s.drains[r])
    decreases |steps|
  {
    if steps != [] {
      OtherStepKeeps(cfg, s, steps[0], r);
      InvNext(cfg, s, steps[0]);
      OthersKeep(cfg, Next(cfg, s, steps[0]), steps[1..], r);
    }
  }

  predicate SameRow(s: System, t: System, id: nat) {
    id < |s.rows| <= |t.rows| && t.rows[id] == s.rows[id]
  }

  ghost predicate SameRows(s: System, t: System, ids: seq<nat>) {
    forall id {:trigger SameRow(s, t, id)} | id in ids :: SameRow(s, t, id)
  }

  predicate InTable(s: System, ids: seq<nat>) {
    forall k | 0 <= k < |ids| :: ids[k] < |s.rows|
  }

  /** Where the drain stands just before its n-th publish call: what it has left to publish, what it
      will write, and the rows it claimed exactly as it claimed them. */
  ghost predicate Amid(cfg: Config, s: System, p: Plan, n: nat, t: System)
    requires n <= |p.answers| <= |p.ids|
  {
    && InTable(s, p.ids) && SameRows(s, t, p.ids)
    && p.replica in t.drains
    && t.drains[p.replica] == Drain(p.ids[n..], Work(cfg, s.rows, p.ids, p.answers, n))
  }

  lemma AmidOthers(cfg: Config, s: System, p: Plan, n: nat, t: System, steps: seq<Step>)
    requires n <= |p.answers| <= |p.ids| && Amid(cfg, s, p, n, t) && Inv(cfg, t) && AllForeign(steps, p.replica)
    ensures Amid(cfg, s, p, n, Run(cfg, t, steps))
  {
    var d, t' := t.drains[p.replica], Run(cfg, t, steps);
    OthersKeep(cfg, t, steps, p.replica);
    forall id | id in p.ids
      ensures SameRow(s, t', id)
    {
      assert SameRow(s, t, id);
      HeldIsAll(cfg, s, p, n, id);
      assert id in d.Held();
    }
  }

  lemma HeldIsAll(cfg: Config, s: System, p: Plan, n: nat, id: nat)
    requires n <= |p.answers| <= |p.ids| && InTable(s, p.ids) && id in p.ids
    ensures id in p.ids[n..] || id in Work(cfg, s.rows, p.ids, p.answers, n)
  {
    var k :| 0 <= k < |p.ids| && p.ids[k] == id;
    if k < n {
      WorkHas(cfg, s.rows, p.ids, p.answers, n, k);
    } else {
      assert p.ids[n..][k - n] == p.ids[k];
    }
  }

  lemma ClaimedRows(cfg: Config, s: System, r: nat, ids: seq<nat>, at: real)
    requires Enabled(cfg, s, Claim(r, ids, at))
    ensures forall k | 0 <= k < |ids| :: ids[k] < |s.rows| && s.rows[ids[k]].status.Pending?
  {
    forall k | 0 <= k < |ids|
      ensures Claimable(s, ids[k], at)
    {
    }
  }

  lemma AmidClaim(cfg: Config, s: System, p: Plan)
    requires |p.answers| <= |p.ids| && Enabled(cfg, s, Begin(p))
    ensures Amid(cfg, s, p, 0, Next(cfg, s, Begin(p)))
  {
    ClaimedRows(cfg, s, p.replica, p.ids, p.at);
    assert p.ids[0..] == p.ids;
    forall id | id in p.ids
      ensures SameRow(s, Next(cfg, s, Begin(p)), id)
    {
    }
  }

  lemma AmidPublish(cfg: Config, s: System, p: Plan, n: nat, t: System)
    requires n < |p.answers| <= |p.ids| && Amid(cfg, s, p, n, t) && Enabled(cfg, t, Call(p, n))
    ensures Amid(cfg, s, p, n + 1, Next(cfg, t, Call(p, n)))
  {
    assert p.ids[n..][0] == p.ids[n] && p.ids[n..][1..] == p.ids[n + 1..];
    assert SameRow(s, t, p.ids[n]);
    forall id | id in p.ids
      ensures SameRow(s, Next(cfg, t, Call(p, n)), id)
    {
      assert SameRow(s, t, id);
    }
  }

  lemma {:induction false} InvWorld(cfg: Config, s: System, p: Plan, n: nat)
    requires Inv(cfg, s) && n <= |p.answers| < |p.others|
    ensures Inv(cfg, World(cfg, s, p, n))
  {
    if n == 0 {
      InvNext(cfg, s, Begin(p));
      InvRun(cfg, Next(cfg, s, Begin(p)), p.others[0]);
    } else {
      var before := World(cfg, s, p, n - 1);
      InvWorld(cfg, s, p, n - 1);
      InvNext(cfg, before, Call(p, n - 1));
      InvRun(cfg, Next(cfg, before, Call(p, n - 1)), p.others[n]);
    }
  }

  lemma HeldAtFirst(cfg: Config, s: System, p: Plan)
    requires Inv(cfg, s) && WellFormed(p) && Enabled(cfg, s, Begin(p))
    ensures Amid(cfg, s, p, 0, World(cfg, s, p, 0))
  {
    var claimed := Next(cfg, s, Begin(p));
    AmidClaim(cfg, s, p);
    InvNext(cfg, s, Begin(p));
    AmidOthers(cfg, s, p, 0, claimed, p.others[0]);
  }

  lemma InvCalled(cfg: Config, s: System, p: Plan, n: nat)
    requires Inv(cfg, s) && n < |p.answers| < |p.others|
    ensures Inv(cfg, Next(cfg, World(cfg, s, p, n), Call(p, n)))
  {
    InvWorld(cfg, s, p, n);
    InvNext(cfg, World(cfg, s, p, n), Call(p, n));
  }

  lemma HeldNext(cfg: Config, s: System, p: Plan, n: nat, called: System)
    requires WellFormed(p) && n < |p.answers| && called == Next(cfg, World(cfg, s, p, n), Call(p, n))
    requires Amid(cfg, s, p, n + 1, called) && Inv(cfg, called)
    ensures Amid(cfg, s, p, n + 1, World(cfg, s, p, n + 1))
  {
    AmidOthers(cfg, s, p, n + 1, called, p.others[n + 1]);
  }

  lemma HeldCall(cfg: Config, s: System, p: Plan, n: nat)
    requires Inv(cfg, s) && WellFormed(p) && n < |p.answers| && CallEnabled(cfg, s, p, n)
    requires Amid(cfg, s, p, n, World(cfg, s, p, n))
    ensures Amid(cfg, s, p, n + 1, World(cfg, s, p, n + 1))
  {
    var called := Next(cfg, World(cfg, s, p, n), Call(p, n));
    assert Amid(cfg, s, p, n + 1, called) by { AmidPublish(cfg, s, p, n, World(cfg, s, p, n)); }
    assert Inv(cfg, called) by { InvCalled(cfg, s, p, n); }
    HeldNext(cfg, s, p, n, called);
  }

  /** Whatever the other replicas do in between, a drain finds the rows it claimed unchanged at every
      one of its steps, and is about to write exactly what its own answers made of them. */
  lemma {:induction false} HeldThroughout(cfg: Config, s: System, p: Plan, n: nat)
    requires Inv(cfg, s) && WellFormed(p) && Feasible(cfg, s, p) && n <= |p.answers|
    ensures Amid(cfg, s, p, n, World(cfg, s, p, n))
  {
    if n == 0 {
      HeldAtFirst(cfg, s, p);
    } else {
      HeldThroughout(cfg, s, p, n - 1);
      assert CallEnabled(cfg, s, p, n - 1);
      HeldCall(cfg, s, p, n - 1);
    }
  }

  /** The drain stands before its n-th publish call, and may make it. */
  ghost predicate Ready(cfg: Config, s: System, p: Plan, n: nat)
    requires n < |p.answers| <= |p.ids| && |p.answers| < |p.others|
  {
    && CallEnabled(cfg, s, p, n) && Amid(cfg, s, p, n, World(cfg, s, p, n))
    && s.rows[p.ids[n]].status.Pending?
  }

  ghost predicate AllReady(cfg: Config, s: System, p: Plan)
    requires |p.answers| <= |p.ids| && |p.answers| < |p.others|
  {
    forall n | 0 <= n < |p.answers| :: Ready(cfg, s, p, n)
  }

  lemma FeasibleIsReady(cfg: Config, s: System, p: Plan)
    requires Inv(cfg, s) && WellFormed(p) && Feasible(cfg, s, p)
    ensures AllReady(cfg, s, p)
  {
    ClaimedRows(cfg, s, p.replica, p.ids, p.at);
    forall n | 0 <= n < |p.answers|
      ensures Ready(cfg, s, p, n)
    {
      assert CallEnabled(cfg, s, p, n);
      HeldThroughout(cfg, s, p, n);
    }
  }

  lemma AmidInTable(cfg: Config, s: System, p: Plan, n: nat, t: System)
    requires n <= |p.answers| <= |p.ids| && Amid(cfg, s, p, n, t)
    ensures InTable(t, p.ids)
  {
    forall k | 0 <= k < |p.ids|
      ensures p.ids[k] < |t.rows|
    {
      assert SameRow(s, t, p.ids[k]);
    }
  }

  lemma EndWrites(cfg: Config, s: System, p: Plan, t: System)
    requires WellFormed(p) && Amid(cfg, s, p, |p.answers|, t)
    ensures Enabled(cfg, t, End(p))
    ensures var t' := Next(cfg, t, End(p));
            && t'.rows == (if p.commits then Overlay(t.rows, Work(cfg, s.rows, p.ids, p.answers, |p.answers|))
                else t.rows)
            && t'.drains == t.drains - {p.replica} && t'.log == t.log
  {
  }

  /** What a drain does to the table: if it commits, the rows it claimed become what its answers made
      of them, and every other row is as the others left it; if it dies, nothing. */
  lemma DrainWrites(cfg: Config, s: System, p: Plan)
    requires Inv(cfg, s) && WellFormed(p) && Feasible(cfg, s, p)
    ensures forall k | 0 <= k < |p.ids| :: p.ids[k] < |s.rows|
    ensures var t, t' := World(cfg, s, p, |p.answers|), After(cfg, s, p);
            && t'.rows == (if p.commits then Overlay(t.rows, Work(cfg, s.rows, p.ids, p.answers, |p.answers|))
                else t.rows)
            && t'.drains == t.drains - {p.replica} && t'.log == t.log
  {
    HeldThroughout(cfg, s, p, |p.answers|);
    EndWrites(cfg, s, p, World(cfg, s, p, |p.answers|));
  }

  // ---------------------------------------------------------------- a drain is a run

  /** The steps up to the n-th publish call, everybody else's included. */
  function Upto(p: Plan, n: nat): seq<Step>
    requires n <= |p.answers| < |p.others|
  {
    if n == 0 then [Begin(p)] + p.others[0] else Upto(p, n - 1) + ([Call(p, n - 1)] + p.others[n])
  }

  function Trace(p: Plan): seq<Step>
    requires |p.answers| < |p.others|
  {
    Upto(p, |p.answers|) + [End(p)]
  }

  lemma OneThen(cfg: Config, s: System, step: Step, rest: seq<Step>)
    ensures Run(cfg, s, [step] + rest) == Run(cfg, Next(cfg, s, step), rest)
  {
    assert ([step] + rest)[0] == step && ([step] + rest)[1..] == rest;
  }

  lemma {:induction false} WorldIsRun(cfg: Config, s: System, p: Plan, n: nat)
    requires n <= |p.answers| < |p.others|
    ensures World(cfg, s, p, n) == Run(cfg, s, Upto(p, n))
  {
    if n == 0 {
      OneThen(cfg, s, Begin(p), p.others[0]);
    } else {
      WorldIsRun(cfg, s, p, n - 1);
      RunAppend(cfg, s, Upto(p, n - 1), [Call(p, n - 1)] + p.others[n]);
      OneThen(cfg, World(cfg, s, p, n - 1), Call(p, n - 1), p.others[n]);
    }
  }

  /** The drain and everything that happens meanwhile are a run of the outbox. */
  lemma AfterIsRun(cfg: Config, s: System, p: Plan)
    requires |p.answers| < |p.others|
    ensures After(cfg, s, p) == Run(cfg, s, Trace(p))
  {
    WorldIsRun(cfg, s, p, |p.answers|);
    RunAppend(cfg, s, Upto(p, |p.answers|), [End(p)]);
    OneThen(cfg, World(cfg, s, p, |p.answers|), End(p), []);
    assert [End(p)] + [] == [End(p)];
  }

  // ---------------------------------------------------------------- an undisturbed drain

  predicate Undisturbed(p: Plan) {
    forall i | 0 <= i < |p.others| :: p.others[i] == []
  }

  /** When the n-th publish call may be made: after the answer to the one before. */
  function Earliest(p: Plan, n: nat): real
    requires n <= |p.answers|
  {
    if n == 0 then p.at else p.answers[n - 1].at
  }

  /** The broker's answers arrive in the order the calls were made. */
  predicate InOrder(p: Plan) {
    forall n | 0 <= n < |p.answers| :: AnswerOk(p, n)
  }

  predicate AnswerOk(p: Plan, n: nat)
    requires n < |p.answers|
  {
    Earliest(p, n) <= p.answers[n].at <= p.answers[n].recordedAt && 0.0 <= p.answers[n].draw <= 1.0
  }

  lemma {:induction false} UndisturbedWorld(cfg: Config, s: System, p: Plan, n: nat)
    requires WellFormed(p) && Undisturbed(p) && n <= |p.answers| && p.replica !in s.drains
    ensures var t := World(cfg, s, p, n); t.rows == s.rows && t.drains - {p.replica} == s.drains
  {
    if n > 0 {
      UndisturbedWorld(cfg, s, p, n - 1);
    }
  }

  lemma UndisturbedCall(cfg: Config, s: System, p: Plan, n: nat, t: System)
    requires WellFormed(p) && n < |p.answers| && Amid(cfg, s, p, n, t) && InOrder(p)
    requires t.now == Earliest(p, n)
    ensures Enabled(cfg, t, Call(p, n)) && Next(cfg, t, Call(p, n)).now == p.answers[n].at
  {
    assert AnswerOk(p, n);
    assert t.drains[p.replica].todo[0] == p.ids[n];
    assert SameRow(s, t, p.ids[n]);
  }

  ghost predicate OnTime(cfg: Config, s: System, p: Plan, n: nat)
    requires n <= |p.answers| < |p.others|
  {
    World(cfg, s, p, n).now == Earliest(p, n)
  }

  lemma UndisturbedStep(cfg: Config, s: System, p: Plan, n: nat)
    requires WellFormed(p) && Undisturbed(p) && n < |p.answers| && InOrder(p)
    requires Amid(cfg, s, p, n, World(cfg, s, p, n)) && OnTime(cfg, s, p, n)
    ensures CallEnabled(cfg, s, p, n) && OnTime(cfg, s, p, n + 1)
  {
    var t := World(cfg, s, p, n);
    UndisturbedCall(cfg, s, p, n, t);
    assert p.others[n + 1] == [];
    assert World(cfg, s, p, n + 1) == Run(cfg, Next(cfg, t, Call(p, n)), []) == Next(cfg, t, Call(p, n));
  }

  lemma UndisturbedBegin(cfg: Config, s: System, p: Plan)
    requires WellFormed(p) && Undisturbed(p) && Enabled(cfg, s, Begin(p))
    ensures OnTime(cfg, s, p, 0)
  {
    assert p.others[0] == [];
    assert World(cfg, s, p, 0) == Run(cfg, Next(cfg, s, Begin(p)), []) == Next(cfg, s, Begin(p));
  }

  lemma UndisturbedNext(cfg: Config, s: System, p: Plan, n: nat)
    requires Inv(cfg, s) && WellFormed(p) && Undisturbed(p) && n < |p.answers| && InOrder(p)
    requires Amid(cfg, s, p, n, World(cfg, s, p, n)) && OnTime(cfg, s, p, n)
    ensures Amid(cfg, s, p, n + 1, World(cfg, s, p, n + 1)) && OnTime(cfg, s, p, n + 1)
  {
    assert CallEnabled(cfg, s, p, n) && OnTime(cfg, s, p, n + 1) by { UndisturbedStep(cfg, s, p, n); }
    HeldCall(cfg, s, p, n);
  }

  lemma {:induction false} UndisturbedUpto(cfg: Config, s: System, p: Plan, n: nat)
    requires Inv(cfg, s) && WellFormed(p) && Undisturbed(p) && n <= |p.answers|
    requires Enabled(cfg, s, Begin(p)) && InOrder(p)
    ensures Amid(cfg, s, p, n, World(cfg, s, p, n)) && OnTime(cfg, s, p, n)
  {
    if n == 0 {
      HeldAtFirst(cfg, s, p);
      UndisturbedBegin(cfg, s, p);
    } else {
      UndisturbedUpto(cfg, s, p, n - 1);
      UndisturbedNext(cfg, s, p, n - 1);
    }
  }

  /** Left alone, a replica can carry its drain through: every step is enabled in turn. */
  lemma UndisturbedIsFeasible(cfg: Config, s: System, p: Plan)
    requires Inv(cfg, s) && WellFormed(p) && Undisturbed(p)
    requires Enabled(cfg, s, Begin(p)) && InOrder(p)
    ensures Feasible(cfg, s, p)
  {
    forall n | 0 <= n < |p.answers|
      ensures CallEnabled(cfg, s, p, n)
    {
      UndisturbedUpto(cfg, s, p, n);
      UndisturbedStep(cfg, s, p, n);
    }
  }
}
