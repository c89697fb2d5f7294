/** The transactional outbox as a state machine: any number of publisher replicas claim due
    rows under row locks, publish inside the open transaction, and commit or die.
    The broker keeps what it stored whatever happens to the transaction. */
module Outbox {
  import opened Timing
  import opened Events

  datatype Status = Pending | Published | Dead

  datatype Row = Row(event: Event, createdAt: real, status: Status, attempts: int,
                     maxAttempts: int, nextAttemptAt: real)

  // A row's id is its position in the table, so ids are unique and never reused.
  datatype Message = Message(id: nat, at: real, event: Event)

  // One publish call, kept whether or not its transaction survives.
  datatype Try = Try(id: nat, at: real)

  // An open transaction: claimed rows still to publish, and uncommitted new row values.
  datatype Drain = Drain(todo: seq<nat>, work: map<nat, Row>) {
    function Held(): set<nat> { (set id | id in todo) + work.Keys }
  }

  datatype Config = Config(policy: RetryPolicy, delays: Delays, window: real, batch: nat)

  datatype System = System(now: real, rows: seq<Row>, drains: map<nat, Drain>,
                           log: seq<Message>, tries: seq<Try>)

  datatype Outcome = Acked | Failed | StoredAckLost

  // What one publish call did, when it reached the broker, when its outcome was recorded,
  // and the jitter drawn if it failed.
  datatype Answer = Answer(outcome: Outcome, at: real, recordedAt: real, draw: real)

  datatype Step =
    | Enqueue(event: Event, maxAttempts: int, at: real)
    | Claim(replica: nat, ids: seq<nat>, at: real)
    | Publish(replica: nat, answer: Answer)
    | Commit(replica: nat)
    | Crash(replica: nat)

  const INITIAL := System(0.0, [], map[], [], [])

  // ---------------------------------------------------------------- one row

  function Limit(cfg: Config, row: Row): int {
    if cfg.policy.maxAttempts <= row.maxAttempts then cfg.policy.maxAttempts else row.maxAttempts
  }

  function FailedRow(cfg: Config, row: Row, recordedAt: real, draw: real): Row {
    var attempts := row.attempts + 1;
    if attempts >= Limit(cfg, row) then row.(attempts := attempts, status := Dead)
    else row.(attempts := attempts,
              nextAttemptAt := recordedAt + ComputeBackoff(cfg.policy, attempts, draw))
  }

  function RowAfter(cfg: Config, row: Row, answer: Answer): Row {
    if answer.outcome.Acked? then row.(status := Published)
    else FailedRow(cfg, row, answer.recordedAt, answer.draw)
  }

  // ---------------------------------------------------------------- the broker

  /** A repeated id is dropped while an earlier copy is inside the duplicate window. */
  predicate Remembered(log: seq<Message>, id: nat, at: real, window: real) {
    exists m | m in log :: m.id == id && at - m.at <= window
  }

  function Stored(log: seq<Message>, msg: Message, outcome: Outcome, window: real): seq<Message> {
    if outcome.Failed? || Remembered(log, msg.id, msg.at, window) then log else log + [msg]
  }

  // ---------------------------------------------------------------- steps

  predicate Locked(drains: map<nat, Drain>, id: nat) {
    exists r | r in drains :: id in drains[r].Held()
  }

  predicate Claimable(s: System, id: nat, at: real) {
    id < |s.rows| && s.rows[id].status.Pending? && s.rows[id].nextAttemptAt <= at && !Locked(s.drains, id)
  }

  predicate Distinct(ids: seq<nat>) {
    forall i, j | 0 <= i < j < |ids| :: ids[i] != ids[j]
  }

  /** The claim query: due, pending, unlocked rows, oldest first, at most a batch. */
  ghost predicate IsClaim(cfg: Config, s: System, ids: seq<nat>, at: real) {
    && Distinct(ids) && |ids| <= cfg.batch
    && (forall i | 0 <= i < |ids| :: Claimable(s, ids[i], at))
    && (forall i, j | 0 <= i < j < |ids| :: s.rows[ids[i]].createdAt <= s.rows[ids[j]].createdAt)
    && (forall id: nat | Claimable(s, id, at) && id !in ids ::
          |ids| == cfg.batch && forall i | 0 <= i < |ids| :: s.rows[ids[i]].createdAt <= s.rows[id].createdAt)
  }

  ghost predicate Enabled(cfg: Config, s: System, step: Step) {
    match step
    case Enqueue(_, _, at) => s.now <= at
    case Claim(r, ids, at) => s.now <= at && r !in s.drains && IsClaim(cfg, s, ids, at)
    case Publish(r, answer) =>
      && r in s.drains && s.drains[r].todo != [] && s.drains[r].todo[0] < |s.rows|
      && s.now <= answer.at <= answer.recordedAt && 0.0 <= answer.draw <= 1.0
    case Commit(r) => r in s.drains && s.drains[r].todo == []
    case Crash(r) => r in s.drains
  }

  function Overlay(rows: seq<Row>, work: map<nat, Row>): (merged: seq<Row>)
    ensures |merged| == |rows|
  {
    seq(|rows|, i requires 0 <= i < |rows| => if i in work then work[i] else rows[i])
  }

  ghost function Next(cfg: Config, s: System, step: Step): System {
    if !Enabled(cfg, s, step) then s else
    match step
    case Enqueue(event, maxAttempts, at) =>
      s.(now := at, rows := s.rows + [Row(event, at, Pending, 0, maxAttempts, at)])
    case Claim(r, ids, at) => s.(now := at, drains := s.drains[r := Drain(ids, map[])])
    case Publish(r, answer) =>
      var d := s.drains[r];
      var id := d.todo[0];
      System(answer.at, s.rows,
             s.drains[r := Drain(d.todo[1..], d.work[id := RowAfter(cfg, s.rows[id], answer)])],
             Stored(s.log, Message(id, answer.at, s.rows[id].event), answer.outcome, cfg.window),
             s.tries + [Try(id, answer.at)])
    case Commit(r) => s.(rows := Overlay(s.rows, s.drains[r].work), drains := s.drains - {r})
    case Crash(r) => s.(drains := s.drains - {r})
  }

  /** A run is a sequence of steps; a step that is not enabled does nothing. */
  ghost function Run(cfg: Config, s: System, steps: seq<Step>): System
    decreases |steps|
  {
    if steps == [] then s else Run(cfg, Next(cfg, s, steps[0]), steps[1..])
  }

  /** Every step of the run is enabled when its turn comes. */
  ghost predicate Legal(cfg: Config, s: System, steps: seq<Step>)
    decreases |steps|
  {
    steps == [] || (Enabled(cfg, s, steps[0]) && Legal(cfg, Next(cfg, s, steps[0]), steps[1..]))
  }

  lemma {:induction false} RunAppend(cfg: Config, s: System, a: seq<Step>, b: seq<Step>)
    ensures Run(cfg, s, a + b) == Run(cfg, Run(cfg, s, a), b)
    ensures Legal(cfg, s, a + b) <==> Legal(cfg, s, a) && Legal(cfg, Run(cfg, s, a), b)
    decreases |a|
  {
    if a == [] {
      assert a + b == b;
    } else {
      assert (a + b)[0] == a[0] && (a + b)[1..] == a[1..] + b;
      RunAppend(cfg, Next(cfg, s, a[0]), a[1..], b);
    }
  }
}
