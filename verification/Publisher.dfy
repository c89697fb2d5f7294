/** One replica's drain, with the session's mutable rows. Each method is proved to take exactly
    the steps of the outbox state machine. */
module Publisher {
  import opened Timing
  import opened Events
  import opened Drains
  import opened Outbox
  import opened OutboxSafety

  /** An outbox row loaded into the session. */
  class OutboxRow {
    const id: nat
    const event: Event
    const createdAt: real
    const maxAttempts: int
    var status: Status
    var attempts: int
    var nextAttemptAt: real

    function Value(): Row
      reads this
    {
      Row(event, createdAt, status, attempts, maxAttempts, nextAttemptAt)
    }

    constructor (id: nat, row: Row)
      ensures this.id == id && Value() == row
    {
      this.id := id;
      event, createdAt, maxAttempts := row.event, row.createdAt, row.maxAttempts;
      status, attempts, nextAttemptAt := row.status, row.attempts, row.nextAttemptAt;
    }
  }

  // The counters of one drain.
  datatype Tally = Tally(claimed: nat, published: nat, failed: nat, deadLettered: nat, subjects: seq<Event>)

  class DrainResult {
    var claimed: nat
    var published: nat
    var failed: nat
    var deadLettered: nat
    var subjects: seq<Event>

    function Value(): Tally
      reads this
    {
      Tally(claimed, published, failed, deadLettered, subjects)
    }

    constructor ()
      ensures Value() == Tally(0, 0, 0, 0, [])
    {
      claimed, published, failed, deadLettered, subjects := 0, 0, 0, 0, [];
    }
  }

  /** The stream with its duplicate window. */
  class Stream {
    const window: real
    var now: real
    var log: seq<Message>
    var tries: seq<Try>

    constructor (window: real)
      ensures this.window == window && now == 0.0 && log == [] && tries == []
    {
      this.window := window;
      now, log, tries := 0.0, [], [];
    }

    /** One publish call. The caller sees a failure unless the acknowledgement reached it. */
    method Publish(id: nat, event: Event, answer: Answer) returns (acked: bool)
      modifies this
      ensures acked == answer.outcome.Acked?
      ensures now == answer.at
      ensures log == Stored(old(log), Message(id, answer.at, event), answer.outcome, window)
      ensures tries == old(tries) + [Try(id, answer.at)]
    {
      now := answer.at;
      log := Stored(log, Message(id, answer.at, event), answer.outcome, window);
      tries := tries + [Try(id, answer.at)];
      acked := answer.outcome.Acked?;
    }
  }

  /** The committed table, and the transactions that hold row locks in it. */
  class Database {
    var rows: seq<Row>
    var drains: map<nat, Drain>

    constructor ()
      ensures rows == [] && drains == map[]
    {
      rows, drains := [], map[];
    }
  }

  /** The tally after one more row, given its new value. */
  function Counted(t: Tally, row: Row, acked: bool): Tally {
    if acked then t.(published := t.published + 1, subjects := t.subjects + [row.event])
    else t.(failed := t.failed + 1, deadLettered := t.deadLettered + if row.status.Dead? then 1 else 0)
  }

  /** The tally after the first n of the claimed rows. */
  function Tallied(cfg: Config, rows: seq<Row>, ids: seq<nat>, answers: seq<Answer>, n: nat): Tally
    requires n <= |answers| <= |ids| && forall k | 0 <= k < |ids| :: ids[k] < |rows|
  {
    if n == 0 then Tally(|ids|, 0, 0, 0, [])
    else Counted(Tallied(cfg, rows, ids, answers, n - 1),
                 RowAfter(cfg, rows[ids[n - 1]], answers[n - 1]), answers[n - 1].outcome.Acked?)
  }

  /** Every row tried is either published or failed, and only failures are dead-lettered. */
  lemma {:induction false} TallyAddsUp(cfg: Config, rows: seq<Row>, ids: seq<nat>, answers: seq<Answer>, n: nat)
    requires n <= |answers| <= |ids| && forall k | 0 <= k < |ids| :: ids[k] < |rows|
    ensures var t := Tallied(cfg, rows, ids, answers, n);
            && t.claimed == |ids| && t.published + t.failed == n
            && t.published == |t.subjects| && t.deadLettered <= t.failed
  {
    if n > 0 {
      TallyAddsUp(cfg, rows, ids, answers, n - 1);
    }
  }

  /** The table once the first n row values are written back, one after the other. */
  function WrittenBack(rows: seq<Row>, ids: seq<nat>, values: seq<Row>, n: nat): (r: seq<Row>)
    requires n <= |values| == |ids| && forall k | 0 <= k < |ids| :: ids[k] < |rows|
    ensures |r| == |rows|
  {
    if n == 0 then rows else WrittenBack(rows, ids, values, n - 1)[ids[n - 1] := values[n - 1]]
  }

  /** Writing the session back lays the transaction's work over the table. */
  lemma {:induction false} WritingBackOverlays(cfg: Config, s: System, p: Plan, t: System, values: seq<Row>, n: nat)
    requires |p.answers| == |p.ids| == |values| && n <= |p.ids| && InTable(s, p.ids) && InTable(t, p.ids)
    requires forall k | 0 <= k < |p.ids| :: values[k] == RowAfter(cfg, s.rows[p.ids[k]], p.answers[k])
    ensures WrittenBack(t.rows, p.ids, values, n) == Overlay(t.rows, Work(cfg, s.rows, p.ids, p.answers, n))
  {
    if n > 0 {
      WritingBackOverlays(cfg, s, p, t, values, n - 1);
    }
  }

  /** The states the drain finds before each publish call, and before its end. */
  ghost predicate Scheduled(worlds: seq<System>, cfg: Config, s: System, p: Plan)
    requires |p.answers| < |p.others|
  {
    |worlds| == |p.answers| + 1 && forall n | 0 <= n < |worlds| :: worlds[n] == World(cfg, s, p, n)
  }

  class OutboxPublisher {
    const cfg: Config
    const replica: nat
    const db: Database
    const stream: Stream

    constructor (cfg: Config, replica: nat, db: Database, stream: Stream)
      ensures this.cfg == cfg && this.replica == replica && this.db == db && this.stream == stream
    {
      this.cfg, this.replica, this.db, this.stream := cfg, replica, db, stream;
    }

    ghost function Snapshot(): System
      reads db, stream
    {
      System(stream.now, db.rows, db.drains, stream.log, stream.tries)
    }

    method RecordFailure(row: OutboxRow, answer: Answer, result: DrainResult)
      requires row.status.Pending?
      modifies row, result
      ensures row.Value() == FailedRow(cfg, old(row.Value()), answer.recordedAt, answer.draw)
      ensures row.attempts == old(row.attempts) + 1
      ensures row.status.Dead? <==> row.attempts >= cfg.policy.maxAttempts || row.attempts >= row.maxAttempts
      ensures result.Value() == Counted(old(result.Value()), row.Value(), false)
    {
      row.attempts := row.attempts + 1;
      result.failed := result.failed + 1;
      var limit := if cfg.policy.maxAttempts <= row.maxAttempts then cfg.policy.maxAttempts else row.maxAttempts;
      if row.attempts >= limit {
        row.status := Dead;
        result.deadLettered := result.deadLettered + 1;
        return;
      }
      var delay := ComputeBackoff(cfg.policy, row.attempts, answer.draw);
      row.nextAttemptAt := answer.recordedAt + delay;
    }

    method PublishRow(row: OutboxRow, answer: Answer, result: DrainResult)
      requires row.status.Pending?
      modifies row, result, stream
      ensures row.Value() == RowAfter(cfg, old(row.Value()), answer)
      ensures stream.now == answer.at
      ensures stream.log == Stored(old(stream.log), Message(row.id, answer.at, row.event), answer.outcome,
            stream.window)
      ensures stream.tries == old(stream.tries) + [Try(row.id, answer.at)]
      ensures result.Value() == Counted(old(result.Value()), row.Value(), answer.outcome.Acked?)
    {
      var acked := stream.Publish(row.id, row.event, answer);
      if !acked {
        RecordFailure(row, answer, result);
        return;
      }
      row.status := Published;
      result.published := result.published + 1;
      result.subjects := result.subjects + [row.event];
    }

    method Load(ids: seq<nat>) returns (session: seq<OutboxRow>)
      requires forall k | 0 <= k < |ids| :: ids[k] < |db.rows|
      ensures |session| == |ids|
      ensures forall j | 0 <= j < |ids| ::
              fresh(session[j]) && session[j].id == ids[j] && session[j].Value() == db.rows[ids[j]]
      ensures forall j, k | 0 <= j < k < |ids| :: session[j] != session[k]
    {
      session := [];
      for i := 0 to |ids|
        invariant |session| == i
        invariant forall j | 0 <= j < i ::
              fresh(session[j]) && session[j].id == ids[j] && session[j].Value() == db.rows[ids[j]]
        invariant forall j, k | 0 <= j < k < i :: session[j] != session[k]
      {
        var row := new OutboxRow(ids[i], db.rows[ids[i]]);
        session := session + [row];
      }
    }

    /** What everybody else does at this point; `after` is the state it leaves. */
    method Meanwhile(after: System, ghost steps: seq<Step>)
      requires after == Run(cfg, Snapshot(), steps)
      modifies db, stream
      ensures Snapshot() == after
    {
      stream.now, stream.log, stream.tries := after.now, after.log, after.tries;
      db.rows, db.drains := after.rows, after.drains;
    }

    /** The claim query: lock the rows and load them. */
    method Claim(ids: seq<nat>, at: real) returns (session: seq<OutboxRow>)
      requires Enabled(cfg, Snapshot(), Step.Claim(replica, ids, at))
      modifies db, stream
      ensures Snapshot() == Next(cfg, old(Snapshot()), Step.Claim(replica, ids, at))
      ensures |session| == |ids| && forall k | 0 <= k < |ids| :: ids[k] < |db.rows|
      ensures forall j | 0 <= j < |ids| ::
              fresh(session[j]) && session[j].id == ids[j] && session[j].Value() == db.rows[ids[j]]
      ensures forall j, k | 0 <= j < k < |ids| :: session[j] != session[k]
    {
      ClaimedRows(cfg, Snapshot(), replica, ids, at);
      stream.now := at;
      db.drains := db.drains[replica := Drain(ids, map[])];
      session := Load(ids);
    }

    /** Publish a claimed row, inside the open transaction. */
    method PublishClaimed(row: OutboxRow, answer: Answer, result: DrainResult)
      requires cfg.window == stream.window && Enabled(cfg, Snapshot(), Step.Publish(replica, answer))
      requires row.id == db.drains[replica].todo[0] && row.Value() == db.rows[row.id] && row.status.Pending?
      modifies row, result, db`drains, stream
      ensures Snapshot() == Next(cfg, old(Snapshot()), Step.Publish(replica, answer))
      ensures row.Value() == RowAfter(cfg, old(row.Value()), answer)
      ensures result.Value() == Counted(old(result.Value()), row.Value(), answer.outcome.Acked?)
    {
      var open := db.drains[replica];
      assert row.event == row.Value().event;
      PublishRow(row, answer, result);
      db.drains := db.drains[replica := Drain(open.todo[1..], open.work[row.id := row.Value()])];
    }

    /** Write the session's rows back. */
    method Flush(session: seq<OutboxRow>, ids: seq<nat>, ghost values: seq<Row>)
      requires |session| == |ids| == |values| && forall k | 0 <= k < |ids| :: ids[k] < |db.rows|
      requires forall j | 0 <= j < |ids| :: session[j].id == ids[j] && session[j].Value() == values[j]
      modifies db`rows
      ensures db.rows == WrittenBack(old(db.rows), ids, values, |ids|)
    {
      for i := 0 to |ids|
        invariant db.rows == WrittenBack(old(db.rows), ids, values, i)
      {
        db.rows := db.rows[session[i].id := session[i].Value()];
      }
    }

    /** Commit, or die without committing. */
    method Finish(session: seq<OutboxRow>, ids: seq<nat>, commits: bool, ghost s: System, ghost p: Plan)
      requires p.replica == replica && p.ids == ids && p.commits == commits && WellFormed(p)
      requires Amid(cfg, s, p, |p.answers|, Snapshot())
      requires |session| == |ids| && forall j | 0 <= j < |ids| :: session[j].id == ids[j]
      requires forall j | 0 <= j < |p.answers| :: session[j].Value() == RowAfter(cfg, s.rows[ids[j]], p.answers[j])
      modifies db
      ensures Snapshot() == Next(cfg, old(Snapshot()), End(p))
    {
      ghost var t := Snapshot();
      EndWrites(cfg, s, p, t);
      AmidInTable(cfg, s, p, |p.answers|, t);
      if commits {
        ghost var values := seq(|ids|, j requires 0 <= j < |ids| => RowAfter(cfg, s.rows[ids[j]], p.answers[j]));
        WritingBackOverlays(cfg, s, p, t, values, |ids|);
        Flush(session, ids, values);
      }
      db.drains := db.drains - {replica};
    }

    ghost function DrainPlan(ids: seq<nat>, claimedAt: real, answers: seq<Answer>, others: seq<seq<Step>>,
            commits: bool): Plan {
      Plan(replica, ids, claimedAt, answers, others, commits)
    }

    /** The i-th publish call of the drain, amid everybody else. */
    method PublishAmid(session: seq<OutboxRow>, i: nat, answer: Answer, result: DrainResult, ghost s: System,
            ghost p: Plan)
      requires cfg.window == stream.window && p.replica == replica && WellFormed(p)
      requires i < |p.answers| && answer == p.answers[i] && Ready(cfg, s, p, i)
      requires Snapshot() == World(cfg, s, p, i)
      requires |session| == |p.ids| && InTable(s, p.ids) && session[i].id == p.ids[i]
      requires session[i].Value() == s.rows[p.ids[i]]
      modifies session[i], result, db`drains, stream
      ensures Snapshot() == Next(cfg, old(Snapshot()), Call(p, i))
      ensures session[i].Value() == RowAfter(cfg, s.rows[p.ids[i]], answer)
      ensures result.Value() == Counted(old(result.Value()), session[i].Value(), answer.outcome.Acked?)
    {
      assert SameRow(s, Snapshot(), p.ids[i]);
      assert session[i].status == session[i].Value().status;
      PublishClaimed(session[i], answer, result);
    }

    ghost predicate NoneTwice(session: seq<OutboxRow>) {
      forall j, k | 0 <= j < k < |session| :: session[j] != session[k]
    }

    ghost predicate Loaded(session: seq<OutboxRow>, s: System, p: Plan, n: nat)
      requires n <= |p.answers| <= |p.ids|
      reads session
    {
      && |session| == |p.ids| && InTable(s, p.ids)
      && (forall j | 0 <= j < |p.ids| :: session[j].id == p.ids[j])
      && (forall j | 0 <= j < n :: session[j].Value() == RowAfter(cfg, s.rows[p.ids[j]], p.answers[j]))
      && (forall j | n <= j < |p.ids| :: session[j].Value() == s.rows[p.ids[j]])
    }

    /** Publish the i-th row of the session. */
    method PublishLoaded(session: seq<OutboxRow>, i: nat, answer: Answer, result: DrainResult, ghost s: System,
            ghost p: Plan)
      requires cfg.window == stream.window && p.replica == replica && WellFormed(p)
      requires i < |p.answers| && answer == p.answers[i] && Ready(cfg, s, p, i) && Snapshot() == World(cfg, s, p, i)
      requires Loaded(session, s, p, i) && NoneTwice(session)
      modifies session, result, db, stream
      ensures Snapshot() == Next(cfg, old(Snapshot()), Call(p, i)) && Loaded(session, s, p, i + 1)
      ensures result.Value()
            == Counted(old(result.Value()), RowAfter(cfg, s.rows[p.ids[i]], answer), answer.outcome.Acked?)
    {
      PublishAmid(session, i, answer, result, s, p);
      forall j | 0 <= j < |p.ids|
        ensures session[j].Value() == if j <= i then RowAfter(cfg, s.rows[p.ids[j]], p.answers[j]) else s.rows[p.ids[j]]
      {
        if j != i {
          assert session[j] != session[i] by {
            assert j < i ==> session[j] != session[i];
            assert i < j ==> session[i] != session[j];
          }
        }
      }
    }

    /** Publish the i-th row, and let everybody else move. */
    method PublishNext(session: seq<OutboxRow>, i: nat, answer: Answer, worlds: seq<System>, result: DrainResult,
                       ghost s: System, ghost p: Plan)
      requires cfg.window == stream.window && p.replica == replica && WellFormed(p)
      requires i < |p.answers| && answer == p.answers[i] && Ready(cfg, s, p, i)
      requires Scheduled(worlds, cfg, s, p) && Snapshot() == worlds[i]
      requires Loaded(session, s, p, i) && NoneTwice(session)
      modifies session, result, db, stream
      ensures Snapshot() == worlds[i + 1] && Loaded(session, s, p, i + 1)
      ensures result.Value()
            == Counted(old(result.Value()), RowAfter(cfg, s.rows[p.ids[i]], answer), answer.outcome.Acked?)
    {
      PublishLoaded(session, i, answer, result, s, p);
      Meanwhile(worlds[i + 1], p.others[i + 1]);
    }

    /** Publish the claimed rows in turn. */
    method PublishBatch(session: seq<OutboxRow>, answers: seq<Answer>, worlds: seq<System>, result: DrainResult,
                        ghost s: System, ghost p: Plan)
      requires cfg.window == stream.window && p.replica == replica && p.answers == answers && WellFormed(p)
      requires AllReady(cfg, s, p) && Scheduled(worlds, cfg, s, p) && Snapshot() == worlds[0]
      requires Loaded(session, s, p, 0)
      requires NoneTwice(session) && result.Value() == Tally(|p.ids|, 0, 0, 0, [])
      modifies session, result, db, stream
      ensures Snapshot() == worlds[|answers|] && Loaded(session, s, p, |answers|)
      ensures result.Value() == Tallied(cfg, s.rows, p.ids, answers, |answers|)
    {
      for i := 0 to |answers|
        invariant Snapshot() == worlds[i] && Loaded(session, s, p, i)
        invariant result.Value() == Tallied(cfg, s.rows, p.ids, answers, i)
      {
        assert Ready(cfg, s, p, i);
        PublishNext(session, i, answers[i], worlds, result, s, p);
      }
    }

    /** Claim a batch, publish it row by row inside the open transaction, and commit; or die after
        `|answers|` rows, or before the commit, leaving only what the broker stored. `ids` is what the
        claim query returned at `claimedAt`. Between any two of these steps everybody else takes the
        steps `others[i]`, which leave the state `worlds[i]`. */
    method DrainOnce(ids: seq<nat>, claimedAt: real, answers: seq<Answer>, commits: bool,
                     worlds: seq<System>, ghost others: seq<seq<Step>>)
      returns (result: DrainResult)
      requires cfg.window == stream.window && Inv(cfg, Snapshot())
      requires var p := DrainPlan(ids, claimedAt, answers, others, commits);
               WellFormed(p) && Feasible(cfg, Snapshot(), p) && Scheduled(worlds, cfg, Snapshot(), p)
      modifies db, stream
      ensures var p := DrainPlan(ids, claimedAt, answers, others, commits);
              Snapshot() == After(cfg, old(Snapshot()), p) == Run(cfg, old(Snapshot()), Trace(p))
      ensures InTable(old(Snapshot()), ids)
      ensures result.Value() == Tallied(cfg, old(Snapshot()).rows, ids, answers, |answers|)
      ensures result.claimed == |ids| && result.published + result.failed == |answers|
            && result.deadLettered <= result.failed
    {
      ghost var s, p := Snapshot(), DrainPlan(ids, claimedAt, answers, others, commits);
      result := new DrainResult();
      var session := Claim(ids, claimedAt);
      result.claimed := |ids|;
      Meanwhile(worlds[0], others[0]);
      ClaimedRows(cfg, s, replica, ids, claimedAt);
      FeasibleIsReady(cfg, s, p);
      PublishBatch(session, answers, worlds, result, s, p);
      HeldThroughout(cfg, s, p, |answers|);
      Finish(session, ids, commits, s, p);
      AfterIsRun(cfg, s, p);
      TallyAddsUp(cfg, s.rows, ids, answers, |answers|);
    }
  }
}
