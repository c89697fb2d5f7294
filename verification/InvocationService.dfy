/** One request's own code: `accept`, `execute` and `_finalise`, mutating the session's row and the
    committed tables, while other requests and connector changes are committed in between. Each method
    is proved to take exactly the steps of the invocation runtime. */
module InvocationService {
  import opened Options
  import opened Invocations
  import opened InvocationHistory

  // What is committed: rows, lifecycle events, and the adapter calls made so far.
  datatype Committed = Committed(table: map<Key, Record>, events: map<Key, seq<LifecycleEvent>>, calls: seq<Key>)

  function CommittedOf(w: Runtime): Committed { Committed(w.table, w.events, w.calls) }

  // Where the process stops.
  datatype Death = BeforeStart | BeforeInvoke | BeforeFinish | Survives

  // ---------------------------------------------------------------- an execution amid others

  // The states an execution passes, when others take the steps `others[i]` before its i-th commit or call.
  ghost function Starting(kinds: set<string>, w: Runtime, others: seq<seq<Step>>): Runtime
    requires |others| == 3
  {
    Run(kinds, w, others[0])
  }

  ghost function Invoking(kinds: set<string>, w: Runtime, r: nat, others: seq<seq<Step>>): Runtime
    requires |others| == 3
  {
    Run(kinds, Next(kinds, Starting(kinds, w, others), Start(r)), others[1])
  }

  ghost function Finishing(kinds: set<string>, w: Runtime, r: nat, answer: Answer, others: seq<seq<Step>>): Runtime
    requires |others| == 3
  {
    Run(kinds, Next(kinds, Invoking(kinds, w, r, others), Invoke(r, answer)), others[2])
  }

  /** What is left when the request has returned, raised or died. */
  ghost function After(kinds: set<string>, w: Runtime, r: nat, view: View, answer: Answer, death: Death,
                       others: seq<seq<Step>>): Runtime
    requires |others| == 3
  {
    if death.BeforeStart? then Starting(kinds, w, others)
    else if view.kind !in kinds || death.BeforeInvoke? then Next(kinds, Starting(kinds, w, others), Start(r))
    else if death.BeforeFinish? then Next(kinds, Invoking(kinds, w, r, others), Invoke(r, answer))
    else Next(kinds, Finishing(kinds, w, r, answer, others), Finish(r))
  }

  /** All the steps of the execution and of the others, in order. */
  function Trace(kinds: set<string>, r: nat, view: View, answer: Answer, death: Death,
          others: seq<seq<Step>>): seq<Step>
    requires |others| == 3
  {
    if death.BeforeStart? then others[0]
    else if view.kind !in kinds || death.BeforeInvoke? then others[0] + [Start(r)]
    else if death.BeforeFinish? then (others[0] + [Start(r)]) + (others[1] + [Invoke(r, answer)])
    else ((others[0] + [Start(r)]) + (others[1] + [Invoke(r, answer)])) + (others[2] + [Finish(r)])
  }

  lemma ThenOne(kinds: set<string>, w: Runtime, steps: seq<Step>, step: Step)
    ensures Run(kinds, w, steps + [step]) == Next(kinds, Run(kinds, w, steps), step)
  {
    RunAppend(kinds, w, steps, [step]);
    assert [step][1..] == [];
  }

  /** So an execution is a run of the runtime, and everything proved of runs holds of it. */
  lemma AfterIsRun(kinds: set<string>, w: Runtime, r: nat, view: View, answer: Answer, death: Death,
          others: seq<seq<Step>>)
    requires |others| == 3
    ensures After(kinds, w, r, view, answer, death, others)
          == Run(kinds, w, Trace(kinds, r, view, answer, death, others))
  {
    var starting, invoking := others[0] + [Start(r)], others[1] + [Invoke(r, answer)];
    ThenOne(kinds, w, others[0], Start(r));
    ThenOne(kinds, Run(kinds, w, starting), others[1], Invoke(r, answer));
    RunAppend(kinds, w, starting, invoking);
    ThenOne(kinds, Run(kinds, w, starting + invoking), others[2], Finish(r));
    RunAppend(kinds, w, starting + invoking, others[2] + [Finish(r)]);
  }

  /** The owner finds its row as it left it, whatever the others have done. */
  lemma OwnerFindsRow(kinds: set<string>, w: Runtime, steps: seq<Step>, r: nat, key: Key)
    requires Inv(w) && r in w.requests && OwnsLive(w.requests[r]) && w.requests[r].key == key && NotBy(steps, r)
    ensures var w' := Run(kinds, w, steps);
            && Inv(w') && r in w'.requests && w'.requests[r] == w.requests[r]
            && key in w.table && key in w'.table && w'.table[key] == w.table[key]
  {
    OthersLeave(kinds, w, steps, r);
    InvRun(kinds, w, steps);
    assert RequestOk(w, r, w.requests[r]);
    assert RequestOk(Run(kinds, w, steps), r, w.requests[r]);
  }

  lemma StartEffect(kinds: set<string>, w: Runtime, r: nat, key: Key, view: View)
    requires r in w.requests && w.requests[r] == Owner(key, view) && key in w.table
    ensures Next(kinds, w, Start(r)) == DoStart(kinds, w, r, key, view)
  {
  }

  lemma InvokeEffect(kinds: set<string>, w: Runtime, r: nat, key: Key, view: View, answer: Answer)
    requires r in w.requests && w.requests[r] == Started(key, view)
    ensures Next(kinds, w, Invoke(r, answer)) == DoInvoke(w, r, key, view, answer)
  {
  }

  lemma FinishEffect(kinds: set<string>, w: Runtime, r: nat, key: Key, view: View, answer: Answer)
    requires r in w.requests && w.requests[r] == Answered(key, view, answer)
    ensures Next(kinds, w, Finish(r)) == DoFinish(w, r, key, answer)
  {
  }

  /** Where the owner stands just before its first commit, its call and its last commit. */
  lemma AtStarting(kinds: set<string>, w: Runtime, r: nat, key: Key, view: View, others: seq<seq<Step>>)
    requires |others| == 3 && NotBy(others[0], r)
    requires Inv(w) && r in w.requests && w.requests[r] == Owner(key, view)
    ensures var w0 := Starting(kinds, w, others);
            && Inv(w0) && r in w0.requests && w0.requests[r] == Owner(key, view)
            && key in w.table && key in w0.table && w0.table[key] == w.table[key] == NewRecord(r, view)
  {
    OwnerFindsRow(kinds, w, others[0], r, key);
    assert RequestOk(w, r, w.requests[r]);
  }

  lemma AtInvoking(kinds: set<string>, w: Runtime, r: nat, key: Key, view: View, others: seq<seq<Step>>)
    requires |others| == 3 && NotBy(others[0], r) && NotBy(others[1], r)
    requires Inv(w) && r in w.requests && w.requests[r] == Owner(key, view) && view.kind in kinds
    ensures var w1 := Invoking(kinds, w, r, others);
            && Inv(w1) && r in w1.requests && w1.requests[r] == Started(key, view)
            && key in w1.table && w1.table[key] == StartedRecord(NewRecord(r, view))
  {
    var w0 := Starting(kinds, w, others);
    AtStarting(kinds, w, r, key, view, others);
    StartEffect(kinds, w0, r, key, view);
    InvNext(kinds, w0, Start(r));
    OwnerFindsRow(kinds, Next(kinds, w0, Start(r)), others[1], r, key);
  }

  lemma AtFinishing(kinds: set<string>, w: Runtime, r: nat, key: Key, view: View, answer: Answer,
          others: seq<seq<Step>>)
    requires |others| == 3 && NotBy(others[0], r) && NotBy(others[1], r) && NotBy(others[2], r)
    requires Inv(w) && r in w.requests && w.requests[r] == Owner(key, view) && view.kind in kinds
    ensures var w2 := Finishing(kinds, w, r, answer, others);
            && r in w2.requests && w2.requests[r] == Answered(key, view, answer)
            && key in w2.table && w2.table[key] == StartedRecord(NewRecord(r, view))
  {
    var w1 := Invoking(kinds, w, r, others);
    AtInvoking(kinds, w, r, key, view, others);
    InvokeEffect(kinds, w1, r, key, view, answer);
    InvNext(kinds, w1, Invoke(r, answer));
    OwnerFindsRow(kinds, Next(kinds, w1, Invoke(r, answer)), others[2], r, key);
  }

  ghost predicate Owned(w: Runtime, r: nat, key: Key, req: Request, rec: Record) {
    r in w.requests && w.requests[r] == req && key in w.table && w.table[key] == rec
  }

  ghost predicate Milestones(kinds: set<string>, w: Runtime, r: nat, key: Key, view: View, answer: Answer,
                             others: seq<seq<Step>>)
    requires |others| == 3
  {
    var rec := NewRecord(r, view);
    && Owned(w, r, key, Owner(key, view), rec)
    && Owned(Starting(kinds, w, others), r, key, Owner(key, view), rec)
    && (view.kind in kinds ==>
          && Owned(Invoking(kinds, w, r, others), r, key, Started(key, view), StartedRecord(rec))
          && Owned(Finishing(kinds, w, r, answer, others), r, key, Answered(key, view, answer), StartedRecord(rec)))
  }

  lemma MilestonesReached(kinds: set<string>, w: Runtime, r: nat, key: Key, view: View, answer: Answer,
                          others: seq<seq<Step>>)
    requires |others| == 3 && NotBy(others[0], r) && NotBy(others[1], r) && NotBy(others[2], r)
    requires Inv(w) && r in w.requests && w.requests[r] == Owner(key, view)
    ensures Milestones(kinds, w, r, key, view, answer, others)
  {
    AtStarting(kinds, w, r, key, view, others);
    if view.kind in kinds {
      AtInvoking(kinds, w, r, key, view, others);
      AtFinishing(kinds, w, r, key, view, answer, others);
    }
  }

  // ---------------------------------------------------------------- an acceptance amid others

  predicate Is(w: Runtime, r: nat, req: Request) { r in w.requests && w.requests[r] == req }

  // Where the process stops during an acceptance.
  datatype AcceptDeath = BeforeInsert | BeforeEnd | Completes

  // How an acceptance ends. `rolledBack` says that the session was rolled back on the way, which expires
  // the connector row it had loaded.
  datatype Acceptance = Died | Replay(record: Record, inFlight: bool, rolledBack: bool) | Created

  // The states just before the insert, and just before its commit or the second read, when others take
  // the steps `others[i]` in between.
  ghost function Inserting(kinds: set<string>, w: Runtime, r: nat, others: seq<seq<Step>>): Runtime
    requires |others| == 2
  {
    Run(kinds, Next(kinds, w, Lookup(r)), others[0])
  }

  ghost function Deciding(kinds: set<string>, w: Runtime, r: nat, others: seq<seq<Step>>): Runtime
    requires |others| == 2
  {
    Run(kinds, Next(kinds, Inserting(kinds, w, r, others), Flush(r)), others[1])
  }

  /** What is left when the acceptance has returned or died. */
  ghost function AfterAccept(kinds: set<string>, w: Runtime, r: nat, key: Key, death: AcceptDeath,
                             others: seq<seq<Step>>): Runtime
    requires |others| == 2
  {
    if key in w.table then Next(kinds, w, Lookup(r))
    else if death.BeforeInsert? then Next(kinds, Inserting(kinds, w, r, others), Die(r))
    else if death.BeforeEnd? then Next(kinds, Deciding(kinds, w, r, others), Die(r))
    else if key in Inserting(kinds, w, r, others).table then Next(kinds, Deciding(kinds, w, r, others), Recover(r))
    else Next(kinds, Deciding(kinds, w, r, others), CommitAccept(r))
  }

  lemma AtInserting(kinds: set<string>, w: Runtime, r: nat, key: Key, view: View, others: seq<seq<Step>>)
    requires |others| == 2 && NotBy(others[0], r)
    requires Inv(w) && r in w.requests && w.requests[r] == Cleared(key, view) && key !in w.table
    ensures var w1 := Inserting(kinds, w, r, others);
            Inv(w1) && r in w1.requests && w1.requests[r] == Missed(key, view)
  {
    var looked := Next(kinds, w, Lookup(r));
    assert looked == At(w, r, Missed(key, view));
    InvNext(kinds, w, Lookup(r));
    OthersLeave(kinds, looked, others[0], r);
    InvRun(kinds, looked, others[0]);
  }

  lemma FlushEffect(kinds: set<string>, w: Runtime, r: nat, key: Key, view: View)
    requires r in w.requests && w.requests[r] == Missed(key, view) && key !in w.inserting
    ensures var t := Next(kinds, w, Flush(r));
            && CommittedOf(t) == CommittedOf(w) && r in t.requests
            && t.requests[r] == if key in w.table then Collided(key) else Inserted(key, view)
  {
  }

  /** A collided request finds the winner's row, and one that holds the key finds it still free. */
  lemma AtDeciding(kinds: set<string>, w: Runtime, r: nat, key: Key, view: View, others: seq<seq<Step>>)
    requires |others| == 2 && NotBy(others[0], r) && NotBy(others[1], r)
    requires Inv(w) && r in w.requests && w.requests[r] == Cleared(key, view) && key !in w.table
    requires key !in Inserting(kinds, w, r, others).inserting
    ensures var w1, w2 := Inserting(kinds, w, r, others), Deciding(kinds, w, r, others);
            && CommittedOf(Next(kinds, w1, Flush(r))) == CommittedOf(w1)
            && r in w2.requests && (key in w2.table <==> key in w1.table)
            && w2.requests[r] == if key in w1.table then Collided(key) else Inserted(key, view)
  {
    var w1, w2 := Inserting(kinds, w, r, others), Deciding(kinds, w, r, others);
    AtInserting(kinds, w, r, key, view, others);
    FlushEffect(kinds, w1, r, key, view);
    InvNext(kinds, w1, Flush(r));
    OthersLeave(kinds, Next(kinds, w1, Flush(r)), others[1], r);
    InvRun(kinds, Next(kinds, w1, Flush(r)), others[1]);
    assert RequestOk(w2, r, w2.requests[r]);
    assert key in w2.inserting ==> InsertingOk(w2, key);
  }

  lemma DieEffect(kinds: set<string>, w: Runtime, r: nat)
    requires r in w.requests && !w.requests[r].Done?
    ensures var t := Next(kinds, w, Die(r));
            CommittedOf(t) == CommittedOf(w) && r in t.requests && t.requests[r] == Dead(w.requests[r].key)
  {
  }

  lemma RecoverEffect(kinds: set<string>, w: Runtime, r: nat, key: Key)
    requires r in w.requests && w.requests[r] == Collided(key) && key in w.table
    ensures Next(kinds, w, Recover(r)) == At(w, r, Done(key, Replied(w.table[key], true)))
  {
  }

  lemma CommitAcceptEffect(kinds: set<string>, w: Runtime, r: nat, key: Key, view: View)
    requires r in w.requests && w.requests[r] == Inserted(key, view)
    ensures Next(kinds, w, CommitAccept(r)) == DoCommitAccept(w, r, key, view)
  {
  }

  class InvocationRecord {
    const id: nat
    const connectorVersion: int
    const kind: string
    var status: Status
    var aggregateVersion: int
    var result: Option<Result>

    function Value(): Record
      reads this
    {
      Record(id, connectorVersion, kind, status, aggregateVersion, result)
    }

    constructor (id: nat, view: View)
      ensures Value() == NewRecord(id, view)
    {
      this.id, connectorVersion, kind := id, view.version, view.kind;
      status, aggregateVersion, result := Accepted, 1, None;
    }
  }

  class InvocationService {
    const kinds: set<string>
    var db: Committed

    constructor (kinds: set<string>)
      ensures this.kinds == kinds && db == Committed(map[], map[], [])
    {
      this.kinds := kinds;
      db := Committed(map[], map[], []);
    }

    ghost predicate Agrees(w: Runtime)
      reads this
    {
      db == CommittedOf(w)
    }

    /** What everybody else commits at this point. */
    method Meanwhile(after: Committed, ghost w: Runtime, ghost steps: seq<Step>)
      requires Agrees(w) && after == CommittedOf(Run(kinds, w, steps))
      modifies this
      ensures Agrees(Run(kinds, w, steps))
    {
      db := after;
    }

    /** Commit the row together with its event. */
    method Commit(key: Key, record: InvocationRecord)
      modifies this
      ensures var rec := record.Value();
              db == Committed(old(db).table[key := rec],
                              old(db).events[key :=
                                  (if key in old(db).events then old(db).events[key] else []) + [EventFor(rec)]],
                              old(db).calls)
    {
      var earlier := if key in db.events then db.events[key] else [];
      db := Committed(db.table[key := record.Value()],
                      db.events[key := earlier + [LifecycleEvent(record.id, record.aggregateVersion, record.status)]],
                      db.calls);
    }

    /** From a missed lookup on: `looked` is the state it left, `w1` and `w2` the states just before the
        insert and just before its commit or the second read. */
    method InsertOrRecover(r: nat, key: Key, view: View, death: AcceptDeath, before: Committed, last: Committed,
                           ghost others: seq<seq<Step>>, ghost looked: Runtime, ghost w1: Runtime, ghost w2: Runtime)
      returns (acceptance: Acceptance, mine: InvocationRecord?)
      requires |others| == 2 && Agrees(looked)
      requires w1 == Run(kinds, looked, others[0]) && before == CommittedOf(w1)
      requires r in w1.requests && w1.requests[r] == Missed(key, view)
      requires CommittedOf(Next(kinds, w1, Flush(r))) == CommittedOf(w1)
      requires w2 == Run(kinds, Next(kinds, w1, Flush(r)), others[1]) && last == CommittedOf(w2)
      requires r in w2.requests && (key in w2.table <==> key in w1.table)
      requires w2.requests[r] == if key in w1.table then Collided(key) else Inserted(key, view)
      modifies this
      ensures acceptance.Died? <==> !death.Completes?
      ensures acceptance.Created? <==> death.Completes? && key !in w1.table
      ensures death.BeforeInsert? ==> var t := Next(kinds, w1, Die(r)); Agrees(t) && Is(t, r, Dead(key))
      ensures death.BeforeEnd? ==> var t := Next(kinds, w2, Die(r)); Agrees(t) && Is(t, r, Dead(key))
      ensures death.Completes? && key in w1.table ==>
                var t := Next(kinds, w2, Recover(r));
                Agrees(t) && acceptance == Replay(w2.table[key], true, true)
                && Is(t, r, Done(key, Replied(w2.table[key], true)))
      ensures acceptance.Created? ==>
                var t := Next(kinds, w2, CommitAccept(r));
                && Agrees(t) && Is(t, r, Owner(key, view)) && key in t.table
                && mine != null && fresh(mine) && mine.Value() == t.table[key]
    {
      mine := null;
      Meanwhile(before, looked, others[0]);
      if death.BeforeInsert? {
        DieEffect(kinds, w1, r);
        return Died, null;
      }
      // The unique constraint is checked here.
      var taken := key in db.table;
      Meanwhile(last, Next(kinds, w1, Flush(r)), others[1]);
      if death.BeforeEnd? {
        DieEffect(kinds, w2, r);
        return Died, null;
      }
      if taken {
        // Roll back and read the winner's row.
        RecoverEffect(kinds, w2, r, key);
        return Replay(db.table[key], true, true), null;
      }
      CommitAcceptEffect(kinds, w2, r, key, view);
      mine := new InvocationRecord(r, view);
      Commit(key, mine);
      acceptance := Created;
    }

    /** Insert the row, unless the key is taken already or is lost to a concurrent request; dying anywhere.
        Before the insert, and before its commit or the second read, the others take the steps
        `others[i]`, which leave `meanwhile[i]`; the insert waits until no open transaction holds the
        key. */
    method Accept(r: nat, key: Key, view: View, death: AcceptDeath,
                  meanwhile: seq<Committed>, ghost w: Runtime, ghost others: seq<seq<Step>>)
      returns (acceptance: Acceptance, mine: InvocationRecord?)
      requires Inv(w) && Agrees(w) && r in w.requests && w.requests[r] == Cleared(key, view)
      requires |others| == |meanwhile| == 2
      requires key !in w.table ==>
                 && NotBy(others[0], r) && NotBy(others[1], r) && key !in Inserting(kinds, w, r, others).inserting
                 && meanwhile[0] == CommittedOf(Inserting(kinds, w, r, others))
                 && meanwhile[1] == CommittedOf(Deciding(kinds, w, r, others))
      modifies this
      ensures var t := AfterAccept(kinds, w, r, key, death, others);
              && Agrees(t)
              && match acceptance
                 case Died => Is(t, r, Dead(key))
                 case Replay(record, inFlight, rolledBack) =>
                   && Is(t, r, Done(key, Replied(record, true))) && (rolledBack <==> key !in w.table)
                   && (inFlight <==> rolledBack || !record.status.Final())
                 case Created =>
                   && Is(t, r, Owner(key, view)) && key in t.table
                   && mine != null && fresh(mine) && mine.Value() == t.table[key]
      ensures acceptance.Died? <==> key !in w.table && !death.Completes?
      ensures acceptance.Created? <==>
                key !in w.table && death.Completes? && key !in Inserting(kinds, w, r, others).table
    {
      mine := null;
      if key in db.table {
        var existing := db.table[key];
        return Replay(existing, existing.status.Accepted? || existing.status.Running?, false), null;
      }
      AtInserting(kinds, w, r, key, view, others);
      AtDeciding(kinds, w, r, key, view, others);
      assert CommittedOf(Next(kinds, w, Lookup(r))) == CommittedOf(w);
      acceptance, mine := InsertOrRecover(r, key, view, death, meanwhile[0], meanwhile[1], others,
                                          Next(kinds, w, Lookup(r)), Inserting(kinds, w, r, others),
                                          Deciding(kinds, w, r, others));
    }

    /** Persist the terminal state with its event. */
    method Finalise(key: Key, record: InvocationRecord, result: Result)
      modifies this, record
      ensures record.Value() == FinishedRecord(old(record.Value()), result)
      ensures db.table == old(db).table[key := record.Value()] && db.calls == old(db).calls
      ensures db.events == old(db).events[key := (if key in old(db).events then old(db).events[key] else [])
                                                 + [EventFor(record.Value())]]
    {
      record.status := result.status;
      record.result := Some(result);
      record.aggregateVersion := record.aggregateVersion + 1;
      Commit(key, record);
    }

    /** The first commit of an execution: running, or terminal when the kind is unknown. */
    method StartRunning(r: nat, key: Key, view: View, record: InvocationRecord, ghost w: Runtime)
      requires Agrees(w) && r in w.requests && w.requests[r] == Owner(key, view)
      requires key in w.table && record.Value() == w.table[key]
      modifies this, record
      ensures var t := Next(kinds, w, Start(r));
              && Agrees(t) && r in t.requests && key in t.table && record.Value() == t.table[key]
              && (view.kind in kinds ==> record.Value() == StartedRecord(old(record.Value())))
              && t.requests[r] == if view.kind in kinds then Started(key, view)
                  else Done(key, Replied(record.Value(), false))
    {
      StartEffect(kinds, w, r, key, view);
      if view.kind !in kinds {
        Finalise(key, record, UNKNOWN_KIND);
        return;
      }
      record.status := Running;
      record.aggregateVersion := record.aggregateVersion + 1;
      Commit(key, record);
    }

    /** Await the adapter. */
    method CallAdapter(r: nat, key: Key, view: View, answer: Answer, ghost w: Runtime)
      requires Agrees(w) && r in w.requests && w.requests[r] == Started(key, view)
      modifies this
      ensures var t := Next(kinds, w, Invoke(r, answer));
              && Agrees(t) && r in t.requests && t.requests[r] == Answered(key, view, answer) && t.table == w.table
    {
      InvokeEffect(kinds, w, r, key, view, answer);
      db := db.(calls := db.calls + [key]);
    }

    /** The last commit. A status with no terminal event raises before it. */
    method FinishRunning(r: nat, key: Key, view: View, record: InvocationRecord, answer: Answer, ghost w: Runtime)
      returns (raised: bool)
      requires Agrees(w) && r in w.requests && w.requests[r] == Answered(key, view, answer)
      requires key in w.table && record.Value() == w.table[key]
      modifies this, record
      ensures raised <==> !ResultOf(answer).status.Final()
      ensures var t := Next(kinds, w, Finish(r));
              && Agrees(t) && r in t.requests
                  && (!raised ==> t.requests[r] == Done(key, Replied(record.Value(), false)))
    {
      FinishEffect(kinds, w, r, key, view, answer);
      raised := !ResultOf(answer).status.Final();
      if !raised {
        Finalise(key, record, ResultOf(answer));
      }
    }

    /** From the running row on: `started` is the state its commit left, `w1` and `w2` the states just
        before the call and the last commit. */
    method AwaitAndFinish(r: nat, key: Key, view: View, record: InvocationRecord, answer: Answer, survives: bool,
                          before: Committed, last: Committed, ghost others: seq<seq<Step>>,
                          ghost started: Runtime, ghost w1: Runtime, ghost w2: Runtime)
      returns (raised: bool)
      requires |others| == 3 && Agrees(started)
      requires w1 == Run(kinds, started, others[1]) && before == CommittedOf(w1)
      requires r in w1.requests && w1.requests[r] == Started(key, view)
      requires w2 == Run(kinds, Next(kinds, w1, Invoke(r, answer)), others[2]) && last == CommittedOf(w2)
      requires r in w2.requests && w2.requests[r] == Answered(key, view, answer)
      requires key in w2.table && w2.table[key] == record.Value()
      modifies this, record
      ensures Agrees(if survives then Next(kinds, w2, Finish(r)) else Next(kinds, w1, Invoke(r, answer)))
      ensures raised <==> survives && !ResultOf(answer).status.Final()
      ensures survives && !raised ==>
                var t := Next(kinds, w2, Finish(r));
                r in t.requests && t.requests[r] == Done(key, Replied(record.Value(), false))
    {
      raised := false;
      Meanwhile(before, started, others[1]);
      CallAdapter(r, key, view, answer, w1);
      if survives {
        Meanwhile(last, Next(kinds, w1, Invoke(r, answer)), others[2]);
        raised := FinishRunning(r, key, view, record, answer, w2);
      }
    }

    /** The execution, from what is known of the states it passes. */
    method ExecuteAlong(r: nat, key: Key, view: View, record: InvocationRecord, answer: Answer, death: Death,
                        meanwhile: seq<Committed>, ghost w: Runtime, ghost others: seq<seq<Step>>)
      returns (raised: bool)
      requires Agrees(w) && record.Value() == NewRecord(r, view)
      requires |others| == |meanwhile| == 3 && Milestones(kinds, w, r, key, view, answer, others)
      requires meanwhile[0] == CommittedOf(Starting(kinds, w, others))
      requires meanwhile[1] == CommittedOf(Invoking(kinds, w, r, others))
      requires meanwhile[2] == CommittedOf(Finishing(kinds, w, r, answer, others))
      modifies this, record
      ensures Agrees(After(kinds, w, r, view, answer, death, others))
      ensures raised <==> death.Survives? && view.kind in kinds && !ResultOf(answer).status.Final()
      ensures death.Survives? && !raised ==>
                var t := After(kinds, w, r, view, answer, death, others);
                r in t.requests && t.requests[r] == Done(key, Replied(record.Value(), false))
    {
      raised := false;
      Meanwhile(meanwhile[0], w, others[0]);
      if death.BeforeStart? {
        return;
      }
      StartRunning(r, key, view, record, Starting(kinds, w, others));
      if view.kind !in kinds || death.BeforeInvoke? {
        return;
      }
      raised := AwaitAndFinish(r, key, view, record, answer, death.Survives?, meanwhile[1], meanwhile[2], others,
                               Next(kinds, Starting(kinds, w, others), Start(r)), Invoking(kinds, w, r, others),
                               Finishing(kinds, w, r, answer, others));
    }

    /** Run the adapter and persist what it answered, dying anywhere. Before the first commit, the call
        and the last commit the others take the steps `others[i]`, which leave `meanwhile[i]`. */
    method Execute(r: nat, key: Key, view: View, record: InvocationRecord, answer: Answer, death: Death,
                   meanwhile: seq<Committed>, ghost w: Runtime, ghost others: seq<seq<Step>>)
      returns (raised: bool)
      requires Inv(w) && Agrees(w) && r in w.requests && w.requests[r] == Owner(key, view)
      requires key in w.table && record.Value() == w.table[key]
      requires |others| == |meanwhile| == 3 && NotBy(others[0], r) && NotBy(others[1], r) && NotBy(others[2], r)
      requires meanwhile[0] == CommittedOf(Starting(kinds, w, others))
      requires meanwhile[1] == CommittedOf(Invoking(kinds, w, r, others))
      requires meanwhile[2] == CommittedOf(Finishing(kinds, w, r, answer, others))
      modifies this, record
      ensures Agrees(After(kinds, w, r, view, answer, death, others))
      ensures raised <==> death.Survives? && view.kind in kinds && !ResultOf(answer).status.Final()
      ensures death.Survives? && !raised ==>
                var t := After(kinds, w, r, view, answer, death, others);
                r in t.requests && t.requests[r] == Done(key, Replied(record.Value(), false))
    {
      MilestonesReached(kinds, w, r, key, view, answer, others);
      raised := ExecuteAlong(r, key, view, record, answer, death, meanwhile, w, others);
    }
  }
}
