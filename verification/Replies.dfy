/** What callers of the invocation runtime are told, and what it means. */
module Replies {
  import opened Options
  import opened Lifecycle
  import C = Connectors
  import opened Invocations
  import opened InvocationHistory

  // ---------------------------------------------------------------- what a row says of the call

  lemma OwnStep(kinds: set<string>, w: Runtime, r: nat, step: Step)
    requires r in w.requests && (IsEarly(step) || IsLate(step)) && step.r == r
    ensures Next(kinds, w, step) == Advance(kinds, w, r, step)
  {
  }

  /** A final row whose kind is registered follows a call; one whose kind is not says so, and there was
      none. */
  ghost predicate RowTells(kinds: set<string>, w: Runtime, key: Key) {
    key in w.table ==>
      var rec := w.table[key];
      && (key in w.calls ==> rec.kind in kinds)
      && (rec.status.Running? ==> rec.kind in kinds)
      && (rec.result.Some? ==>
            && rec.status == rec.result.value.status
            && (rec.kind in kinds ==> key in w.calls)
            && (rec.kind !in kinds ==> rec.result == Some(Result(FailedTerminal, Some("UNKNOWN_KIND"), false, None))))
  }

  ghost predicate AnsweredAreCalled(w: Runtime) {
    forall r | r in w.requests && w.requests[r].Answered? :: w.requests[r].key in w.calls
  }

  lemma TellsReading(kinds: set<string>, w: Runtime, r: nat, step: Step, key: Key)
    requires r in w.requests && (step.Read? || step.Check? || step.Lookup? || step.Recover?)
    requires RowTells(kinds, w, key) && AnsweredAreCalled(w)
    ensures var w' := Advance(kinds, w, r, step); RowTells(kinds, w', key) && AnsweredAreCalled(w')
  {
  }

  lemma TellsFlushing(kinds: set<string>, w: Runtime, r: nat, step: Step, key: Key)
    requires r in w.requests && step.Flush? && RowTells(kinds, w, key) && AnsweredAreCalled(w)
    ensures var w' := Advance(kinds, w, r, step); RowTells(kinds, w', key) && AnsweredAreCalled(w')
  {
  }

  lemma TellsAccepting(kinds: set<string>, w: Runtime, r: nat, step: Step, key: Key)
    requires r in w.requests && step.CommitAccept?
    requires RowTells(kinds, w, key) && AnsweredAreCalled(w)
    requires w.requests[r].Inserted? ==> w.requests[r].key !in w.calls
    ensures var w' := Advance(kinds, w, r, step); RowTells(kinds, w', key) && AnsweredAreCalled(w')
  {
  }

  lemma TellsEarly(kinds: set<string>, w: Runtime, r: nat, step: Step, key: Key)
    requires r in w.requests && IsEarly(step) && RowTells(kinds, w, key) && AnsweredAreCalled(w)
    requires w.requests[r].Inserted? ==> w.requests[r].key !in w.calls
    ensures var w' := Advance(kinds, w, r, step); RowTells(kinds, w', key) && AnsweredAreCalled(w')
  {
    if step.Flush? {
      TellsFlushing(kinds, w, r, step, key);
    } else if step.CommitAccept? {
      TellsAccepting(kinds, w, r, step, key);
    } else {
      TellsReading(kinds, w, r, step, key);
    }
  }

  lemma TellsSave(kinds: set<string>, w: Runtime, r: nat, k: Key, rec: Record, next: Request, key: Key)
    requires RowTells(kinds, w, key) && AnsweredAreCalled(w) && !next.Answered?
    requires RowTells(kinds, w.(table := w.table[k := rec]), k)
    ensures var w' := Save(w, r, k, rec, next); RowTells(kinds, w', key) && AnsweredAreCalled(w')
  {
  }

  lemma TellsStart(kinds: set<string>, w: Runtime, r: nat, k: Key, view: View, key: Key)
    requires RowTells(kinds, w, key) && AnsweredAreCalled(w)
    requires k in w.table && w.table[k] == NewRecord(r, view) && k !in w.calls
    ensures var w' := DoStart(kinds, w, r, k, view); RowTells(kinds, w', key) && AnsweredAreCalled(w')
  {
    var done, started := FinishedRecord(w.table[k], UNKNOWN_KIND), StartedRecord(w.table[k]);
    if view.kind !in kinds {
      TellsSave(kinds, w, r, k, done, Done(k, Replied(done, false)), key);
    } else {
      TellsSave(kinds, w, r, k, started, Started(k, view), key);
    }
  }

  lemma TellsInvoke(kinds: set<string>, w: Runtime, r: nat, k: Key, view: View, answer: Answer, key: Key)
    requires RowTells(kinds, w, key) && RowTells(kinds, w, k) && AnsweredAreCalled(w)
    requires k in w.table && w.table[k].status.Running?
    ensures var w' := DoInvoke(w, r, k, view, answer); RowTells(kinds, w', key) && AnsweredAreCalled(w')
  {
    var w' := DoInvoke(w, r, k, view, answer);
    assert forall x | x in w.calls :: x in w'.calls;
    assert k in w'.calls;
    assert forall x | x in w'.calls :: x in w.calls || x == k;
  }

  lemma TellsFinish(kinds: set<string>, w: Runtime, r: nat, k: Key, answer: Answer, key: Key)
    requires RowTells(kinds, w, key) && RowTells(kinds, w, k) && AnsweredAreCalled(w)
    requires k in w.table && k in w.calls
    ensures var w' := DoFinish(w, r, k, answer); RowTells(kinds, w', key) && AnsweredAreCalled(w')
  {
    if ResultOf(answer).status.Final() {
      var done := FinishedRecord(w.table[k], ResultOf(answer));
      TellsSave(kinds, w, r, k, done, Done(k, Replied(done, false)), key);
    }
  }

  lemma TellsLate(kinds: set<string>, w: Runtime, r: nat, step: Step, key: Key)
    requires r in w.requests && IsLate(step) && RowTells(kinds, w, key) && AnsweredAreCalled(w)
    requires RequestOk(w, r, w.requests[r]) && RowTells(kinds, w, w.requests[r].key)
    requires w.requests[r].Owner? ==> w.requests[r].key !in w.calls
    ensures var w' := Advance(kinds, w, r, step); RowTells(kinds, w', key) && AnsweredAreCalled(w')
  {
    var req := w.requests[r];
    match step
    case Start(_) => if req.Owner? { TellsStart(kinds, w, r, req.key, req.view, key); }
    case Invoke(_, answer) => if req.Started? { TellsInvoke(kinds, w, r, req.key, req.view, answer, key); }
    case Finish(_) => if req.Answered? { TellsFinish(kinds, w, r, req.key, req.answer, key); }
    case Die(_) =>
  }

  lemma TellsAdvance(kinds: set<string>, w: Runtime, r: nat, step: Step, key: Key)
    requires Inv(w) && r in w.requests && (IsEarly(step) || IsLate(step))
    requires RowTells(kinds, w, key) && RowTells(kinds, w, w.requests[r].key) && AnsweredAreCalled(w)
    ensures var w' := Advance(kinds, w, r, step); RowTells(kinds, w', key) && AnsweredAreCalled(w')
  {
    var k := w.requests[r].key;
    assert RequestOk(w, r, w.requests[r]);
    assert w.requests[r].Inserted? ==> InsertingOk(w, k);
    assert k in w.calls ==> CallOk(w, k);
    if IsEarly(step) {
      TellsEarly(kinds, w, r, step, key);
    } else {
      TellsLate(kinds, w, r, step, key);
    }
  }

  ghost predicate AllTell(kinds: set<string>, w: Runtime) {
    (forall key | key in w.table :: RowTells(kinds, w, key)) && AnsweredAreCalled(w)
  }

  lemma TellsNext(kinds: set<string>, w: Runtime, step: Step, key: Key)
    requires Inv(w) && AllTell(kinds, w)
    ensures var w' := Next(kinds, w, step); RowTells(kinds, w', key) && AnsweredAreCalled(w')
  {
    assert RowTells(kinds, w, key);
    if step.CreateConnector? || step.ChangeConnector? || step.Arrive? {
      TellsElsewhere(kinds, w, step, key);
    } else if step.r in w.requests {
      assert RowTells(kinds, w, w.requests[step.r].key);
      OwnStep(kinds, w, step.r, step);
      TellsAdvance(kinds, w, step.r, step, key);
    }
  }

  lemma TellsElsewhere(kinds: set<string>, w: Runtime, step: Step, key: Key)
    requires RowTells(kinds, w, key) && AnsweredAreCalled(w)
    requires step.CreateConnector? || step.ChangeConnector? || step.Arrive?
    ensures var w' := Next(kinds, w, step); RowTells(kinds, w', key) && AnsweredAreCalled(w')
  {
  }

  lemma {:induction false} TellsRun(kinds: set<string>, w: Runtime, steps: seq<Step>)
    requires Inv(w) && AllTell(kinds, w)
    ensures Inv(Run(kinds, w, steps)) && AllTell(kinds, Run(kinds, w, steps))
    decreases |steps|
  {
    if steps != [] {
      var next := Next(kinds, w, steps[0]);
      InvNext(kinds, w, steps[0]);
      TellsNext(kinds, w, steps[0], Key("", 0, ""));
      forall key | key in next.table
        ensures RowTells(kinds, next, key)
      {
        TellsNext(kinds, w, steps[0], key);
      }
      TellsRun(kinds, next, steps[1..]);
    }
  }

  /** In every reachable state: a key has had its adapter called only if its kind is registered; a final row
      reports `UNKNOWN_KIND`, terminal and not to be retried, if its kind is not registered, and otherwise its
      adapter has been called. So nothing is reported as a success, or as a timeout, without a call. */
  lemma RowsTellTheCall(kinds: set<string>, steps: seq<Step>, key: Key)
    ensures var w := Run(kinds, INITIAL, steps); RowTells(kinds, w, key)
  {
    InvInitially();
    TellsRun(kinds, INITIAL, steps);
  }

  /** The HTTP status of a reply, in every reachable state: 202 while there is no result, 200 for a result
      that succeeded, 504 for one that timed out, 502 for every other; and 200 only after a call. */
  lemma RepliesMean(kinds: set<string>, steps: seq<Step>, r: nat)
    requires var w := Run(kinds, INITIAL, steps);
             r in w.requests && w.requests[r].Done? && w.requests[r].response.Replied?
    ensures var w := Run(kinds, INITIAL, steps);
            var rec := w.requests[r].response.record;
            var http := HttpStatus(rec.status);
            && (http == 202 <==> rec.result.None?)
            && (http == 200 <==> rec.result.Some? && rec.result.value.status == Succeeded)
            && (http == 504 <==> rec.result.Some? && rec.result.value.status == TimedOut)
            && (http == 502 <==> rec.result.Some? && rec.result.value.status != Succeeded
                                 && rec.result.value.status != TimedOut)
            && (http == 200 ==> w.requests[r].key in w.calls && rec.kind in kinds)
  {
    InvInitially();
    TellsRun(kinds, INITIAL, steps);
    var w := Run(kinds, INITIAL, steps);
    var key := w.requests[r].key;
    assert RequestOk(w, r, w.requests[r]);
    assert RowTells(kinds, w, key);
  }

  // ---------------------------------------------------------------- what becomes of an answer

  /** What the row must say of an adapter's answer. */
  ghost predicate Records(rec: Record, answer: Answer) {
    && rec.result.Some? && rec.status == rec.result.value.status && rec.status.Final()
    && match answer
       case Returned(result) => rec.result.value == result
       case DeadlinePassed => rec.result.value == Result(TimedOut, Some("UPSTREAM_TIMEOUT"), true, None)
       case Raised => rec.result.value == Result(FailedRetryable, Some("UPSTREAM_ERROR"), true, None)
  }

  /** A request whose adapter has answered: not yet recorded, recorded and replied, or dead. */
  ghost predicate Kept(w: Runtime, r: nat, answered: Request)
    requires answered.Answered?
  {
    var key := answered.key;
    r in w.requests
    && match w.requests[r]
       case Done(k, Replied(rec, replayed)) =>
         k == key && !replayed && key in w.table && w.table[key] == rec && Records(rec, answered.answer)
       case Dead(k) => k == key
       case _ => w.requests[r] == answered
  }

  lemma KeptByOwner(kinds: set<string>, w: Runtime, r: nat, step: Step, answered: Request)
    requires answered.Answered? && Kept(w, r, answered) && (IsEarly(step) || IsLate(step))
    requires RequestOk(w, r, w.requests[r])
    ensures Kept(Advance(kinds, w, r, step), r, answered)
  {
  }

  lemma KeptByOthers(kinds: set<string>, w: Runtime, r: nat, step: Step, answered: Request)
    requires Inv(w) && answered.Answered? && Kept(w, r, answered) && NotBy([step], r)
    ensures Kept(Next(kinds, w, step), r, answered)
  {
    OtherStepLeaves(kinds, w, step, r);
    if answered.key in w.table {
      ForwardNext(kinds, w, step, answered.key);
    }
  }

  lemma KeptNext(kinds: set<string>, w: Runtime, r: nat, step: Step, answered: Request)
    requires Inv(w) && answered.Answered? && Kept(w, r, answered)
    ensures Kept(Next(kinds, w, step), r, answered)
  {
    if step.CreateConnector? || step.ChangeConnector? || step.r != r {
      assert NotBy([step], r);
      KeptByOthers(kinds, w, r, step, answered);
    } else if !step.Arrive? {
      OwnStep(kinds, w, r, step);
      assert RequestOk(w, r, w.requests[r]);
      KeptByOwner(kinds, w, r, step, answered);
    }
  }

  /** Whatever happens next, an adapter's answer is either not recorded, its request having died or not got
      there yet, or recorded as what it was: the result returned; a timeout, if the deadline passed; a
      retryable upstream error, if the adapter raised. A result that is not final is never recorded. */
  lemma {:induction false} AnswersAreRecorded(kinds: set<string>, w: Runtime, steps: seq<Step>, r: nat,
          answered: Request)
    requires Inv(w) && answered.Answered? && Kept(w, r, answered)
    ensures Kept(Run(kinds, w, steps), r, answered)
    decreases |steps|
  {
    if steps != [] {
      InvNext(kinds, w, steps[0]);
      KeptNext(kinds, w, r, steps[0], answered);
      AnswersAreRecorded(kinds, Next(kinds, w, steps[0]), steps[1..], r, answered);
    }
  }

  // ---------------------------------------------------------------- refusals

  ghost predicate HadStatus(connectors: map<nat, C.Connector>, id: nat, status: State) {
    exists v :: WasAt(connectors, id, v, status)
  }

  /** A refusal names a status the connector has had, not the serving one, under that status's code. */
  ghost predicate RefusalTells(connectors: map<nat, C.Connector>, req: Request) {
    req.Done? && req.response.Refused? ==>
      var status, http := req.response.status, req.response.http;
      && status != Enabled && HadStatus(connectors, req.key.connector, status)
      && (http == 403 <==> status == Revoked)
      && (http == 410 <==> status == Archived || status == Deleted)
      && (http == 409 <==> status != Revoked && status != Archived && status != Deleted)
  }

  ghost predicate RefusalsTell(w: Runtime) {
    forall r | r in w.requests :: RefusalTells(w.connectors, w.requests[r])
  }

  lemma RefusalsStay(before: map<nat, C.Connector>, after: map<nat, C.Connector>, req: Request)
    requires HistoryGrows(before, after) && RefusalTells(before, req)
    ensures RefusalTells(after, req)
  {
    if req.Done? && req.response.Refused? {
      var v :| WasAt(before, req.key.connector, v, req.response.status);
      WasAtStays(before, after, req.key.connector, v, req.response.status);
    }
  }

  lemma CheckTells(connectors: map<nat, C.Connector>, key: Key, view: View)
    requires ViewOk(connectors, HasRead(key, view))
    ensures RefusalTells(connectors, DoCheck(key, view))
  {
  }

  lemma OwnStepTells(kinds: set<string>, w: Runtime, r: nat, step: Step)
    requires r in w.requests && (IsEarly(step) || IsLate(step))
    requires RefusalTells(w.connectors, w.requests[r]) && ViewOk(w.connectors, w.requests[r])
    ensures var w' := Advance(kinds, w, r, step); r in w'.requests && RefusalTells(w.connectors, w'.requests[r])
  {
    if step.Check? && w.requests[r].HasRead? {
      CheckTells(w.connectors, w.requests[r].key, w.requests[r].view);
    }
  }

  lemma AdvanceTells(kinds: set<string>, w: Runtime, q: nat, step: Step, r: nat)
    requires q in w.requests && (IsEarly(step) || IsLate(step)) && RefusalsTell(w)
    requires ViewOk(w.connectors, w.requests[q])
    ensures var w' := Advance(kinds, w, q, step);
            w'.connectors == w.connectors && (r in w'.requests ==> RefusalTells(w.connectors, w'.requests[r]))
  {
    OwnStepTells(kinds, w, q, step);
    if IsEarly(step) {
      EarlyMovesOnly(kinds, w, q, step, r);
    } else {
      LateMovesOnly(kinds, w, q, step, r);
    }
  }

  lemma CreationGrowsHistory(kinds: set<string>, w: Runtime, step: Step)
    requires step.CreateConnector?
    ensures var w' := Next(kinds, w, step); HistoryGrows(w.connectors, w'.connectors) && w'.requests == w.requests
  {
  }

  lemma ChangeGrowsHistory(kinds: set<string>, w: Runtime, step: Step)
    requires PinInv(w) && step.ChangeConnector?
    ensures var w' := Next(kinds, w, step); HistoryGrows(w.connectors, w'.connectors) && w'.requests == w.requests
  {
    if step.id in w.connectors {
      TransactKeepsHistory(w.connectors[step.id], step.req);
    }
  }

  lemma HistoryGrowsNext(kinds: set<string>, w: Runtime, step: Step)
    requires PinInv(w) && (step.CreateConnector? || step.ChangeConnector?)
    ensures var w' := Next(kinds, w, step); HistoryGrows(w.connectors, w'.connectors) && w'.requests == w.requests
  {
    if step.CreateConnector? {
      CreationGrowsHistory(kinds, w, step);
    } else {
      ChangeGrowsHistory(kinds, w, step);
    }
  }

  lemma RefusalsNext(kinds: set<string>, w: Runtime, step: Step, r: nat)
    requires PinInv(w) && RefusalsTell(w)
    ensures var w' := Next(kinds, w, step); r in w'.requests ==> RefusalTells(w'.connectors, w'.requests[r])
  {
    if step.CreateConnector? || step.ChangeConnector? {
      ChangeTells(kinds, w, step, r);
    } else if !step.Arrive? && step.r in w.requests {
      OwnStep(kinds, w, step.r, step);
      AdvanceTells(kinds, w, step.r, step, r);
    }
  }

  lemma ChangeTells(kinds: set<string>, w: Runtime, step: Step, r: nat)
    requires PinInv(w) && RefusalsTell(w) && (step.CreateConnector? || step.ChangeConnector?)
    ensures var w' := Next(kinds, w, step); r in w'.requests ==> RefusalTells(w'.connectors, w'.requests[r])
  {
    HistoryGrowsNext(kinds, w, step);
    if r in w.requests {
      RefusalsStay(w.connectors, Next(kinds, w, step).connectors, w.requests[r]);
    }
  }

  lemma {:induction false} RefusalsRun(kinds: set<string>, w: Runtime, steps: seq<Step>)
    requires PinInv(w) && RefusalsTell(w)
    ensures RefusalsTell(Run(kinds, w, steps))
    decreases |steps|
  {
    if steps != [] {
      var next := Next(kinds, w, steps[0]);
      PinNext(kinds, w, steps[0]);
      forall r | r in next.requests
        ensures RefusalTells(next.connectors, next.requests[r])
      {
        RefusalsNext(kinds, w, steps[0], r);
      }
      RefusalsRun(kinds, next, steps[1..]);
    }
  }

  /** In every reachable state, a refused request is told a status its connector has had and in which it did
      not serve: with 403 for revoked, 410 for archived and deleted, 409 for every other. */
  lemma RefusalsMean(kinds: set<string>, steps: seq<Step>, r: nat)
    ensures var w := Run(kinds, INITIAL, steps); r in w.requests ==> RefusalTells(w.connectors, w.requests[r])
  {
    RefusalsRun(kinds, INITIAL, steps);
  }
}
