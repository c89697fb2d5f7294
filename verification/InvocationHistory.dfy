/** What holds of every interleaving of invocation requests, connector changes and crashes. */
module InvocationHistory {
  import opened Options
  import opened Lifecycle
  import C = Connectors
  import ConnectorHistory
  import opened Invocations

  // ---------------------------------------------------------------- at most once

  /** The adapter runs at most once per tenant, connector and idempotency key; every reply about a
      key carries the one row of that key, replays included; and `accept` always finds the winner's row
      after losing the insert race. */
  lemma AtMostOnce(kinds: set<string>, steps: seq<Step>)
    ensures var w := Run(kinds, INITIAL, steps);
            && (forall i, j | 0 <= i < j < |w.calls| :: w.calls[i] != w.calls[j])
            && (forall r | r in w.requests && w.requests[r].Done? && w.requests[r].response.Replied? ::
                  w.requests[r].key in w.table && w.requests[r].response.record.id == w.table[w.requests[r].key].id)
            && (forall r | r in w.requests && w.requests[r].Done? :: !w.requests[r].response.ServerError?)
  {
    InvInitially();
    InvRun(kinds, INITIAL, steps);
    var w := Run(kinds, INITIAL, steps);
    forall r | r in w.requests && w.requests[r].Done?
      ensures RequestOk(w, r, w.requests[r])
    {
    }
  }

  // ---------------------------------------------------------------- rows only move forward

  /** Identity and pinned version never change; the status moves accepted, running, final, or
      straight to final; a final row is frozen. */
  ghost predicate Forward(a: Record, b: Record) {
    && a.id == b.id && a.connectorVersion == b.connectorVersion && a.kind == b.kind
    && a.version <= b.version
    && (a.status.Final() ==> b == a)
    && (a.status.Running? ==> !b.status.Accepted?)
    && (a.version == b.version ==> a == b)
  }

  lemma ForwardEarly(kinds: set<string>, w: Runtime, r: nat, step: Step, key: Key)
    requires r in w.requests && IsEarly(step) && key in w.table
    requires w.requests[r].Inserted? ==> w.requests[r].key != key
    ensures var w' := Advance(kinds, w, r, step); key in w'.table && w'.table[key] == w.table[key]
  {
  }

  lemma ForwardSave(w: Runtime, r: nat, k: Key, rec: Record, next: Request, key: Key)
    requires key in w.table && k in w.table && Forward(w.table[k], rec)
    ensures var w' := Save(w, r, k, rec, next); key in w'.table && Forward(w.table[key], w'.table[key])
  {
  }

  lemma ForwardLate(kinds: set<string>, w: Runtime, r: nat, step: Step, key: Key)
    requires r in w.requests && IsLate(step) && RequestOk(w, r, w.requests[r]) && key in w.table
    ensures var w' := Advance(kinds, w, r, step); key in w'.table && Forward(w.table[key], w'.table[key])
  {
    var req := w.requests[r];
    match step
    case Start(_) =>
      if req.Owner? {
        var done := FinishedRecord(w.table[req.key], UNKNOWN_KIND);
        ForwardSave(w, r, req.key, done, Done(req.key, Replied(done, false)), key);
        ForwardSave(w, r, req.key, StartedRecord(w.table[req.key]), Started(req.key, req.view), key);
      }
    case Finish(_) =>
      if req.Answered? && ResultOf(req.answer).status.Final() {
        var done := FinishedRecord(w.table[req.key], ResultOf(req.answer));
        ForwardSave(w, r, req.key, done, Done(req.key, Replied(done, false)), key);
      }
    case _ =>
  }

  lemma ForwardAdvance(kinds: set<string>, w: Runtime, r: nat, step: Step, key: Key)
    requires r in w.requests && RequestOk(w, r, w.requests[r]) && key in w.table && (IsEarly(step) || IsLate(step))
    requires w.requests[r].Inserted? ==> w.requests[r].key != key
    ensures var w' := Advance(kinds, w, r, step); key in w'.table && Forward(w.table[key], w'.table[key])
  {
    if IsEarly(step) {
      ForwardEarly(kinds, w, r, step, key);
    } else {
      ForwardLate(kinds, w, r, step, key);
    }
  }

  /** What a request owes the rows of the table. */
  ghost predicate Honours(w: Runtime, r: nat, key: Key) {
    r in w.requests ==> RequestOk(w, r, w.requests[r]) && (w.requests[r].Inserted? ==> w.requests[r].key != key)
  }

  lemma RequestsHonourRows(w: Runtime, r: nat, key: Key)
    requires Inv(w) && key in w.table
    ensures Honours(w, r, key)
  {
    assert RowOk(w, key);
    assert r in w.requests ==> RequestOk(w, r, w.requests[r]);
  }

  lemma ForwardStep(kinds: set<string>, w: Runtime, step: Step, key: Key)
    requires key in w.table
    requires step.CreateConnector? || step.ChangeConnector? || Honours(w, step.r, key)
    ensures var w' := Next(kinds, w, step); key in w'.table && Forward(w.table[key], w'.table[key])
  {
    match step
    case CreateConnector(_, _, _, _, _) =>
    case ChangeConnector(_, _) =>
    case Arrive(_, _) =>
    case _ => if step.r in w.requests { ForwardAdvance(kinds, w, step.r, step, key); }
  }

  lemma ForwardNext(kinds: set<string>, w: Runtime, step: Step, key: Key)
    requires Inv(w) && key in w.table
    ensures var w' := Next(kinds, w, step); key in w'.table && Forward(w.table[key], w'.table[key])
  {
    if !step.CreateConnector? && !step.ChangeConnector? {
      RequestsHonourRows(w, step.r, key);
    }
    ForwardStep(kinds, w, step, key);
  }

  lemma {:induction false} RowsMoveForward(kinds: set<string>, w: Runtime, steps: seq<Step>, key: Key)
    requires Inv(w) && key in w.table
    ensures var w' := Run(kinds, w, steps); key in w'.table && Forward(w.table[key], w'.table[key])
    decreases |steps|
  {
    if steps != [] {
      InvNext(kinds, w, steps[0]);
      ForwardNext(kinds, w, steps[0], key);
      RowsMoveForward(kinds, Next(kinds, w, steps[0]), steps[1..], key);
    }
  }

  /** In every reachable state a row's events carry versions 1 to n with n its own version, at most
      three, from accepted through running to its current status. */
  lemma EventsTellTheRow(kinds: set<string>, steps: seq<Step>, key: Key)
    ensures var w := Run(kinds, INITIAL, steps);
            key in w.table ==>
              && key in w.events && w.table[key].version <= 3 && EventsOk(w.events[key], w.table[key])
              && w.events[key][w.table[key].version - 1].status == w.table[key].status
              && forall i | 0 <= i < |w.events[key]| :: w.events[key][i].id == w.table[key].id
  {
    InvInitially();
    InvRun(kinds, INITIAL, steps);
    var w := Run(kinds, INITIAL, steps);
    if key in w.table {
      assert RowOk(w, key);
    }
  }

  lemma Reply(w: Runtime, r: nat)
    requires Inv(w) && r in w.requests && w.requests[r].Done? && w.requests[r].response.Replied?
    ensures var key, rec := w.requests[r].key, w.requests[r].response.record;
            key in w.table && rec.id == w.table[key].id && (rec.status.Final() ==> rec == w.table[key])
  {
    assert RequestOk(w, r, w.requests[r]);
  }

  /** Two final replies about one key, fresh or replayed, have the same body and the same HTTP status. */
  lemma RepliesAgree(kinds: set<string>, steps: seq<Step>, q: nat, r: nat)
    requires var w := Run(kinds, INITIAL, steps);
             && q in w.requests && r in w.requests && w.requests[q].key == w.requests[r].key
             && w.requests[q].Done? && w.requests[q].response.Replied? && w.requests[q].response.record.status.Final()
             && w.requests[r].Done? && w.requests[r].response.Replied? && w.requests[r].response.record.status.Final()
    ensures var w := Run(kinds, INITIAL, steps);
            && w.requests[q].response.record == w.requests[r].response.record
            && HttpStatus(w.requests[q].response.record.status) == HttpStatus(w.requests[r].response.record.status)
  {
    InvInitially();
    InvRun(kinds, INITIAL, steps);
    Reply(Run(kinds, INITIAL, steps), q);
    Reply(Run(kinds, INITIAL, steps), r);
  }

  // ---------------------------------------------------------------- the pinned version

  /** Event number v of the connector recorded this status. */
  ghost predicate WasAt(connectors: map<nat, C.Connector>, id: nat, v: int, status: State) {
    id in connectors && 1 <= v <= |connectors[id].events| && connectors[id].events[v - 1].Status() == status
  }

  ghost predicate ViewOk(connectors: map<nat, C.Connector>, req: Request) {
    match req
    case HasRead(key, view) => WasAt(connectors, key.connector, view.version, view.status)
    case Cleared(key, view) => WasAt(connectors, key.connector, view.version, Enabled)
    case Missed(key, view) => WasAt(connectors, key.connector, view.version, Enabled)
    case Inserted(key, view) => WasAt(connectors, key.connector, view.version, Enabled)
    case _ => true
  }

  ghost predicate AllNumbered(w: Runtime) { forall id | id in w.connectors :: C.Numbered(w.connectors[id]) }

  ghost predicate ViewsOk(w: Runtime) { forall r | r in w.requests :: ViewOk(w.connectors, w.requests[r]) }

  ghost predicate RowsPinned(w: Runtime) {
    forall key | key in w.table :: WasAt(w.connectors, key.connector, w.table[key].connectorVersion, Enabled)
  }

  ghost predicate PinInv(w: Runtime) { AllNumbered(w) && ViewsOk(w) && RowsPinned(w) }

  lemma TransactKeepsHistory(c: C.Connector, req: C.Request)
    requires C.Numbered(c)
    ensures var c' := C.Transact(c, req).0; C.Numbered(c') && c.events <= c'.events
  {
    if req.Transit? {
      var look := Find(c.status, req.target, req.event);
      if look.Found? {
        C.MoveKeepsNumbered(c, look.transition, req);
      }
    }
  }

  lemma PinAt(w: Runtime, r: nat, next: Request)
    requires PinInv(w) && ViewOk(w.connectors, next)
    ensures PinInv(At(w, r, next))
  {
  }

  lemma PinSave(w: Runtime, r: nat, key: Key, rec: Record, next: Request)
    requires PinInv(w) && ViewOk(w.connectors, next)
          && WasAt(w.connectors, key.connector, rec.connectorVersion, Enabled)
    ensures PinInv(Save(w, r, key, rec, next))
  {
  }

  lemma PinFlush(w: Runtime, r: nat, key: Key, view: View)
    requires PinInv(w) && ViewOk(w.connectors, Missed(key, view))
    ensures PinInv(DoFlush(w, r, key, view))
  {
    PinAt(w, r, Collided(key));
    PinAt(w, r, Inserted(key, view));
  }

  lemma PinStart(kinds: set<string>, w: Runtime, r: nat, key: Key, view: View)
    requires PinInv(w)
    ensures PinInv(DoStart(kinds, w, r, key, view))
  {
    if key in w.table {
      var rec := FinishedRecord(w.table[key], UNKNOWN_KIND);
      PinSave(w, r, key, rec, Done(key, Replied(rec, false)));
      PinSave(w, r, key, StartedRecord(w.table[key]), Started(key, view));
    }
  }

  lemma PinFinish(w: Runtime, r: nat, key: Key, answer: Answer)
    requires PinInv(w)
    ensures PinInv(DoFinish(w, r, key, answer))
  {
    if key in w.table {
      var rec := FinishedRecord(w.table[key], ResultOf(answer));
      PinSave(w, r, key, rec, Done(key, Replied(rec, false)));
      PinAt(w, r, Dead(key));
    }
  }

  // The steps that read the connector, or pin what was read.
  lemma PinEarly(kinds: set<string>, w: Runtime, r: nat, step: Step)
    requires PinInv(w) && r in w.requests && ViewOk(w.connectors, w.requests[r])
    requires IsEarly(step)
    ensures PinInv(Advance(kinds, w, r, step))
  {
    var req := w.requests[r];
    match step
    case Read(_, kind) => if req.Fresh? { PinAt(w, r, DoRead(w, req.key, kind)); }
    case Check(_) => if req.HasRead? { PinAt(w, r, DoCheck(req.key, req.view)); }
    case Lookup(_) => if req.Cleared? { PinAt(w, r, DoLookup(w, req.key, req.view)); }
    case Flush(_) => if req.Missed? { PinFlush(w, r, req.key, req.view); }
    case Recover(_) => if req.Collided? { PinAt(w, r, DoRecover(w, req.key)); }
    case CommitAccept(_) =>
      if req.Inserted? { PinSave(w, r, req.key, NewRecord(r, req.view), Owner(req.key, req.view)); }
  }

  lemma PinInvoke(w: Runtime, r: nat, key: Key, view: View, answer: Answer)
    requires PinInv(w)
    ensures PinInv(DoInvoke(w, r, key, view, answer))
  {
    PinAt(w, r, Answered(key, view, answer));
  }

  lemma PinDie(w: Runtime, r: nat, req: Request)
    requires PinInv(w)
    ensures PinInv(DoDie(w, r, req))
  {
    PinAt(w, r, Dead(req.key));
  }

  // What a late step makes of the runtime.
  lemma LateEffect(kinds: set<string>, w: Runtime, r: nat, step: Step)
    requires r in w.requests && IsLate(step)
    ensures var req, w' := w.requests[r], Advance(kinds, w, r, step);
            || w' == w
            || (step.Start? && req.Owner? && w' == DoStart(kinds, w, r, req.key, req.view))
            || (step.Invoke? && req.Started? && w' == DoInvoke(w, r, req.key, req.view, step.answer))
            || (step.Finish? && req.Answered? && w' == DoFinish(w, r, req.key, req.answer))
            || (step.Die? && w' == DoDie(w, r, req))
  {
  }

  lemma PinLate(kinds: set<string>, w: Runtime, r: nat, step: Step)
    requires PinInv(w) && r in w.requests && IsLate(step)
    ensures PinInv(Advance(kinds, w, r, step))
  {
    var req := w.requests[r];
    LateEffect(kinds, w, r, step);
    if step.Start? && req.Owner? {
      PinStart(kinds, w, r, req.key, req.view);
    } else if step.Invoke? && req.Started? {
      PinInvoke(w, r, req.key, req.view, step.answer);
    } else if step.Finish? && req.Answered? {
      PinFinish(w, r, req.key, req.answer);
    } else if step.Die? {
      PinDie(w, r, req);
    }
  }

  lemma PinAdvance(kinds: set<string>, w: Runtime, r: nat, step: Step)
    requires PinInv(w) && r in w.requests
    requires !step.CreateConnector? && !step.ChangeConnector? && !step.Arrive?
    ensures PinInv(Advance(kinds, w, r, step))
  {
    if IsLate(step) {
      PinLate(kinds, w, r, step);
    } else {
      PinEarly(kinds, w, r, step);
    }
  }

  lemma PinConnectors(w: Runtime, connectors: map<nat, C.Connector>)
    requires PinInv(w)
    requires forall id | id in connectors :: C.Numbered(connectors[id])
    requires HistoryGrows(w.connectors, connectors)
    ensures PinInv(w.(connectors := connectors))
  {
    forall r | r in w.requests
      ensures ViewOk(connectors, w.requests[r])
    {
      assert ViewOk(w.connectors, w.requests[r]);
      ViewStaysOk(w.connectors, connectors, w.requests[r]);
    }
    forall key | key in w.table
      ensures WasAt(connectors, key.connector, w.table[key].connectorVersion, Enabled)
    {
      WasAtStays(w.connectors, connectors, key.connector, w.table[key].connectorVersion, Enabled);
    }
  }

  /** Connectors only gain events. */
  ghost predicate HistoryGrows(before: map<nat, C.Connector>, after: map<nat, C.Connector>) {
    forall id | id in before :: id in after && before[id].events <= after[id].events
  }

  lemma WasAtStays(before: map<nat, C.Connector>, after: map<nat, C.Connector>, id: nat, v: int, status: State)
    requires HistoryGrows(before, after) && WasAt(before, id, v, status)
    ensures WasAt(after, id, v, status)
  {
  }

  lemma ViewStaysOk(before: map<nat, C.Connector>, after: map<nat, C.Connector>, req: Request)
    requires HistoryGrows(before, after) && ViewOk(before, req)
    ensures ViewOk(after, req)
  {
  }

  lemma PinChange(w: Runtime, id: nat, req: C.Request)
    requires PinInv(w) && id in w.connectors
    ensures PinInv(w.(connectors := w.connectors[id := C.Transact(w.connectors[id], req).0]))
  {
    TransactKeepsHistory(w.connectors[id], req);
    PinConnectors(w, w.connectors[id := C.Transact(w.connectors[id], req).0]);
  }

  lemma PinCreate(w: Runtime, id: nat, c: C.Connector)
    requires PinInv(w) && id !in w.connectors && C.Numbered(c)
    ensures PinInv(w.(connectors := w.connectors[id := c]))
  {
    PinConnectors(w, w.connectors[id := c]);
  }

  lemma PinNext(kinds: set<string>, w: Runtime, step: Step)
    requires PinInv(w)
    ensures PinInv(Next(kinds, w, step))
  {
    match step
    case ChangeConnector(id, req) => if id in w.connectors { PinChange(w, id, req); }
    case CreateConnector(id, tenant, actor, status, valid) =>
      var made := C.Create(tenant, actor, status, valid);
      if made.Some? && id !in w.connectors {
        C.CreateEstablishes(tenant, actor, status, valid);
        PinCreate(w, id, made.value);
      }
    case Arrive(r, key) => PinAt(w, r, Fresh(key));
    case _ => if step.r in w.requests { PinAdvance(kinds, w, step.r, step); }
  }

  lemma {:induction false} PinRun(kinds: set<string>, w: Runtime, steps: seq<Step>)
    requires PinInv(w)
    ensures PinInv(Run(kinds, w, steps))
    decreases |steps|
  {
    if steps != [] {
      PinNext(kinds, w, steps[0]);
      PinRun(kinds, Next(kinds, w, steps[0]), steps[1..]);
    }
  }

  /** Every invocation ever accepted pins a version at which its connector was enabled. */
  lemma AcceptedWhenEnabled(kinds: set<string>, steps: seq<Step>, key: Key)
    ensures var w := Run(kinds, INITIAL, steps);
            key in w.table ==> WasAt(w.connectors, key.connector, w.table[key].connectorVersion, Enabled)
  {
    PinRun(kinds, INITIAL, steps);
  }

  // ---------------------------------------------------------------- revocation

  /** A request that will never reach an adapter. */
  ghost predicate ShutOut(req: Request) {
    match req
    case Fresh(_) => true
    case HasRead(_, view) => !IsExecutable(view.status)
    case Done(_, response) => response.Refused? || response.NotFound?
    case Dead(_) => true
    case _ => false
  }

  /** A step of request q leaves the connectors, the keys and the other requests alone. */
  ghost predicate MovesOnly(w: Runtime, w': Runtime, q: nat, r: nat)
    requires q in w.requests
  {
    && w'.connectors == w.connectors && q in w'.requests && w'.requests[q].key == w.requests[q].key
    && (r != q ==> (r in w'.requests <==> r in w.requests) && (r in w.requests ==> w'.requests[r] == w.requests[r]))
  }

  lemma ReadMovesOnly(kinds: set<string>, w: Runtime, q: nat, step: Step, r: nat)
    requires q in w.requests && (step.Read? || step.Check? || step.Lookup? || step.Recover?)
    ensures MovesOnly(w, Advance(kinds, w, q, step), q, r)
  {
  }

  lemma InsertMovesOnly(kinds: set<string>, w: Runtime, q: nat, step: Step, r: nat)
    requires q in w.requests && (step.Flush? || step.CommitAccept?)
    ensures MovesOnly(w, Advance(kinds, w, q, step), q, r)
  {
  }

  lemma EarlyMovesOnly(kinds: set<string>, w: Runtime, q: nat, step: Step, r: nat)
    requires q in w.requests && IsEarly(step)
    ensures MovesOnly(w, Advance(kinds, w, q, step), q, r)
  {
    if step.Flush? || step.CommitAccept? {
      InsertMovesOnly(kinds, w, q, step, r);
    } else {
      ReadMovesOnly(kinds, w, q, step, r);
    }
  }

  lemma LateMovesOnly(kinds: set<string>, w: Runtime, q: nat, step: Step, r: nat)
    requires q in w.requests && IsLate(step)
    ensures MovesOnly(w, Advance(kinds, w, q, step), q, r)
  {
  }

  /** Steps taken by anybody but request r. */
  predicate NotBy(steps: seq<Step>, r: nat) {
    forall i | 0 <= i < |steps| :: steps[i].CreateConnector? || steps[i].ChangeConnector? || steps[i].r != r
  }

  lemma OtherStepLeaves(kinds: set<string>, w: Runtime, step: Step, r: nat)
    requires r in w.requests && NotBy([step], r)
    ensures var w' := Next(kinds, w, step); r in w'.requests && w'.requests[r] == w.requests[r]
  {
    assert [step][0] == step;
    match step
    case CreateConnector(_, _, _, _, _) =>
    case ChangeConnector(_, _) =>
    case Arrive(_, _) =>
    case _ => if step.r in w.requests { OtherAdvanceLeaves(kinds, w, step.r, step, r); }
  }

  lemma OtherAdvanceLeaves(kinds: set<string>, w: Runtime, q: nat, step: Step, r: nat)
    requires q in w.requests && r in w.requests && r != q && (IsEarly(step) || IsLate(step))
    ensures var w' := Advance(kinds, w, q, step); r in w'.requests && w'.requests[r] == w.requests[r]
  {
    if IsEarly(step) {
      EarlyMovesOnly(kinds, w, q, step, r);
    } else {
      LateMovesOnly(kinds, w, q, step, r);
    }
  }

  /** Nobody else moves a request. */
  lemma {:induction false} OthersLeave(kinds: set<string>, w: Runtime, steps: seq<Step>, r: nat)
    requires r in w.requests && NotBy(steps, r)
    ensures var w' := Run(kinds, w, steps); r in w'.requests && w'.requests[r] == w.requests[r]
    decreases |steps|
  {
    if steps != [] {
      assert [steps[0]][0] == steps[0];
      OtherStepLeaves(kinds, w, steps[0], r);
      OthersLeave(kinds, Next(kinds, w, steps[0]), steps[1..], r);
    }
  }

  lemma ShutOutSelf(kinds: set<string>, w: Runtime, r: nat, step: Step)
    requires r in w.requests && w.requests[r].key.connector in w.connectors && ShutOut(w.requests[r])
    requires w.connectors[w.requests[r].key.connector].status in RETIRED
    requires IsEarly(step) || IsLate(step)
    ensures var w' := Advance(kinds, w, r, step); r in w'.requests && ShutOut(w'.requests[r])
  {
  }

  lemma ShutOutAdvance(kinds: set<string>, w: Runtime, q: nat, step: Step, r: nat, id: nat)
    requires IsEarly(step) || IsLate(step)
    requires id in w.connectors && w.connectors[id].status in RETIRED && q in w.requests
    requires r in w.requests && w.requests[r].key.connector == id ==> ShutOut(w.requests[r])
    ensures var w' := Advance(kinds, w, q, step);
            && w'.connectors == w.connectors
            && (r in w'.requests && w'.requests[r].key.connector == id ==> ShutOut(w'.requests[r]))
  {
    if IsEarly(step) {
      EarlyMovesOnly(kinds, w, q, step, r);
    } else {
      LateMovesOnly(kinds, w, q, step, r);
    }
    if r == q && w.requests[r].key.connector == id {
      ShutOutSelf(kinds, w, r, step);
    }
  }

  lemma RetiredStays(w: Runtime, c: nat, req: C.Request, id: nat)
    requires id in w.connectors && w.connectors[id].status in RETIRED
    ensures c in w.connectors ==>
              w.connectors[c := C.Transact(w.connectors[c], req).0][id].status in RETIRED
  {
    if c == id {
      ConnectorHistory.RetiredNext(w.connectors[id], req);
    }
  }

  lemma ShutOutNext(kinds: set<string>, w: Runtime, step: Step, r: nat, id: nat)
    requires id in w.connectors && w.connectors[id].status in RETIRED
    requires r in w.requests && w.requests[r].key.connector == id ==> ShutOut(w.requests[r])
    ensures var w' := Next(kinds, w, step);
            && id in w'.connectors && w'.connectors[id].status in RETIRED
            && (r in w'.requests && w'.requests[r].key.connector == id ==> ShutOut(w'.requests[r]))
  {
    match step
    case ChangeConnector(c, req) => RetiredStays(w, c, req, id);
    case CreateConnector(_, _, _, _, _) =>
    case Arrive(_, _) =>
    case _ => if step.r in w.requests { ShutOutAdvance(kinds, w, step.r, step, r, id); }
  }

  /** A request that had not read the connector when it was revoked, archived, deleted or marked for
      deletion, or had read it in a state that does not serve, is refused, or dies: for ever, and
      whatever else happens. Requests that arrive later are included. */
  lemma {:induction false} RevocationStopsNewUse(kinds: set<string>, w: Runtime, steps: seq<Step>, r: nat, id: nat)
    requires id in w.connectors && w.connectors[id].status in RETIRED
    requires r in w.requests && w.requests[r].key.connector == id ==> ShutOut(w.requests[r])
    ensures var w' := Run(kinds, w, steps);
            r in w'.requests && w'.requests[r].key.connector == id ==> ShutOut(w'.requests[r])
    decreases |steps|
  {
    if steps != [] {
      ShutOutNext(kinds, w, steps[0], r, id);
      RevocationStopsNewUse(kinds, Next(kinds, w, steps[0]), steps[1..], r, id);
    }
  }

  lemma TwoSteps(kinds: set<string>, w: Runtime, a: Step, b: Step)
    ensures Run(kinds, w, [a, b]) == Next(kinds, Next(kinds, w, a), b)
  {
    assert [a, b][1..] == [b] && [b][1..] == [];
    assert Run(kinds, Next(kinds, w, a), [b]) == Run(kinds, Next(kinds, Next(kinds, w, a), b), []);
  }

  /** Revocation does not reach a request that had already read the row as enabled. Whatever the
      connector's status is by now, the request can still be accepted under the version it read, and
      its adapter called: the guarantee is about the version read, not the moment of acceptance. */
  lemma StaleReadStillRuns(kinds: set<string>, w: Runtime, r: nat, answer: Answer)
    requires r in w.requests && w.requests[r].HasRead?
    requires w.requests[r].view.status == Enabled && w.requests[r].view.kind in kinds
    requires w.requests[r].key !in w.table && w.requests[r].key !in w.inserting
    ensures var key, view := w.requests[r].key, w.requests[r].view;
            var inserted := Run(kinds, Run(kinds, w, [Check(r), Lookup(r)]), [Flush(r), CommitAccept(r)]);
            var called := Run(kinds, inserted, [Start(r), Invoke(r, answer)]);
            && called.calls == w.calls + [key]
            && called.table == w.table[key := StartedRecord(NewRecord(r, view))]
            && called.connectors == w.connectors
  {
    StaleReadIsCleared(kinds, w, r);
    var missed := At(w, r, Missed(w.requests[r].key, w.requests[r].view));
    MissIsAccepted(kinds, missed, r);
    OwnerIsCalled(kinds, Run(kinds, missed, [Flush(r), CommitAccept(r)]), r, answer);
  }

  lemma StaleReadIsCleared(kinds: set<string>, w: Runtime, r: nat)
    requires r in w.requests && w.requests[r].HasRead? && w.requests[r].view.status == Enabled
    requires w.requests[r].key !in w.table
    ensures Run(kinds, w, [Check(r), Lookup(r)]) == At(w, r, Missed(w.requests[r].key, w.requests[r].view))
  {
    TwoSteps(kinds, w, Check(r), Lookup(r));
    assert Next(kinds, w, Check(r)) == At(w, r, Cleared(w.requests[r].key, w.requests[r].view));
  }

  lemma MissIsAccepted(kinds: set<string>, w: Runtime, r: nat)
    requires r in w.requests && w.requests[r].Missed? && w.requests[r].key !in w.table
          && w.requests[r].key !in w.inserting
    ensures var key, view := w.requests[r].key, w.requests[r].view;
            var w' := Run(kinds, w, [Flush(r), CommitAccept(r)]);
            && w'.table == w.table[key := NewRecord(r, view)] && w'.calls == w.calls && w'.connectors == w.connectors
            && r in w'.requests && w'.requests[r] == Owner(key, view)
  {
    TwoSteps(kinds, w, Flush(r), CommitAccept(r));
    assert Next(kinds, w, Flush(r)).requests[r].Inserted?;
  }

  lemma OwnerIsCalled(kinds: set<string>, w: Runtime, r: nat, answer: Answer)
    requires r in w.requests && w.requests[r].Owner? && w.requests[r].key in w.table && w.requests[r].view.kind in kinds
    ensures var key := w.requests[r].key;
            var w' := Run(kinds, w, [Start(r), Invoke(r, answer)]);
            && w'.table == w.table[key := StartedRecord(w.table[key])] && w'.calls == w.calls + [key]
            && w'.connectors == w.connectors
  {
    TwoSteps(kinds, w, Start(r), Invoke(r, answer));
    assert Next(kinds, w, Start(r)).requests[r].Started?;
  }

  lemma {:induction false} RunAppend(kinds: set<string>, w: Runtime, a: seq<Step>, b: seq<Step>)
    ensures Run(kinds, w, a + b) == Run(kinds, Run(kinds, w, a), b)
    decreases |a|
  {
    if a == [] {
      assert a + b == b;
    } else {
      assert (a + b)[0] == a[0] && (a + b)[1..] == a[1..] + b;
      RunAppend(kinds, Next(kinds, w, a[0]), a[1..], b);
    }
  }

  /** A connector is created enabled; a request reads it; then it is revoked. */
  function ReadThenRevoked(key: Key, kind: string, actor: string, reason: string): seq<Step> {
    [CreateConnector(key.connector, key.tenant, actor, Enabled, true), Arrive(0, key)]
    + [Read(0, kind),
       ChangeConnector(key.connector,
           C.Transit(Revoked, Some(RevokedEvent), key.tenant, actor, Some(reason), None, 0.0))]
  }

  lemma RevokingWorks(c: C.Connector, req: C.Request)
    requires c.status == Enabled && req.Transit? && req.tenant == c.tenant
    requires req.target == Revoked && req.event == Some(RevokedEvent) && C.HasReason(req.reason)
    ensures C.Transact(c, req).0.status == Revoked
  {
    FindIsComplete(TRANSITIONS[16], Some(RevokedEvent));
  }

  lemma ReadThenRevokedState(kinds: set<string>, key: Key, kind: string, actor: string, reason: string)
    requires C.HasReason(Some(reason))
    ensures var w := Run(kinds, INITIAL, ReadThenRevoked(key, kind, actor, reason));
            && key.connector in w.connectors && w.connectors[key.connector].status == Revoked
            && 0 in w.requests && w.requests[0] == HasRead(key, View(Enabled, 1, kind))
            && w.table == map[] && w.inserting == map[] && w.calls == []
  {
    var create := CreateConnector(key.connector, key.tenant, actor, Enabled, true);
    var revoke := C.Transit(Revoked, Some(RevokedEvent), key.tenant, actor, Some(reason), None, 0.0);
    var change := ChangeConnector(key.connector, revoke);
    RunAppend(kinds, INITIAL, [create, Arrive(0, key)], [Read(0, kind), change]);
    var made := C.Create(key.tenant, actor, Enabled, true).value;
    var arrived := Runtime(map[key.connector := made], map[], map[], map[0 := Fresh(key)], map[], []);
    assert Run(kinds, INITIAL, [create, Arrive(0, key)]) == arrived by {
      TwoSteps(kinds, INITIAL, create, Arrive(0, key));
    }
    TwoSteps(kinds, arrived, Read(0, kind), change);
    assert Next(kinds, arrived, Read(0, kind)) == At(arrived, 0, HasRead(key, View(Enabled, 1, kind)));
    RevokingWorks(made, revoke);
  }

  /** Revocation is not effective on the very next invocation: for every key and every registered kind
      there is a run in which the connector is revoked before the request is accepted, and the adapter is
      called nevertheless. */
  lemma RevokedYetInvoked(kinds: set<string>, key: Key, kind: string, actor: string, reason: string, answer: Answer)
    returns (steps: seq<Step>)
    requires kind in kinds && C.HasReason(Some(reason))
    ensures ReadThenRevoked(key, kind, actor, reason) <= steps
    ensures Run(kinds, INITIAL, ReadThenRevoked(key, kind, actor, reason)).table == map[]
    ensures var w := Run(kinds, INITIAL, steps);
            && key.connector in w.connectors && w.connectors[key.connector].status == Revoked
            && key in w.table && w.table[key].status == Running && w.calls == [key]
  {
    var before := ReadThenRevoked(key, kind, actor, reason);
    var w := Run(kinds, INITIAL, before);
    ReadThenRevokedState(kinds, key, kind, actor, reason);
    StaleReadStillRuns(kinds, w, 0, answer);
    var cleared, accepted, called := [Check(0), Lookup(0)], [Flush(0), CommitAccept(0)], [Start(0), Invoke(0, answer)];
    steps := before + (cleared + (accepted + called));
    RunAppend(kinds, INITIAL, before, cleared + (accepted + called));
    RunAppend(kinds, w, cleared, accepted + called);
    RunAppend(kinds, Run(kinds, w, cleared), accepted, called);
  }
}
