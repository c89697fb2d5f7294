/** Invocations stay inside their tenant, whatever interleaving of requests, connector changes and crashes. */
module Tenants {
  import C = Connectors
  import opened Invocations

  /** The key names a connector of its own tenant. */
  ghost predicate Owned(connectors: map<nat, C.Connector>, key: Key) {
    key.connector in connectors && connectors[key.connector].tenant == key.tenant
  }

  // A request that has learnt nothing of the connector.
  predicate Outside(req: Request) {
    req.Fresh? || req.Dead? || (req.Done? && req.response.NotFound?)
  }

  ghost predicate RequestInside(connectors: map<nat, C.Connector>, req: Request) {
    Outside(req) || Owned(connectors, req.key)
  }

  ghost predicate RequestsInside(w: Runtime) {
    forall r | r in w.requests :: RequestInside(w.connectors, w.requests[r])
  }

  ghost predicate KeysInside(w: Runtime) {
    && (forall key | key in w.table :: Owned(w.connectors, key))
    && (forall key | key in w.inserting :: Owned(w.connectors, key))
    && (forall key | key in w.calls :: Owned(w.connectors, key))
  }

  ghost predicate Inside(w: Runtime) { RequestsInside(w) && KeysInside(w) }

  /** Connectors are never taken away, and never change hands. */
  ghost predicate Keeps(before: map<nat, C.Connector>, after: map<nat, C.Connector>) {
    forall id | id in before :: id in after && after[id].tenant == before[id].tenant
  }

  lemma ConnectorsKeepInside(w: Runtime, connectors: map<nat, C.Connector>)
    requires Inside(w) && Keeps(w.connectors, connectors)
    ensures Inside(w.(connectors := connectors))
  {
    forall key | Owned(w.connectors, key)
      ensures Owned(connectors, key)
    {
    }
    forall r | r in w.requests
      ensures RequestInside(connectors, w.requests[r])
    {
      assert RequestInside(w.connectors, w.requests[r]);
    }
  }

  lemma AtInside(w: Runtime, r: nat, next: Request)
    requires Inside(w) && RequestInside(w.connectors, next)
    ensures Inside(At(w, r, next))
  {
  }

  lemma SaveInside(w: Runtime, r: nat, key: Key, rec: Record, next: Request)
    requires Inside(w) && Owned(w.connectors, key) && next.key == key
    ensures Inside(Save(w, r, key, rec, next))
  {
  }

  lemma FlushInside(w: Runtime, r: nat, key: Key, view: View)
    requires Inside(w) && Owned(w.connectors, key)
    ensures Inside(DoFlush(w, r, key, view))
  {
    AtInside(w, r, Collided(key));
    AtInside(w, r, Inserted(key, view));
  }

  lemma CommitAcceptInside(w: Runtime, r: nat, key: Key, view: View)
    requires Inside(w) && Owned(w.connectors, key)
    ensures Inside(DoCommitAccept(w, r, key, view))
  {
    SaveInside(w, r, key, NewRecord(r, view), Owner(key, view));
  }

  lemma StartInside(kinds: set<string>, w: Runtime, r: nat, key: Key, view: View)
    requires Inside(w) && Owned(w.connectors, key)
    ensures Inside(DoStart(kinds, w, r, key, view))
  {
    if key in w.table {
      var rec := FinishedRecord(w.table[key], UNKNOWN_KIND);
      SaveInside(w, r, key, rec, Done(key, Replied(rec, false)));
      SaveInside(w, r, key, StartedRecord(w.table[key]), Started(key, view));
    }
  }

  lemma InvokeInside(w: Runtime, r: nat, key: Key, view: View, answer: Answer)
    requires Inside(w) && Owned(w.connectors, key)
    ensures Inside(DoInvoke(w, r, key, view, answer))
  {
    AtInside(w, r, Answered(key, view, answer));
  }

  lemma FinishInside(w: Runtime, r: nat, key: Key, answer: Answer)
    requires Inside(w) && Owned(w.connectors, key)
    ensures Inside(DoFinish(w, r, key, answer))
  {
    AtInside(w, r, Dead(key));
    if key in w.table {
      var rec := FinishedRecord(w.table[key], ResultOf(answer));
      SaveInside(w, r, key, rec, Done(key, Replied(rec, false)));
    }
  }

  lemma EarlyInside(kinds: set<string>, w: Runtime, r: nat, step: Step)
    requires Inside(w) && r in w.requests && IsEarly(step)
    ensures Inside(Advance(kinds, w, r, step))
  {
    var req := w.requests[r];
    assert RequestInside(w.connectors, req);
    match step
    case Read(_, kind) => if req.Fresh? { AtInside(w, r, DoRead(w, req.key, kind)); }
    case Check(_) => if req.HasRead? { AtInside(w, r, DoCheck(req.key, req.view)); }
    case Lookup(_) => if req.Cleared? { AtInside(w, r, DoLookup(w, req.key, req.view)); }
    case Flush(_) => if req.Missed? { FlushInside(w, r, req.key, req.view); }
    case Recover(_) => if req.Collided? { AtInside(w, r, DoRecover(w, req.key)); }
    case CommitAccept(_) => if req.Inserted? { CommitAcceptInside(w, r, req.key, req.view); }
  }

  lemma LateInside(kinds: set<string>, w: Runtime, r: nat, step: Step)
    requires Inside(w) && r in w.requests && IsLate(step)
    ensures Inside(Advance(kinds, w, r, step))
  {
    var req := w.requests[r];
    assert RequestInside(w.connectors, req);
    match step
    case Start(_) => if req.Owner? { StartInside(kinds, w, r, req.key, req.view); }
    case Invoke(_, answer) => if req.Started? { InvokeInside(w, r, req.key, req.view, answer); }
    case Finish(_) => if req.Answered? { FinishInside(w, r, req.key, req.answer); }
    case Die(_) => AtInside(w, r, Dead(req.key));
  }

  lemma AdvanceInside(kinds: set<string>, w: Runtime, r: nat, step: Step)
    requires Inside(w) && r in w.requests && (IsEarly(step) || IsLate(step))
    ensures Inside(Advance(kinds, w, r, step))
  {
    if IsEarly(step) {
      EarlyInside(kinds, w, r, step);
    } else {
      LateInside(kinds, w, r, step);
    }
  }

  lemma CreationKeeps(kinds: set<string>, w: Runtime, step: Step)
    requires step.CreateConnector?
    ensures var w' := Next(kinds, w, step); w' == w.(connectors := w'.connectors) && Keeps(w.connectors, w'.connectors)
  {
  }

  lemma ChangeKeeps(kinds: set<string>, w: Runtime, step: Step)
    requires step.ChangeConnector?
    ensures var w' := Next(kinds, w, step); w' == w.(connectors := w'.connectors) && Keeps(w.connectors, w'.connectors)
  {
  }

  lemma InsideNext(kinds: set<string>, w: Runtime, step: Step)
    requires Inside(w)
    ensures Inside(Next(kinds, w, step))
  {
    match step
    case CreateConnector(_, _, _, _, _) =>
      CreationKeeps(kinds, w, step);
      ConnectorsKeepInside(w, Next(kinds, w, step).connectors);
    case ChangeConnector(_, _) =>
      ChangeKeeps(kinds, w, step);
      ConnectorsKeepInside(w, Next(kinds, w, step).connectors);
    case Arrive(r, key) => AtInside(w, r, Fresh(key));
    case _ => if step.r in w.requests { AdvanceInside(kinds, w, step.r, step); }
  }

  lemma {:induction false} InsideRun(kinds: set<string>, w: Runtime, steps: seq<Step>)
    requires Inside(w)
    ensures Inside(Run(kinds, w, steps))
    decreases |steps|
  {
    if steps != [] {
      InsideNext(kinds, w, steps[0]);
      InsideRun(kinds, Next(kinds, w, steps[0]), steps[1..]);
    }
  }

  /** In every reachable state, every key with a row, an open insert or an adapter call names a connector of
      the key's own tenant. */
  lemma KeysStayInTenant(kinds: set<string>, steps: seq<Step>, key: Key)
    ensures var w := Run(kinds, INITIAL, steps);
            key in w.table || key in w.inserting || key in w.calls ==>
              key.connector in w.connectors && w.connectors[key.connector].tenant == key.tenant
  {
    InsideRun(kinds, INITIAL, steps);
  }

  /** A request about a connector of another tenant, or about none, has not been looked at yet, was answered
      not found, or has died: its answer is the same whether the connector exists or not. */
  lemma StrangersLearnNothing(kinds: set<string>, steps: seq<Step>, r: nat)
    ensures var w := Run(kinds, INITIAL, steps);
            r in w.requests && !Owned(w.connectors, w.requests[r].key) ==>
              var req := w.requests[r];
              req == Fresh(req.key) || req == Dead(req.key) || req == Done(req.key, NotFound)
  {
    InsideRun(kinds, INITIAL, steps);
    var w := Run(kinds, INITIAL, steps);
    assert r in w.requests ==> RequestInside(w.connectors, w.requests[r]);
  }

  /** Reading: not found exactly for a connector that is not the tenant's; otherwise the connector's status
      and version of that moment. */
  lemma ReadIff(kinds: set<string>, w: Runtime, r: nat, kind: string)
    requires r in w.requests && w.requests[r].Fresh?
    ensures var key, next := w.requests[r].key, Next(kinds, w, Read(r, kind)).requests[r];
            && (next == Done(key, NotFound) <==> !Owned(w.connectors, key))
            && (Owned(w.connectors, key) ==>
                  next.HasRead? && next.key == key && next.view.kind == kind
                  && next.view.status == w.connectors[key.connector].status
                  && next.view.version == w.connectors[key.connector].version)
  {
  }
}
