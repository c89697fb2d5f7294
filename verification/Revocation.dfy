/** Which requests does revoking a connector stop? */
module Revocation {
  import opened Options
  import opened Lifecycle
  import opened Invocations
  import opened InvocationHistory
  import C = Connectors

  /** The request is past the point where the connector's status matters, and nothing else stands in
      the way of its adapter call. */
  predicate MayCall(kinds: set<string>, w: Runtime, req: Request) {
    match req
    case HasRead(key, view) => IsExecutable(view.status) && view.kind in kinds && key !in w.table
    case Cleared(key, view) => view.kind in kinds && key !in w.table
    case Missed(key, view) => view.kind in kinds && key !in w.table
    case Inserted(_, view) => view.kind in kinds
    case Owner(_, view) => view.kind in kinds
    case Started(_, _) => true
    case Answered(_, _, _) => true
    case _ => false
  }

  ghost predicate CalledAfter(kinds: set<string>, w: Runtime, r: nat, steps: seq<Step>) {
    var w' := Run(kinds, w, steps);
    r in w'.requests && w'.requests[r].Answered?
  }

  /** In some continuation the request's adapter call has been made and is still to be recorded. */
  ghost predicate CanBeCalled(kinds: set<string>, w: Runtime, r: nat) {
    exists steps: seq<Step> :: CalledAfter(kinds, w, r, steps)
  }

  ghost predicate Retired(w: Runtime, id: nat) { id in w.connectors && w.connectors[id].status in RETIRED }

  // ---------------------------------------------------------------- a stopped request stays stopped

  lemma StoppedEarly(kinds: set<string>, w: Runtime, r: nat, step: Step)
    requires r in w.requests && !MayCall(kinds, w, w.requests[r]) && Retired(w, w.requests[r].key.connector)
    requires IsEarly(step)
    ensures var w' := Advance(kinds, w, r, step); r in w'.requests && !MayCall(kinds, w', w'.requests[r])
  {
  }

  lemma StoppedLate(kinds: set<string>, w: Runtime, r: nat, step: Step)
    requires r in w.requests && !MayCall(kinds, w, w.requests[r]) && IsLate(step)
    ensures var w' := Advance(kinds, w, r, step); r in w'.requests && !MayCall(kinds, w', w'.requests[r])
  {
  }

  lemma StoppedByOthers(kinds: set<string>, w: Runtime, r: nat, step: Step)
    requires Inv(w) && r in w.requests && !MayCall(kinds, w, w.requests[r]) && NotBy([step], r)
    ensures var w' := Next(kinds, w, step); r in w'.requests && !MayCall(kinds, w', w'.requests[r])
  {
    OtherStepLeaves(kinds, w, step, r);
    if w.requests[r].key in w.table {
      ForwardNext(kinds, w, step, w.requests[r].key);
    }
  }

  lemma RetiredNext(kinds: set<string>, w: Runtime, step: Step, id: nat)
    requires Retired(w, id)
    ensures Retired(Next(kinds, w, step), id)
  {
    match step
    case ChangeConnector(c, req) => RetiredStays(w, c, req, id);
    case CreateConnector(_, _, _, _, _) =>
    case Arrive(_, _) =>
    case _ => if step.r in w.requests { KeepsConnectors(kinds, w, step.r, step); }
  }

  lemma KeepsConnectors(kinds: set<string>, w: Runtime, q: nat, step: Step)
    requires q in w.requests && (IsEarly(step) || IsLate(step))
    ensures var w' := Advance(kinds, w, q, step);
            w'.connectors == w.connectors && q in w'.requests && w'.requests[q].key == w.requests[q].key
  {
    if IsEarly(step) {
      EarlyMovesOnly(kinds, w, q, step, q);
    } else {
      LateMovesOnly(kinds, w, q, step, q);
    }
  }

  lemma StoppedNext(kinds: set<string>, w: Runtime, r: nat, step: Step)
    requires Inv(w) && r in w.requests && !MayCall(kinds, w, w.requests[r]) && Retired(w, w.requests[r].key.connector)
    ensures var w' := Next(kinds, w, step);
            && r in w'.requests && w'.requests[r].key == w.requests[r].key && !MayCall(kinds, w', w'.requests[r])
  {
    if NotBy([step], r) {
      OtherStepLeaves(kinds, w, step, r);
      StoppedByOthers(kinds, w, r, step);
    } else {
      match step
      case Arrive(_, _) =>
      case _ => StoppedOwn(kinds, w, r, step);
    }
  }

  lemma StoppedOwn(kinds: set<string>, w: Runtime, r: nat, step: Step)
    requires r in w.requests && !MayCall(kinds, w, w.requests[r]) && Retired(w, w.requests[r].key.connector)
    requires (IsEarly(step) || IsLate(step)) && step.r == r
    ensures var w' := Next(kinds, w, step);
            && r in w'.requests && w'.requests[r].key == w.requests[r].key && !MayCall(kinds, w', w'.requests[r])
  {
    KeepsConnectors(kinds, w, r, step);
    if IsEarly(step) {
      StoppedEarly(kinds, w, r, step);
    } else {
      StoppedLate(kinds, w, r, step);
    }
  }

  lemma {:induction false} StoppedForEver(kinds: set<string>, w: Runtime, r: nat, steps: seq<Step>)
    requires Inv(w) && r in w.requests && !MayCall(kinds, w, w.requests[r]) && Retired(w, w.requests[r].key.connector)
    ensures !CalledAfter(kinds, w, r, steps)
    decreases |steps|
  {
    if steps != [] {
      InvNext(kinds, w, steps[0]);
      StoppedNext(kinds, w, r, steps[0]);
      RetiredNext(kinds, w, steps[0], w.requests[r].key.connector);
      StoppedForEver(kinds, Next(kinds, w, steps[0]), r, steps[1..]);
    }
  }

  // ---------------------------------------------------------------- every other request can still be run

  lemma AfterOneStep(kinds: set<string>, w: Runtime, r: nat, step: Step)
    requires CanBeCalled(kinds, Next(kinds, w, step), r)
    ensures CanBeCalled(kinds, w, r)
  {
    var steps: seq<Step> :| CalledAfter(kinds, Next(kinds, w, step), r, steps);
    assert ([step] + steps)[0] == step && ([step] + steps)[1..] == steps;
    assert CalledAfter(kinds, w, r, [step] + steps);
  }

  lemma FromAnswered(kinds: set<string>, w: Runtime, r: nat)
    requires r in w.requests && w.requests[r].Answered?
    ensures CanBeCalled(kinds, w, r)
  {
    assert CalledAfter(kinds, w, r, []);
  }

  lemma FromStarted(kinds: set<string>, w: Runtime, r: nat)
    requires r in w.requests && w.requests[r].Started?
    ensures CanBeCalled(kinds, w, r)
  {
    var invoke := Invoke(r, Raised);
    assert Next(kinds, w, invoke).requests[r].Answered?;
    FromAnswered(kinds, Next(kinds, w, invoke), r);
    AfterOneStep(kinds, w, r, invoke);
  }

  lemma FromOwner(kinds: set<string>, w: Runtime, r: nat)
    requires Inv(w) && r in w.requests && w.requests[r].Owner? && w.requests[r].view.kind in kinds
    ensures CanBeCalled(kinds, w, r)
  {
    assert RequestOk(w, r, w.requests[r]);
    assert Next(kinds, w, Start(r)).requests[r].Started?;
    FromStarted(kinds, Next(kinds, w, Start(r)), r);
    AfterOneStep(kinds, w, r, Start(r));
  }

  lemma FromInserted(kinds: set<string>, w: Runtime, r: nat)
    requires Inv(w) && r in w.requests && w.requests[r].Inserted? && w.requests[r].view.kind in kinds
    ensures CanBeCalled(kinds, w, r)
  {
    var next := Next(kinds, w, CommitAccept(r));
    assert next.requests[r] == Owner(w.requests[r].key, w.requests[r].view);
    InvNext(kinds, w, CommitAccept(r));
    FromOwner(kinds, next, r);
    AfterOneStep(kinds, w, r, CommitAccept(r));
  }

  lemma FromFreeKey(kinds: set<string>, w: Runtime, r: nat)
    requires Inv(w) && r in w.requests && w.requests[r].Missed? && w.requests[r].view.kind in kinds
    requires w.requests[r].key !in w.table && w.requests[r].key !in w.inserting
    ensures CanBeCalled(kinds, w, r)
  {
    var next := Next(kinds, w, Flush(r));
    assert next.requests[r] == Inserted(w.requests[r].key, w.requests[r].view);
    InvNext(kinds, w, Flush(r));
    FromInserted(kinds, next, r);
    AfterOneStep(kinds, w, r, Flush(r));
  }

  /** Whoever holds the key in an open insert may die. */
  lemma HolderDies(kinds: set<string>, w: Runtime, key: Key)
    requires Inv(w) && key in w.inserting
    ensures var q := w.inserting[key];
            q in w.requests && w.requests[q].Inserted?
            && Next(kinds, w, Die(q)) == At(w, q, Dead(key)).(inserting := w.inserting - {key})
  {
    assert InsertingOk(w, key);
  }

  lemma FromMissed(kinds: set<string>, w: Runtime, r: nat)
    requires Inv(w) && r in w.requests && w.requests[r].Missed? && w.requests[r].view.kind in kinds
    requires w.requests[r].key !in w.table
    ensures CanBeCalled(kinds, w, r)
  {
    var key := w.requests[r].key;
    if key in w.inserting {
      HolderDies(kinds, w, key);
      var die := Die(w.inserting[key]);
      InvNext(kinds, w, die);
      FromFreeKey(kinds, Next(kinds, w, die), r);
      AfterOneStep(kinds, w, r, die);
    } else {
      FromFreeKey(kinds, w, r);
    }
  }

  lemma FromCleared(kinds: set<string>, w: Runtime, r: nat)
    requires Inv(w) && r in w.requests && w.requests[r].Cleared? && w.requests[r].view.kind in kinds
    requires w.requests[r].key !in w.table
    ensures CanBeCalled(kinds, w, r)
  {
    var next := Next(kinds, w, Lookup(r));
    assert next == At(w, r, Missed(w.requests[r].key, w.requests[r].view));
    InvNext(kinds, w, Lookup(r));
    FromMissed(kinds, next, r);
    AfterOneStep(kinds, w, r, Lookup(r));
  }

  lemma FromRead(kinds: set<string>, w: Runtime, r: nat)
    requires Inv(w) && r in w.requests && w.requests[r].HasRead? && w.requests[r].view.kind in kinds
    requires w.requests[r].key !in w.table && IsExecutable(w.requests[r].view.status)
    ensures CanBeCalled(kinds, w, r)
  {
    var next := Next(kinds, w, Check(r));
    assert next == At(w, r, Cleared(w.requests[r].key, w.requests[r].view));
    InvNext(kinds, w, Check(r));
    FromCleared(kinds, next, r);
    AfterOneStep(kinds, w, r, Check(r));
  }

  lemma MayCallCan(kinds: set<string>, w: Runtime, r: nat)
    requires Inv(w) && r in w.requests && MayCall(kinds, w, w.requests[r])
    ensures CanBeCalled(kinds, w, r)
  {
    match w.requests[r]
    case HasRead(_, _) => FromRead(kinds, w, r);
    case Cleared(_, _) => FromCleared(kinds, w, r);
    case Missed(_, _) => FromMissed(kinds, w, r);
    case Inserted(_, _) => FromInserted(kinds, w, r);
    case Owner(_, _) => FromOwner(kinds, w, r);
    case Started(_, _) => FromStarted(kinds, w, r);
    case Answered(_, _, _) => FromAnswered(kinds, w, r);
  }

  /** Once a connector is revoked, marked for deletion, archived or deleted, a request for it can still
      have its adapter called if and only if it had read the connector as enabled, and its kind is
      registered, and no other request has taken its key; or if it is past all that. Every other
      request is stopped, for ever and whatever else happens. */
  lemma RevocationStopsIff(kinds: set<string>, w: Runtime, r: nat)
    requires Inv(w) && r in w.requests && Retired(w, w.requests[r].key.connector)
    ensures CanBeCalled(kinds, w, r) <==> MayCall(kinds, w, w.requests[r])
  {
    if MayCall(kinds, w, w.requests[r]) {
      MayCallCan(kinds, w, r);
    } else {
      forall steps: seq<Step>
        ensures !CalledAfter(kinds, w, r, steps)
      {
        StoppedForEver(kinds, w, r, steps);
      }
    }
  }

  /** The same of every state that can be reached. */
  lemma RevocationStopsReachableIff(kinds: set<string>, steps: seq<Step>, r: nat)
    requires var w := Run(kinds, INITIAL, steps); r in w.requests && Retired(w, w.requests[r].key.connector)
    ensures var w := Run(kinds, INITIAL, steps);
            CanBeCalled(kinds, w, r) <==> MayCall(kinds, w, w.requests[r])
  {
    InvInitially();
    InvRun(kinds, INITIAL, steps);
    RevocationStopsIff(kinds, Run(kinds, INITIAL, steps), r);
  }
}
