/** What holds of every connector over every sequence of requests and crashes. */
module ConnectorHistory {
  import opened Options
  import opened Lifecycle
  import opened Connectors

  // ---------------------------------------------------------------- one account of the past

  lemma {:induction false} TrailRows(events: seq<Emitted>, v: int)
    requires forall i | 0 <= i < |events| :: events[i].version == i + 1
    ensures (exists row :: row in Trail(events) && row.3 == v)
            <==> 1 <= v <= |events| && !events[v - 1].payload.Deletion?
    ensures forall row | row in Trail(events) && row.3 == v ::
              && 1 <= v <= |events| && row.1 == events[v - 1].Status() && row.2 == events[v - 1].event
              && row.0 == if v == 1 then None else Some(events[v - 2].Status())
    ensures forall i, j | 0 <= i < j < |Trail(events)| :: Trail(events)[i].3 < Trail(events)[j].3 <= |events|
  {
    if events != [] {
      var n := |events|;
      var before := events[..n - 1];
      TrailRows(before, v);
      forall row | row in Trail(before)
        ensures row.3 < n
      {
        TrailRows(before, row.3);
      }
      if v == n && !events[n - 1].payload.Deletion? {
        assert Trail(events)[|Trail(before)|].3 == n;
      }
    }
  }

  /** The audit trail of every reachable connector: versions strictly increase, a version has an
      entry exactly when its event did not come from the DELETE endpoint, and each entry goes from
      the status one version earlier (none at creation) to the status at its version. */
  lemma AuditMatchesEvents(c: Connector, v: int)
    requires Inv(c)
    ensures (exists a :: a in c.audit && a.version == v) <==> 1 <= v <= c.version && !c.events[v - 1].payload.Deletion?
    ensures forall a | a in c.audit && a.version == v ::
              && 1 <= v <= c.version && a.to == c.events[v - 1].Status() && a.event == c.events[v - 1].event
              && a.from == if v == 1 then None else Some(c.events[v - 2].Status())
    ensures forall i, j | 0 <= i < j < |c.audit| :: c.audit[i].version < c.audit[j].version
  {
    TrailRows(c.events, v);
    var entries := Entries(c.audit);
    forall a | a in c.audit && a.version == v
      ensures (a.from, a.to, a.event, a.version) in Trail(c.events)
    {
      var i :| 0 <= i < |c.audit| && c.audit[i] == a;
      assert entries[i] == (a.from, a.to, a.event, a.version);
    }
    forall row | row in Trail(c.events) && row.3 == v
      ensures exists a :: a in c.audit && a.version == v
    {
      var i :| 0 <= i < |entries| && entries[i] == row;
      assert c.audit[i] in c.audit && c.audit[i].version == v;
    }
    forall i, j | 0 <= i < j < |c.audit|
      ensures c.audit[i].version < c.audit[j].version
    {
      assert entries[i].3 < entries[j].3;
    }
  }

  lemma {:induction false} AccountsOnlyGrow(c: Connector, steps: seq<Step>)
    ensures c.events <= Run(c, steps).events && c.audit <= Run(c, steps).audit
    ensures c.tenant == Run(c, steps).tenant
    decreases |steps|
  {
    if steps != [] {
      AccountsOnlyGrow(Next(c, steps[0]), steps[1..]);
    }
  }

  /** Event number v carries, for ever after, the status the row had at version v. */
  lemma EventsRememberStatuses(c: Connector, earlier: seq<Step>, later: seq<Step>)
    requires Inv(c)
    ensures var then_, now := Run(c, earlier), Run(c, earlier + later);
            && 1 <= then_.version <= now.version == |now.events|
            && now.events[then_.version - 1].Status() == then_.status
            && now.events[then_.version - 1].version == then_.version
  {
    RunAppend(c, earlier, later);
    AccountsOnlyGrow(Run(c, earlier), later);
    assert Numbered(Run(c, earlier)) by { InvRun(c, earlier); }
    assert Numbered(Run(c, earlier + later)) by { InvRun(c, earlier + later); }
  }

  // ---------------------------------------------------------------- retirement

  lemma RetiredNext(c: Connector, req: Request)
    requires c.status in RETIRED
    ensures Transact(c, req).0.status in RETIRED
  {
    if req.Transit? {
      var look := Find(c.status, req.target, req.event);
      if look.Found? {
        RetiredIsClosed(look.transition);
      }
    }
  }

  /** Once revoked, archived, deleted or marked for deletion, a connector never serves again,
      whatever requests follow, the DELETE endpoint included. */
  lemma {:induction false} RetiredForever(c: Connector, steps: seq<Step>)
    requires c.status in RETIRED
    ensures Run(c, steps).status in RETIRED && !IsExecutable(Run(c, steps).status)
    decreases |steps|
  {
    if steps != [] {
      RetiredNext(c, steps[0].req);
      RetiredForever(Next(c, steps[0]), steps[1..]);
    }
  }

  /** The DELETE endpoint ignores the table: it agrees with it from exactly two states. */
  lemma DeleteFollowsTableIff(c: Connector, req: Request)
    requires req.Delete? && req.tenant == c.tenant
    ensures var after := Transact(c, req).0;
            after.version > c.version ==>
              (Find(c.status, after.status, Some(DeletionRequestedEvent)).Found? <==> c.status in {Disabled, Revoked})
    ensures Transact(c, req).0.version > c.version <==> c.status !in {Deleted, DeletionRequested}
  {
    if c.status == Disabled {
      FindIsComplete(TRANSITIONS[18], Some(DeletionRequestedEvent));
    } else if c.status == Revoked {
      FindIsComplete(TRANSITIONS[19], Some(DeletionRequestedEvent));
    } else if Find(c.status, DeletionRequested, Some(DeletionRequestedEvent)).Found? {
      DeletionEdges(Find(c.status, DeletionRequested, Some(DeletionRequestedEvent)).transition);
    }
  }

  lemma DeletionEdges(t: Transition)
    requires t in TRANSITIONS && t.target == DeletionRequested
    ensures t.source in {Disabled, Revoked}
  {
  }

  // ---------------------------------------------------------------- repeated requests

  /** `again` is the retry of `req`: only the time may differ. */
  ghost predicate SameRequest(req: Request, again: Request) {
    match req
    case Transit(target, event, tenant, actor, reason, key, _) =>
      again.Transit? && again == Transit(target, event, tenant, actor, reason, key, again.at)
    case Delete(tenant, actor, _) => again.Delete? && again == Delete(tenant, actor, again.at)
  }

  lemma SelfLoopsNeedNoReason(t: Transition)
    requires t in TRANSITIONS && t.source == t.target
    ensures !t.requiresReason
  {
  }

  lemma RetryChangesNothing(c: Connector, req: Request, again: Request)
    requires SameRequest(req, again)
    requires req.Transit? ==> !Find(req.target, req.target, req.event).Found?
    ensures Transact(Transact(c, req).0, again).0 == Transact(c, req).0
  {
  }

  /** A state, reached or not, from which a second identical transition is a second transition. */
  lemma RetryMovesAgain(target: State, event: Option<EventName>)
    requires Find(target, target, event).Found?
    ensures exists c: Connector, req: Request :: req.Transit? && req.target == target && req.event == event
                             && Transact(Transact(c, req).0, req).0.version == Transact(c, req).0.version + 1
  {
    var t := Find(target, target, event).transition;
    var c := Connector("", target, 1, None, None, None, None, None, None, [], []);
    var req := Transit(target, event, "", "", None, None, 0.0);
    SelfLoopsNeedNoReason(t);
    LoopMoves(c, req);
    LoopMoves(Transact(c, req).0, req);
  }

  lemma LoopMoves(c: Connector, req: Request)
    requires req.Transit? && c.tenant == req.tenant && c.status == req.target
    requires var look := Find(req.target, req.target, req.event); look.Found? && !look.transition.requiresReason
    ensures var c' := Transact(c, req).0; c'.version == c.version + 1 && c'.status == c.status && c'.tenant == c.tenant
  {
  }

  /** Retrying a transition request is invisible, from every state, exactly when the table holds no
      self-loop for what it names. */
  lemma RetryIsInvisibleIff(target: State, event: Option<EventName>)
    ensures !Find(target, target, event).Found? <==>
            forall c: Connector, req: Request | req.Transit? && req.target == target && req.event == event ::
              Transact(Transact(c, req).0, req).0 == Transact(c, req).0
  {
    if Find(target, target, event).Found? {
      RetryMovesAgain(target, event);
    } else {
      forall c: Connector, req: Request | req.Transit? && req.target == target && req.event == event
        ensures Transact(Transact(c, req).0, req).0 == Transact(c, req).0
      {
        RetryChangesNothing(c, req, req);
      }
    }
  }

  predicate Suspending(req: Request) {
    req.Delete? || (req.Transit? && (req.target, req.event) in
      {(Disabled, Some(DisabledEvent)), (Revoked, Some(RevokedEvent)), (Archived, Some(ArchivedEvent)),
       (DeletionRequested, Some(DeletionRequestedEvent))})
  }

  lemma SuspendingHasNoLoop(t: Transition)
    requires t in TRANSITIONS && t.source == t.target
    ensures t.event in {ConfiguredEvent, ValidationFailed, CredentialsRotated}
  {
  }

  lemma SuspendingRepeats(req: Request)
    requires Suspending(req) && req.Transit?
    ensures !Find(req.target, req.target, req.event).Found? && IdempotentRepeat(req.target, req.target).Some?
  {
    var loop := Find(req.target, req.target, req.event);
    if loop.Found? {
      SuspendingHasNoLoop(loop.transition);
    }
    RepeatableStates(req.target, req.target);
  }

  lemma SuccessLands(c: Connector, req: Request)
    requires req.Transit? && Transact(c, req).1.Success()
    ensures Transact(c, req).0.status == req.target && Transact(c, req).0.tenant == req.tenant
  {
  }

  lemma HeldStateRepeats(c: Connector, req: Request)
    requires req.Transit? && c.tenant == req.tenant && c.status == req.target
    requires !Find(req.target, req.target, req.event).Found? && IdempotentRepeat(req.target, req.target).Some?
    ensures Transact(c, req).1.Success()
  {
  }

  lemma RetrySucceeds(c: Connector, req: Request, again: Request)
    requires Suspending(req) && SameRequest(req, again) && Transact(c, req).1.Success()
    ensures Transact(Transact(c, req).0, again).1.Success()
  {
    if req.Transit? {
      SuccessLands(c, req);
      SuspendingRepeats(req);
      HeldStateRepeats(Transact(c, req).0, again);
    }
  }

  /** In a sequence of any length, retrying a disable, revoke, archive or deletion that names its
      event changes neither the final row, nor its version, nor either account; and the retry of a
      success is a success. */
  lemma RetriesAreInvisible(c: Connector, before: seq<Step>, req: Request, again: Request, after: seq<Step>)
    requires Suspending(req) && SameRequest(req, again)
    ensures Run(c, before + [Step(req, true), Step(again, true)] + after) == Run(c, before + [Step(req, true)] + after)
    ensures var held := Run(c, before);
            Transact(held, req).1.Success() ==> Transact(Transact(held, req).0, again).1.Success()
  {
    var held := Run(c, before);
    if req.Transit? {
      SuspendingRepeats(req);
    }
    RetryChangesNothing(held, req, again);
    if Transact(held, req).1.Success() {
      RetrySucceeds(held, req, again);
    }
    RepeatedStep(c, before, Step(req, true), Step(again, true), after);
  }

  lemma RepeatedStep(c: Connector, before: seq<Step>, a: Step, b: Step, after: seq<Step>)
    requires var held := Run(c, before); Next(Next(held, a), b) == Next(held, a)
    ensures Run(c, before + [a, b] + after) == Run(c, before + [a] + after)
  {
    var held, once, twice := Run(c, before), [a], [a, b];
    assert once[1..] == [] && twice[1..] == [b] && twice[1..][1..] == [];
    assert Run(held, twice) == Run(Next(held, a), twice[1..]) == Run(Next(Next(held, a), b), []);
    RunAppend(c, before, once);
    RunAppend(c, before, twice);
    RunAppend(c, before + once, after);
    RunAppend(c, before + twice, after);
  }

  // ---------------------------------------------------------------- credential rotation

  lemma RotationAt(i: nat)
    requires i < |TRANSITIONS| && TRANSITIONS[i].event == CredentialsRotated
    ensures i == 10 || i == 11
  {
  }

  lemma RotationEdges(t: Transition)
    requires t in TRANSITIONS && t.event == CredentialsRotated
    ensures t.source == t.target && t.source in {Enabled, Disabled} && !t.requiresReason
  {
    var i := IndexOf(t);
    RotationAt(i);
  }

  lemma RotationIsFound(status: State)
    requires status == Enabled || status == Disabled
    ensures Find(status, status, Some(CredentialsRotated)).Found?
  {
    FindIsComplete(if status == Enabled then TRANSITIONS[10] else TRANSITIONS[11], Some(CredentialsRotated));
  }

  lemma RotationIsFoundIff(status: State, read: State)
    ensures var look := Find(status, read, Some(CredentialsRotated));
            && (look.Found? <==> read == status && status in {Enabled, Disabled})
            && (look.Found? ==> look.transition.event == CredentialsRotated && !look.transition.requiresReason)
  {
    var look := Find(status, read, Some(CredentialsRotated));
    if look.Found? {
      RotationEdges(look.transition);
    } else if read == status && (status == Enabled || status == Disabled) {
      RotationIsFound(status);
    }
  }

  /** The endpoint reads the row without a lock and then, in the same session, with one; the locked read
      is taken to return the row as committed.
      Rotation never changes the status, whatever status the endpoint read without a lock, and it
      is recorded exactly when that reading is still right and the connector is enabled or disabled.
      For a revoked, archived or deletion-requested connector it reports success and records nothing. */
  lemma RotationIsRecordedIff(c: Connector, read: State, reason: Option<string>, key: Option<string>, actor: string,
          at: real)
    ensures var (after, outcome) := Transact(c, RotateRequest(read, reason, key, c.tenant, actor, at));
            && after.status == c.status
            && (outcome.Applied? <==> read == c.status && c.status in {Enabled, Disabled})
            && (outcome.Applied? ==>
                  && after.version == c.version + 1 && after.rotatedAt == Some(at) && after.reason == reason
                  && |after.audit| == |c.audit| + 1 && after.audit[|c.audit|].event == CredentialsRotated
                  && after.audit[|c.audit|].actor == actor && after.audit[|c.audit|].key == key)
            && (!outcome.Applied? ==> after == c)
            && (outcome.Repeated? <==> read == c.status && c.status in {Revoked, DeletionRequested, Archived})
  {
    RotationIsFoundIff(c.status, read);
    RepeatableStates(c.status, read);
  }

  // ---------------------------------------------------------------- validation

  lemma ValidationAt(i: nat)
    requires i < |TRANSITIONS|
          && (TRANSITIONS[i].event == ValidationSucceeded || TRANSITIONS[i].event == ValidationFailed)
    ensures i == 5 || i == 6
  {
  }

  lemma ValidationEdges(t: Transition)
    requires t in TRANSITIONS && t.event in {ValidationSucceeded, ValidationFailed}
    ensures t.source == Configured && !t.requiresReason
    ensures t.target == if t.event == ValidationSucceeded then Validated else Configured
  {
    var i := IndexOf(t);
    ValidationAt(i);
  }

  /** The validate endpoint moves a connector only out of, or back into, `configured`. A validated
      connector that no longer validates keeps its status. */
  lemma ValidationMovesIff(c: Connector, valid: bool, errors: string, actor: string, at: real)
    ensures var after := Transact(c, ValidateRequest(valid, errors, c.tenant, actor, at)).0;
            if c.status == Configured
            then after.version == c.version + 1 && after.status == (if valid then Validated else Configured)
                 && after.reason == (if valid then None else Some(errors))
                 && |after.audit| == |c.audit| + 1 && after.audit[|c.audit|].actor == actor
            else after == c
  {
    var target := if valid then Validated else Configured;
    ValidationIsFoundIff(c.status, valid);
    RepeatableStates(c.status, target);
  }

  lemma ValidationIsFoundIff(status: State, valid: bool)
    ensures var event := if valid then ValidationSucceeded else ValidationFailed;
            var look := Find(status, if valid then Validated else Configured, Some(event));
            && (look.Found? <==> status == Configured)
            && (look.Found? ==> look.transition.event == event && !look.transition.requiresReason)
  {
    var event := if valid then ValidationSucceeded else ValidationFailed;
    var look := Find(status, if valid then Validated else Configured, Some(event));
    if look.Found? {
      ValidationEdges(look.transition);
    } else if status == Configured {
      ValidationIsFound(valid);
    }
  }

  lemma ValidationIsFound(valid: bool)
    ensures Find(Configured, if valid then Validated else Configured,
                 Some(if valid then ValidationSucceeded else ValidationFailed)).Found?
  {
    if valid {
      FindIsComplete(TRANSITIONS[5], Some(ValidationSucceeded));
    } else {
      FindIsComplete(TRANSITIONS[6], Some(ValidationFailed));
    }
  }

  lemma ReconfigurationAt(i: nat)
    requires i < |TRANSITIONS| && TRANSITIONS[i].event == ConfiguredEvent
    ensures 1 <= i <= 4
  {
  }

  lemma ReconfigurationIsFound(status: State)
    requires status == Installed || status == Configured || status == Validated || status == Disabled
    ensures Find(status, Configured, Some(ConfiguredEvent)).Found?
  {
    var i := if status == Installed then 1 else if status == Configured then 2
             else if status == Validated then 3 else 4;
    FindIsComplete(TRANSITIONS[i], Some(ConfiguredEvent));
  }

  lemma ReconfigurationIsFoundIff(status: State)
    ensures var look := Find(status, Configured, Some(ConfiguredEvent));
            && (look.Found? <==> status in {Installed, Configured, Validated, Disabled})
            && (look.Found? ==> !look.transition.requiresReason)
  {
    var look := Find(status, Configured, Some(ConfiguredEvent));
    if look.Found? {
      var i := IndexOf(look.transition);
      ReconfigurationAt(i);
    } else if status in {Installed, Configured, Validated, Disabled} {
      ReconfigurationIsFound(status);
    }
  }

  /** A reconfiguration is recorded, and leads to `configured`, exactly from installed, configured,
      validated and disabled - again and again from configured; from any other state it is refused and
      changes nothing. */
  lemma ReconfigurationIsRecordedIff(c: Connector, reason: Option<string>, key: Option<string>, actor: string, at: real)
    ensures var request := Transit(Configured, Some(ConfiguredEvent), c.tenant, actor, reason, key, at);
            var (after, outcome) := Transact(c, request);
            if c.status in {Installed, Configured, Validated, Disabled}
            then outcome == Applied(ConfiguredEvent) && after.version == c.version + 1 && after.status == Configured
                 && |after.audit| == |c.audit| + 1
            else outcome.Rejected? && after == c
  {
    ReconfigurationIsFoundIff(c.status);
    RepeatableStates(c.status, Configured);
  }

  /** Nothing unvalidated serves: in every reachable state, the last verdict on the configuration of a
      validated, enabled or disabled connector is a pass, or a creation whose configuration had just
      passed; and only an enabled connector serves. */
  lemma OnlyVettedConnectorsServe(tenant: string, actor: string, status: State, valid: bool, steps: seq<Step>)
    requires Create(tenant, actor, status, valid).Some?
    ensures var c := Run(Create(tenant, actor, status, valid).value, steps);
            (c.status in VETTED ==> Vetted(c.events)) && (IsExecutable(c.status) ==> c.status in VETTED)
            && AllReasoned(c.audit)
  {
    CreateEstablishes(tenant, actor, status, valid);
    InvRun(Create(tenant, actor, status, valid).value, steps);
  }
}
