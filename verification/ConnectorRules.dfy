/** What a request may do to a connector, state by state, and whose doing every record is. */
module ConnectorRules {
  import opened Options
  import opened Lifecycle
  import opened Connectors
  import ConnectorHistory

  // ---------------------------------------------------------------- the edges

  // The states before retirement.
  predicate Live(s: State) {
    s == Draft || s == Installed || s == Configured || s == Validated || s == Enabled || s == Disabled
  }

  /** What each event may do. */
  predicate Edge(source: State, target: State, event: EventName) {
    match event
    case InstalledEvent => source == Draft && target == Installed
    case ConfiguredEvent =>
      (source == Installed || source == Configured || source == Validated || source == Disabled) && target == Configured
    case ValidationSucceeded => source == Configured && target == Validated
    case ValidationFailed => source == Configured && target == Configured
    case EnabledEvent => (source == Validated || source == Disabled) && target == Enabled
    case DisabledEvent => source == Enabled && target == Disabled
    case CredentialsRotated => (source == Enabled || source == Disabled) && target == source
    case RevokedEvent => Live(source) && target == Revoked
    case DeletionRequestedEvent => (source == Disabled || source == Revoked) && target == DeletionRequested
    case ArchivedEvent => (source == DeletionRequested || source == Revoked) && target == Archived
    case DeletedEvent => source == Archived && target == Deleted
    case _ => false
  }

  predicate MustExplain(source: State, target: State) {
    (source == Enabled && target == Disabled) || target == Revoked || target == DeletionRequested || target == Deleted
  }

  lemma EarlyEdgeAt(i: nat)
    requires i < 12
    ensures Edge(TRANSITIONS[i].source, TRANSITIONS[i].target, TRANSITIONS[i].event)
  {
  }

  lemma LateEdgeAt(i: nat)
    requires 12 <= i < |TRANSITIONS|
    ensures Edge(TRANSITIONS[i].source, TRANSITIONS[i].target, TRANSITIONS[i].event)
  {
  }

  lemma ReasonAt(i: nat)
    requires i < |TRANSITIONS|
    ensures TRANSITIONS[i].requiresReason <==> MustExplain(TRANSITIONS[i].source, TRANSITIONS[i].target)
  {
  }

  function IndexFrom(source: State): (i: nat)
    requires Live(source)
    ensures i < |TRANSITIONS| && TRANSITIONS[i].source == source && TRANSITIONS[i].target == Revoked
    ensures TRANSITIONS[i].event == RevokedEvent
  {
    if source == Draft then 12 else if source == Installed then 13 else if source == Configured then 14
    else if source == Validated then 15 else if source == Enabled then 16 else 17
  }

  // Where an edge stands in the table.
  function IndexOfEdge(source: State, target: State, event: EventName): (i: nat)
    requires Edge(source, target, event)
  {
    match event
    case InstalledEvent => 0
    case ConfiguredEvent =>
      if source == Installed then 1 else if source == Configured then 2 else if source == Validated then 3 else 4
    case ValidationSucceeded => 5
    case ValidationFailed => 6
    case EnabledEvent => if source == Validated then 7 else 8
    case DisabledEvent => 9
    case CredentialsRotated => if source == Enabled then 10 else 11
    case RevokedEvent => IndexFrom(source)
    case DeletionRequestedEvent => if source == Disabled then 18 else 19
    case ArchivedEvent => if source == DeletionRequested then 20 else 21
    case DeletedEvent => 22
  }

  lemma EdgeIsListed(source: State, target: State, event: EventName)
    requires Edge(source, target, event)
    ensures var i := IndexOfEdge(source, target, event);
            && i < |TRANSITIONS| && TRANSITIONS[i].source == source && TRANSITIONS[i].target == target
            && TRANSITIONS[i].event == event
  {
  }

  predicate Named(event: Option<EventName>, e: EventName) { event.None? || event.value == e }

  ghost predicate Permitted(source: State, target: State, event: Option<EventName>) {
    exists e :: Edge(source, target, e) && Named(event, e)
  }

  lemma FoundIsEdge(source: State, target: State, event: Option<EventName>)
    requires Find(source, target, event).Found?
    ensures var t := Find(source, target, event).transition;
            && Edge(source, target, t.event) && Named(event, t.event)
            && (t.requiresReason <==> MustExplain(source, target))
  {
    var i := IndexOf(Find(source, target, event).transition);
    if i < 12 {
      EarlyEdgeAt(i);
    } else {
      LateEdgeAt(i);
    }
    ReasonAt(i);
  }

  lemma EdgeIsFound(source: State, target: State, event: Option<EventName>, e: EventName)
    requires Edge(source, target, e) && Named(event, e)
    ensures Find(source, target, event).Found?
  {
    EdgeIsListed(source, target, e);
    FindIsComplete(TRANSITIONS[IndexOfEdge(source, target, e)], event);
  }

  /** The lookup permits exactly the edges of the lifecycle, under the name asked for if one is. */
  lemma TheEdges(source: State, target: State, event: Option<EventName>)
    ensures Find(source, target, event).Found? <==> Permitted(source, target, event)
  {
    if Find(source, target, event).Found? {
      FoundIsEdge(source, target, event);
    }
    forall e | Edge(source, target, e) && Named(event, e)
      ensures Find(source, target, event).Found?
    {
      EdgeIsFound(source, target, event, e);
    }
  }

  lemma FirstEdgeAt(i: nat, source: State, target: State, event: Option<EventName>)
    requires i < |TRANSITIONS|
    ensures FirstEdge(i, source, target, event)
         == if Matches(TRANSITIONS[i], source, target, event) then Some(TRANSITIONS[i])
            else FirstEdge(i + 1, source, target, event)
  {
  }

  lemma FirstThree()
    ensures TRANSITIONS[0].source == Draft && TRANSITIONS[1].source == Installed
    ensures TRANSITIONS[2].source == TRANSITIONS[2].target == Configured && TRANSITIONS[2].event == ConfiguredEvent
  {
  }

  lemma ReconfigurationComesFirst()
    ensures FirstEdge(0, Configured, Configured, None) == Some(TRANSITIONS[2])
  {
    FirstThree();
    FirstEdgeAt(0, Configured, Configured, None);
    FirstEdgeAt(1, Configured, Configured, None);
    FirstEdgeAt(2, Configured, Configured, None);
  }

  /** Two events share an edge only from configured to configured; unnamed, it is a reconfiguration. */
  lemma UnnamedEdge(source: State, target: State, e: EventName)
    requires Edge(source, target, e)
    ensures var look := Find(source, target, None);
            look.Found? && look.transition.event == if source == target == Configured then ConfiguredEvent else e
  {
    if source == Configured && target == Configured {
      ReconfigurationComesFirst();
    } else {
      EdgeIsFound(source, target, None, e);
      FoundIsEdge(source, target, None);
    }
  }

  // ---------------------------------------------------------------- what a request comes to

  ghost predicate Explained(reason: Option<string>) {
    reason.Some? && exists i :: 0 <= i < |reason.value| && !IsSpace(reason.value[i])
  }

  lemma ExplainedIff(reason: Option<string>)
    ensures HasReason(reason) <==> Explained(reason)
  {
    if Explained(reason) {
      var i :| 0 <= i < |reason.value| && !IsSpace(reason.value[i]);
      assert reason.value[i] in reason.value;
    }
  }

  // The states a repeated request for which is a success, and the event it reports.
  function RepeatedEvent(target: State): Option<EventName> {
    match target
    case Disabled => Some(DisabledEvent)
    case Revoked => Some(RevokedEvent)
    case DeletionRequested => Some(DeletionRequestedEvent)
    case Archived => Some(ArchivedEvent)
    case _ => None
  }

  lemma RepeatableAt(i: nat)
    requires i < |TRANSITIONS| && TRANSITIONS[i].idempotent
    ensures RepeatedEvent(TRANSITIONS[i].target) == Some(TRANSITIONS[i].event)
  {
  }

  lemma RepeatIff(current: State, target: State)
    ensures var repeat := IdempotentRepeat(current, target);
            && (repeat.Some? <==> current == target && RepeatedEvent(target).Some?)
            && (repeat.Some? ==> RepeatedEvent(target) == Some(repeat.value.event))
  {
    RepeatableStates(current, target);
    var repeat := IdempotentRepeat(current, target);
    if repeat.Some? {
      var i := IndexOf(repeat.value);
      RepeatableAt(i);
    }
  }

  /** A transition request of the connector's own tenant is applied, asked for a reason, answered as a
      repetition or rejected, in exactly these cases. A reason is asked for exactly where the edge is
      disabling, or leads to revoked, deletion requested or deleted, and none that says anything is given. */
  lemma TransitIff(c: Connector, req: Request)
    requires req.Transit? && req.tenant == c.tenant
    ensures var (after, outcome) := Transact(c, req);
            var permitted := Permitted(c.status, req.target, req.event);
            var repeats := c.status == req.target && RepeatedEvent(req.target).Some?;
            var lacking := MustExplain(c.status, req.target) && !Explained(req.reason);
            && (outcome.Applied? <==> permitted && !lacking)
            && (outcome.ReasonRequired? <==> permitted && lacking)
            && (outcome.Repeated? <==> !permitted && repeats)
            && (outcome.Rejected? <==> !permitted && !repeats)
            && (outcome.Applied? ==> Edge(c.status, req.target, outcome.event) && Named(req.event, outcome.event))
            && (outcome.Repeated? ==> RepeatedEvent(req.target) == Some(outcome.event))
            && (outcome.Rejected? ==> outcome.current == c.status)
            && (!outcome.Applied? ==> after == c)
  {
    TheEdges(c.status, req.target, req.event);
    ExplainedIff(req.reason);
    RepeatIff(c.status, req.target);
    if Find(c.status, req.target, req.event).Found? {
      FoundIsEdge(c.status, req.target, req.event);
    }
  }

  lemma SomeEdgeIff(source: State, target: State)
    ensures (exists event :: Find(source, target, event).Found?) <==> exists e :: Edge(source, target, e)
  {
    forall event | Find(source, target, event).Found?
      ensures exists e :: Edge(source, target, e)
    {
      FoundIsEdge(source, target, event);
    }
    forall e | Edge(source, target, e)
      ensures Find(source, target, Some(e)).Found?
    {
      EdgeIsFound(source, target, Some(e), e);
    }
  }

  lemma RejectedWithTargets(c: Connector, req: Request)
    requires Transact(c, req).1.Rejected?
    ensures Transact(c, req).1 == Rejected(c.status, PermittedTargets(c.status))
  {
    var look, repeat := Find(c.status, req.target, req.event), IdempotentRepeat(c.status, req.target);
    assert !look.Found? && repeat.None?;
  }

  /** The alternatives a rejection lists are the targets of the edges that leave the status held. */
  lemma RejectionLists(c: Connector, req: Request, target: State)
    requires Transact(c, req).1.Rejected?
    ensures target in Transact(c, req).1.permitted <==> exists e :: Edge(c.status, target, e)
  {
    RejectedWithTargets(c, req);
    PermittedTargetsAreHonest(c.status, target);
    SomeEdgeIff(c.status, target);
  }

  /** The DELETE endpoint: gone when deleted, accepted otherwise; the row moves once, and no audit row is
      written. */
  lemma DeleteIff(c: Connector, req: Request)
    requires req.Delete? && req.tenant == c.tenant
    ensures var (after, outcome) := Transact(c, req);
            && outcome == (if c.status == Deleted then Gone else Accepted)
            && after.audit == c.audit
            && (c.status in {Deleted, DeletionRequested} ==> after == c)
            && (c.status !in {Deleted, DeletionRequested} ==>
                  after.status == DeletionRequested && after.version == c.version + 1 && after.reason == c.reason
                  && after.deletedBy == Some(req.actor) && after.deletionRequestedAt == Some(req.at))
  {
  }

  // ---------------------------------------------------------------- who can still serve

  // The next state on the way to serving.
  function Onward(s: State): (State, EventName)
    requires Live(s) && s != Enabled
  {
    match s
    case Draft => (Installed, InstalledEvent)
    case Installed => (Configured, ConfiguredEvent)
    case Configured => (Validated, ValidationSucceeded)
    case _ => (Enabled, EnabledEvent)
  }

  function StepsToServe(s: State): nat {
    match s
    case Draft => 4
    case Installed => 3
    case Configured => 2
    case Enabled => 0
    case _ => 1
  }

  lemma OnwardMoves(c: Connector, req: Request)
    requires Live(c.status) && c.status != Enabled && req.Transit? && req.tenant == c.tenant
    requires req.target == Onward(c.status).0 && req.event == Some(Onward(c.status).1)
    ensures Transact(c, req).0.status == req.target
  {
    assert Edge(c.status, req.target, Onward(c.status).1);
    TransitIff(c, req);
    ConnectorHistory.SuccessLands(c, req);
  }

  lemma {:induction false} RouteToServing(c: Connector) returns (steps: seq<Step>)
    requires Live(c.status)
    ensures Run(c, steps).status == Enabled
    decreases StepsToServe(c.status)
  {
    steps := [];
    if c.status != Enabled {
      var (target, event) := Onward(c.status);
      var step := Step(Transit(target, Some(event), c.tenant, "", None, None, 0.0), true);
      OnwardMoves(c, step.req);
      var rest := RouteToServing(Next(c, step));
      steps := [step] + rest;
      assert steps[1..] == rest;
    }
  }

  predicate ServesAfter(c: Connector, steps: seq<Step>) { Run(c, steps).status == Enabled }

  /** A connector can still be brought to serve exactly when it is not retired, and those are the states it
      can be created in. */
  lemma CanServeIff(c: Connector)
    ensures (exists steps :: ServesAfter(c, steps)) <==> Live(c.status)
    ensures Live(c.status) <==> c.status !in RETIRED
    ensures Live(c.status) <==> c.status in CREATABLE
  {
    if Live(c.status) {
      var steps := RouteToServing(c);
      assert ServesAfter(c, steps);
    } else {
      forall steps
        ensures !ServesAfter(c, steps)
      {
        ConnectorHistory.RetiredForever(c, steps);
      }
    }
  }

  // ---------------------------------------------------------------- reasons on record

  predicate NeedsReason(e: EventName) {
    e == DisabledEvent || e == RevokedEvent || e == DeletionRequestedEvent || e == DeletedEvent
  }

  lemma ReasonedEventAt(i: nat)
    requires i < |TRANSITIONS| && NeedsReason(TRANSITIONS[i].event)
    ensures TRANSITIONS[i].requiresReason
  {
  }

  lemma ReasonedRow(a: Audit)
    requires Reasoned(a) && NeedsReason(a.event)
    ensures HasReason(a.reason)
  {
    var t :| t in TRANSITIONS && a.event == t.event && (t.requiresReason ==> HasReason(a.reason));
    var i := IndexOf(t);
    ReasonedEventAt(i);
  }

  /** In every reachable state, each audit row of a disabling, a revocation, a deletion request or a
      deletion gives a reason with at least one character that is not white space. */
  lemma ReasonsOnRecord(tenant: string, actor: string, status: State, valid: bool, steps: seq<Step>, a: Audit)
    requires Create(tenant, actor, status, valid).Some?
    requires a in Run(Create(tenant, actor, status, valid).value, steps).audit && NeedsReason(a.event)
    ensures Explained(a.reason)
  {
    ConnectorHistory.OnlyVettedConnectorsServe(tenant, actor, status, valid, steps);
    ReasonedRow(a);
    ExplainedIff(a.reason);
  }

  // ---------------------------------------------------------------- whose doing it was

  // The audit row of an applied transition request.
  predicate Explains(req: Request, a: Audit) {
    && req.Transit? && a.to == req.target && Named(req.event, a.event)
    && a.actor == req.actor && a.reason == req.reason && a.key == req.key
  }

  // The event of an applied request.
  predicate Announces(req: Request, e: Emitted) {
    match req
    case Transit(target, event, _, actor, reason, _, _) =>
      e.payload.Change? && e.payload.to == target && Named(event, e.event)
      && e.payload.actor == actor && e.payload.reason == reason
    case Delete(_, actor, at) => e.event == DeletionRequestedEvent && e.payload == Deletion(actor, at)
  }

  ghost predicate Audited(tenant: string, steps: seq<Step>, a: Audit) {
    exists i | 0 <= i < |steps| :: steps[i].commits && steps[i].req.tenant == tenant && Explains(steps[i].req, a)
  }

  ghost predicate Announced(tenant: string, steps: seq<Step>, e: Emitted) {
    exists i | 0 <= i < |steps| :: steps[i].commits && steps[i].req.tenant == tenant && Announces(steps[i].req, e)
  }

  lemma OneStepRecords(c: Connector, step: Step)
    ensures var after := Next(c, step);
            && (after.audit == c.audit
                || (|after.audit| == |c.audit| + 1 && step.commits && step.req.tenant == c.tenant
                    && Explains(step.req, after.audit[|c.audit|])))
            && (after.events == c.events
                || (|after.events| == |c.events| + 1 && step.commits && step.req.tenant == c.tenant
                    && Announces(step.req, after.events[|c.events|])))
  {
  }

  /** Every audit row and every event written after the first ones is the doing of a committed request of the
      connector's own tenant, and carries its target, event, actor and reason (and, on the audit row, its
      idempotency key). */
  lemma {:induction false} EveryRecordIsSomeonesDoing(c: Connector, steps: seq<Step>)
    ensures var after := Run(c, steps);
            && (forall k | |c.audit| <= k < |after.audit| :: Audited(c.tenant, steps, after.audit[k]))
            && (forall k | |c.events| <= k < |after.events| :: Announced(c.tenant, steps, after.events[k]))
    decreases |steps|
  {
    if steps != [] {
      var next, after := Next(c, steps[0]), Run(c, steps);
      OneStepRecords(c, steps[0]);
      ConnectorHistory.AccountsOnlyGrow(next, steps[1..]);
      EveryRecordIsSomeonesDoing(next, steps[1..]);
      forall k | |c.audit| <= k < |after.audit|
        ensures Audited(c.tenant, steps, after.audit[k])
      {
        if k >= |next.audit| {
          AuditedEarlier(c.tenant, steps, after.audit[k]);
        }
      }
      forall k | |c.events| <= k < |after.events|
        ensures Announced(c.tenant, steps, after.events[k])
      {
        if k >= |next.events| {
          AnnouncedEarlier(c.tenant, steps, after.events[k]);
        }
      }
    }
  }

  lemma AuditedEarlier(tenant: string, steps: seq<Step>, a: Audit)
    requires steps != [] && Audited(tenant, steps[1..], a)
    ensures Audited(tenant, steps, a)
  {
    var i :| 0 <= i < |steps| - 1 && steps[1..][i].commits && steps[1..][i].req.tenant == tenant
             && Explains(steps[1..][i].req, a);
    assert steps[i + 1] == steps[1..][i];
  }

  lemma AnnouncedEarlier(tenant: string, steps: seq<Step>, e: Emitted)
    requires steps != [] && Announced(tenant, steps[1..], e)
    ensures Announced(tenant, steps, e)
  {
    var i :| 0 <= i < |steps| - 1 && steps[1..][i].commits && steps[1..][i].req.tenant == tenant
             && Announces(steps[1..][i].req, e);
    assert steps[i + 1] == steps[1..][i];
  }

  /** The status a change says it left is the status the event before it led to. */
  ghost predicate Chained(events: seq<Emitted>) {
    forall i | 1 <= i < |events| && events[i].payload.Change? :: events[i].payload.from == events[i - 1].Status()
  }

  lemma ChainedNext(c: Connector, req: Request)
    requires Numbered(c) && Chained(c.events)
    ensures Chained(Transact(c, req).0.events)
  {
    var after := Transact(c, req).0;
    forall i | 1 <= i < |after.events| && after.events[i].payload.Change?
      ensures after.events[i].payload.from == after.events[i - 1].Status()
    {
      assert after.events[i - 1] == c.events[i - 1];
      assert i < |c.events| ==> after.events[i] == c.events[i];
    }
  }

  lemma {:induction false} ChainedRun(c: Connector, steps: seq<Step>)
    requires Inv(c) && Chained(c.events)
    ensures Chained(Run(c, steps).events)
    decreases |steps|
  {
    if steps != [] {
      ChainedNext(c, steps[0].req);
      InvNext(c, steps[0].req);
      ChainedRun(Next(c, steps[0]), steps[1..]);
    }
  }

  /** In every reachable state the events form a chain. */
  lemma EventsAreChained(tenant: string, actor: string, status: State, valid: bool, steps: seq<Step>)
    requires Create(tenant, actor, status, valid).Some?
    ensures Chained(Run(Create(tenant, actor, status, valid).value, steps).events)
  {
    CreateEstablishes(tenant, actor, status, valid);
    ChainedRun(Create(tenant, actor, status, valid).value, steps);
  }

  // ---------------------------------------------------------------- tenants

  function OwnSteps(tenant: string, steps: seq<Step>): seq<Step> {
    if steps == [] then []
    else (if steps[0].req.tenant == tenant then [steps[0]] else []) + OwnSteps(tenant, steps[1..])
  }

  /** A request learns whether the connector exists exactly when it is of the connector's tenant: every
      other request, DELETE included, is answered not found and changes nothing. */
  lemma NotFoundIff(c: Connector, req: Request)
    ensures Transact(c, req).1.NotFound? <==> req.tenant != c.tenant
    ensures req.tenant != c.tenant ==> Transact(c, req).0 == c
  {
  }

  /** So leaving other tenants' requests out of a run leaves the connector as it is. */
  lemma {:induction false} OtherTenantsLeaveNoTrace(c: Connector, steps: seq<Step>)
    ensures Run(c, steps) == Run(c, OwnSteps(c.tenant, steps))
    decreases |steps|
  {
    if steps != [] {
      var own := OwnSteps(c.tenant, steps[1..]);
      NotFoundIff(c, steps[0].req);
      ConnectorHistory.AccountsOnlyGrow(c, [steps[0]]);
      OtherTenantsLeaveNoTrace(Next(c, steps[0]), steps[1..]);
      assert [] + own == own && ([steps[0]] + own)[1..] == own;
    }
  }

  // ---------------------------------------------------------------- time columns

  ghost predicate Told(events: seq<Emitted>, s: State) { exists e | e in events :: e.Status() == s }

  ghost predicate Rotated(events: seq<Emitted>) { exists e | e in events :: e.event == CredentialsRotated }

  ghost predicate DeletedByRequest(events: seq<Emitted>) { exists e | e in events :: e.payload.Deletion? }

  /** A time column is set if and only if some event led to its state. */
  ghost predicate StampsTell(c: Connector) {
    && (c.revokedAt.Some? <==> Told(c.events, Revoked))
    && (c.archivedAt.Some? <==> Told(c.events, Archived))
    && (c.deletionRequestedAt.Some? <==> Told(c.events, DeletionRequested))
    && (c.rotatedAt.Some? <==> Rotated(c.events))
    && (c.deletedBy.Some? <==> DeletedByRequest(c.events))
  }

  lemma ToldGrows(events: seq<Emitted>, e: Emitted, s: State)
    ensures Told(events + [e], s) <==> Told(events, s) || e.Status() == s
    ensures Rotated(events + [e]) <==> Rotated(events) || e.event == CredentialsRotated
    ensures DeletedByRequest(events + [e]) <==> DeletedByRequest(events) || e.payload.Deletion?
  {
    assert e in events + [e];
    assert forall x | x in events :: x in events + [e];
  }

  lemma AllToldGrows(events: seq<Emitted>, e: Emitted)
    ensures forall s :: Told(events + [e], s) <==> Told(events, s) || e.Status() == s
    ensures Rotated(events + [e]) <==> Rotated(events) || e.event == CredentialsRotated
    ensures DeletedByRequest(events + [e]) <==> DeletedByRequest(events) || e.payload.Deletion?
  {
    forall s {
      ToldGrows(events, e, s);
    }
  }

  lemma StampsTellNext(c: Connector, req: Request)
    requires StampsTell(c)
    ensures StampsTell(Transact(c, req).0)
  {
    var after := Transact(c, req).0;
    if after != c {
      AllToldGrows(c.events, after.events[|c.events|]);
    }
  }

  lemma {:induction false} StampsTellRun(c: Connector, steps: seq<Step>)
    requires StampsTell(c)
    ensures StampsTell(Run(c, steps))
    decreases |steps|
  {
    if steps != [] {
      StampsTellNext(c, steps[0].req);
      StampsTellRun(Next(c, steps[0]), steps[1..]);
    }
  }

  /** In every reachable state the time columns and `deleted_by` tell what the events tell. */
  lemma ColumnsTellTheEvents(tenant: string, actor: string, status: State, valid: bool, steps: seq<Step>)
    requires Create(tenant, actor, status, valid).Some?
    ensures StampsTell(Run(Create(tenant, actor, status, valid).value, steps))
  {
    var c := Create(tenant, actor, status, valid).value;
    AllToldGrows([], c.events[0]);
    assert [] + [c.events[0]] == c.events;
    StampsTellRun(c, steps);
  }
}
