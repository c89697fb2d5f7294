/** What each request does to a connector: its row, its audit trail and the events it stages.
    One locked row, one commit; a crash before the commit leaves everything as it was. */
module Connectors {
  import opened Options
  import opened Lifecycle

  // The body of a staged event. The DELETE endpoint's differs from a transition's.
  datatype Payload =
    | Creation(initial: State)
    | Change(from: State, to: State, actor: string, reason: Option<string>)
    | Deletion(requestedBy: string, at: real)

  datatype Emitted = Emitted(event: EventName, version: int, payload: Payload) {
    function Status(): State {
      match payload
      case Creation(s) => s
      case Change(_, s, _, _) => s
      case Deletion(_, _) => DeletionRequested
    }
  }

  datatype Audit = Audit(from: Option<State>, to: State, event: EventName, actor: string,
                         reason: Option<string>, version: int, key: Option<string>)

  datatype Connector = Connector(
    tenant: string, status: State, version: int, reason: Option<string>,
    revokedAt: Option<real>, archivedAt: Option<real>, deletionRequestedAt: Option<real>,
    rotatedAt: Option<real>, deletedBy: Option<string>,
    audit: seq<Audit>, events: seq<Emitted>)

  datatype Request =
    | Transit(target: State, event: Option<EventName>, tenant: string, actor: string,
              reason: Option<string>, key: Option<string>, at: real)
    | Delete(tenant: string, actor: string, at: real)

  datatype Outcome =
    | Applied(event: EventName) | Repeated(event: EventName)
    | Rejected(current: State, permitted: set<State>) | ReasonRequired
    | NotFound | Accepted | Gone
  {
    predicate Success() { Applied? || Repeated? || Accepted? }
  }

  predicate IsSpace(c: char) {
    var n := c as int;
    || 0x09 <= n <= 0x0D || 0x1C <= n <= 0x20 || n == 0x85 || n == 0xA0 || n == 0x1680
    || 0x2000 <= n <= 0x200A || n == 0x2028 || n == 0x2029 || n == 0x202F || n == 0x205F || n == 0x3000
  }

  predicate IsBlank(s: string) {
    forall c | c in s :: IsSpace(c)
  }

  predicate HasReason(reason: Option<string>) { reason.Some? && !IsBlank(reason.value) }

  // ---------------------------------------------------------------- transactions

  /** `transitions.apply` once the edge is known. */
  function Move(c: Connector, t: Transition, req: Request): Connector
    requires req.Transit?
  {
    var version := c.version + 1;
    c.(status := req.target, version := version, reason := req.reason,
       revokedAt := if req.target == Revoked then Some(req.at) else c.revokedAt,
       archivedAt := if req.target == Archived then Some(req.at) else c.archivedAt,
       deletionRequestedAt := if req.target == DeletionRequested then Some(req.at) else c.deletionRequestedAt,
       rotatedAt := if t.event == CredentialsRotated then Some(req.at) else c.rotatedAt,
       audit := c.audit + [Audit(Some(c.status), req.target, t.event, req.actor, req.reason, version, req.key)],
       events := c.events + [Emitted(t.event, version, Change(c.status, req.target, req.actor, req.reason))])
  }

  function Transact(c: Connector, req: Request): (Connector, Outcome) {
    if c.tenant != req.tenant then (c, NotFound) else
    match req
    case Transit(target, event, _, _, reason, _, _) =>
      (match Find(c.status, target, event)
       case Found(t) =>
         if t.requiresReason && !HasReason(reason) then (c, ReasonRequired)
         else (Move(c, t, req), Applied(t.event))
       case _ =>
         match IdempotentRepeat(c.status, target)
         case Some(t) => (c, Repeated(t.event))
         case None => (c, Rejected(c.status, PermittedTargets(c.status))))
    case Delete(_, actor, at) =>
      if c.status == Deleted then (c, Gone)
      else if c.status == DeletionRequested then (c, Accepted)
      else
        (c.(status := DeletionRequested, version := c.version + 1,
            deletionRequestedAt := Some(at), deletedBy := Some(actor),
            events := c.events + [Emitted(DeletionRequestedEvent, c.version + 1, Deletion(actor, at))]),
         Accepted)
  }

  /** Creation: refused unless the state is creatable and the configuration validates. */
  function Create(tenant: string, actor: string, status: State, valid: bool): Option<Connector> {
    if status !in CREATABLE || !valid then None
    else Some(Connector(tenant, status, 1, None, None, None, None, None, None,
                        [Audit(None, status, CreatedEvent, actor, None, 1, None)],
                        [Emitted(CreatedEvent, 1, Creation(status))]))
  }

  /** The validate endpoint's request, for the report it just computed. */
  function ValidateRequest(valid: bool, errors: string, tenant: string, actor: string, at: real): Request {
    if valid then Transit(Validated, Some(ValidationSucceeded), tenant, actor, None, None, at)
    else Transit(Configured, Some(ValidationFailed), tenant, actor, Some(errors), None, at)
  }

  /** The rotation endpoint's request; `read` is the status it read without a lock. */
  function RotateRequest(read: State, reason: Option<string>, key: Option<string>, tenant: string, actor: string,
          at: real): Request {
    Transit(read, Some(CredentialsRotated), tenant, actor, reason, key, at)
  }

  // ---------------------------------------------------------------- runs

  // A request whose transaction commits, or whose process dies first.
  datatype Step = Step(req: Request, commits: bool)

  function Next(c: Connector, step: Step): Connector {
    if step.commits then Transact(c, step.req).0 else c
  }

  function Run(c: Connector, steps: seq<Step>): Connector
    decreases |steps|
  {
    if steps == [] then c else Run(Next(c, steps[0]), steps[1..])
  }

  lemma {:induction false} RunAppend(c: Connector, a: seq<Step>, b: seq<Step>)
    ensures Run(c, a + b) == Run(Run(c, a), b)
    decreases |a|
  {
    if a == [] {
      assert a + b == b;
    } else {
      assert (a + b)[0] == a[0] && (a + b)[1..] == a[1..] + b;
      RunAppend(Next(c, a[0]), a[1..], b);
    }
  }

  // ---------------------------------------------------------------- the two accounts of what happened

  /** The audit trail the events imply: one entry per event not written by the DELETE endpoint,
      from the status one version earlier to the status at that version. */
  function Trail(events: seq<Emitted>): seq<(Option<State>, State, EventName, int)> {
    if events == [] then []
    else
      var n := |events|;
      var e := events[n - 1];
      Trail(events[..n - 1])
      + if e.payload.Deletion? then []
        else [(if n == 1 then None else Some(events[n - 2].Status()), e.Status(), e.event, e.version)]
  }

  function Entries(audit: seq<Audit>): seq<(Option<State>, State, EventName, int)> {
    seq(|audit|, i requires 0 <= i < |audit| => (audit[i].from, audit[i].to, audit[i].event, audit[i].version))
  }

  predicate IsVerdict(e: EventName) {
    e in {CreatedEvent, ConfiguredEvent, ValidationSucceeded, ValidationFailed}
  }

  /** The last event that says whether the configuration is good. */
  function LastVerdict(events: seq<Emitted>): Option<Emitted> {
    if events == [] then None
    else if IsVerdict(events[|events| - 1].event) then Some(events[|events| - 1])
    else LastVerdict(events[..|events| - 1])
  }

  const VETTED: set<State> := {Validated, Enabled, Disabled}

  ghost predicate Vetted(events: seq<Emitted>) {
    var verdict := LastVerdict(events);
    verdict.Some? && (verdict.value.event == ValidationSucceeded
                      || (verdict.value.event == CreatedEvent && verdict.value.Status() in VETTED))
  }

  ghost predicate Reasoned(a: Audit) {
    a.event == CreatedEvent
    || exists t | t in TRANSITIONS :: a.from == Some(t.source) && a.to == t.target && a.event == t.event
                                      && (t.requiresReason ==> HasReason(a.reason))
  }

  /** One event per version, and the last one carries the current status. */
  ghost predicate Numbered(c: Connector) {
    && |c.events| == c.version >= 1
    && (forall i | 0 <= i < |c.events| :: c.events[i].version == i + 1)
    && c.events[c.version - 1].Status() == c.status
  }

  /** A connector in a state with a time column has been stamped. */
  ghost predicate Stamped(c: Connector) {
    && (c.status == Revoked ==> c.revokedAt.Some?)
    && (c.status == Archived ==> c.archivedAt.Some?)
    && (c.status == DeletionRequested ==> c.deletionRequestedAt.Some?)
  }

  ghost predicate AllReasoned(audit: seq<Audit>) {
    forall a | a in audit :: Reasoned(a)
  }

  ghost predicate Inv(c: Connector) {
    && Numbered(c)
    && Entries(c.audit) == Trail(c.events)
    && (c.status in VETTED ==> Vetted(c.events))
    && AllReasoned(c.audit)
    && Stamped(c)
  }

  lemma CreateEstablishes(tenant: string, actor: string, status: State, valid: bool)
    ensures var made := Create(tenant, actor, status, valid);
            && (made.Some? <==> status in CREATABLE && valid)
            && (made.Some? ==>
                  Inv(made.value) && made.value.status == status && made.value.tenant == tenant
                  && |made.value.audit| == 1 && made.value.audit[0].event == CreatedEvent
                  && made.value.audit[0].actor == actor && made.value.audit[0].from.None?)
  {
    if status in CREATABLE && valid {
      var c := Create(tenant, actor, status, valid).value;
      assert c.events[..0] == [];
      assert Trail([]) == [];
    }
  }

  lemma VettedAt(i: nat)
    requires i < |TRANSITIONS| && TRANSITIONS[i].target in VETTED
    ensures var t := TRANSITIONS[i]; t.event == ValidationSucceeded || (t.source in VETTED && !IsVerdict(t.event))
  {
  }

  lemma VettedEdges(t: Transition)
    requires t in TRANSITIONS && t.target in VETTED
    ensures t.event == ValidationSucceeded || (t.source in VETTED && !IsVerdict(t.event))
  {
    var i := IndexOf(t);
    VettedAt(i);
  }

  lemma EventsGrow(events: seq<Emitted>, e: Emitted)
    ensures Trail(events + [e]) == Trail(events) + if e.payload.Deletion? then []
              else [(if events == [] then None else Some(events[|events| - 1].Status()), e.Status(), e.event,
                  e.version)]
    ensures LastVerdict(events + [e]) == if IsVerdict(e.event) then Some(e) else LastVerdict(events)
  {
    assert (events + [e])[..|events|] == events;
  }

  lemma MoveKeepsNumbered(c: Connector, t: Transition, req: Request)
    requires Numbered(c) && req.Transit? && t.target == req.target
    ensures Numbered(Move(c, t, req))
  {
    var c' := Move(c, t, req);
    assert c'.events[c.version].version == c'.version;
    forall i | 0 <= i < |c'.events|
      ensures c'.events[i].version == i + 1
    {
      assert i < c.version ==> c'.events[i] == c.events[i];
    }
  }

  /** An audit row and the event it goes with extend the two accounts alike. */
  lemma AccountsGrow(audit: seq<Audit>, events: seq<Emitted>, a: Audit, e: Emitted)
    requires Entries(audit) == Trail(events) && events != [] && !e.payload.Deletion?
    requires a.from == Some(events[|events| - 1].Status()) && a.to == e.Status()
    requires a.event == e.event && a.version == e.version
    ensures Entries(audit + [a]) == Trail(events + [e])
  {
    EventsGrow(events, e);
    EntriesGrow(audit, a);
  }

  lemma MoveKeepsTrail(c: Connector, t: Transition, req: Request)
    requires Numbered(c) && Entries(c.audit) == Trail(c.events)
    requires req.Transit? && t.source == c.status && t.target == req.target
    ensures var c' := Move(c, t, req); Entries(c'.audit) == Trail(c'.events)
  {
    AccountsGrow(c.audit, c.events,
                 Audit(Some(c.status), req.target, t.event, req.actor, req.reason, c.version + 1, req.key),
                 Emitted(t.event, c.version + 1, Change(c.status, req.target, req.actor, req.reason)));
  }

  lemma EntriesGrow(audit: seq<Audit>, a: Audit)
    ensures Entries(audit + [a]) == Entries(audit) + [(a.from, a.to, a.event, a.version)]
  {
  }

  lemma MoveKeepsVetted(c: Connector, t: Transition, req: Request)
    requires c.status in VETTED ==> Vetted(c.events)
    requires req.Transit? && t.source == c.status && t.target == req.target
    requires t.target in VETTED ==> t.event == ValidationSucceeded || (t.source in VETTED && !IsVerdict(t.event))
    ensures var c' := Move(c, t, req); c'.status in VETTED ==> Vetted(c'.events)
  {
    EventsGrow(c.events, Emitted(t.event, c.version + 1, Change(c.status, req.target, req.actor, req.reason)));
  }

  lemma ReasonedGrows(audit: seq<Audit>, a: Audit, t: Transition)
    requires AllReasoned(audit)
    requires t in TRANSITIONS && a.from == Some(t.source) && a.to == t.target && a.event == t.event
    requires t.requiresReason ==> HasReason(a.reason)
    ensures AllReasoned(audit + [a])
  {
    assert Reasoned(a);
  }

  lemma MoveKeeps(c: Connector, t: Transition, req: Request)
    requires Inv(c) && req.Transit? && t in TRANSITIONS && t.source == c.status && t.target == req.target
    requires t.requiresReason ==> HasReason(req.reason)
    ensures Inv(Move(c, t, req))
  {
    if t.target in VETTED {
      VettedEdges(t);
    }
    MoveKeepsNumbered(c, t, req);
    MoveKeepsTrail(c, t, req);
    MoveKeepsVetted(c, t, req);
    ReasonedGrows(c.audit, Move(c, t, req).audit[|c.audit|], t);
  }

  lemma InvNext(c: Connector, req: Request)
    requires Inv(c)
    ensures Inv(Transact(c, req).0)
  {
    if c.tenant == req.tenant {
      match req
      case Transit(target, event, _, _, reason, _, _) =>
        var look := Find(c.status, target, event);
        if look.Found? && (look.transition.requiresReason ==> HasReason(reason)) {
          MoveKeeps(c, look.transition, req);
        }
      case Delete(_, actor, at) =>
        EventsGrow(c.events, Emitted(DeletionRequestedEvent, c.version + 1, Deletion(actor, at)));
    }
  }

  lemma {:induction false} InvRun(c: Connector, steps: seq<Step>)
    requires Inv(c)
    ensures Inv(Run(c, steps))
    decreases |steps|
  {
    if steps != [] {
      InvNext(c, steps[0].req);
      InvRun(Next(c, steps[0]), steps[1..]);
    }
  }
}
