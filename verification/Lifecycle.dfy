/** The connector lifecycle as a transition table, and the lookups the rest of the service
    makes in it. */
module Lifecycle {
  import opened Options

  datatype State =
    | Draft | Installed | Configured | Validated | Enabled
    | Disabled | Revoked | DeletionRequested | Archived | Deleted

  datatype EventName =
    | CreatedEvent | InstalledEvent | ConfiguredEvent | ValidationSucceeded | ValidationFailed
    | EnabledEvent | DisabledEvent | CredentialsRotated | RevokedEvent
    | DeletionRequestedEvent | ArchivedEvent | DeletedEvent
    | OtherEvent(name: string)

  datatype Transition = Transition(source: State, target: State, event: EventName,
                                   idempotent: bool, requiresReason: bool)

  datatype Lookup = Found(transition: Transition) | NotPermitted | Terminal

  // One entry per permitted edge, in the order the lookups scan them.
  const TRANSITIONS: seq<Transition> := [
    Transition(Draft, Installed, InstalledEvent, false, false),
    Transition(Installed, Configured, ConfiguredEvent, false, false),
    Transition(Configured, Configured, ConfiguredEvent, false, false),
    Transition(Validated, Configured, ConfiguredEvent, false, false),
    Transition(Disabled, Configured, ConfiguredEvent, false, false),
    Transition(Configured, Validated, ValidationSucceeded, false, false),
    Transition(Configured, Configured, ValidationFailed, false, false),
    Transition(Validated, Enabled, EnabledEvent, false, false),
    Transition(Disabled, Enabled, EnabledEvent, false, false),
    Transition(Enabled, Disabled, DisabledEvent, true, true),
    Transition(Enabled, Enabled, CredentialsRotated, false, false),
    Transition(Disabled, Disabled, CredentialsRotated, false, false),
    Transition(Draft, Revoked, RevokedEvent, true, true),
    Transition(Installed, Revoked, RevokedEvent, true, true),
    Transition(Configured, Revoked, RevokedEvent, true, true),
    Transition(Validated, Revoked, RevokedEvent, true, true),
    Transition(Enabled, Revoked, RevokedEvent, true, true),
    Transition(Disabled, Revoked, RevokedEvent, true, true),
    Transition(Disabled, DeletionRequested, DeletionRequestedEvent, true, true),
    Transition(Revoked, DeletionRequested, DeletionRequestedEvent, true, true),
    Transition(DeletionRequested, Archived, ArchivedEvent, true, false),
    Transition(Revoked, Archived, ArchivedEvent, true, false),
    Transition(Archived, Deleted, DeletedEvent, false, true)
  ]

  const CREATABLE: set<State> := {Draft, Installed, Configured, Validated, Enabled, Disabled}

  // States from which no request ever leads back to serving traffic.
  const RETIRED: set<State> := {Revoked, DeletionRequested, Archived, Deleted}

  lemma IndexOf(t: Transition) returns (i: nat)
    requires t in TRANSITIONS
    ensures i < |TRANSITIONS| && TRANSITIONS[i] == t
  {
    i :| i < |TRANSITIONS| && TRANSITIONS[i] == t;
  }

  predicate IsExecutable(s: State) { s == Enabled }

  predicate Matches(t: Transition, source: State, target: State, event: Option<EventName>) {
    t.source == source && t.target == target && (event.None? || t.event == event.value)
  }

  /** The first entry on this edge from position `i` on, restricted to `event` when one is named. */
  function FirstEdge(i: nat, source: State, target: State, event: Option<EventName>): (r: Option<Transition>)
    requires i <= |TRANSITIONS|
    ensures r.Some? ==> r.value in TRANSITIONS && Matches(r.value, source, target, event)
    ensures r.None? ==> forall j | i <= j < |TRANSITIONS| :: !Matches(TRANSITIONS[j], source, target, event)
    decreases |TRANSITIONS| - i
  {
    if i == |TRANSITIONS| then None
    else if Matches(TRANSITIONS[i], source, target, event) then Some(TRANSITIONS[i])
    else FirstEdge(i + 1, source, target, event)
  }

  function Find(source: State, target: State, event: Option<EventName>): Lookup {
    if source == Deleted && source != target then Terminal
    else match FirstEdge(0, source, target, event)
      case Some(t) => Found(t)
      case None => NotPermitted
  }

  lemma DeletedHasNoExit(t: Transition)
    requires t in TRANSITIONS
    ensures t.source != Deleted
  {
  }

  /** The lookup finds an edge whenever the table holds one. */
  lemma FindIsComplete(t: Transition, event: Option<EventName>)
    requires t in TRANSITIONS && (event.None? || t.event == event.value)
    ensures Find(t.source, t.target, event).Found?
  {
    DeletedHasNoExit(t);
    assert Matches(t, t.source, t.target, event);
  }

  function PermittedTargets(source: State): set<State> {
    set t | t in TRANSITIONS && t.source == source :: t.target
  }

  function FirstIdempotent(i: nat, target: State): (r: Option<Transition>)
    requires i <= |TRANSITIONS|
    ensures r.Some? ==> r.value in TRANSITIONS && r.value.target == target && r.value.idempotent
    ensures r.None? ==> forall j | i <= j < |TRANSITIONS| ::
              !(TRANSITIONS[j].target == target && TRANSITIONS[j].idempotent)
    decreases |TRANSITIONS| - i
  {
    if i == |TRANSITIONS| then None
    else if TRANSITIONS[i].target == target && TRANSITIONS[i].idempotent then Some(TRANSITIONS[i])
    else FirstIdempotent(i + 1, target)
  }

  function IdempotentRepeat(current: State, target: State): Option<Transition> {
    if current != target then None else FirstIdempotent(0, target)
  }

  lemma IdempotentTargets(t: Transition)
    requires t in TRANSITIONS && t.idempotent
    ensures t.target in {Disabled, Revoked, DeletionRequested, Archived}
  {
  }

  lemma RepeatableEdge(target: State) returns (k: nat)
    requires target in {Disabled, Revoked, DeletionRequested, Archived}
    ensures k < |TRANSITIONS| && TRANSITIONS[k].target == target && TRANSITIONS[k].idempotent
  {
    k := if target == Disabled then 9 else if target == Revoked then 12
         else if target == DeletionRequested then 18 else 20;
  }

  /** Re-requesting a held state is a success for exactly these four. */
  lemma RepeatableStates(current: State, target: State)
    ensures IdempotentRepeat(current, target).Some?
            <==> current == target && target in {Disabled, Revoked, DeletionRequested, Archived}
  {
    var first := FirstIdempotent(0, target);
    if first.Some? {
      IdempotentTargets(first.value);
    }
    if target in {Disabled, Revoked, DeletionRequested, Archived} {
      var k := RepeatableEdge(target);
      assert TRANSITIONS[k].target == target && TRANSITIONS[k].idempotent;
    }
  }

  /** No edge leaves the retired states except to another retired state. */
  lemma RetiredIsClosed(t: Transition)
    requires t in TRANSITIONS && t.source in RETIRED
    ensures t.target in RETIRED
  {
  }

  lemma FoundIsPermitted(source: State, target: State, event: Option<EventName>)
    requires Find(source, target, event).Found?
    ensures target in PermittedTargets(source)
  {
    var t := Find(source, target, event).transition;
    assert t in TRANSITIONS && t.source == source && t.target == target;
  }

  lemma PermittedIsFound(source: State, target: State) returns (t: Transition)
    requires target in PermittedTargets(source)
    ensures Find(source, target, None).Found?
    ensures Find(source, target, Some(t.event)).Found?
  {
    t :| t in TRANSITIONS && t.source == source && t.target == target;
    FindIsComplete(t, None);
    FindIsComplete(t, Some(t.event));
  }

  /** A 409 lists exactly the targets for which some request with a reason would have succeeded. */
  lemma PermittedTargetsAreHonest(source: State, target: State)
    ensures target in PermittedTargets(source) <==> exists e :: Find(source, target, e).Found?
  {
    if target in PermittedTargets(source) {
      var _ := PermittedIsFound(source, target);
    }
    forall e | Find(source, target, e).Found?
      ensures target in PermittedTargets(source)
    {
      FoundIsPermitted(source, target, e);
    }
  }
}
