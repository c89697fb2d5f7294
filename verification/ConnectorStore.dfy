/** The connector row as the service mutates it, with its audit and outbox rows. Every method is
    proved to perform exactly the transaction `Connectors.Transact` describes. */
module ConnectorStore {
  import opened Options
  import opened Lifecycle
  import opened Connectors
  import ConnectorHistory
  import ConnectorRules

  class ConnectorRecord {
    const tenant: string
    var status: State
    var version: int
    var stateReason: Option<string>
    var revokedAt: Option<real>
    var archivedAt: Option<real>
    var deletionRequestedAt: Option<real>
    var credentialsRotatedAt: Option<real>
    var deletedBy: Option<string>
    var audit: seq<Audit>
    var outbox: seq<Emitted>

    function Snapshot(): Connector
      reads this
    {
      Connector(tenant, status, version, stateReason, revokedAt, archivedAt, deletionRequestedAt,
                credentialsRotatedAt, deletedBy, audit, outbox)
    }

    /** The row and its first audit entry and event, for a request the schema and the adapter accepted. */
    constructor (tenant: string, actor: string, status: State)
      requires status in CREATABLE
      ensures Create(tenant, actor, status, true) == Some(Snapshot())
      ensures Inv(Snapshot())
    {
      this.tenant := tenant;
      this.status, version, stateReason := status, 1, None;
      revokedAt, archivedAt, deletionRequestedAt := None, None, None;
      credentialsRotatedAt, deletedBy := None, None;
      audit := [Audit(None, status, CreatedEvent, actor, None, 1, None)];
      outbox := [Emitted(CreatedEvent, 1, Creation(status))];
      new;
      CreateEstablishes(tenant, actor, status, true);
    }

    method Rollback(committed: Connector)
      requires committed.tenant == tenant
      modifies this
      ensures Snapshot() == committed
    {
      status, version, stateReason := committed.status, committed.version, committed.reason;
      revokedAt, archivedAt := committed.revokedAt, committed.archivedAt;
      deletionRequestedAt, credentialsRotatedAt := committed.deletionRequestedAt, committed.rotatedAt;
      deletedBy, audit, outbox := committed.deletedBy, committed.audit, committed.events;
    }

    /** Stamp the time column of the target state, if it has one, and of a rotation. */
    method Stamp(target: State, event: EventName, at: real)
      modifies `revokedAt, `archivedAt, `deletionRequestedAt, `credentialsRotatedAt
      ensures revokedAt == if target == Revoked then Some(at) else old(revokedAt)
      ensures archivedAt == if target == Archived then Some(at) else old(archivedAt)
      ensures deletionRequestedAt == if target == DeletionRequested then Some(at) else old(deletionRequestedAt)
      ensures credentialsRotatedAt == if event == CredentialsRotated then Some(at) else old(credentialsRotatedAt)
    {
      match target {
        case Revoked => revokedAt := Some(at);
        case Archived => archivedAt := Some(at);
        case DeletionRequested => deletionRequestedAt := Some(at);
        case _ =>
      }
      if event == CredentialsRotated {
        credentialsRotatedAt := Some(at);
      }
    }

    /** Stage the row change, its audit entry and its event on the session. */
    method Record(transition: Transition, target: State, actor: string, reason: Option<string>,
                  key: Option<string>, at: real)
      modifies this
      ensures Snapshot() == Move(old(Snapshot()), transition,
                                 Transit(target, Some(transition.event), tenant, actor, reason, key, at))
    {
      ghost var before := Snapshot();
      var previous := status;
      status := target;
      version := version + 1;
      stateReason := reason;
      Stamp(target, transition.event, at);
      assert (audit, outbox, deletedBy) == (before.audit, before.events, before.deletedBy);
      audit := audit + [Audit(Some(previous), status, transition.event, actor, reason, version, key)];
      outbox := outbox + [Emitted(transition.event, version, Change(previous, status, actor, reason))];
    }

    /** Apply one transition under the row lock. `commits` is false when the process dies first. */
    method Apply(target: State, event: Option<EventName>, actor: string, tenant: string,
                 reason: Option<string>, key: Option<string>, at: real, commits: bool)
      returns (outcome: Outcome)
      modifies this
      ensures var req := Transit(target, event, tenant, actor, reason, key, at);
              Snapshot() == Next(old(Snapshot()), Step(req, commits))
              && outcome == Transact(old(Snapshot()), req).1
      ensures outcome.NotFound? <==> this.tenant != tenant
      ensures outcome.ReasonRequired? <==>
                this.tenant == tenant && ConnectorRules.Permitted(old(status), target, event)
                && ConnectorRules.MustExplain(old(status), target) && !ConnectorRules.Explained(reason)
    {
      var committed := Snapshot();
      if this.tenant != tenant {
        return NotFound;
      }
      ConnectorRules.TransitIff(committed, Transit(target, event, tenant, actor, reason, key, at));
      var found := Find(status, target, event);
      if !found.Found? {
        var repeat := IdempotentRepeat(status, target);
        if repeat.Some? {
          return Repeated(repeat.value.event);
        }
        return Rejected(status, PermittedTargets(status));
      }
      var transition := found.transition;
      if transition.requiresReason && !HasReason(reason) {
        return ReasonRequired;
      }
      Record(transition, target, actor, reason, key, at);
      if !commits {
        Rollback(committed);
      }
      outcome := Applied(transition.event);
    }

    /** The DELETE endpoint: soft deletion, written without the table and without an audit entry. */
    method RequestDeletion(actor: string, tenant: string, at: real, commits: bool) returns (outcome: Outcome)
      modifies this
      ensures var req := Delete(tenant, actor, at);
              Snapshot() == Next(old(Snapshot()), Step(req, commits))
              && outcome == Transact(old(Snapshot()), req).1
    {
      var committed := Snapshot();
      if this.tenant != tenant {
        return NotFound;
      }
      if status == Deleted {
        return Gone;
      }
      if status == DeletionRequested {
        return Accepted;
      }
      status := DeletionRequested;
      deletionRequestedAt := Some(at);
      deletedBy := Some(actor);
      version := version + 1;
      outbox := outbox + [Emitted(DeletionRequestedEvent, version, Deletion(actor, at))];
      if !commits {
        Rollback(committed);
      }
      outcome := Accepted;
    }

    /** The validate endpoint, given the adapter's report. A missing edge is not an error. */
    method Validate(valid: bool, errors: string, actor: string, tenant: string, at: real, commits: bool)
      returns (reported: bool)
      modifies this
      ensures Snapshot() == Next(old(Snapshot()), Step(ValidateRequest(valid, errors, tenant, actor, at), commits))
      ensures reported <==> this.tenant == tenant
    {
      if this.tenant != tenant {
        return false;
      }
      if valid {
        var _ := Apply(Validated, Some(ValidationSucceeded), actor, tenant, None, None, at, commits);
      } else {
        var _ := Apply(Configured, Some(ValidationFailed), actor, tenant, Some(errors), None, at, commits);
      }
      reported := true;
    }

    /** The rotation endpoint; `read` is the status it read before taking the lock. */
    method RotateCredentials(read: State, reason: Option<string>, key: Option<string>, actor: string,
                             tenant: string, at: real, commits: bool)
      returns (outcome: Outcome)
      modifies this
      ensures Snapshot() == Next(old(Snapshot()), Step(RotateRequest(read, reason, key, tenant, actor, at), commits))
      ensures outcome == Transact(old(Snapshot()), RotateRequest(read, reason, key, tenant, actor, at)).1
      ensures status == old(status)
    {
      ghost var before := Snapshot();
      outcome := Apply(read, Some(CredentialsRotated), actor, tenant, reason, key, at, commits);
      if this.tenant == tenant {
        ConnectorHistory.RotationIsRecordedIff(before, read, reason, key, actor, at);
      }
    }
  }
}
