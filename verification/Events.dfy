/** The domain event an outbox row carries. Only connector events are projected; every other
    aggregate's events share the outbox and the stream. */
module Events {
  import opened Lifecycle

  datatype Event =
    | ConnectorEvent(connector: nat, version: int, event: EventName, status: State)
    | ForeignEvent(body: string)
}
