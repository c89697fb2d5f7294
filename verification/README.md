# Verified model of the transactional outbox, the connector lifecycle and the invocation runtime

This project models, in Dafny, the parts of the services whose correctness depends on interleaving: replicas that
publish inside an open transaction, requests that race on an idempotency key, connectors that change while they are
being used. It proves properties of every run of them. Every theorem is about all inputs, all configurations that meet
a stated hypothesis, and all finite sequences of steps.

`dafny verify dfyconfig.toml` checks everything.

## How the model is built

| files | what they model |
|---|---|
| `Timing`, `Outbox`, `OutboxSafety`, `OutboxLimits`, `OutboxWindow`, `OutboxDelivery`, `Drains`, `OutboxProgress`, `Publisher` | the retry arithmetic and the startup gate; any number of publisher replicas, a broker with a duplicate window, crashes, lost acknowledgements; one replica's drain amid the others, on values and on mutable rows |
| `Lifecycle`, `Connectors`, `ConnectorHistory`, `ConnectorRules`, `ConnectorStore` | the transition table; one connector's row with its audit trail and event log, under any sequence of requests; the mutable record |
| `Consumer`, `EndToEnd`, `Events` | the consumer's ordering rule, and the composition of connectors, outbox, stream and consumer |
| `Invocations`, `InvocationHistory`, `Tenants`, `Replies`, `Revocation`, `InvocationService` | concurrent invocation requests with a unique constraint, separate commits and crashes, beside changing connectors; one request's own code |
| `Options`, `Ascii`, `Redaction`, `Addresses`, `AddressBlocks`, `Policy`, `Outbound` | publishing a configuration; the address guard; narrowing of the operator's outbound policy; the redirect loop |

Each state machine has a function `Next` giving the effect of one step, and `Run` for a sequence of steps; a step that
is not enabled does nothing, so a theorem about `Run` covers every interleaving. Code that mutates objects in the source
is a class here, and each of its methods is proved to take exactly the steps of the corresponding machine, so the
theorems about all runs apply to it. A crash is a step, or a `commits`/`death` parameter of the method; task
cancellation is a crash. A drain, an acceptance and an execution take several steps; their methods allow everybody else
any steps in between (`others`), and are told the states these leave (`worlds`, `meanwhile`), which stand for what the
next read of the shared database or stream would return.

## Hypotheses the code does not establish by itself

- *Timely publishing* (`OutboxWindow.Timely`): a publish call is made, and its outcome recorded, within
  `per_attempt_seconds` of the moment it was due; a row without a committed failure is due from its first publish call
  on. Batches are published one row after the other, so this is an operational hypothesis. It concerns the moment the
  broker sees the call; a message still under way after the client has given up is outside it.
- *Configuration* (`OutboxWindow.ConfigOk`): jitter is not negative, `min(base, cap) * (1 + jitter)` is at least the 0.1
  second floor of `compute_backoff`, and the operational delays do not add up to a negative number. Where the gate is
  used: at least one attempt, a window that is not negative, a margin of at most 1.
- *Locked reads*: `session.get` or `refresh` with a lock returns the row as committed, also after an earlier unlocked read
  of it in the same session, as in the validate, rotation and DELETE endpoints. Numbering, audit and lifecycle theorems rest
  on it.
- All replicas of a service share one policy. The broker remembers an id up to and including the end of its window.

## Where the code differs from what it says, or from what one would expect

- `max_attempts = 0` passes the startup gate, because the horizon is then zero, while rows are still published once per
  transaction; two copies are possible (`OutboxWindow.ZeroAttemptsEscapeTheGate`).
- `compute_backoff` never returns less than 0.1 seconds, `backoff_for` has no such floor; the second bounds the first
  exactly when the first delay clears the floor (`Timing.SampledBackoffBoundedIff`).
- A `dead` row may have been stored by the broker. `dead` means undelivered exactly when no acknowledgement is lost and no
  transaction dies; each of the two faults is enough by itself, under every attempt limit
  (`OutboxDelivery.DeadIsUndeliveredIff`).
- The DELETE endpoint moves a connector to `deletion_requested` from every state but two, `enabled` and `archived`
  included, although the table permits it from `disabled` and `revoked` only and its comment rules out live states. It
  writes no audit row (`ConnectorHistory.DeleteFollowsTableIff`).
- Rotating the credentials of a revoked, archived or deletion-requested connector reports success and records nothing
  (`ConnectorHistory.RotationIsRecordedIff`).
- A validated connector whose configuration no longer validates keeps its status (`ConnectorHistory.ValidationMovesIff`).
- Revocation is described as effective on the very next invocation. `InvocationHistory.RevokedYetInvoked` is a run from
  the empty state in which the connector is revoked and the adapter called afterwards. Exactly which requests a retired
  connector stops is `Revocation.RevocationStopsIff`: all but those that had read it as enabled, whose kind is registered
  and whose key nobody else has taken, and those that are past that already.
- After a lost insert race `accept` has rolled its session back, which expires the connector row it had loaded
  (`rolledBack` in the contract of `InvocationService.InvocationService.Accept` holds exactly then). The internal invoke
  endpoint reads that row's kind for its reply; the public endpoint does not.
- An operator allow-list entry of nothing but dots lets a connector reach hosts outside the list. Narrowing holds if and
  only if there is no such entry (`Policy.NarrowsIff`).
- A leading-dot entry is commented as covering the domain and its subdomains; it covers exactly the names that end with
  the dot and the domain, so not the domain itself (`Policy.DottedEntryPermitsOnlyBelow`).
- 255.255.255.255 is reported as a reserved address: the entry that calls it a broadcast address comes after 240.0.0.0/4
  (`AddressBlocks.BroadcastIsNeverTheReason`).
- The structural key `signing_secret_ref` contains a sensitive word, so its place on the publishing allow-list never has
  an effect (`Redaction.SigningSecretRefIsNeverShown`).

## Model

| member | source | states |
|---|---|---|
| OutboxWindow.OneCopyIff | packages/favl-outbox/favl_outbox/publisher.py:181-278 | over all timely runs of any number of replicas, with crashes, failures and lost acknowledgements, the stream keeps at most one copy of every row if and only if the longest retry span fits in the broker's window |
| OutboxWindow.GatedRunsStoreOneCopy | packages/favl-outbox/favl_outbox/timing.py:79-102 | a service that passes the startup gate stores each row at most once in every timely run, and its publish calls of one row are no further apart than the horizon |
| OutboxWindow.PublishCallsWithinSpan | packages/favl-outbox/favl_outbox/timing.py:59-68 | any two publish calls of one row, across transactions that died included, differ by at most the span |
| OutboxWindow.SpanIsHorizon | packages/favl-outbox/favl_outbox/timing.py:59-68 | with at least one attempt, that span is what `worst_case_retry_horizon` computes |
| OutboxWindow.ZeroAttemptsEscapeTheGate | packages/favl-outbox/favl_outbox/timing.py:79-102 | a configuration with no attempts that passes the gate, and a run of it that stores two copies |
| OutboxDelivery.DeadIsUndeliveredIff | packages/favl-outbox/favl_outbox/publisher.py:217-259 | for each set of allowed faults: in every timely run with only those faults no dead row is in the stream, if and only if neither lost acknowledgements nor dying transactions are allowed |
| OutboxDelivery.DeadIsUndeliveredWithoutFaults | packages/favl-outbox/favl_outbox/publisher.py:217-259 | in every run without the two faults, timely or not, no dead row is in the stream |
| OutboxDelivery.LostAckDelivers | packages/favl-outbox/favl_outbox/publisher.py:217-264 | under every limit, a run with lost acknowledgements and no crash that ends with a dead row the broker holds |
| OutboxDelivery.CrashDelivers | packages/favl-outbox/favl_outbox/publisher.py:184-264 | under every limit, a run with a crash and no lost acknowledgement that ends with a dead row the broker holds |
| OutboxSafety.ReachableIsSafe | packages/favl-outbox/favl_outbox/publisher.py:184-206 | in every reachable state no row is held by two transactions, a committed published row is in the stream, and the stream holds only staged events |
| OutboxSafety.NothingIsLost | packages/favl-outbox/favl_outbox/publisher.py:217-264 | over every continuation no staged row disappears or changes its event, published and dead rows are final, and the broker forgets nothing |
| OutboxSafety.CrashRestoresCommittedRows | packages/favl-outbox/favl_outbox/publisher.py:184-206 | a replica that publishes any part of its batch and dies leaves the table and every other transaction as they were |
| OutboxLimits.RowsStayWithinLimits | packages/favl-outbox/favl_outbox/publisher.py:248-278 | in every reachable state a row has at most max(1, policy limit) and at most max(1, own limit) attempts; a dead row has reached one of the two limits; any other row with a failed attempt has reached neither; a row with none is due from when it was written |
| OutboxLimits.FailureEndsIff | packages/favl-outbox/favl_outbox/publisher.py:248-278 | a failed attempt ends the row if and only if it reaches the policy's limit or the row's own; otherwise the row is due again after the sampled delay; nothing else of it changes |
| OutboxLimits.DrainsTakeDueRows | packages/favl-outbox/favl_outbox/publisher.py:184-206 | in every reachable state a transaction has taken no more rows than a batch, and every row it is still to publish is pending and due |
| OutboxLimits.OldestIsClaimed | packages/favl-outbox/favl_outbox/publisher.py:187-199 | the oldest row that can be claimed is among the rows claimed |
| OutboxLimits.OldestIsPublishedFirst | packages/favl-outbox/favl_outbox/publisher.py:187-206 | in every reachable state each transaction has its rows still to be published in the order they were written |
| OutboxProgress.CommitSpends | packages/favl-outbox/favl_outbox/publisher.py:241-259 | a committed batch lowers the remaining budget, max(1, limit) minus attempts summed over pending rows, by at least the number of rows it claimed |
| OutboxProgress.DrainingIsBounded | packages/favl-outbox/favl_outbox/publisher.py:177-290 | without new rows, all batches of any run together commit no more rows than the budget |
| OutboxProgress.SpentBudgetIsDrained | packages/favl-outbox/favl_outbox/publisher.py:177-290 | in any interleaving, once batches have committed as many rows as the budget, every row is published or dead |
| OutboxProgress.DrainingEnds | packages/favl-outbox/favl_outbox/publisher.py:177-290 | from any state the invariant allows, as many complete drains as the budget, each starting when some row is free to claim if any is pending, by whichever replicas, with any steps of the others in between and whatever the broker answers, leave every row published or dead |
| OutboxProgress.CompleteDrainsExist | packages/favl-outbox/favl_outbox/publisher.py:184-210 | from a state with no open transaction such drains can always be carried out, any number of them and for any answers of the broker: the oldest due rows can be claimed, published and committed |
| Drains.HeldThroughout | packages/favl-outbox/favl_outbox/publisher.py:184-206 | whatever the others do in between, at each of its steps a drain finds the rows it claimed as it claimed them, and is about to write what its own answers made of them |
| Drains.DrainWrites | packages/favl-outbox/favl_outbox/publisher.py:184-206 | a committed drain replaces the rows it claimed by what its answers made of them and leaves every other row as the others left it; a drain that dies writes nothing |
| Publisher.OutboxPublisher.DrainOnce | packages/favl-outbox/favl_outbox/publisher.py:177-215 | one drain, with any steps of others between its own, takes exactly the steps claim, publish per row, then commit or crash; the counters are those of the rows tried, published plus failed is the number tried, and dead-lettered rows are failures |
| Publisher.OutboxPublisher.PublishClaimed | packages/favl-outbox/favl_outbox/publisher.py:217-290 | one publish call inside the open transaction is exactly one publish step of the machine |
| Publisher.OutboxPublisher.Finish | packages/favl-outbox/favl_outbox/publisher.py:184-206 | writing the session back and committing is exactly the machine's commit, whatever the others have committed meanwhile; dying is its crash |
| Publisher.OutboxPublisher.PublishRow | packages/favl-outbox/favl_outbox/publisher.py:217-246 | the row, the stream and the counters after one publish call, for each of its three outcomes |
| Publisher.OutboxPublisher.RecordFailure | packages/favl-outbox/favl_outbox/publisher.py:248-290 | one more attempt; dead if and only if it reaches the policy's limit or the row's own, and otherwise rescheduled after the sampled delay |
| Drains.AfterIsRun | packages/favl-outbox/favl_outbox/publisher.py:184-210 | the drain and everything that happens meanwhile are a run of the outbox |
| Publisher.TallyAddsUp | packages/favl-outbox/favl_outbox/publisher.py:85-91 | claimed, published, failed, dead-lettered and subjects account for every row tried, once |
| Timing.SampledBackoffBoundedIff | packages/favl-outbox/favl_outbox/publisher.py:69-82 | every sampled delay is at most `backoff_for` if and only if the first delay clears the 0.1 second floor |
| Timing.TopSampleIsTheBound | packages/favl-outbox/favl_outbox/timing.py:28-31 | the bound is reached, by the largest jitter |
| Timing.SampledDelaysAre | packages/favl-outbox/favl_outbox/publisher.py:69-82 | the delays that can be scheduled are exactly those within the jitter of the doubled and capped delay, 0.1 seconds being the least: every one of them for some draw, and no other |
| Timing.WorstCaseRetryHorizon | packages/favl-outbox/favl_outbox/timing.py:59-68 | the accumulating loop computes the attempts' cost plus the sum of the gaps |
| Timing.GapSumClosedForm | packages/favl-outbox/favl_outbox/timing.py:59-68 | the gaps are a geometric sum up to the cap and linear after it |
| Timing.HorizonMonotone | packages/favl-outbox/favl_outbox/timing.py:59-68 | the horizon grows with every parameter of policy and delays |
| Timing.EveryDelayCounts | packages/favl-outbox/favl_outbox/timing.py:44-65 | two horizons under one policy differ by the number of attempts times the sum of the differences of all five operational delays |
| Timing.ValidateDuplicateWindow | packages/favl-outbox/favl_outbox/timing.py:79-102 | returns a utilisation exactly when the horizon fits the margin of the window and the window is not zero; that utilisation of the window is the horizon, and at most the margin |
| Timing.GateBoundsHorizon | packages/favl-outbox/favl_outbox/timing.py:79-102 | passing the gate puts the horizon inside the window and the utilisation within the margin |
| Lifecycle.FindIsComplete | services/connector-registry/app/lifecycle.py:235-250 | the lookup finds an edge for every table entry, named or not |
| ConnectorRules.TheEdges | services/connector-registry/app/lifecycle.py:95-250 | for every pair of states and every event asked for, or none, the lookup permits exactly the edges of the lifecycle, written down event by event apart from the table |
| ConnectorRules.UnnamedEdge | services/connector-registry/app/lifecycle.py:235-250 | an edge asked for without its event is recorded under its one event, and as a reconfiguration from configured to configured |
| Lifecycle.RepeatableStates | services/connector-registry/app/lifecycle.py:262-282 | re-requesting a held state is a success for exactly disabled, revoked, deletion-requested and archived |
| Lifecycle.RetiredIsClosed | services/connector-registry/app/lifecycle.py:154-213 | no edge leaves the states revoked, deletion-requested, archived and deleted except to one of them |
| Lifecycle.PermittedTargetsAreHonest | services/connector-registry/app/lifecycle.py:253-259 | the states a 409 lists are exactly those some request could have moved to |
| Connectors.CreateEstablishes | services/connector-registry/app/main.py:373-431 | a connector is created exactly in a creatable state with a valid configuration, with its first audit row and event |
| ConnectorRules.TransitIff | services/connector-registry/app/transitions.py:101-132 | exactly when a transition request is applied, asked for a reason, answered as a repetition or rejected: a reason is asked for if and only if the edge exists and is enabled to disabled, or leads to revoked, deletion requested or deleted, and no reason with a character that is not white space is given; what is not applied changes nothing |
| ConnectorRules.RejectionLists | services/connector-registry/app/transitions.py:121-125 | a rejection lists exactly the states an edge leads to from the one held |
| ConnectorRules.DeleteIff | services/connector-registry/app/main.py:532-566 | DELETE answers gone for a deleted connector and accepts otherwise; it moves the row once, records the actor and the time, and leaves the audit trail alone |
| ConnectorRules.NotFoundIff | services/connector-registry/app/transitions.py:101-103 | a request, DELETE included, is answered not found if and only if it is of another tenant, and then changes nothing |
| ConnectorRules.OtherTenantsLeaveNoTrace | services/connector-registry/app/transitions.py:101-103 | leaving the requests of other tenants out of any sequence leaves the connector, its audit trail and its events as they are |
| ConnectorRules.CanServeIff | services/connector-registry/app/lifecycle.py:54-61 | a connector can still be brought to serve by some sequence of requests if and only if it is not revoked, marked for deletion, archived or deleted; those states are the ones it can be created in |
| Connectors.InvNext | services/connector-registry/app/transitions.py:99-188 | one transition, repeat, refusal or deletion keeps the event numbering, the audit trail, the vetting and the reasons in order |
| ConnectorHistory.AuditMatchesEvents | services/connector-registry/app/transitions.py:134-176 | a version has an audit row exactly when the DELETE endpoint did not write it; each row goes from the status one version earlier to the status at its version; versions strictly increase |
| ConnectorHistory.EventsRememberStatuses | services/connector-registry/app/transitions.py:135-175 | events are numbered 1 to the current version, and event v carries for ever the status the row had at version v |
| ConnectorHistory.RetiredForever | services/connector-registry/app/lifecycle.py:54-60 | once retired, a connector never serves again, whatever follows, the DELETE endpoint included |
| ConnectorHistory.DeleteFollowsTableIff | services/connector-registry/app/main.py:520-566 | when the DELETE endpoint changes the row, and that the table permits the change only from disabled and revoked |
| ConnectorHistory.RetryIsInvisibleIff | services/connector-registry/app/transitions.py:105-125 | repeating a transition request changes nothing, from every state, if and only if the table has no self-loop for what it names |
| ConnectorHistory.RetriesAreInvisible | services/connector-registry/app/transitions.py:105-125 | in a request sequence of any length, retrying a disable, revoke, archive or deletion leaves row, version and both accounts unchanged, and the retry of a success is a success |
| ConnectorHistory.RotationIsRecordedIff | services/connector-registry/app/main.py:692-701 | rotation never changes the status, stale read or not, and is recorded exactly when the status read is still held and is enabled or disabled |
| ConnectorHistory.ValidationMovesIff | services/connector-registry/app/main.py:452-475 | the validate endpoint changes a connector exactly when it is configured |
| ConnectorHistory.ReconfigurationIsRecordedIff | services/connector-registry/app/main.py:636-651 | a reconfiguration is recorded and leads to configured exactly from installed, configured, validated and disabled; from any other state it is refused and changes nothing |
| ConnectorHistory.OnlyVettedConnectorsServe | services/connector-registry/app/lifecycle.py:125-127 | in every reachable state the last verdict on a validated, enabled or disabled connector is a passed validation or a creation that had just passed, and every audit row that needs a reason has one |
| ConnectorRules.ReasonsOnRecord | services/connector-registry/app/transitions.py:127-132 | in every reachable state every audit row of a disabling, a revocation, a deletion request or a deletion has a reason with a character that is not white space |
| ConnectorRules.EveryRecordIsSomeonesDoing | services/connector-registry/app/transitions.py:147-176 | every audit row and event written after creation is that of a committed request of the connector's own tenant, with its target, event, actor and reason, and on the audit row its idempotency key |
| ConnectorRules.EventsAreChained | services/connector-registry/app/transitions.py:161-176 | in every reachable state the status a change says it left is the one the event before it led to |
| ConnectorRules.ColumnsTellTheEvents | services/connector-registry/app/transitions.py:134-142 | in every reachable state a time column, or `deleted_by`, is set if and only if some event led to its state |
| ConnectorStore.ConnectorRecord.Apply | services/connector-registry/app/transitions.py:82-188 | the locked update has exactly the effect and outcome of the specified transition, or none if the process dies before the commit; it answers not found exactly to other tenants, and asks for a reason exactly where one is due |
| ConnectorStore.ConnectorRecord.RequestDeletion | services/connector-registry/app/main.py:532-566 | the same for the DELETE endpoint |
| ConnectorStore.ConnectorRecord.Validate | services/connector-registry/app/main.py:452-475 | the same for the validate endpoint |
| ConnectorStore.ConnectorRecord.RotateCredentials | services/connector-registry/app/main.py:692-701 | the same for rotation, with whatever status was read before the lock; the status stays |
| Consumer.AppliedInOrder | packages/favl-outbox/favl_outbox/consumer.py:159-174 | for every delivery the versions applied are 1, 2, ..., k |
| Consumer.DecisionIff | packages/favl-outbox/favl_outbox/consumer.py:159-174 | for every delivery and version: ignored if and only if it was applied already, quarantined if and only if an earlier version has not been applied, applied otherwise; an event without a version is quarantined |
| Consumer.AppliesAllItCan | packages/favl-outbox/favl_outbox/consumer.py:159-174 | versions 1 to n were all applied if and only if 1, 2, ..., n is a subsequence of the delivery |
| Consumer.RedeliveryConverges | packages/favl-outbox/favl_outbox/consumer.py:159-174 | redelivering a log of versions 1 to n, in any order, n times or more applies exactly all n |
| EndToEnd.ProjectionIsHistory | packages/favl-outbox/favl_outbox/consumer.py:159-174 | in every reachable state of the whole system a consumer that has applied version k holds the status recorded for version k |
| EndToEnd.ConsumerHoldsRowStatus | services/connector-registry/app/transitions.py:134-176 | a consumer whose last applied version is the one the row had at an earlier moment holds the status the row had then |
| EndToEnd.ReplayConverges | packages/favl-outbox/favl_outbox/consumer.py:159-174 | once every event of a connector is stored, in whatever order, replaying the stream as often as it has versions yields its current version and status |
| EndToEnd.StreamTellsTheConnector | services/connector-registry/app/transitions.py:161-176 | in every reachable state a stored event of a connector has a version the connector had, and the name and status the connector recorded for it |
| EndToEnd.OneMessagePerVersion | packages/favl-outbox/favl_outbox/timing.py:79-102 | behind the startup gate the stream never holds two copies of one version of one connector |
| EndToEnd.DeadTransactionsLeaveNoTrace | services/connector-registry/app/transitions.py:145-176 | leaving the transactions that die before their commit out of any run of the whole system changes nothing: neither row, nor audit trail, nor event |
| Invocations.InvNext | services/connector-registry/app/invocations.py:184-252 | every step of every request keeps: one owner per row, one row per key, calls only for the owner's running row |
| Tenants.KeysStayInTenant | services/connector-registry/app/main.py:143-153 | in every reachable state every key with a row, an open insert or an adapter call names a connector of the key's own tenant |
| Tenants.StrangersLearnNothing | services/connector-registry/app/main.py:143-153 | in every reachable state a request about a connector of another tenant, or about none, has not been looked at, has died, or was answered not found |
| Tenants.ReadIff | services/connector-registry/app/main.py:143-153 | the read answers not found if and only if the connector is not the tenant's, and otherwise takes the status and version of that moment |
| InvocationHistory.AtMostOnce | services/connector-registry/app/invocations.py:200-307 | the adapter is called at most once per tenant, connector and key; every reply carries the key's one row; after losing the insert race `accept` always finds the winner's row |
| InvocationHistory.RowsMoveForward | services/connector-registry/app/invocations.py:263-368 | identity and pinned version never change, the status moves accepted, running, final or straight to final, and a final row is frozen |
| InvocationHistory.EventsTellTheRow | services/connector-registry/app/invocations.py:219-278 | a row's committed events carry versions 1 to n, n its own version and at most 3, from accepted through running to its status |
| InvocationHistory.RepliesAgree | services/connector-registry/app/main.py:156-173 | two final replies about one key, fresh or replayed, have the same body and HTTP status |
| Replies.RepliesMean | services/connector-registry/app/main.py:156-173 | in every reachable state a reply is 202 if and only if there is no result yet, 200 if and only if the result succeeded, 504 if and only if it timed out, and 502 otherwise; 200 only after a call of a registered kind |
| Replies.RowsTellTheCall | services/connector-registry/app/invocations.py:255-307 | in every reachable state a key whose adapter was called has a registered kind; a final row of a registered kind follows a call; one of an unregistered kind says `UNKNOWN_KIND`, terminal and not retryable, and there was none |
| Replies.AnswersAreRecorded | services/connector-registry/app/invocations.py:300-331 | over every continuation an adapter's answer is unrecorded, its request dead or not yet there, or recorded as what it was: the result returned, a retryable timeout if the deadline passed, a retryable upstream error if the adapter raised; a result that is not final never |
| Replies.RefusalsMean | services/connector-registry/app/invocations.py:90-127 | in every reachable state a refusal names a status the connector has had and in which it did not serve, with 403 if and only if revoked, 410 if and only if archived or deleted, 409 otherwise |
| InvocationHistory.AcceptedWhenEnabled | services/connector-registry/app/invocations.py:90-109 | every accepted invocation pins a version at which its connector was enabled |
| Revocation.RevocationStopsIff | services/connector-registry/app/main.py:778-812 | in every state the invariant allows with a retired connector, a request for it can still have its adapter called in some continuation if and only if it had read the connector as enabled with a registered kind and a key nobody has taken, or is past that; every other request is stopped for ever |
| Revocation.RevocationStopsReachableIff | services/connector-registry/app/main.py:704-719 | the same of every reachable state |
| InvocationHistory.RevocationStopsNewUse | services/connector-registry/app/main.py:778-786 | in particular, a request that had not read the connector when it was retired, or had read it in a state that does not serve, or arrives later, never reaches an adapter |
| InvocationHistory.StaleReadStillRuns | services/connector-registry/app/main.py:778-812 | the schedule behind it: a request that has just read the connector as enabled, with a registered kind and a key neither committed nor being inserted, is accepted and run by its own steps alone, whatever the status is by now |
| InvocationHistory.RevokedYetInvoked | services/connector-registry/app/main.py:704-719 | for every key and registered kind, a run from the empty state in which the connector is revoked before the request is accepted and the adapter is called all the same |
| InvocationService.InvocationService.Accept | services/connector-registry/app/invocations.py:184-252 | finds the row, loses the race and returns the winner's row, inserts row and event together, or dies, with any steps of others between lookup, insert and commit: in each case exactly the machine's steps; which of them happens, and when the session is rolled back, is stated both ways |
| InvocationService.InvocationService.Execute | services/connector-registry/app/invocations.py:255-331 | running the adapter, dying anywhere, with any steps of others between its commits, takes exactly the machine's steps; it raises exactly for a result status with no terminal event |
| InvocationService.AfterIsRun | services/connector-registry/app/invocations.py:255-331 | an execution and everything that happens meanwhile are a run of the runtime |
| InvocationService.OwnerFindsRow | services/connector-registry/app/invocations.py:273-331 | the request that inserted a row finds it as it left it, whatever the others have committed |
| InvocationService.InvocationService.Finalise | services/connector-registry/app/invocations.py:343-368 | the terminal row and its event are committed together |
| Redaction.OnlyPublicLeaves | services/connector-registry/app/security/redaction.py:71-133 | every leaf of a redacted configuration, string or not, is the marker, a secret reference, or the original value of a position with no sensitive key or headers object on its path, under a structural key if it is a string |
| Redaction.SensitiveIff | services/connector-registry/app/security/redaction.py:21-25 | a key is sensitive if and only if one of the words of the pattern occurs in it, in any letter case |
| Redaction.StringShownIff | services/connector-registry/app/security/redaction.py:35-82 | a string is shown under a key if and only if it begins with `secret://`, or the key is one of the structural names and mentions no word of the pattern, or it is the marker itself |
| Redaction.KeyCaseIsIrrelevant | services/connector-registry/app/security/redaction.py:101-118 | the letter case of a key never changes what is published under it, on any tree |
| Redaction.ChangeIsVisibleIff | services/connector-registry/app/security/redaction.py:71-133 | replacing a literal string changes what is published if and only if its position is published |
| Redaction.PublishedAlikeIff | services/connector-registry/app/security/redaction.py:71-133 | non-interference: two configurations are published alike if and only if they agree on the public view; masked positions may hold values of any kind, header values of any shape, and every difference in the public view shows |
| Redaction.HiddenStringsLeaveNoTrace | services/connector-registry/app/security/redaction.py:71-133 | in particular, configurations that differ only in unpublished strings, any number of them, are published alike |
| Redaction.RedactTwice | services/connector-registry/app/security/redaction.py:121-133 | redaction is idempotent |
| Redaction.SigningSecretRefIsNeverShown | services/connector-registry/app/security/redaction.py:46-68 | the allow-list entry `signing_secret_ref` never takes effect |
| Addresses.SpellingUnwraps | services/connector-registry/app/security/ssrf.py:143-169 | every IPv4-mapped, 6to4, Teredo and NAT64 spelling of an IPv4 address unwraps to that address |
| Addresses.SpellingsClassifyAlike | services/connector-registry/app/security/ssrf.py:182-207 | every such spelling is classified as the bare address is |
| Addresses.PassesIff | services/connector-registry/app/security/ssrf.py:172-207 | an address passes exactly when its unwrapped form is in no blocked network |
| AddressBlocks.OctetsDecide | services/connector-registry/app/security/ssrf.py:42-88 | every IPv4 address a.b.c.d is refused, with its reason, or passes, exactly as its octets say, with and without private addresses permitted; the octets are stated apart from the tables |
| AddressBlocks.GroupsDecide | services/connector-registry/app/security/ssrf.py:42-88 | every IPv6 address without an IPv4 address inside is refused, with its reason, or passes, exactly as its eight groups say |
| AddressBlocks.EmbeddedDecides | services/connector-registry/app/security/ssrf.py:143-207 | every IPv6 address with an IPv4 address inside (mapped, 6to4, Teredo, NAT64) is treated as the octets of that address say |
| AddressBlocks.GroupsUnwrap | services/connector-registry/app/security/ssrf.py:143-169 | which addresses have an IPv4 address inside, and which one, by their groups; every other is left as it is |
| AddressBlocks.BroadcastIsNeverTheReason | services/connector-registry/app/security/ssrf.py:86-87 | no address is ever refused as a broadcast address |
| Addresses.PrivateOnlyPermits | services/connector-registry/app/security/ssrf.py:205-207 | permitting private addresses adds no refusal and keeps the reason of every remaining one |
| Addresses.ResolveAndValidate | services/connector-registry/app/security/ssrf.py:210-241 | the loop refuses with the first failing entry's reason, or pins the first entry |
| Addresses.PinnedAddressPasses | services/connector-registry/app/security/ssrf.py:210-241 | an answer is accepted exactly when it is not empty and every entry passes; the pinned address is unwrapped, comes from the answer, and passes by itself |
| Addresses.FirstEntryRefuses | services/connector-registry/app/security/ssrf.py:210-241 | an answer is refused for its first entry that does not pass, with that entry's reason, and an empty or missing one as a failed resolution |
| Policy.NarrowsIff | services/connector-registry/app/security/policy.py:88-141 | every URL accepted under a built policy is accepted, with the same target, under the operator's bounds, for every connector and resolution, if and only if no operator host entry is bare dots (or no URL can be accepted at all) |
| Policy.BoundsAreClamped | services/connector-registry/app/security/policy.py:117-141 | every bound of a built policy is at most its ceiling, every list is contained in the operator's, and the private-address flag is the operator's |
| Policy.BoundsAreKept | services/connector-registry/app/security/policy.py:117-133 | a bound within the ceiling is kept as asked, a larger one is cut to the ceiling, and where none or a negative one is asked the smaller of default and ceiling applies |
| Policy.ListsAreKept | services/connector-registry/app/security/policy.py:108-141 | schemes and content types are exactly those asked for and allowed, and the operator's when there are none |
| Policy.HostsAreKept | services/connector-registry/app/security/policy.py:90-106 | every host asked for is kept when the operator names none; otherwise those an entry picks, among them every spelling of an entry, with any letter case and trailing dots, and every name that ends with a dotted entry |
| Policy.HostSpellingIsIrrelevant | services/connector-registry/app/security/ssrf.py:120-129 | letter case and trailing dots, in host or entry, never change what is allowed |
| Policy.HostCaseIsIrrelevant | services/connector-registry/app/security/ssrf.py:120-129 | any two spellings of a host or of an entry that differ in letter case alone are treated alike |
| Policy.AcceptedIff | services/connector-registry/app/security/ssrf.py:244-305 | a URL is accepted if and only if scheme, host, credentials, allow-list, literal address and every resolved address pass; the target is the first resolved address, at the URL's port, or 443 for https and 80 otherwise |
| Policy.RefusedFor | services/connector-registry/app/security/ssrf.py:244-283 | the first of the static checks that fails gives the reason |
| Policy.DottedEntryPermitsOnlyBelow | services/connector-registry/app/security/ssrf.py:120-129 | a leading-dot entry permits a host if and only if its name ends with the dot and the domain; so not the domain |
| Policy.NamesBelowArePermitted | services/connector-registry/app/security/ssrf.py:126-128 | so any name put before the dot and the domain is permitted |
| Policy.BareDotsWiden | services/connector-registry/app/security/policy.py:93-106 | with a bare-dots entry, a configuration whose built policy permits a host no operator entry covers |
| Outbound.ReadCapped | services/connector-registry/app/security/outbound.py:75-88 | the read succeeds exactly when the stream is empty or within the cap, and returns all of it |
| Outbound.FollowRedirects | services/connector-registry/app/security/outbound.py:104-170 | for every server and guard the loop ends, sends each hop to the target checked for that hop's URL, and ends with the outcome the last hop calls for |
| Outbound.Request | services/connector-registry/app/security/outbound.py:91-170 | the same with `validate_url` under the call's policy as the guard |
| Outbound.PlaysAreUnique | services/connector-registry/app/security/outbound.py:104-170 | those conditions fix what is sent and the outcome: no other result meets them |
| Outbound.OutcomeTells | services/connector-registry/app/security/outbound.py:109-170 | the cause of each outcome, by the last hop's check and reply: a redirect is one of 301, 302, 303, 307 and 308, and an answer never is |
| Outbound.RedirectsTell | services/connector-registry/app/security/outbound.py:133-148 | each redirect followed had one of the five statuses and led to the location it gave, within the budget |
| Outbound.SentWithinBudget | services/connector-registry/app/security/outbound.py:138-140 | at most `max_redirects` + 1 requests are sent |
| Outbound.TooManyRedirectsIff | services/connector-registry/app/security/outbound.py:133-148 | the call gives up on redirects exactly when the server points on at every hop of the budget |
| Outbound.SentWhereVouched | services/connector-registry/app/security/outbound.py:109-130 | each request goes to an allowed name and scheme, at an address vouched for at that hop, which passes by itself |
| Outbound.OperatorBoundsHold | services/connector-registry/app/security/policy.py:88-141 | a call under a built policy sends only what the operator's policy would accept, no more often than the operator's ceiling, and returns the bytes received, within the operator's cap and content types |

## Left out

- Floating point: delays, horizons and times are real numbers, so rounding is not modelled.
- Arrival at the broker after the client has timed out: a publish call reaches the broker at one moment, the one the timing hypothesis is about.
- Two copies beyond the duplicate window through an operator's reset of published rows: resets are not steps of the publisher.
- Liveness of the publisher loop, of NATS and of Postgres: the progress theorems say how many drains are enough and that they can be carried out, not that the loop will start them.
- Completion of an invocation: a crash leaves the row running for good, so at most once is what holds.
- `supports_idempotency`, `idempotency_mode`, `last_error`, `published_at`, `stream_seq`, invocation time columns and error details: columns nothing above depends on. The second commit of the validate endpoint writes only such columns.
- Uniqueness of connector names within a tenant, and connectors of an unregistered kind at creation: refusals before a row exists.
- Unknown state names and missing rows on the transition endpoints, and states whose text is not in the enum: the model has only the states.
- `parse_event`, the envelope and legacy payloads: parsing. An event without a version is an unversioned delivery here.
- The internal invoke endpoint's derived key and its reply: it calls the same `accept` and `execute`, with a key that is an input here. Its reply reads the connector row again after `accept`; statements about replies are about the public endpoint.
- Reading of environment variables, `_positive_int` on non-numbers, URL parsing, joining of redirect locations, DNS and the text form of addresses: inputs of the model. A bound that is not a number is `None`.
- Unicode case mapping: letter case is ASCII's. Content types arrive already stripped.
- IPv6 zone identifiers: addresses are integers.
- Header sanitising, timeouts and `clamp_timeout`: one-branch facts.
- Metrics, logging, readiness, request identity, the console, migrations and the orchestrator's agents: no state the properties need. The orchestrator's delete path reads its version without a lock, so numbering without gaps holds there only for serial requests.
- Adapters' own HTTP exchanges and signing: an adapter's answer is an arbitrary input.
