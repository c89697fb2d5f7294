/** The invocation runtime as a state machine: concurrent requests race on an idempotency key
    guarded by a unique constraint, each commits several times, and any of them may die anywhere.
    Connectors change underneath them. */
module Invocations {
  import opened Options
  import opened Lifecycle
  import C = Connectors

  datatype Status = Accepted | Running | Succeeded | FailedRetryable | FailedTerminal | TimedOut | Cancelled {
    predicate Final() { !Accepted? && !Running? }
  }

  datatype Key = Key(tenant: string, connector: nat, idempotencyKey: string)

  datatype Result = Result(status: Status, errorCode: Option<string>, retryable: bool, output: Option<string>)

  // What awaiting the adapter under the deadline comes to.
  datatype Answer = Returned(result: Result) | DeadlinePassed | Raised

  // The row; `result` is what `_finalise` wrote.
  datatype Record = Record(id: nat, connectorVersion: int, kind: string, status: Status, version: int,
          result: Option<Result>)

  datatype LifecycleEvent = LifecycleEvent(id: nat, version: int, status: Status)

  // The connector row as the request read it, without a lock.
  datatype View = View(status: State, version: int, kind: string)

  datatype Response =
    | Refused(status: State, http: int)
    | NotFound
    | Replied(record: Record, replayed: bool)
    | ServerError

  // How far a request has got.
  datatype Request =
    | Fresh(key: Key)
    | HasRead(key: Key, view: View)
    | Cleared(key: Key, view: View)
    | Missed(key: Key, view: View)
    | Inserted(key: Key, view: View)
    | Collided(key: Key)
    | Owner(key: Key, view: View)
    | Started(key: Key, view: View)
    | Answered(key: Key, view: View, answer: Answer)
    | Done(key: Key, response: Response)
    | Dead(key: Key)

  datatype Runtime = Runtime(
    connectors: map<nat, C.Connector>,
    table: map<Key, Record>,              // committed rows, unique per key
    inserting: map<Key, nat>,             // unique-index entries of open transactions
    requests: map<nat, Request>,
    events: map<Key, seq<LifecycleEvent>>,
    calls: seq<Key>)                      // adapter invocations, in order

  datatype Step =
    | CreateConnector(id: nat, tenant: string, actor: string, status: State, valid: bool)
    | ChangeConnector(id: nat, req: C.Request)
    | Arrive(r: nat, key: Key)
    | Read(r: nat, kind: string)
    | Check(r: nat)
    | Lookup(r: nat)
    | Flush(r: nat)
    | Recover(r: nat)
    | CommitAccept(r: nat)
    | Start(r: nat)
    | Invoke(r: nat, answer: Answer)
    | Finish(r: nat)
    | Die(r: nat)

  const INITIAL := Runtime(map[], map[], map[], map[], map[], [])

  // ---------------------------------------------------------------- rows and responses

  /** How a non-executable state is reported. */
  function RefusalCode(s: State): int {
    match s
    case Revoked => 403
    case Archived => 410
    case Deleted => 410
    case _ => 409
  }

  function HttpStatus(s: Status): int {
    match s
    case Succeeded => 200
    case TimedOut => 504
    case Accepted => 202
    case Running => 202
    case _ => 502
  }

  function NewRecord(id: nat, view: View): Record {
    Record(id, view.version, view.kind, Accepted, 1, None)
  }

  function StartedRecord(rec: Record): Record { rec.(status := Running, version := rec.version + 1) }

  function FinishedRecord(rec: Record, result: Result): Record {
    rec.(status := result.status, version := rec.version + 1, result := Some(result))
  }

  const UNKNOWN_KIND := Result(FailedTerminal, Some("UNKNOWN_KIND"), false, None)

  function ResultOf(answer: Answer): Result {
    match answer
    case Returned(result) => result
    case DeadlinePassed => Result(TimedOut, Some("UPSTREAM_TIMEOUT"), true, None)
    case Raised => Result(FailedRetryable, Some("UPSTREAM_ERROR"), true, None)
  }

  function EventFor(rec: Record): LifecycleEvent { LifecycleEvent(rec.id, rec.version, rec.status) }

  // ---------------------------------------------------------------- steps

  function Save(w: Runtime, r: nat, key: Key, rec: Record, next: Request): Runtime {
    w.(table := w.table[key := rec],
       events := w.events[key := (if key in w.events then w.events[key] else []) + [EventFor(rec)]],
       requests := w.requests[r := next])
  }

  function At(w: Runtime, r: nat, next: Request): Runtime { w.(requests := w.requests[r := next]) }

  function DoRead(w: Runtime, key: Key, kind: string): Request {
    if key.connector !in w.connectors || w.connectors[key.connector].tenant != key.tenant then Done(key, NotFound)
    else HasRead(key, View(w.connectors[key.connector].status, w.connectors[key.connector].version, kind))
  }

  function DoCheck(key: Key, view: View): Request {
    if IsExecutable(view.status) then Cleared(key, view)
    else Done(key, Refused(view.status, RefusalCode(view.status)))
  }

  function DoLookup(w: Runtime, key: Key, view: View): Request {
    if key in w.table then Done(key, Replied(w.table[key], true)) else Missed(key, view)
  }

  /** The insert waits for an open transaction on the key, fails on a committed row, and otherwise
      takes the key. */
  function DoFlush(w: Runtime, r: nat, key: Key, view: View): Runtime {
    if key in w.inserting then w
    else if key in w.table then At(w, r, Collided(key))
    else At(w, r, Inserted(key, view)).(inserting := w.inserting[key := r])
  }

  function DoRecover(w: Runtime, key: Key): Request {
    Done(key, if key in w.table then Replied(w.table[key], true) else ServerError)
  }

  function DoCommitAccept(w: Runtime, r: nat, key: Key, view: View): Runtime {
    Save(w, r, key, NewRecord(r, view), Owner(key, view)).(inserting := w.inserting - {key})
  }

  /** `kinds` is the adapter registry. */
  function DoStart(kinds: set<string>, w: Runtime, r: nat, key: Key, view: View): Runtime {
    if key !in w.table then w
    else if view.kind !in kinds then
      var rec := FinishedRecord(w.table[key], UNKNOWN_KIND);
      Save(w, r, key, rec, Done(key, Replied(rec, false)))
    else Save(w, r, key, StartedRecord(w.table[key]), Started(key, view))
  }

  function DoInvoke(w: Runtime, r: nat, key: Key, view: View, answer: Answer): Runtime {
    At(w, r, Answered(key, view, answer)).(calls := w.calls + [key])
  }

  /** An adapter that reports a status with no terminal event makes the request fail before its
      last commit. */
  function DoFinish(w: Runtime, r: nat, key: Key, answer: Answer): Runtime {
    if key !in w.table then w
    else if !ResultOf(answer).status.Final() then At(w, r, Dead(key))
    else
      var rec := FinishedRecord(w.table[key], ResultOf(answer));
      Save(w, r, key, rec, Done(key, Replied(rec, false)))
  }

  function DoDie(w: Runtime, r: nat, req: Request): Runtime {
    if req.Done? then w
    else At(w, r, Dead(req.key)).(inserting := if req.Inserted? then w.inserting - {req.key} else w.inserting)
  }

  /** The next step of request r, if it is where that step starts; otherwise nothing happens. */
  function Advance(kinds: set<string>, w: Runtime, r: nat, step: Step): Runtime
    requires r in w.requests
  {
    var req := w.requests[r];
    match step
    case Read(_, kind) => if req.Fresh? then At(w, r, DoRead(w, req.key, kind)) else w
    case Check(_) => if req.HasRead? then At(w, r, DoCheck(req.key, req.view)) else w
    case Lookup(_) => if req.Cleared? then At(w, r, DoLookup(w, req.key, req.view)) else w
    case Flush(_) => if req.Missed? then DoFlush(w, r, req.key, req.view) else w
    case Recover(_) => if req.Collided? then At(w, r, DoRecover(w, req.key)) else w
    case CommitAccept(_) => if req.Inserted? then DoCommitAccept(w, r, req.key, req.view) else w
    case Start(_) => if req.Owner? then DoStart(kinds, w, r, req.key, req.view) else w
    case Invoke(_, answer) => if req.Started? then DoInvoke(w, r, req.key, req.view, answer) else w
    case Finish(_) => if req.Answered? then DoFinish(w, r, req.key, req.answer) else w
    case Die(_) => DoDie(w, r, req)
    case _ => w
  }

  function Next(kinds: set<string>, w: Runtime, step: Step): Runtime {
    match step
    case CreateConnector(id, tenant, actor, status, valid) =>
      var made := C.Create(tenant, actor, status, valid);
      if id in w.connectors || made.None? then w else w.(connectors := w.connectors[id := made.value])
    case ChangeConnector(id, req) =>
      if id !in w.connectors then w
      else w.(connectors := w.connectors[id := C.Transact(w.connectors[id], req).0])
    case Arrive(r, key) => if r in w.requests then w else At(w, r, Fresh(key))
    case _ => if step.r in w.requests then Advance(kinds, w, step.r, step) else w
  }

  function Run(kinds: set<string>, w: Runtime, steps: seq<Step>): Runtime
    decreases |steps|
  {
    if steps == [] then w else Run(kinds, Next(kinds, w, steps[0]), steps[1..])
  }

  // ---------------------------------------------------------------- invariant: one owner per key

  ghost predicate OwnsLive(req: Request) { req.Owner? || req.Started? || req.Answered? }

  /** A row agrees with what its version says it has been through. */
  ghost predicate RecordOk(rec: Record) {
    && 1 <= rec.version <= 3
    && (rec.version == 1 <==> rec.status == Accepted)
    && (rec.status == Running ==> rec.version == 2)
    && (rec.status.Final() <==> rec.result.Some?)
    && (rec.version == 3 ==> rec.status.Final())
  }

  ghost predicate RequestOk(w: Runtime, r: nat, req: Request) {
    match req
    case Inserted(key, _) => key in w.inserting && w.inserting[key] == r
    case Collided(key) => key in w.table
    case Owner(key, view) => key in w.table && w.table[key] == NewRecord(r, view)
    case Started(key, view) => key in w.table && w.table[key] == StartedRecord(NewRecord(r, view)) && key !in w.calls
    case Answered(key, view, _) => key in w.table && w.table[key] == StartedRecord(NewRecord(r, view))
    case Done(key, Replied(rec, replayed)) =>
      && key in w.table && rec.id == w.table[key].id && RecordOk(rec)
      && (rec.status.Final() ==> rec == w.table[key])
      && (!replayed <==> rec.id == r)
    case Done(_, ServerError) => false
    case _ => true
  }

  ghost predicate Early(req: Request) {
    req.Fresh? || req.HasRead? || req.Cleared? || req.Missed? || req.Inserted? || req.Collided?
  }

  /** Every row belongs to the one request that inserted it. */
  ghost predicate RowOk(w: Runtime, key: Key) {
    && key in w.table && key in w.events && key !in w.inserting
    && RecordOk(w.table[key]) && EventsOk(w.events[key], w.table[key])
    && w.table[key].id in w.requests
    && w.requests[w.table[key].id].key == key && !Early(w.requests[w.table[key].id])
  }

  /** The row's committed events carry versions 1 to n, where n is the row's version. */
  ghost predicate EventsOk(events: seq<LifecycleEvent>, rec: Record) {
    && |events| == rec.version >= 1
    && (forall i | 0 <= i < |events| :: events[i].id == rec.id && events[i].version == i + 1)
    && events[rec.version - 1] == EventFor(rec)
    && events[0].status == Accepted
    && (|events| == 3 ==> events[1].status == Running)
  }

  ghost predicate CallOk(w: Runtime, key: Key) {
    && key in w.table && w.table[key].id in w.requests && w.table[key].version >= 2
    && !w.requests[w.table[key].id].Owner? && !w.requests[w.table[key].id].Started?
  }

  ghost predicate InsertingOk(w: Runtime, key: Key) {
    && key in w.inserting && key !in w.table && w.inserting[key] in w.requests
    && w.requests[w.inserting[key]].Inserted? && w.requests[w.inserting[key]].key == key
  }

  ghost predicate RequestsOk(w: Runtime) { forall r | r in w.requests :: RequestOk(w, r, w.requests[r]) }

  ghost predicate RowsOk(w: Runtime) { w.events.Keys == w.table.Keys && forall key | key in w.table :: RowOk(w, key) }

  ghost predicate InsertsOk(w: Runtime) { forall key | key in w.inserting :: InsertingOk(w, key) }

  ghost predicate CallsOk(w: Runtime) {
    && (forall i, j | 0 <= i < j < |w.calls| :: w.calls[i] != w.calls[j])
    && (forall key | key in w.calls :: CallOk(w, key))
  }

  ghost predicate Inv(w: Runtime) { RequestsOk(w) && RowsOk(w) && InsertsOk(w) && CallsOk(w) }

  lemma InvInitially()
    ensures Inv(INITIAL)
  {
  }

  /** A step of request r touches nothing but that request and its key. */
  ghost predicate Local(w: Runtime, w': Runtime, r: nat, k: Key) {
    && r in w'.requests && w'.requests[r].key == k && (r in w.requests ==> w.requests[r].key == k)
    && (forall q | q in w'.requests && q != r :: q in w.requests && w'.requests[q] == w.requests[q])
    && (forall q | q in w.requests :: q in w'.requests)
    && (forall key | key != k ::
          (key in w.table <==> key in w'.table) && (key in w.table ==> w'.table[key] == w.table[key]))
    && (forall key | key != k ::
          (key in w.events <==> key in w'.events) && (key in w.events ==> w'.events[key] == w.events[key]))
    && (forall key | key != k ::
          (key in w.inserting <==> key in w'.inserting)
          && (key in w.inserting ==> w'.inserting[key] == w.inserting[key]))
    && (w'.calls == w.calls || (w'.calls == w.calls + [k] && k !in w.calls))
  }

  /** What has to be checked for the request and key a step touches. */
  ghost predicate LocalOk(w: Runtime, w': Runtime, r: nat, k: Key)
    requires r in w'.requests
  {
    && RequestOk(w', r, w'.requests[r])
    && OthersOk(w, w', r, k)
    && (k in w'.table <==> k in w'.events) && (k in w'.table ==> RowOk(w', k))
    && (k in w'.inserting ==> InsertingOk(w', k))
    && (k in w'.calls ==> CallOk(w', k))
  }

  lemma RequestStays(w: Runtime, w': Runtime, r: nat, k: Key, q: nat)
    requires Local(w, w', r, k) && q in w.requests && q != r && w.requests[q].key != k && RequestOk(w, q, w.requests[q])
    ensures RequestOk(w', q, w'.requests[q])
  {
  }

  lemma LocalRequests(w: Runtime, w': Runtime, r: nat, k: Key)
    requires RequestsOk(w) && Local(w, w', r, k)
    requires RequestOk(w', r, w'.requests[r])
    requires OthersOk(w, w', r, k)
    ensures RequestsOk(w')
  {
    forall q | q in w'.requests
      ensures RequestOk(w', q, w'.requests[q])
    {
      if q != r && w.requests[q].key != k {
        assert RequestOk(w, q, w.requests[q]);
        RequestStays(w, w', r, k, q);
      }
    }
  }

  lemma RowStays(w: Runtime, w': Runtime, r: nat, k: Key, key: Key)
    requires Local(w, w', r, k) && key != k && RowOk(w, key)
    ensures RowOk(w', key)
  {
  }

  lemma LocalRows(w: Runtime, w': Runtime, r: nat, k: Key)
    requires RowsOk(w) && Local(w, w', r, k)
    requires (k in w'.table <==> k in w'.events) && (k in w'.table ==> RowOk(w', k))
    ensures RowsOk(w')
  {
    forall key | key in w'.table
      ensures RowOk(w', key)
    {
      if key != k {
        assert RowOk(w, key);
        RowStays(w, w', r, k, key);
      }
    }
    SameKeys(w, w', r, k);
  }

  lemma SameKeys(w: Runtime, w': Runtime, r: nat, k: Key)
    requires w.events.Keys == w.table.Keys && Local(w, w', r, k) && (k in w'.table <==> k in w'.events)
    ensures w'.events.Keys == w'.table.Keys
  {
    forall key
      ensures key in w'.events <==> key in w'.table
    {
      if key != k {
        assert key in w.events <==> key in w.table;
      }
    }
  }

  lemma InsertStays(w: Runtime, w': Runtime, r: nat, k: Key, key: Key)
    requires Local(w, w', r, k) && key != k && InsertingOk(w, key)
    ensures InsertingOk(w', key)
  {
  }

  lemma LocalInserts(w: Runtime, w': Runtime, r: nat, k: Key)
    requires InsertsOk(w) && Local(w, w', r, k) && (k in w'.inserting ==> InsertingOk(w', k))
    ensures InsertsOk(w')
  {
    forall key | key in w'.inserting
      ensures InsertingOk(w', key)
    {
      if key != k {
        assert InsertingOk(w, key);
        InsertStays(w, w', r, k, key);
      }
    }
  }

  lemma CallStays(w: Runtime, w': Runtime, r: nat, k: Key, key: Key)
    requires Local(w, w', r, k) && key != k && CallOk(w, key) && RowOk(w, key)
    ensures CallOk(w', key)
  {
  }

  lemma LocalCalls(w: Runtime, w': Runtime, r: nat, k: Key)
    requires RowsOk(w) && CallsOk(w) && Local(w, w', r, k) && (k in w'.calls ==> CallOk(w', k))
    ensures CallsOk(w')
  {
    forall key | key in w'.calls
      ensures CallOk(w', key)
    {
      if key != k {
        assert CallOk(w, key) && RowOk(w, key);
        CallStays(w, w', r, k, key);
      }
    }
  }

  /** The other requests about key k are still in order. */
  ghost predicate OthersOk(w: Runtime, w': Runtime, r: nat, k: Key) {
    forall q | q in w.requests && q != r && w.requests[q].key == k :: RequestOk(w', q, w.requests[q])
  }

  lemma LocalKeepsInv(w: Runtime, w': Runtime, r: nat, k: Key)
    requires Inv(w) && Local(w, w', r, k) && LocalOk(w, w', r, k)
    ensures Inv(w')
  {
    LocalRequests(w, w', r, k);
    LocalRows(w, w', r, k);
    LocalInserts(w, w', r, k);
    LocalCalls(w, w', r, k);
  }

  /** What the invariant says about one request and its key. */
  lemma Here(w: Runtime, r: nat)
    requires Inv(w) && r in w.requests
    ensures var k := w.requests[r].key;
            && RequestOk(w, r, w.requests[r])
            && (k in w.table ==> RowOk(w, k)) && (k in w.events <==> k in w.table)
            && (k in w.inserting ==> InsertingOk(w, k)) && (k in w.calls ==> CallOk(w, k))
            && (forall q | q in w.requests && w.requests[q].key == k :: RequestOk(w, q, w.requests[q]))
  {
  }

  lemma SameTablesKeepOthers(w: Runtime, w': Runtime, r: nat, key: Key)
    requires RequestsOk(w) && w'.table == w.table && w'.calls == w.calls
    requires w'.inserting == w.inserting || (w'.inserting == w.inserting - {key} && r in w.requests
                                             && key in w.inserting && w.inserting[key] == r)
    ensures OthersOk(w, w', r, key)
  {
    forall q | q in w.requests && q != r && w.requests[q].key == key
      ensures RequestOk(w', q, w.requests[q])
    {
      assert RequestOk(w, q, w.requests[q]);
    }
  }

  lemma ArriveKeepsKey(w: Runtime, r: nat, key: Key)
    requires RowsOk(w) && InsertsOk(w) && CallsOk(w) && r !in w.requests
    ensures var w' := At(w, r, Fresh(key));
            && (key in w'.table <==> key in w'.events) && (key in w'.table ==> RowOk(w', key))
            && (key in w'.inserting ==> InsertingOk(w', key)) && (key in w'.calls ==> CallOk(w', key))
  {
    if key in w.table { assert RowOk(w, key); }
    if key in w.inserting { assert InsertingOk(w, key); }
    if key in w.calls { assert CallOk(w, key); }
  }

  lemma AtIsLocal(w: Runtime, r: nat, next: Request)
    requires r in w.requests ==> w.requests[r].key == next.key
    ensures Local(w, At(w, r, next), r, next.key)
  {
  }

  lemma InvArrive(w: Runtime, r: nat, key: Key)
    requires Inv(w) && r !in w.requests
    ensures Inv(At(w, r, Fresh(key)))
  {
    var w' := At(w, r, Fresh(key));
    ArriveKeepsKey(w, r, key);
    SameTablesKeepOthers(w, w', r, key);
    AtIsLocal(w, r, Fresh(key));
    LocalKeepsInv(w, w', r, key);
  }

  /** The key's row, insert and call stay in order when only request r moves, and r is not the
      row's owner, or leaves an open insert, or moves past its call. */
  lemma KeyStays(w: Runtime, w': Runtime, r: nat, key: Key)
    requires r in w.requests && w.requests[r].key == key
    requires RequestOk(w, r, w.requests[r]) && RowsOk(w) && InsertsOk(w) && CallsOk(w)
    requires r in w'.requests && w'.requests[r].key == key
    requires w' == w.(requests := w.requests[r := w'.requests[r]], inserting := w'.inserting)
    requires w'.inserting == if w.requests[r].Inserted? then w.inserting - {key} else w.inserting
    requires (Early(w.requests[r]) && !w'.requests[r].Inserted?) || w'.requests[r].Dead?
    ensures (key in w'.table <==> key in w'.events) && (key in w'.table ==> RowOk(w', key))
    ensures key in w'.inserting ==> InsertingOk(w', key)
    ensures key in w'.calls ==> CallOk(w', key)
  {
    if key in w.table { assert RowOk(w, key); }
    if key in w.inserting { assert InsertingOk(w, key); }
    if key in w.calls { assert CallOk(w, key); }
  }

  /** Moving an early request along without touching a row. */
  lemma InvAt(w: Runtime, r: nat, next: Request)
    requires Inv(w) && r in w.requests && Early(w.requests[r]) && !w.requests[r].Inserted?
    requires next.key == w.requests[r].key && !OwnsLive(next) && !next.Inserted? && RequestOk(w, r, next)
    ensures Inv(At(w, r, next))
  {
    var key, w' := next.key, At(w, r, next);
    assert RequestOk(w, r, w.requests[r]);
    KeyStays(w, w', r, key);
    SameTablesKeepOthers(w, w', r, key);
    AtIsLocal(w, r, next);
    LocalKeepsInv(w, w', r, key);
  }

  lemma ReplayIsOk(w: Runtime, r: nat)
    requires Inv(w) && r in w.requests && Early(w.requests[r]) && w.requests[r].key in w.table
    ensures var key := w.requests[r].key; RequestOk(w, r, Done(key, Replied(w.table[key], true)))
  {
    assert RowOk(w, w.requests[r].key);
  }

  lemma TakeKeyIsLocal(w: Runtime, r: nat, key: Key, view: View)
    requires r in w.requests && w.requests[r].key == key && key !in w.inserting && key !in w.table
    ensures Local(w, DoFlush(w, r, key, view), r, key)
  {
  }

  lemma TakeKeyKeepsOthers(w: Runtime, r: nat, key: Key, view: View)
    requires RequestsOk(w) && key !in w.inserting && key !in w.table
    ensures OthersOk(w, DoFlush(w, r, key, view), r, key)
  {
    forall q | q in w.requests && q != r && w.requests[q].key == key
      ensures RequestOk(DoFlush(w, r, key, view), q, w.requests[q])
    {
      assert RequestOk(w, q, w.requests[q]);
    }
  }

  lemma InvTakeKey(w: Runtime, r: nat, key: Key, view: View)
    requires Inv(w) && r in w.requests && w.requests[r] == Missed(key, view) && key !in w.inserting && key !in w.table
    ensures Inv(DoFlush(w, r, key, view))
  {
    assert key !in w.events && key !in w.calls by { Here(w, r); }
    TakeKeyKeepsOthers(w, r, key, view);
    TakeKeyIsLocal(w, r, key, view);
    LocalKeepsInv(w, DoFlush(w, r, key, view), r, key);
  }

  lemma InvFlush(w: Runtime, r: nat, key: Key, view: View)
    requires Inv(w) && r in w.requests && w.requests[r] == Missed(key, view)
    ensures Inv(DoFlush(w, r, key, view))
  {
    if key !in w.inserting {
      if key in w.table {
        InvAt(w, r, Collided(key));
      } else {
        InvTakeKey(w, r, key, view);
      }
    }
  }

  lemma CommitAcceptIsLocal(w: Runtime, r: nat, key: Key, view: View)
    requires r in w.requests && w.requests[r].key == key
    ensures Local(w, DoCommitAccept(w, r, key, view), r, key)
  {
  }

  lemma CommitAcceptKeepsOthers(w: Runtime, r: nat, key: Key, view: View)
    requires RequestsOk(w) && key !in w.table && key in w.inserting && w.inserting[key] == r
    ensures OthersOk(w, DoCommitAccept(w, r, key, view), r, key)
  {
    forall q | q in w.requests && q != r && w.requests[q].key == key
      ensures RequestOk(DoCommitAccept(w, r, key, view), q, w.requests[q])
    {
      assert RequestOk(w, q, w.requests[q]);
    }
  }

  lemma CommitAcceptMakesRow(w: Runtime, r: nat, key: Key, view: View)
    requires key !in w.events
    ensures RowOk(DoCommitAccept(w, r, key, view), key)
  {
  }

  lemma InvCommitAccept(w: Runtime, r: nat, key: Key, view: View)
    requires Inv(w) && r in w.requests && w.requests[r] == Inserted(key, view)
    ensures Inv(DoCommitAccept(w, r, key, view))
  {
    assert key !in w.table && key !in w.events && key !in w.calls && key in w.inserting && w.inserting[key] == r by {
      Here(w, r);
    }
    CommitAcceptMakesRow(w, r, key, view);
    CommitAcceptKeepsOthers(w, r, key, view);
    CommitAcceptIsLocal(w, r, key, view);
    LocalKeepsInv(w, DoCommitAccept(w, r, key, view), r, key);
  }

  lemma SaveKeepsEvents(w: Runtime, r: nat, key: Key, rec: Record, next: Request)
    requires key in w.table && key in w.events && EventsOk(w.events[key], w.table[key])
    requires RecordOk(w.table[key]) && !w.table[key].status.Final()
    requires rec.id == w.table[key].id && rec.version == w.table[key].version + 1
    ensures EventsOk(Save(w, r, key, rec, next).events[key], rec)
  {
  }

  /** The owner commits its next row value. */
  lemma InvSave(w: Runtime, r: nat, key: Key, rec: Record, next: Request)
    requires Inv(w) && r in w.requests && OwnsLive(w.requests[r]) && w.requests[r].key == key && key in w.table
    requires next.key == key && !Early(next) && (next.Started? || next.Done?)
    requires rec.id == r && rec.version == w.table[key].version + 1 && RecordOk(rec) && !w.table[key].status.Final()
    requires RequestOk(Save(w, r, key, rec, next), r, next)
    requires next.Started? ==> key !in w.calls
    ensures Inv(Save(w, r, key, rec, next))
  {
    Here(w, r);
    SaveKeepsEvents(w, r, key, rec, next);
    SaveKeepsOthers(w, r, key, rec, next);
    SaveIsLocal(w, r, key, rec, next);
    LocalKeepsInv(w, Save(w, r, key, rec, next), r, key);
  }

  lemma SaveIsLocal(w: Runtime, r: nat, key: Key, rec: Record, next: Request)
    requires r in w.requests && w.requests[r].key == next.key == key
    ensures Local(w, Save(w, r, key, rec, next), r, key)
  {
  }

  lemma SaveKeepsOthers(w: Runtime, r: nat, key: Key, rec: Record, next: Request)
    requires RequestsOk(w) && key in w.table && !w.table[key].status.Final() && rec.id == r == w.table[key].id
    ensures OthersOk(w, Save(w, r, key, rec, next), r, key)
  {
    forall q | q in w.requests && q != r && w.requests[q].key == key
      ensures RequestOk(Save(w, r, key, rec, next), q, w.requests[q])
    {
      assert RequestOk(w, q, w.requests[q]);
    }
  }

  lemma InvStart(kinds: set<string>, w: Runtime, r: nat, key: Key, view: View)
    requires Inv(w) && r in w.requests && w.requests[r] == Owner(key, view)
    ensures Inv(DoStart(kinds, w, r, key, view))
  {
    assert RequestOk(w, r, w.requests[r]);
    assert key in w.calls ==> CallOk(w, key);
    var rec := w.table[key];
    if view.kind !in kinds {
      var done := FinishedRecord(rec, UNKNOWN_KIND);
      InvSave(w, r, key, done, Done(key, Replied(done, false)));
    } else {
      InvSave(w, r, key, StartedRecord(rec), Started(key, view));
    }
  }

  lemma InvInvoke(w: Runtime, r: nat, key: Key, view: View, answer: Answer)
    requires Inv(w) && r in w.requests && w.requests[r] == Started(key, view)
    ensures Inv(DoInvoke(w, r, key, view, answer))
  {
    var w' := DoInvoke(w, r, key, view, answer);
    assert RequestOk(w, r, w.requests[r]) && RowOk(w, key) && key !in w.inserting by { Here(w, r); }
    assert RowOk(w', key) && CallOk(w', key) by { InvokeKeepsRow(w, r, key, view, answer); }
    InvokeKeepsOthers(w, r, key, view, answer);
    InvokeIsLocal(w, r, key, view, answer);
    LocalKeepsInv(w, w', r, key);
  }

  lemma InvokeKeepsRow(w: Runtime, r: nat, key: Key, view: View, answer: Answer)
    requires r in w.requests && w.requests[r] == Started(key, view) && RequestOk(w, r, w.requests[r]) && RowOk(w, key)
    ensures RowOk(DoInvoke(w, r, key, view, answer), key) && CallOk(DoInvoke(w, r, key, view, answer), key)
  {
  }

  lemma InvokeKeepsOthers(w: Runtime, r: nat, key: Key, view: View, answer: Answer)
    requires RequestsOk(w) && r in w.requests && w.requests[r] == Started(key, view)
    ensures OthersOk(w, DoInvoke(w, r, key, view, answer), r, key)
  {
    assert RequestOk(w, r, w.requests[r]);
    forall q | q in w.requests && q != r && w.requests[q].key == key
      ensures RequestOk(DoInvoke(w, r, key, view, answer), q, w.requests[q])
    {
      assert RequestOk(w, q, w.requests[q]);
    }
  }

  lemma InvokeIsLocal(w: Runtime, r: nat, key: Key, view: View, answer: Answer)
    requires r in w.requests && w.requests[r] == Started(key, view) && RequestOk(w, r, w.requests[r])
    ensures Local(w, DoInvoke(w, r, key, view, answer), r, key)
  {
  }

  lemma InvFinish(w: Runtime, r: nat, key: Key, view: View, answer: Answer)
    requires Inv(w) && r in w.requests && w.requests[r] == Answered(key, view, answer)
    ensures Inv(DoFinish(w, r, key, answer))
  {
    assert RequestOk(w, r, w.requests[r]);
    if ResultOf(answer).status.Final() {
      var done := FinishedRecord(w.table[key], ResultOf(answer));
      InvSave(w, r, key, done, Done(key, Replied(done, false)));
    } else {
      InvDie(w, r);
    }
  }

  lemma DieIsLocal(w: Runtime, r: nat)
    requires r in w.requests
    ensures Local(w, DoDie(w, r, w.requests[r]), r, w.requests[r].key)
  {
  }

  lemma InvDie(w: Runtime, r: nat)
    requires Inv(w) && r in w.requests
    ensures Inv(DoDie(w, r, w.requests[r]))
  {
    var key, w' := w.requests[r].key, DoDie(w, r, w.requests[r]);
    if !w.requests[r].Done? {
      assert RequestOk(w, r, w.requests[r]);
      KeyStays(w, w', r, key);
      SameTablesKeepOthers(w, w', r, key);
      DieIsLocal(w, r);
      LocalKeepsInv(w, w', r, key);
    }
  }

  lemma InvLookup(w: Runtime, r: nat, key: Key, view: View)
    requires Inv(w) && r in w.requests && w.requests[r] == Cleared(key, view)
    ensures Inv(At(w, r, DoLookup(w, key, view)))
  {
    if key in w.table { ReplayIsOk(w, r); }
    InvAt(w, r, DoLookup(w, key, view));
  }

  lemma InvRecover(w: Runtime, r: nat, key: Key)
    requires Inv(w) && r in w.requests && w.requests[r] == Collided(key)
    ensures Inv(At(w, r, DoRecover(w, key)))
  {
    assert RequestOk(w, r, w.requests[r]);
    ReplayIsOk(w, r);
    InvAt(w, r, DoRecover(w, key));
  }

  predicate IsEarly(step: Step) {
    step.Read? || step.Check? || step.Lookup? || step.Flush? || step.Recover? || step.CommitAccept?
  }

  predicate IsLate(step: Step) { step.Start? || step.Invoke? || step.Finish? || step.Die? }

  // Up to the accepted row.
  lemma InvEarly(kinds: set<string>, w: Runtime, r: nat, step: Step)
    requires Inv(w) && r in w.requests && IsEarly(step)
    ensures Inv(Advance(kinds, w, r, step))
  {
    var req := w.requests[r];
    match step
    case Read(_, kind) => if req.Fresh? { InvAt(w, r, DoRead(w, req.key, kind)); }
    case Check(_) => if req.HasRead? { InvAt(w, r, DoCheck(req.key, req.view)); }
    case Lookup(_) => if req.Cleared? { InvLookup(w, r, req.key, req.view); }
    case Flush(_) => if req.Missed? { InvFlush(w, r, req.key, req.view); }
    case Recover(_) => if req.Collided? { InvRecover(w, r, req.key); }
    case CommitAccept(_) => if req.Inserted? { InvCommitAccept(w, r, req.key, req.view); }
  }

  // From the accepted row on.
  lemma InvLate(kinds: set<string>, w: Runtime, r: nat, step: Step)
    requires Inv(w) && r in w.requests && IsLate(step)
    ensures Inv(Advance(kinds, w, r, step))
  {
    var req := w.requests[r];
    match step
    case Start(_) => if req.Owner? { InvStart(kinds, w, r, req.key, req.view); }
    case Invoke(_, answer) => if req.Started? { InvInvoke(w, r, req.key, req.view, answer); }
    case Finish(_) => if req.Answered? { InvFinish(w, r, req.key, req.view, req.answer); }
    case Die(_) => InvDie(w, r);
  }

  lemma InvAdvance(kinds: set<string>, w: Runtime, r: nat, step: Step)
    requires Inv(w) && r in w.requests && (IsEarly(step) || IsLate(step))
    ensures Inv(Advance(kinds, w, r, step))
  {
    if IsEarly(step) {
      InvEarly(kinds, w, r, step);
    } else {
      InvLate(kinds, w, r, step);
    }
  }

  lemma InvNext(kinds: set<string>, w: Runtime, step: Step)
    requires Inv(w)
    ensures Inv(Next(kinds, w, step))
  {
    match step
    case CreateConnector(_, _, _, _, _) => SameRowsKeepInv(w, Next(kinds, w, step));
    case ChangeConnector(_, _) => SameRowsKeepInv(w, Next(kinds, w, step));
    case Arrive(r, key) => if r !in w.requests { InvArrive(w, r, key); }
    case _ => if step.r in w.requests { InvAdvance(kinds, w, step.r, step); }
  }

  lemma SameRowsKeepInv(w: Runtime, w': Runtime)
    requires Inv(w) && w' == w.(connectors := w'.connectors)
    ensures Inv(w')
  {
    forall r | r in w'.requests ensures RequestOk(w', r, w'.requests[r]) { assert RequestOk(w, r, w.requests[r]); }
    forall key | key in w'.table ensures RowOk(w', key) { assert RowOk(w, key); }
    forall key | key in w'.inserting ensures InsertingOk(w', key) { assert InsertingOk(w, key); }
    forall key | key in w'.calls ensures CallOk(w', key) { assert CallOk(w, key); }
  }

  lemma {:induction false} InvRun(kinds: set<string>, w: Runtime, steps: seq<Step>)
    requires Inv(w)
    ensures Inv(Run(kinds, w, steps))
    decreases |steps|
  {
    if steps != [] {
      InvNext(kinds, w, steps[0]);
      InvRun(kinds, Next(kinds, w, steps[0]), steps[1..]);
    }
  }
}
