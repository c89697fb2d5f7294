/** Connector transactions, the outbox, the stream and a projecting consumer, in one system:
    every interleaving of requests, drains, crashes, reordering and redelivery. */
module EndToEnd {
  import opened Options
  import opened Lifecycle
  import opened Timing
  import opened Events
  import opened Consumer
  import C = Connectors
  import O = Outbox
  import S = OutboxSafety
  import W = OutboxWindow

  datatype World = World(connectors: map<nat, C.Connector>, outbox: O.System, delivered: seq<Event>)

  datatype Step =
    | CreateTx(id: nat, tenant: string, actor: string, status: State, valid: bool, commits: bool, maxAttempts: int,
        at: real)
    | ConnectorTx(id: nat, req: C.Request, commits: bool, maxAttempts: int, at: real)
    | OutboxStep(step: O.Step)
    | Deliver(msg: O.Message)

  const INITIAL := World(map[], O.INITIAL, [])

  function Staged(id: nat, e: C.Emitted): Event { ConnectorEvent(id, e.version, e.event, e.Status()) }

  function LastEvent(c: C.Connector): C.Emitted
    requires c.events != []
  {
    c.events[|c.events| - 1]
  }

  /** Does the outbox accept this step on its own? Connector events enter only with the
      transaction that caused them. */
  predicate Independent(step: O.Step) {
    step.Enqueue? ==> step.event.ForeignEvent?
  }

  /** The event row a world step inserts or the publisher step it is, if any. */
  ghost function OutboxPart(w: World, step: Step): seq<O.Step> {
    match step
    case CreateTx(id, tenant, actor, status, valid, commits, maxAttempts, at) =>
      var made := C.Create(tenant, actor, status, valid);
      if commits && id !in w.connectors && made.Some? && w.outbox.now <= at
      then [O.Enqueue(Staged(id, made.value.events[0]), maxAttempts, at)] else []
    case ConnectorTx(id, req, commits, maxAttempts, at) =>
      if commits && id in w.connectors && w.outbox.now <= at then
        var c' := C.Transact(w.connectors[id], req).0;
        if |c'.events| > |w.connectors[id].events| then [O.Enqueue(Staged(id, LastEvent(c')), maxAttempts, at)] else []
      else []
    case OutboxStep(step) => if Independent(step) then [step] else []
    case Deliver(_) => []
  }

  /** One transaction, one publisher step, or one delivery of a stored message. The connector row
      and the event row commit together. */
  ghost function Next(cfg: O.Config, w: World, step: Step): World {
    var outbox := O.Run(cfg, w.outbox, OutboxPart(w, step));
    match step
    case CreateTx(id, tenant, actor, status, valid, _, _, _) =>
      if OutboxPart(w, step) == [] then w
      else w.(connectors := w.connectors[id := C.Create(tenant, actor, status, valid).value], outbox := outbox)
    case ConnectorTx(id, req, _, _, _) =>
      if OutboxPart(w, step) == [] then w
      else w.(connectors := w.connectors[id := C.Transact(w.connectors[id], req).0], outbox := outbox)
    case OutboxStep(_) => w.(outbox := outbox)
    case Deliver(msg) => if msg in w.outbox.log then w.(delivered := w.delivered + [msg.event]) else w
  }

  ghost function Run(cfg: O.Config, w: World, steps: seq<Step>): World
    decreases |steps|
  {
    if steps == [] then w else Run(cfg, Next(cfg, w, steps[0]), steps[1..])
  }

  // ---------------------------------------------------------------- the projection

  datatype Projection = Projection(last: Option<int>, status: Option<State>)

  predicate About(id: nat, e: Event) { e.ConnectorEvent? && e.connector == id }

  function Consume(id: nat, p: Projection, e: Event): Projection {
    if About(id, e) && VersionDecision(Some(e.version), p.last).Apply?
    then Projection(Some(e.version), Some(e.status)) else p
  }

  function Project(id: nat, delivered: seq<Event>): Projection {
    if delivered == [] then Projection(None, None)
    else Consume(id, Project(id, delivered[..|delivered| - 1]), delivered[|delivered| - 1])
  }

  // ---------------------------------------------------------------- invariant

  /** The connector's event rows, oldest first. */
  function RowsAbout(id: nat, rows: seq<O.Row>): seq<Event> {
    if rows == [] then []
    else
      var last := rows[|rows| - 1].event;
      RowsAbout(id, rows[..|rows| - 1]) + if About(id, last) then [last] else []
  }

  function AllStaged(id: nat, events: seq<C.Emitted>): seq<Event> {
    seq(|events|, i requires 0 <= i < |events| => Staged(id, events[i]))
  }

  ghost predicate AllValid(connectors: map<nat, C.Connector>) {
    forall id | id in connectors :: C.Inv(connectors[id])
  }

  /** The outbox holds exactly the events of each connector, in order. */
  ghost predicate RowsMatch(w: World) {
    && (forall id | id in w.connectors :: RowsAbout(id, w.outbox.rows) == AllStaged(id, w.connectors[id].events))
    && (forall id: nat | id !in w.connectors :: RowsAbout(id, w.outbox.rows) == [])
  }

  ghost predicate Inv(cfg: O.Config, w: World) {
    && S.Inv(cfg, w.outbox)
    && AllValid(w.connectors)
    && RowsMatch(w)
    && (forall e | e in w.delivered :: exists m :: m in w.outbox.log && m.event == e)
  }

  lemma {:induction false} RowsAboutSame(id: nat, a: seq<O.Row>, b: seq<O.Row>)
    requires |a| == |b| && forall i | 0 <= i < |a| :: a[i].event == b[i].event
    ensures RowsAbout(id, a) == RowsAbout(id, b)
    decreases |a|
  {
    if a != [] {
      RowsAboutSame(id, a[..|a| - 1], b[..|b| - 1]);
    }
  }

  /** A publisher step changes no row's event, and an enqueue appends one row. */
  lemma OutboxPartRows(cfg: O.Config, o: O.System, step: O.Step, id: nat)
    requires S.Inv(cfg, o)
    ensures var o' := O.Next(cfg, o, step);
            RowsAbout(id, o'.rows) == RowsAbout(id, o.rows)
              + if step.Enqueue? && O.Enabled(cfg, o, step) && About(id, step.event) then [step.event] else []
  {
    var o' := O.Next(cfg, o, step);
    if step.Enqueue? && O.Enabled(cfg, o, step) {
      assert o'.rows[..|o.rows|] == o.rows;
    } else {
      S.PreservedNext(cfg, o, step);
      RowsAboutSame(id, o.rows, o'.rows);
    }
  }

  lemma SingleRun(cfg: O.Config, o: O.System, step: O.Step)
    ensures O.Run(cfg, o, [step]) == O.Next(cfg, o, step)
  {
    assert [step][1..] == [];
  }

  lemma TransactEmits(c: C.Connector, req: C.Request)
    requires C.Inv(c)
    ensures var c' := C.Transact(c, req).0;
            C.Inv(c') && (|c'.events| == |c.events| ==> c' == c)
            && (|c'.events| != |c.events| ==> |c'.events| == |c.events| + 1 && c'.events[..|c.events|] == c.events)
  {
    C.InvNext(c, req);
  }

  lemma StagedGrows(id: nat, before: seq<C.Emitted>, e: C.Emitted)
    ensures AllStaged(id, before + [e]) == AllStaged(id, before) + [Staged(id, e)]
  {
  }

  lemma CommitTogether(w: World, w': World, id: nat, c': C.Connector, e: C.Emitted)
    requires RowsMatch(w)
    requires w'.connectors == w.connectors[id := c']
    requires RowAdded(w.outbox.rows, w'.outbox.rows, id, e)
    requires c'.events == (if id in w.connectors then w.connectors[id].events else []) + [e]
    ensures RowsMatch(w')
  {
    StagedGrows(id, if id in w.connectors then w.connectors[id].events else [], e);
    assert AllStaged(id, []) == [];
  }

  lemma RowsAfter(cfg: O.Config, w: World, step: Step)
    requires S.Inv(cfg, w.outbox) && OutboxPart(w, step) != []
    ensures var part, w' := OutboxPart(w, step)[0], Next(cfg, w, step);
            && w'.outbox == O.Next(cfg, w.outbox, part) && S.Inv(cfg, w'.outbox) && w.outbox.log <= w'.outbox.log
            && w'.delivered == w.delivered
            && forall id: nat :: RowsAbout(id, w'.outbox.rows) == RowsAbout(id, w.outbox.rows)
                 + if part.Enqueue? && O.Enabled(cfg, w.outbox, part) && About(id, part.event) then [part.event] else []
  {
    var part := OutboxPart(w, step);
    assert part == [part[0]];
    SingleRun(cfg, w.outbox, part[0]);
    S.InvNext(cfg, w.outbox, part[0]);
    S.PreservedNext(cfg, w.outbox, part[0]);
    forall id: nat {
      OutboxPartRows(cfg, w.outbox, part[0], id);
    }
  }

  /** Connector `id` gains one event row, for e; no other connector gains any. */
  ghost predicate RowAdded(before: seq<O.Row>, after: seq<O.Row>, id: nat, e: C.Emitted) {
    forall other: nat ::
      RowsAbout(other, after) == RowsAbout(other, before) + if other == id then [Staged(id, e)] else []
  }

  lemma CreationAddsRow(cfg: O.Config, w: World, step: Step)
    requires S.Inv(cfg, w.outbox) && step.CreateTx? && OutboxPart(w, step) != []
    ensures var made := C.Create(step.tenant, step.actor, step.status, step.valid).value;
            RowAdded(w.outbox.rows, Next(cfg, w, step).outbox.rows, step.id, made.events[0])
  {
    RowsAfter(cfg, w, step);
  }

  lemma RequestAddsRow(cfg: O.Config, w: World, step: Step)
    requires S.Inv(cfg, w.outbox) && step.ConnectorTx? && OutboxPart(w, step) != []
    ensures var c' := C.Transact(w.connectors[step.id], step.req).0;
            c'.events != [] && RowAdded(w.outbox.rows, Next(cfg, w, step).outbox.rows, step.id, LastEvent(c'))
  {
    RowsAfter(cfg, w, step);
  }

  lemma CreationKeeps(cfg: O.Config, w: World, step: Step)
    requires S.Inv(cfg, w.outbox) && AllValid(w.connectors) && RowsMatch(w)
    requires step.CreateTx? && OutboxPart(w, step) != []
    ensures AllValid(Next(cfg, w, step).connectors) && RowsMatch(Next(cfg, w, step))
  {
    var made := C.Create(step.tenant, step.actor, step.status, step.valid).value;
    assert C.Inv(made) && made.events == [made.events[0]] by {
      C.CreateEstablishes(step.tenant, step.actor, step.status, step.valid);
    }
    CreationAddsRow(cfg, w, step);
    CommitTogether(w, Next(cfg, w, step), step.id, made, made.events[0]);
  }

  lemma RequestKeeps(cfg: O.Config, w: World, step: Step)
    requires S.Inv(cfg, w.outbox) && AllValid(w.connectors) && RowsMatch(w)
    requires step.ConnectorTx? && OutboxPart(w, step) != []
    ensures AllValid(Next(cfg, w, step).connectors) && RowsMatch(Next(cfg, w, step))
  {
    var c := w.connectors[step.id];
    var c' := C.Transact(c, step.req).0;
    assert C.Inv(c') && c'.events == c.events + [LastEvent(c')] by { TransactEmits(c, step.req); }
    RequestAddsRow(cfg, w, step);
    CommitTogether(w, Next(cfg, w, step), step.id, c', LastEvent(c'));
  }

  lemma InvNext(cfg: O.Config, w: World, step: Step)
    requires Inv(cfg, w)
    ensures Inv(cfg, Next(cfg, w, step))
  {
    if OutboxPart(w, step) != [] {
      RowsAfter(cfg, w, step);
      match step
      case CreateTx(_, _, _, _, _, _, _, _) => CreationKeeps(cfg, w, step);
      case ConnectorTx(_, _, _, _, _) => RequestKeeps(cfg, w, step);
      case OutboxStep(_) =>
    }
  }

  lemma {:induction false} InvRun(cfg: O.Config, w: World, steps: seq<Step>)
    requires Inv(cfg, w)
    ensures Inv(cfg, Run(cfg, w, steps))
    decreases |steps|
  {
    if steps != [] {
      InvNext(cfg, w, steps[0]);
      InvRun(cfg, Next(cfg, w, steps[0]), steps[1..]);
    }
  }

  // ---------------------------------------------------------------- crashes

  predicate Commits(step: Step) {
    (step.CreateTx? ==> step.commits) && (step.ConnectorTx? ==> step.commits)
  }

  function Committed(steps: seq<Step>): seq<Step> {
    if steps == [] then [] else (if Commits(steps[0]) then [steps[0]] else []) + Committed(steps[1..])
  }

  /** A transaction that dies before its commit leaves neither a row nor an event: leaving it out of the run
      changes nothing. */
  lemma {:induction false} DeadTransactionsLeaveNoTrace(cfg: O.Config, w: World, steps: seq<Step>)
    ensures Run(cfg, w, steps) == Run(cfg, w, Committed(steps))
    decreases |steps|
  {
    if steps != [] {
      var rest := Committed(steps[1..]);
      assert [] + rest == rest && ([steps[0]] + rest)[1..] == rest;
      DeadTransactionsLeaveNoTrace(cfg, Next(cfg, w, steps[0]), steps[1..]);
    }
  }

  // ---------------------------------------------------------------- what a consumer sees

  lemma {:induction false} RowIsListed(id: nat, rows: seq<O.Row>, i: nat)
    requires i < |rows| && About(id, rows[i].event)
    ensures rows[i].event in RowsAbout(id, rows)
    decreases |rows|
  {
    if i < |rows| - 1 {
      RowIsListed(id, rows[..|rows| - 1], i);
    }
  }

  lemma {:induction false} ListedIsRow(id: nat, rows: seq<O.Row>, e: Event) returns (i: nat)
    requires e in RowsAbout(id, rows)
    ensures i < |rows| && rows[i].event == e && About(id, e)
  {
    var shorter := rows[..|rows| - 1];
    if e in RowsAbout(id, shorter) {
      i := ListedIsRow(id, shorter, e);
    } else {
      i := |rows| - 1;
    }
  }

  /** An event in the stream is one of the connector's own, with the status of its version. */
  ghost predicate Genuine(id: nat, w: World, e: Event) {
    && id in w.connectors && About(id, e)
    && 1 <= e.version <= |w.connectors[id].events|
    && e == Staged(id, w.connectors[id].events[e.version - 1])
  }

  lemma StreamIsGenuine(cfg: O.Config, w: World, id: nat, m: O.Message)
    requires Inv(cfg, w) && m in w.outbox.log && About(id, m.event)
    ensures Genuine(id, w, m.event)
  {
    RowIsListed(id, w.outbox.rows, m.id);
    assert id in w.connectors && C.Numbered(w.connectors[id]);
    var i :| 0 <= i < |w.connectors[id].events| && AllStaged(id, w.connectors[id].events)[i] == m.event;
  }

  /** In every reachable state a stored event of a connector carries its version, and the name and status the
      connector recorded for that version. */
  lemma StreamTellsTheConnector(cfg: O.Config, steps: seq<Step>, id: nat, m: O.Message)
    requires m in Run(cfg, INITIAL, steps).outbox.log && About(id, m.event)
    ensures var w := Run(cfg, INITIAL, steps);
            && id in w.connectors && 1 <= m.event.version <= w.connectors[id].version == |w.connectors[id].events|
            && m.event.event == w.connectors[id].events[m.event.version - 1].event
            && m.event.status == w.connectors[id].events[m.event.version - 1].Status()
            && w.connectors[id].events[m.event.version - 1].version == m.event.version
  {
    InvInitially(cfg);
    InvRun(cfg, INITIAL, steps);
    StreamIsGenuine(cfg, Run(cfg, INITIAL, steps), id, m);
    ReachableIsNumbered(cfg, steps, id);
  }

  lemma ReachableIsNumbered(cfg: O.Config, steps: seq<Step>, id: nat)
    ensures var w := Run(cfg, INITIAL, steps); id in w.connectors ==> C.Numbered(w.connectors[id])
  {
    InvInitially(cfg);
    InvRun(cfg, INITIAL, steps);
    var w := Run(cfg, INITIAL, steps);
    assert id in w.connectors ==> C.Inv(w.connectors[id]);
  }

  /** `status` is the one event number v of the connector carries. */
  ghost predicate Recorded(w: World, id: nat, v: int, status: Option<State>) {
    id in w.connectors && 1 <= v <= |w.connectors[id].events| && status == Some(w.connectors[id].events[v - 1].Status())
  }

  lemma {:induction false} GenuineProjection(id: nat, w: World, delivered: seq<Event>)
    requires forall e | e in delivered && About(id, e) :: Genuine(id, w, e)
    ensures var p := Project(id, delivered);
            && (p.last.None? <==> p.status.None?)
            && (p.last.Some? ==> Recorded(w, id, p.last.value, p.status))
    decreases |delivered|
  {
    if delivered != [] {
      GenuineProjection(id, w, delivered[..|delivered| - 1]);
      var e := delivered[|delivered| - 1];
      assert About(id, e) ==> Genuine(id, w, e);
    }
  }

  /** In every reachable state a consumer that has applied version k holds the status recorded for
      version k, and k has happened. */
  lemma ProjectionIsHistory(cfg: O.Config, steps: seq<Step>, id: nat)
    ensures var w := Run(cfg, INITIAL, steps);
            var p := Project(id, w.delivered);
            && (p.last.Some? ==> Recorded(w, id, p.last.value, p.status))
            && (p.last.None? ==> p.status.None?)
            && (id in w.connectors ==> C.Numbered(w.connectors[id]))
  {
    var w := Run(cfg, INITIAL, steps);
    InvInitially(cfg);
    InvRun(cfg, INITIAL, steps);
    forall e | e in w.delivered && About(id, e)
      ensures Genuine(id, w, e)
    {
      var m :| m in w.outbox.log && m.event == e;
      StreamIsGenuine(cfg, w, id, m);
    }
    GenuineProjection(id, w, w.delivered);
    ReachableIsNumbered(cfg, steps, id);
  }

  lemma InvInitially(cfg: O.Config)
    ensures Inv(cfg, INITIAL)
  {
    S.InvInitially(cfg);
  }

  lemma {:induction false} RunAppend(cfg: O.Config, w: World, a: seq<Step>, b: seq<Step>)
    ensures Run(cfg, w, a + b) == Run(cfg, Run(cfg, w, a), b)
    decreases |a|
  {
    if a == [] {
      assert a + b == b;
    } else {
      assert (a + b)[0] == a[0] && (a + b)[1..] == a[1..] + b;
      RunAppend(cfg, Next(cfg, w, a[0]), a[1..], b);
    }
  }

  lemma TransactGrows(c: C.Connector, req: C.Request)
    ensures c.events <= C.Transact(c, req).0.events
  {
  }

  lemma {:induction false} ConnectorsGrow(cfg: O.Config, w: World, steps: seq<Step>, id: nat)
    requires id in w.connectors
    ensures var w' := Run(cfg, w, steps); id in w'.connectors && w.connectors[id].events <= w'.connectors[id].events
    decreases |steps|
  {
    if steps != [] {
      var step := steps[0];
      if step.ConnectorTx? && step.id == id {
        TransactGrows(w.connectors[id], step.req);
      }
      ConnectorsGrow(cfg, Next(cfg, w, step), steps[1..], id);
    }
  }

  /** The end-to-end statement: whatever happens between, a consumer whose last applied version is
      the one the row had at some earlier moment holds the status the row had at that moment. */
  lemma ConsumerHoldsRowStatus(cfg: O.Config, earlier: seq<Step>, later: seq<Step>, id: nat)
    ensures var then_, now := Run(cfg, INITIAL, earlier), Run(cfg, INITIAL, earlier + later);
            id in then_.connectors && Project(id, now.delivered).last == Some(then_.connectors[id].version)
            ==> Project(id, now.delivered).status == Some(then_.connectors[id].status)
  {
    var then_, now := Run(cfg, INITIAL, earlier), Run(cfg, INITIAL, earlier + later);
    if id in then_.connectors && Project(id, now.delivered).last == Some(then_.connectors[id].version) {
      RunAppend(cfg, INITIAL, earlier, later);
      ConnectorsGrow(cfg, then_, later, id);
      ProjectionIsHistory(cfg, earlier + later, id);
      ReachableIsNumbered(cfg, earlier, id);
    }
  }

  // ---------------------------------------------------------------- convergence

  function Versions(id: nat, delivered: seq<Event>): seq<Option<int>> {
    seq(|delivered|, i requires 0 <= i < |delivered| =>
      if About(id, delivered[i]) then Some(delivered[i].version) else None)
  }

  function Repeat(events: seq<Event>, times: nat): seq<Event> {
    if times == 0 then [] else Repeat(events, times - 1) + events
  }

  lemma {:induction false} ProjectionFollowsVersions(id: nat, delivered: seq<Event>)
    ensures Project(id, delivered).last == Last(AppliedVersions(Versions(id, delivered)))
    decreases |delivered|
  {
    if delivered != [] {
      var n := |delivered| - 1;
      ProjectionFollowsVersions(id, delivered[..n]);
      assert Versions(id, delivered)[..n] == Versions(id, delivered[..n]);
    }
  }

  lemma {:induction false} RepeatVersions(id: nat, events: seq<Event>, times: nat)
    ensures Versions(id, Repeat(events, times)) == Redelivered(Versions(id, events), times)
    ensures forall e | e in Repeat(events, times) :: e in events
  {
    if times > 0 {
      RepeatVersions(id, events, times - 1);
      assert Versions(id, Repeat(events, times - 1) + events)
          == Versions(id, Repeat(events, times - 1)) + Versions(id, events);
    }
  }

  function StreamEvents(log: seq<O.Message>): seq<Event> {
    seq(|log|, i requires 0 <= i < |log| => log[i].event)
  }

  ghost predicate FullyStored(id: nat, o: O.System) {
    forall i | 0 <= i < |o.rows| && About(id, o.rows[i].event) :: S.InLog(o.log, i)
  }

  lemma EveryVersionStreams(w: World, id: nat, v: int)
    requires id in w.connectors && RowsAbout(id, w.outbox.rows) == AllStaged(id, w.connectors[id].events)
    requires C.Numbered(w.connectors[id]) && FullyStored(id, w.outbox) && 1 <= v <= w.connectors[id].version
    requires forall m | m in w.outbox.log :: m.id < |w.outbox.rows| && m.event == w.outbox.rows[m.id].event
    ensures Some(v) in Versions(id, StreamEvents(w.outbox.log))
  {
    var versions := Versions(id, StreamEvents(w.outbox.log));
    var e := AllStaged(id, w.connectors[id].events)[v - 1];
    var i := ListedIsRow(id, w.outbox.rows, e);
    var m :| m in w.outbox.log && m.id == i;
    var j :| 0 <= j < |w.outbox.log| && w.outbox.log[j] == m;
    assert versions[j] == Some(v);
  }

  lemma NoLaterVersionStreams(cfg: O.Config, w: World, id: nat, v: int)
    requires Inv(cfg, w) && id in w.connectors && Some(v) in Versions(id, StreamEvents(w.outbox.log))
    ensures v <= w.connectors[id].version
  {
    var versions := Versions(id, StreamEvents(w.outbox.log));
    var j :| 0 <= j < |versions| && versions[j] == Some(v);
    StreamIsGenuine(cfg, w, id, w.outbox.log[j]);
    assert C.Inv(w.connectors[id]);
  }

  lemma StreamVersions(cfg: O.Config, w: World, id: nat)
    requires Inv(cfg, w) && id in w.connectors && FullyStored(id, w.outbox)
    ensures var versions := Versions(id, StreamEvents(w.outbox.log));
            && (forall v | 1 <= v <= w.connectors[id].version :: Some(v) in versions)
            && (forall v | Some(v) in versions :: v <= w.connectors[id].version)
  {
    var versions := Versions(id, StreamEvents(w.outbox.log));
    assert C.Inv(w.connectors[id]);
    forall v | 1 <= v <= w.connectors[id].version
      ensures Some(v) in versions
    {
      EveryVersionStreams(w, id, v);
    }
    forall v | Some(v) in versions
      ensures v <= w.connectors[id].version
    {
      NoLaterVersionStreams(cfg, w, id, v);
    }
  }

  /** Once every event row of a connector is in the stream, in whatever order the replicas got it
      there, replaying the stream as many times as the connector has versions brings a consumer to
      exactly the row's current version and status. */
  lemma ReplayConverges(cfg: O.Config, steps: seq<Step>, id: nat, times: nat)
    requires var w := Run(cfg, INITIAL, steps);
             id in w.connectors && FullyStored(id, w.outbox) && times >= w.connectors[id].version
    ensures var w := Run(cfg, INITIAL, steps);
            Project(id, Repeat(StreamEvents(w.outbox.log), times))
            == Projection(Some(w.connectors[id].version), Some(w.connectors[id].status))
  {
    InvInitially(cfg);
    InvRun(cfg, INITIAL, steps);
    ReachableIsNumbered(cfg, steps, id);
    ReplayFrom(cfg, Run(cfg, INITIAL, steps), id, times);
  }

  lemma ReplayFrom(cfg: O.Config, w: World, id: nat, times: nat)
    requires Inv(cfg, w) && id in w.connectors && C.Numbered(w.connectors[id])
    requires FullyStored(id, w.outbox) && times >= w.connectors[id].version
    ensures Project(id, Repeat(StreamEvents(w.outbox.log), times))
            == Projection(Some(w.connectors[id].version), Some(w.connectors[id].status))
  {
    assert Last(AppliedVersions(Redelivered(Versions(id, StreamEvents(w.outbox.log)), times)))
           == Some(w.connectors[id].version) by {
      StreamVersions(cfg, w, id);
      ReplayAppliesAll(Versions(id, StreamEvents(w.outbox.log)), w.connectors[id].version, times);
    }
    ReplayIsGenuine(cfg, w, id, times);
  }

  lemma ReplayAppliesAll(versions: seq<Option<int>>, n: int, times: nat)
    requires (forall v | 1 <= v <= n :: Some(v) in versions) && (forall v | Some(v) in versions :: v <= n)
    requires 1 <= n <= times
    ensures Last(AppliedVersions(Redelivered(versions, times))) == Some(n)
  {
    RedeliveryConverges(versions, n, times);
  }

  lemma ReplayIsGenuine(cfg: O.Config, w: World, id: nat, times: nat)
    requires Inv(cfg, w)
    ensures var stream := StreamEvents(w.outbox.log);
            var p := Project(id, Repeat(stream, times));
            && p.last == Last(AppliedVersions(Redelivered(Versions(id, stream), times)))
            && (p.last.Some? ==> Recorded(w, id, p.last.value, p.status))
  {
    var stream := StreamEvents(w.outbox.log);
    RepeatVersions(id, stream, times);
    ProjectionFollowsVersions(id, Repeat(stream, times));
    forall e | e in Repeat(stream, times) && About(id, e)
      ensures Genuine(id, w, e)
    {
      var j :| 0 <= j < |stream| && stream[j] == e;
      StreamIsGenuine(cfg, w, id, w.outbox.log[j]);
    }
    GenuineProjection(id, w, Repeat(stream, times));
  }

  // ---------------------------------------------------------------- one copy of each version

  ghost function OutboxSteps(cfg: O.Config, w: World, steps: seq<Step>): seq<O.Step>
    decreases |steps|
  {
    if steps == [] then [] else OutboxPart(w, steps[0]) + OutboxSteps(cfg, Next(cfg, w, steps[0]), steps[1..])
  }

  lemma {:induction false} OutboxRunsInside(cfg: O.Config, w: World, steps: seq<Step>)
    ensures Run(cfg, w, steps).outbox == O.Run(cfg, w.outbox, OutboxSteps(cfg, w, steps))
    decreases |steps|
  {
    if steps != [] {
      var rest := OutboxSteps(cfg, Next(cfg, w, steps[0]), steps[1..]);
      O.RunAppend(cfg, w.outbox, OutboxPart(w, steps[0]), rest);
      OutboxRunsInside(cfg, Next(cfg, w, steps[0]), steps[1..]);
    }
  }

  lemma {:induction false} ListedOnce(id: nat, rows: seq<O.Row>, events: seq<C.Emitted>, i: nat, j: nat)
    requires RowsAbout(id, rows) == AllStaged(id, events)
    requires forall k | 0 <= k < |events| :: events[k].version == k + 1
    requires i < j < |rows| && About(id, rows[i].event) && About(id, rows[j].event)
    ensures rows[i].event.version != rows[j].event.version
    decreases |rows|
  {
    var shorter, last := rows[..|rows| - 1], rows[|rows| - 1].event;
    var listed := RowsAbout(id, rows);
    if About(id, last) {
      assert RowsAbout(id, shorter) == listed[..|listed| - 1] == AllStaged(id, events[..|events| - 1]);
      if j == |rows| - 1 {
        RowIsListed(id, shorter, i);
        var k :| 0 <= k < |events| - 1 && AllStaged(id, events[..|events| - 1])[k] == rows[i].event;
        assert listed[|listed| - 1] == Staged(id, events[|events| - 1]);
      } else {
        ListedOnce(id, shorter, events[..|events| - 1], i, j);
      }
    } else {
      ListedOnce(id, shorter, events, i, j);
    }
  }

  /** Behind the startup gate the stream never holds two copies of one version of one connector. */
  lemma OneMessagePerVersion(cfg: O.Config, margin: real, steps: seq<Step>, id: nat, i: nat, j: nat)
    requires W.ConfigOk(cfg) && cfg.policy.maxAttempts >= 1 && cfg.window >= 0.0 && margin <= 1.0
    requires GateFor(cfg.policy, cfg.delays, cfg.window, margin).Utilisation?
    requires W.TimelyRun(cfg, O.INITIAL, OutboxSteps(cfg, INITIAL, steps))
    requires var log := Run(cfg, INITIAL, steps).outbox.log;
             i < j < |log| && About(id, log[i].event) && About(id, log[j].event)
    ensures var log := Run(cfg, INITIAL, steps).outbox.log; log[i].event.version != log[j].event.version
  {
    var w := Run(cfg, INITIAL, steps);
    OutboxRunsInside(cfg, INITIAL, steps);
    W.GatedRunsStoreOneCopy(cfg, margin, OutboxSteps(cfg, INITIAL, steps));
    InvInitially(cfg);
    InvRun(cfg, INITIAL, steps);
    var a, b := w.outbox.log[i], w.outbox.log[j];
    assert a in w.outbox.log && b in w.outbox.log && a.id != b.id;
    StreamIsGenuine(cfg, w, id, a);
    assert C.Inv(w.connectors[id]);
    var first, second := if a.id < b.id then a.id else b.id, if a.id < b.id then b.id else a.id;
    ListedOnce(id, w.outbox.rows, w.connectors[id].events, first, second);
  }
}
