/** The application layer keeps a reference to the job that brought a request. This
    module has the transition table that decides when it is followed (section 8.3.2.1
    of the IO-Link Interface Specification v1.1.3), together with the life of jobs. */
module JobReference {
  import opened Bytes
  import opened JobPool
  import A = ApplicationLayer

  datatype State = OnReqIdle | BuildService | AwaitParam | AwaitIsdu

  datatype Event =
    | Service | ArgErr | ParamRead | ParamWrite1 | ParamWrite2 | IsduRead | IsduWrite
    | RwParam | ReadParamCnf | WriteParamCnf | IsduCnf | Abort | AbortPort

  datatype Action = Build | Busy | SendCnf | SendAbortCnf | ReadParam | WriteParam | NextParam | Transport

  datatype Row = NoRow | Row(next: State, action: Action)

  function Table(s: State, e: Event): Row {
    match (s, e)
    case (OnReqIdle, Service) => Row(BuildService, Build)
    case (OnReqIdle, AbortPort) => Row(OnReqIdle, SendAbortCnf)
    case (BuildService, ArgErr) => Row(OnReqIdle, SendCnf)
    case (BuildService, ParamRead) => Row(AwaitParam, ReadParam)
    case (BuildService, ParamWrite1) => Row(AwaitParam, WriteParam)
    case (BuildService, ParamWrite2) => Row(AwaitParam, WriteParam)
    case (BuildService, IsduRead) => Row(AwaitIsdu, Transport)
    case (BuildService, IsduWrite) => Row(AwaitIsdu, Transport)
    case (AwaitParam, Service) => Row(AwaitParam, Busy)
    case (AwaitParam, Abort) => Row(OnReqIdle, SendCnf)
    case (AwaitParam, RwParam) => Row(AwaitParam, NextParam)
    case (AwaitParam, ReadParamCnf) => Row(OnReqIdle, SendCnf)
    case (AwaitParam, WriteParamCnf) => Row(OnReqIdle, SendCnf)
    case (AwaitIsdu, Abort) => Row(OnReqIdle, SendCnf)
    case (AwaitIsdu, Service) => Row(AwaitIsdu, Busy)
    case (AwaitIsdu, IsduCnf) => Row(OnReqIdle, SendCnf)
    case _ => NoRow
  }

  /** The event that building a service raises, by direction and index. */
  function Built(read: bool, index: nat): Event {
    if read then if index <= 1 then ParamRead else IsduRead
    else if index == 1 then ParamWrite1
    else if index >= 2 then IsduWrite
    else ArgErr
  }

  /** All rows an event leads through: the state after them, and their actions. Only
      the action that builds a service raises another event. */
  function Dispatch(s: State, e: Event, built: Event): (r: (State, seq<Action>))
    requires built != Service
    decreases e == Service
  {
    match Table(s, e)
    case NoRow => (s, [])
    case Row(next, action) =>
      if action == Build then
        var rest := Dispatch(next, built, built);
        (rest.0, [Build] + rest.1)
      else (next, [action])
  }

  lemma DispatchUnfolds(s: State, e: Event, built: Event)
    requires built != Service
    ensures
      var (first, second) := (Table(s, e), Table(BuildService, built));
      Dispatch(s, e, built) ==
        if first.NoRow? then (s, [])
        else if first.action != Build then (first.next, [first.action])
        else if second.NoRow? then (BuildService, [Build])
        else (second.next, [Build, second.action])
  {
    if s == OnReqIdle && e == Service {
      ServiceUnfolds(built);
    }
  }

  lemma ServiceUnfolds(built: Event)
    requires built != Service
    ensures
      var second := Table(BuildService, built);
      Dispatch(OnReqIdle, Service, built) ==
        if second.NoRow? then (BuildService, [Build]) else (second.next, [Build, second.action])
  {
    var second := Table(BuildService, built);
    assert [Build] + [] == [Build];
    assert second.Row? ==> [Build] + [second.action] == [Build, second.action];
    assert second.Row? ==> Dispatch(BuildService, built, built) == (second.next, [second.action]);
  }

  /** These two actions look into the saved job. */
  predicate Follows(a: Action) {
    a == Build || a == Busy
  }

  // --- Jobs and the machine together ---------------------------------------------------

  /** What the callback of the running job is about to do with this port's machine:
      nothing (any more), or to take the row for `event`. `built` is the event that
      building the service will raise. */
  datatype Dispatcher = Idle | Pending(event: Event, built: Event)

  /** The jobs, the state of one port's machine, its dispatcher, and the job it has
      saved. `uses` logs every time the saved job is looked into, with the job that
      runs then. */
  datatype System = System(pools: Pools, od: State, dispatcher: Dispatcher, saved: Option<Job>, uses: seq<Use>)

  datatype Use = Use(saved: Option<Job>, running: Option<Job>)

  /** What can happen next. Other threads take and post jobs at any time, also between
      two rows. The main thread starts the callback of a request or of a confirmation
      or abort, takes a row, and returns the job when no row is left. */
  datatype Happening =
    | Pool(action: JobPool.Action)
    | Requested(read: bool, index: nat)
    | Confirmed(event: Event)
    | TakeRow

  predicate Happens(y: System, h: Happening) {
    match h
    case Pool(a) => Possible(y.pools, a) && (a == Finish ==> y.dispatcher == Idle)
    case Requested(_, _) => y.pools.running.Some? && y.dispatcher == Idle
    case Confirmed(e) => y.pools.running.Some? && y.dispatcher == Idle && e != Service
    case TakeRow => y.dispatcher.Pending?
  }

  /** One row of the table. An action that looks into the saved job finds there
      whatever was saved last. */
  function RowTaken(y: System): System
    requires y.dispatcher.Pending?
  {
    var d := y.dispatcher;
    match Table(y.od, d.event)
    case NoRow => y.(dispatcher := Idle)
    case Row(next, action) =>
      var z := y.(od := next, dispatcher := if action == Build then Pending(d.built, d.built) else Idle);
      if Follows(action) then z.(uses := y.uses + [Use(y.saved, y.pools.running)]) else z
  }

  function Next(y: System, h: Happening): System
    requires Happens(y, h)
  {
    match h
    case Pool(a) => y.(pools := Step(y.pools, a))
    case Requested(read, index) => y.(saved := y.pools.running, dispatcher := Pending(Service, Built(read, index)))
    case Confirmed(e) => y.(dispatcher := Pending(e, ArgErr))
    case TakeRow => RowTaken(y)
  }

  predicate AllHappen(y: System, hs: seq<Happening>)
    decreases |hs|
  {
    hs != [] ==> Happens(y, hs[0]) && AllHappen(Next(y, hs[0]), hs[1..])
  }

  function Play(y: System, hs: seq<Happening>): System
    requires AllHappen(y, hs)
    decreases |hs|
  {
    if hs == [] then y else Play(Next(y, hs[0]), hs[1..])
  }

  /** A job that runs is in no pool, no mailbox and with no other thread. */
  predicate OnlyRuns(p: Pools, j: Job) {
    p.running == Some(j) && j.id !in Available(p, j.kind) && j !in p.mbox && j !in p.taken
  }

  /** While rows are left a job runs, and it is the saved one if a request is being
      dispatched; the machine is between building and sending only then. */
  ghost predicate Inv(y: System) {
    && Conserved(y.pools)
    && (y.dispatcher.Pending? ==> y.pools.running.Some? && Table(BuildService, y.dispatcher.built).Row?)
    && (y.dispatcher.Pending? && y.dispatcher.event == Service ==> y.saved == y.pools.running && y.od != BuildService)
    && (y.od == BuildService ==> y.dispatcher.Pending? && y.dispatcher.event == y.dispatcher.built)
    && forall u <- y.uses :: u.saved.Some? && u.saved == u.running
  }

  lemma RunningIsNowhereElse(p: Pools)
    requires Conserved(p) && p.running.Some?
    ensures OnlyRuns(p, p.running.value)
  {
    var j := p.running.value;
    assert Places(p, j) <= 1;
    assert j.id in Available(p, j.kind) ==> multiset(Available(p, j.kind))[j.id] > 0;
  }

  function Uses(actions: seq<Action>, use: Use): seq<Use> {
    if actions == [] then []
    else if Follows(actions[0]) then [use] + Uses(actions[1..], use)
    else Uses(actions[1..], use)
  }

  /** An event that no request brings leads to no look into the saved job. */
  lemma OthersFollowNothing(s: State, e: Event, use: Use)
    requires e != Service
    ensures Uses(Dispatch(s, e, ArgErr).1, use) == []
  {
    var actions := Dispatch(s, e, ArgErr).1;
    if actions != [] {
      assert actions == [Table(s, e).action];
      assert actions[1..] == [];
    }
  }

  /** One request looks into its job exactly once, whether it is served or turned
      away, and leaves the machine in a state that awaits the next event. */
  lemma RequestFollowsOnce(s: State, read: bool, index: nat, use: Use)
    requires s != BuildService
    ensures var (next, actions) := Dispatch(s, Service, Built(read, index));
      next != BuildService && Uses(actions, use) == [use]
  {
    var actions := Dispatch(s, Service, Built(read, index)).1;
    DispatchUnfolds(s, Service, Built(read, index));
    if s == OnReqIdle {
      var second := Table(BuildService, Built(read, index)).action;
      assert actions == [Build, second];
      assert actions[1..] == [second] && [second][1..] == [];
      assert Uses([second], use) == [];
    } else {
      assert actions == [Busy] && actions[1..] == [];
    }
  }

  /** Taking rows one by one ends after at most two, in the state that the dispatcher
      loop ends in. */
  lemma RowsAreDispatched(y: System)
    requires y.dispatcher.Pending? && y.dispatcher.built != Service
    ensures
      var z, last := RowTaken(y), Dispatch(y.od, y.dispatcher.event, y.dispatcher.built).0;
      if z.dispatcher == Idle then z.od == last
      else RowTaken(z).dispatcher == Idle && RowTaken(z).od == last
  {
    DispatchUnfolds(y.od, y.dispatcher.event, y.dispatcher.built);
  }

  lemma RowKeepsInv(y: System)
    requires Inv(y) && y.dispatcher.Pending?
    ensures Inv(RowTaken(y))
    ensures RowTaken(y).uses != y.uses ==> y.saved == y.pools.running && y.saved.Some?
  {
    var z := RowTaken(y);
    if z.uses != y.uses {
      assert y.dispatcher.event == Service;
      assert z.uses == y.uses + [Use(y.saved, y.pools.running)];
    }
  }

  /** Other threads leave the running job, the saved job and the rows left alone. */
  lemma PoolKeepsInv(y: System, a: JobPool.Action)
    requires Inv(y) && Happens(y, Pool(a))
    ensures Inv(Next(y, Pool(a)))
  {
    StepConserves(y.pools, a);
  }

  lemma NextKeepsInv(y: System, h: Happening)
    requires Inv(y) && Happens(y, h)
    ensures Inv(Next(y, h))
  {
    match h
    case Pool(a) => PoolKeepsInv(y, a);
    case Requested(_, _) =>
    case Confirmed(_) =>
    case TakeRow => RowKeepsInv(y);
  }

  /** In every interleaving of threads, callbacks and rows, each look into the saved
      job is a look into the job that runs just then. */
  lemma {:induction false} FollowedOnlyWhileRunning(y: System, hs: seq<Happening>)
    requires Inv(y) && AllHappen(y, hs)
    ensures Inv(Play(y, hs))
    ensures forall u <- Play(y, hs).uses :: u.saved.Some? && u.saved == u.running
    decreases |hs|
  {
    if hs != [] {
      NextKeepsInv(y, hs[0]);
      FollowedOnlyWhileRunning(Next(y, hs[0]), hs[1..]);
    }
  }

  /** All rows that are left. */
  function RowsTaken(y: System): System
    requires y.dispatcher.Pending?
  {
    var z := RowTaken(y);
    if z.dispatcher == Idle then z else RowTaken(z)
  }

  /** The reference stays behind: once the callback of a request has returned, the
      job it names is back in its pool, and another thread may take it. */
  lemma ReferenceOutlivesJob(y: System, read: bool, index: nat)
    requires Inv(y) && Happens(y, Requested(read, index))
    ensures
      var j := y.pools.running.value;
      var z := RowsTaken(Next(y, Requested(read, index)));
      && Happens(z, Pool(Finish)) && var f := Next(z, Pool(Finish));
      f.saved == Some(j) && j.id in Available(f.pools, j.kind) && !OnlyRuns(f.pools, j)
  {
    var z := RowsTaken(Next(y, Requested(read, index)));
    assert z.pools == y.pools && z.saved == y.pools.running;
    assert Next(z, Pool(Finish)).pools == Step(y.pools, Finish);
  }

  // --- The table and the service -----------------------------------------------------

  function StateOf(s: A.State): State {
    match s
    case OnReqIdle => OnReqIdle
    case AwaitParam => AwaitParam
    case AwaitIsdu => AwaitIsdu
  }

  /** The callback a confirmation of the data link layer raises its event from. */
  function EventOf(i: A.Input): Event {
    match i
    case Request(_) => Service
    case ReadParamCnf(_, _) => ReadParamCnf
    case WriteParamCnf(_) => WriteParamCnf
    case IsduCnf(_, _, _) => IsduCnf
  }

  function BuiltBy(i: A.Input): Event {
    if i.Request? then Built(i.client.read, i.client.index) else ArgErr
  }

  datatype Ask = CallBack | Read | Write | Transfer

  function Asks(a: Action): seq<Ask> {
    match a
    case Build => []
    case Busy => [CallBack]
    case SendCnf => [CallBack]
    case SendAbortCnf => []
    case ReadParam => [Read]
    case WriteParam => [Write]
    case NextParam => []
    case Transport => [Transfer]
  }

  function AsksAll(actions: seq<Action>): seq<Ask> {
    if actions == [] then [] else Asks(actions[0]) + AsksAll(actions[1..])
  }

  function Asked(o: A.Out): Ask {
    match o
    case ReadParam(_) => Read
    case WriteParam(_, _) => Write
    case Transport(_) => Transfer
    case Callback(_, _, _) => CallBack
  }

  lemma AsksOne(a: Action)
    ensures AsksAll([a]) == Asks(a) && AsksAll([Build, a]) == Asks(a)
  {
    assert [a][1..] == [] && [Build, a][1..] == [a];
  }

  lemma RequestServes(a: A.OnReq, c: A.Client)
    requires A.Inv(a) && A.Possible(a, A.Request(c))
    ensures
      var (next, actions) := Dispatch(StateOf(a.state), Service, Built(c.read, c.index));
      var (b, outs) := A.Serve(a, c);
      next == StateOf(b.state) && |outs| == 1 && AsksAll(actions) == [Asked(outs[0])]
  {
    var built := Built(c.read, c.index);
    DispatchUnfolds(StateOf(a.state), Service, built);
    AsksOne(if a.state == A.OnReqIdle then Table(BuildService, built).action else Busy);
  }

  /** The rows an input leads through are what the service specification says: the
      same new state, and the same service asked for. */
  lemma TableServes(a: A.OnReq, i: A.Input)
    requires A.Inv(a) && A.Possible(a, i)
    ensures
      var (next, actions) := Dispatch(StateOf(a.state), EventOf(i), BuiltBy(i));
      var (b, outs) := A.Apply(a, i);
      next == StateOf(b.state) && |outs| == 1 && AsksAll(actions) == [Asked(outs[0])]
  {
    if i.Request? {
      RequestServes(a, i.client);
    } else {
      AsksOne(SendCnf);
    }
  }

  /** The machine of a port: iolink_al_od_event and the two kinds of callbacks. */
  class Machine {
    var od: State
    var saved: Option<Job>

    constructor ()
      ensures od == OnReqIdle && saved == None
    {
      od, saved := OnReqIdle, None;
    }

    /** Takes rows until no action raises an event. */
    method Raise(e: Event, built: Event) returns (actions: seq<Action>)
      requires built != Service
      modifies this`od
      ensures (od, actions) == Dispatch(old(od), e, built)
    {
      DispatchUnfolds(od, e, built);
      actions := [];
      var event, more := e, true;
      while more
        invariant (event == e && actions == [] && od == old(od) && more) ||
                  (event == built && actions == [Build] && Table(old(od), e) == Row(od, Build) && more) ||
                  (!more && (od, actions) == Dispatch(old(od), e, built))
        decreases more, event == Service
      {
        var row := Table(od, event);
        assert [Build] + [] == [Build];
        assert row.Row? ==> [] + [row.action] == [row.action];
        if row == NoRow {
          break;
        }
        od, actions := row.next, actions + [row.action];
        event, more := built, row.action == Build;
      }
    }

    /** al_read_write_cb: the request's job is saved, then followed once. */
    method Requested(job: Job, read: bool, index: nat) returns (actions: seq<Action>)
      requires od != BuildService
      modifies this
      ensures saved == Some(job) && od != BuildService
      ensures (od, actions) == Dispatch(old(od), Service, Built(read, index))
      ensures Uses(actions, Use(saved, Some(job))) == [Use(Some(job), Some(job))]
    {
      saved := Some(job);
      RequestFollowsOnce(od, read, index, Use(saved, saved));
      actions := Raise(Service, Built(read, index));
    }
  }
}
