/**
 * Starting, superseding and shutting down the session transport. A start
 * suspends twice, while the registry is created and while the listener comes
 * up; other starts and shutdowns run in between. Each start is identified by
 * its generation number, which it compares again after every suspension.
 */
module SessionTransport {
  import opened Wrappers

  type Manager(==) = string
  type SessionId(==) = string

  /** Where a start operation is suspended, or how it ended. */
  datatype Pc =
    | AwaitRegistry
    | AwaitListen
    | AwaitClose
    | Live
    | Finished

  /**
   * One start operation and what it created: each resource is absent, or
   * present together with the number of times it was closed. `scheduled`
   * counts close bodies that were started and have not run yet.
   */
  datatype Op = Op(
    manager: Manager,
    sessionId: SessionId,
    pc: Pc,
    registry: Option<nat>,
    listener: Option<nat>,
    client: Option<nat>,
    closesRegistry: bool,
    closeCalled: bool,
    scheduled: nat)

  /** A promise a shutdown waits for: a whole start operation, or the close of the one it superseded. */
  datatype Task = Startup(op: nat) | Closing(op: nat)

  /** A shutdown first waits for the close of what was active, then until nothing is tracked. */
  datatype ShutdownPc = ClosingActive(op: nat) | Waiting | Returned

  datatype ShutdownOp = ShutdownOp(generation: nat, pc: ShutdownPc)

  /** The closure variables: the operations are numbered by their generation. */
  datatype State = State(
    generation: nat,
    active: Option<nat>,
    current: Option<Manager>,
    ops: map<nat, Op>,
    tracked: set<Task>,
    shutdowns: seq<ShutdownOp>)

  const START := State(0, None, None, map[], {}, [])

  /** The session id a start finds: usable, unusable, or the lookup throws. */
  datatype Lookup = Usable(id: SessionId) | Unusable | Throws

  datatype Step =
    | SetSession(current: Option<Manager>)
    | Start(manager: Manager, lookup: Lookup)
    | RegistryDone(op: nat, ok: bool, listenerOk: bool, clientOk: bool, closesRegistry: bool, idNow: Option<SessionId>)
    | ListenDone(op: nat, ok: bool, published: bool, idNow: Option<SessionId>)
    | CloseRuns(op: nat)
    | Untrack(task: Task)
    | Shutdown
    | ShutdownGoesOn(shutdown: nat)

  /** `closeStartupTransport` remembers its promise, so its body starts once. */
  function CallClose(op: Op): Op {
    if op.closeCalled then op else op.(closeCalled := true, scheduled := op.scheduled + 1)
  }

  /** The operation closes what it created and waits for that. */
  function GiveUp(op: Op): Op {
    var op' := CallClose(op);
    op'.(pc := if op'.scheduled == 0 then Finished else AwaitClose)
  }

  function ClosedMore(resource: Option<nat>, times: nat): Option<nat> {
    match resource
    case None => None
    case Some(n) => Some(n + times)
  }

  /** The close body: a listener may close the registry it was given itself. */
  function CloseBody(op: Op): Op
    requires op.scheduled > 0
  {
    var byListener := op.listener.Some? && op.closesRegistry;
    var direct := op.registry.Some? && !byListener;
    op.(scheduled := op.scheduled - 1,
    client := ClosedMore(op.client, 1),
    listener := ClosedMore(op.listener, 1),
    registry := ClosedMore(op.registry, (if byListener then 1 else 0) + (if direct then 1 else 0)),
    pc := if op.pc == AwaitClose then Finished else op.pc)
  }

  /** The check after every suspension. */
  predicate Stale(s: State, g: nat, op: Op) {
    s.current != Some(op.manager) || g != s.generation
  }

  /** The active transport, if any, is left behind and closed; what comes next has a later generation. */
  function Superseded(s: State): State {
    s.(generation := s.generation + 1, active := None,
    ops := match s.active
           case Some(p) => if p in s.ops then s.ops[p := CallClose(s.ops[p])] else s.ops
           case None => s.ops)
  }

  /** A start up to its first suspension. */
  function Begun(current: Option<Manager>, manager: Manager, lookup: Lookup): Op {
    var op := Op(manager, if lookup.Usable? then lookup.id else "", AwaitRegistry, None, None, None, false, false, 0);
    match lookup
    case Usable(_) => if current != Some(manager) then op.(pc := Finished) else op
    case Unusable => op.(pc := Finished)
    case Throws => GiveUp(op)
  }

  function Started(s: State, manager: Manager, lookup: Lookup): State {
    var s' := Superseded(s);
    s'.(ops := s'.ops[s'.generation := Begun(s.current, manager, lookup)],
    tracked := s.tracked + {Startup(s'.generation)} + if s.active.Some? then {Closing(s.active.value)} else {})
  }

  function ShutDown(s: State): State {
    var s' := Superseded(s);
    var pc := if s.active.Some? then ClosingActive(s.active.value) else Waiting;
    s'.(shutdowns := s.shutdowns + [ShutdownOp(s'.generation, pc)])
  }

  predicate AtRest(op: Op) { op.pc == Live || op.pc == Finished }

  /** The tracked promise has settled. */
  predicate IsSettled(s: State, task: Task) {
    task.op in s.ops && if task.Startup? then AtRest(s.ops[task.op]) else s.ops[task.op].scheduled == 0
  }

  function ShutdownNext(s: State, d: nat): State
    requires d < |s.shutdowns|
  {
    var op := s.shutdowns[d];
    match op.pc
    case ClosingActive(p) =>
      if p in s.ops && s.ops[p].scheduled == 0 then s.(shutdowns := s.shutdowns[d := op.(pc := Waiting)]) else s
    case Waiting => if s.tracked == {} then s.(shutdowns := s.shutdowns[d := op.(pc := Returned)]) else s
    case Returned => s
  }

  /** The registry is there, or could not be created. */
  function Resumed(s: State, g: nat, step: Step): State
    requires step.RegistryDone? && g in s.ops
  {
    var op := s.ops[g];
    var cleared := if s.active == Some(g) then None else s.active;
    if !step.ok then s.(active := cleared, ops := s.ops[g := GiveUp(op)])
    else
      var withRegistry := op.(registry := Some(0));
      if Stale(s, g, op) then s.(ops := s.ops[g := GiveUp(withRegistry)])
      else if !step.listenerOk then s.(active := cleared, ops := s.ops[g := GiveUp(withRegistry)])
      else
        var withListener := withRegistry.(listener := Some(0), closesRegistry := step.closesRegistry);
        if !step.clientOk then s.(active := cleared, ops := s.ops[g := GiveUp(withListener)])
        else
          var whole := withListener.(client := Some(0));
          if step.idNow != Some(op.sessionId) then s.(ops := s.ops[g := GiveUp(whole)])
          else s.(active := Some(g), ops := s.ops[g := whole.(pc := AwaitListen)])
  }

  /** The listener is up, or failed. */
  function Listening(s: State, g: nat, step: Step): State
    requires step.ListenDone? && g in s.ops
  {
    var op := s.ops[g];
    if step.ok && !Stale(s, g, op) && step.idNow == Some(op.sessionId) && step.published then
      s.(ops := s.ops[g := op.(pc := Live)])
    else
      s.(active := if s.active == Some(g) then None else s.active, ops := s.ops[g := GiveUp(op)])
  }

  /** One atomic step; a step that is not enabled changes nothing. */
  function Next(s: State, step: Step): State {
    match step
    case SetSession(current) => s.(current := current)
    case Start(manager, lookup) => Started(s, manager, lookup)
    case RegistryDone(g, _, _, _, _, _) =>
      if g in s.ops && s.ops[g].pc == AwaitRegistry then Resumed(s, g, step) else s
    case ListenDone(g, _, _, _) =>
      if g in s.ops && s.ops[g].pc == AwaitListen then Listening(s, g, step) else s
    case CloseRuns(g) =>
      if g in s.ops && s.ops[g].scheduled > 0 then s.(ops := s.ops[g := CloseBody(s.ops[g])]) else s
    case Untrack(task) => if task in s.tracked && IsSettled(s, task) then s.(tracked := s.tracked - {task}) else s
    case Shutdown => ShutDown(s)
    case ShutdownGoesOn(d) => if d < |s.shutdowns| then ShutdownNext(s, d) else s
  }

  function After(steps: seq<Step>): State {
    if steps == [] then START else Next(After(steps[..|steps| - 1]), steps[|steps| - 1])
  }

  // ---- The invariant ----

  /** A created resource was closed `n` times. */
  predicate Closed(resource: Option<nat>, n: nat) { resource.Some? ==> resource.value == n }

  predicate NothingCreated(op: Op) { op.registry.None? && op.listener.None? && op.client.None? }

  predicate AllCreated(op: Op) { op.registry.Some? && op.listener.Some? && op.client.Some? }

  /** Each resource has been closed exactly as often as the close body ran: at most once. */
  predicate Counted(op: Op) {
    && op.scheduled <= (if op.closeCalled then 1 else 0)
    && var n := if op.closeCalled then 1 - op.scheduled else 0;
       Closed(op.registry, n) && Closed(op.listener, n) && Closed(op.client, n)
  }

  predicate OpInv(s: State, g: nat, op: Op) {
    && g <= s.generation
    && Counted(op)
    && match op.pc
       case AwaitRegistry => NothingCreated(op) && !op.closeCalled && s.active != Some(g)
       case AwaitListen => AllCreated(op) && (op.closeCalled || s.active == Some(g))
       case AwaitClose => op.scheduled == 1 && s.active != Some(g)
       case Live => AllCreated(op) && (op.closeCalled || s.active == Some(g))
       case Finished => (op.closeCalled || NothingCreated(op)) && s.active != Some(g)
  }

  predicate Inv(s: State) {
    && (forall g :: g in s.ops ==> OpInv(s, g, s.ops[g]))
    && (s.active.Some? ==>
          && s.active.value == s.generation
          && s.active.value in s.ops
          && !s.ops[s.active.value].closeCalled)
  }

  /** A step that touches one operation keeps the invariant if it keeps it for that one. */
  lemma OnlyOneChanged(s: State, s': State, g: nat)
    requires Inv(s) && g in s.ops && g in s'.ops
    requires s'.generation == s.generation && s'.ops == s.ops[g := s'.ops[g]]
    requires OpInv(s', g, s'.ops[g])
    requires s'.active == s.active || (s'.active == None && s.active == Some(g)) || (s'.active == Some(g) && s.active == None)
    requires s'.active == Some(g) ==> g == s.generation && !s'.ops[g].closeCalled
    ensures Inv(s')
  {
    forall h | h in s'.ops ensures OpInv(s', h, s'.ops[h]) {
      if h != g { assert OpInv(s, h, s.ops[h]); }
    }
  }

  /** Giving up an operation that is not active any more. */
  lemma GiveUpKeepsInv(s: State, g: nat, op: Op, active: Option<nat>)
    requires Inv(s) && g in s.ops && g <= s.generation && Counted(op)
    requires active == if s.active == Some(g) then None else s.active
    ensures Inv(s.(active := active, ops := s.ops[g := GiveUp(op)]))
  {
    var s' := s.(active := active, ops := s.ops[g := GiveUp(op)]);
    assert OpInv(s', g, s'.ops[g]);
    OnlyOneChanged(s, s', g);
  }

  lemma ResumedKeepsInv(s: State, g: nat, step: Step)
    requires Inv(s) && g in s.ops && s.ops[g].pc == AwaitRegistry && step.RegistryDone?
    ensures Inv(Resumed(s, g, step))
  {
    hide GiveUp;
    var op := s.ops[g];
    assert OpInv(s, g, op);
    var withRegistry := op.(registry := Some(0));
    var withListener := withRegistry.(listener := Some(0), closesRegistry := step.closesRegistry);
    var whole := withListener.(client := Some(0));
    GiveUpKeepsInv(s, g, op, s.active);
    GiveUpKeepsInv(s, g, withRegistry, s.active);
    GiveUpKeepsInv(s, g, withListener, s.active);
    GiveUpKeepsInv(s, g, whole, s.active);
    if g == s.generation {
      assert s.active == None;
      var s' := s.(active := Some(g), ops := s.ops[g := whole.(pc := AwaitListen)]);
      OnlyOneChanged(s, s', g);
    }
  }

  lemma ListeningKeepsInv(s: State, g: nat, step: Step)
    requires Inv(s) && g in s.ops && s.ops[g].pc == AwaitListen && step.ListenDone?
    ensures Inv(Listening(s, g, step))
  {
    var op := s.ops[g];
    assert OpInv(s, g, op);
    GiveUpKeepsInv(s, g, op, if s.active == Some(g) then None else s.active);
    var s' := s.(ops := s.ops[g := op.(pc := Live)]);
    OnlyOneChanged(s, s', g);
  }

  lemma CloseKeepsInv(s: State, g: nat)
    requires Inv(s) && g in s.ops && s.ops[g].scheduled > 0
    ensures Inv(s.(ops := s.ops[g := CloseBody(s.ops[g])]))
  {
    assert OpInv(s, g, s.ops[g]);
    OnlyOneChanged(s, s.(ops := s.ops[g := CloseBody(s.ops[g])]), g);
  }

  /** Leaving the active transport behind, in a later generation, closes it. */
  lemma SupersededKeepsInv(s: State)
    requires Inv(s)
    ensures Inv(Superseded(s))
    ensures forall g :: g in Superseded(s).ops ==> g <= s.generation
  {
    var s' := Superseded(s);
    forall g | g in s'.ops ensures OpInv(s', g, s'.ops[g]) && g <= s.generation { assert OpInv(s, g, s.ops[g]); }
  }

  lemma StartedKeepsInv(s: State, manager: Manager, lookup: Lookup)
    requires Inv(s)
    ensures Inv(Started(s, manager, lookup))
  {
    var s', s'' := Superseded(s), Started(s, manager, lookup);
    SupersededKeepsInv(s);
    hide Superseded, CallClose;
    forall g | g in s''.ops ensures OpInv(s'', g, s''.ops[g]) {
      if g != s''.generation { assert OpInv(s', g, s'.ops[g]); }
    }
  }

  lemma SameOps(s: State, s': State)
    requires Inv(s) && s'.generation == s.generation && s'.active == s.active && s'.ops == s.ops
    ensures Inv(s')
  {
    forall g | g in s.ops ensures OpInv(s', g, s'.ops[g]) { assert OpInv(s, g, s.ops[g]); }
  }

  lemma StepKeepsInv(s: State, step: Step)
    requires Inv(s)
    ensures Inv(Next(s, step))
  {
    hide Resumed, Listening, Superseded, Started, CloseBody, IsSettled;
    match step
    case SetSession(_) => SameOps(s, Next(s, step));
    case Untrack(_) => SameOps(s, Next(s, step));
    case ShutdownGoesOn(_) => SameOps(s, Next(s, step));
    case Start(manager, lookup) => StartedKeepsInv(s, manager, lookup);
    case Shutdown =>
      SupersededKeepsInv(s);
      SameOps(Superseded(s), ShutDown(s));
    case RegistryDone(g, _, _, _, _, _) => if g in s.ops && s.ops[g].pc == AwaitRegistry { ResumedKeepsInv(s, g, step); }
    case ListenDone(g, _, _, _) => if g in s.ops && s.ops[g].pc == AwaitListen { ListeningKeepsInv(s, g, step); }
    case CloseRuns(g) => if g in s.ops && s.ops[g].scheduled > 0 { CloseKeepsInv(s, g); }
  }

  lemma {:induction false} RunKeepsInv(steps: seq<Step>)
    ensures Inv(After(steps))
  {
    if steps != [] {
      RunKeepsInv(steps[..|steps| - 1]);
      StepKeepsInv(After(steps[..|steps| - 1]), steps[|steps| - 1]);
    }
  }

  // ---- What follows ----

  /** Nothing is suspended and no close is under way. */
  predicate Quiescent(s: State) {
    forall g :: g in s.ops ==> AtRest(s.ops[g]) && s.ops[g].scheduled == 0
  }

  /** Over every interleaving: the active transport is current and open, and nothing is ever closed twice. */
  lemma ActiveIsCurrent(steps: seq<Step>)
    ensures var s := After(steps);
            && (s.active.Some? ==>
                  && s.active.value == s.generation && s.active.value in s.ops
                  && var op := s.ops[s.active.value];
                     op.registry == op.listener == op.client == Some(0))
            && (forall g :: g in s.ops ==>
                  var op := s.ops[g];
                  && (op.registry.Some? ==> op.registry.value <= 1)
                  && (op.listener.Some? ==> op.listener.value <= 1)
                  && (op.client.Some? ==> op.client.value <= 1))
  {
    RunKeepsInv(steps);
    var s := After(steps);
    forall g | g in s.ops ensures OpInv(s, g, s.ops[g]) {}
  }

  /**
   * Over every interleaving that comes to rest, each start that is not the
   * active transport has closed exactly once whatever it created.
   */
  lemma NothingLeaks(steps: seq<Step>, g: nat)
    requires Quiescent(After(steps)) && g in After(steps).ops && After(steps).active != Some(g)
    ensures var op := After(steps).ops[g];
            Closed(op.registry, 1) && Closed(op.listener, 1) && Closed(op.client, 1)
  {
    RunKeepsInv(steps);
    assert OpInv(After(steps), g, After(steps).ops[g]);
  }

  /** From a shutdown on, without a new start, no transport is active. */
  lemma {:induction false} NoneActiveAfterShutdown(before: seq<Step>, more: seq<Step>)
    requires forall k :: 0 <= k < |more| ==> !more[k].Start?
    ensures var s := After(before + [Shutdown] + more);
            s.active.None? && forall g :: g in s.ops ==> g < s.generation
  {
    var steps := before + [Shutdown] + more;
    var prefix := steps[..|steps| - 1];
    if more == [] {
      assert steps == before + [Shutdown] && prefix == before;
      RunKeepsInv(before);
      var s := After(before);
      forall g | g in After(steps).ops ensures g < After(steps).generation { assert OpInv(s, g, s.ops[g]); }
    } else {
      var n := |more| - 1;
      assert prefix == before + [Shutdown] + more[..n] && steps[|steps| - 1] == more[n];
      NoneActiveAfterShutdown(before, more[..n]);
    }
  }

  /** After a shutdown has come to rest, every resource of every start is closed, once. */
  lemma ShutdownClosesEverything(before: seq<Step>, more: seq<Step>, g: nat)
    requires forall k :: 0 <= k < |more| ==> !more[k].Start?
    requires Quiescent(After(before + [Shutdown] + more)) && g in After(before + [Shutdown] + more).ops
    ensures var op := After(before + [Shutdown] + more).ops[g];
            Closed(op.registry, 1) && Closed(op.listener, 1) && Closed(op.client, 1)
  {
    NoneActiveAfterShutdown(before, more);
    NothingLeaks(before + [Shutdown] + more, g);
  }

  // ---- Who may receive ----

  /** The listener callback of start `g` hands a message on; `idNow` is the session id at that moment. */
  predicate Receives(s: State, g: nat, idNow: Option<SessionId>) {
    && s.active == Some(g) && g in s.ops
    && s.current == Some(s.ops[g].manager)
    && idNow == Some(s.ops[g].sessionId)
  }

  /** At any moment at most the latest start receives, and after a shutdown none does. */
  lemma OnlyTheLatestReceives(steps: seq<Step>, g: nat, idNow: Option<SessionId>)
    requires Receives(After(steps), g, idNow)
    ensures g == After(steps).generation
    ensures forall before: seq<Step>, more: seq<Step> :: steps == before + [Shutdown] + more ==>
              exists k :: 0 <= k < |more| && more[k].Start?
  {
    RunKeepsInv(steps);
    forall before: seq<Step>, more: seq<Step> | steps == before + [Shutdown] + more
      ensures exists k :: 0 <= k < |more| && more[k].Start?
    {
      if forall k :: 0 <= k < |more| ==> !more[k].Start? { NoneActiveAfterShutdown(before, more); }
    }
  }
}
