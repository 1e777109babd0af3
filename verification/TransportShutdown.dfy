/**
 * What a shutdown of the session transport waits for. It closes the transport
 * that was active and then waits until no start and no superseded close is
 * tracked any more: this always comes to an end, and then nothing is left open.
 */
module TransportShutdown {
  import opened SessionTransport
  import opened Wrappers

  // ---- What is tracked ----

  /** Somebody who left operation `g` behind waits for its close body. */
  ghost predicate CloseIsAwaited(s: State, g: nat) {
    Closing(g) in s.tracked || exists d :: 0 <= d < |s.shutdowns| && s.shutdowns[d].pc == ClosingActive(g)
  }

  ghost predicate OpIsTracked(s: State, g: nat)
    requires g in s.ops
  {
    && (!AtRest(s.ops[g]) ==> Startup(g) in s.tracked)
    && (s.ops[g].scheduled > 0 ==> s.ops[g].pc == AwaitClose || CloseIsAwaited(s, g))
  }

  ghost predicate ShutdownInv(s: State, d: nat)
    requires d < |s.shutdowns|
  {
    && s.shutdowns[d].generation <= s.generation && s.shutdowns[d].generation !in s.ops
    && (s.shutdowns[d].pc.ClosingActive? ==> s.shutdowns[d].pc.op in s.ops)
  }

  ghost predicate Tracked(s: State) {
    && (forall g :: g in s.ops ==> OpIsTracked(s, g))
    && (forall t :: t in s.tracked ==> t.op in s.ops)
    && (forall d :: 0 <= d < |s.shutdowns| ==> ShutdownInv(s, d))
  }

  /** A step on one operation that leaves what is tracked alone. */
  lemma OpStepKeepsTracked(s: State, s': State, g: nat)
    requires Tracked(s) && g in s.ops && g in s'.ops
    requires s'.generation == s.generation && s'.tracked == s.tracked && s'.shutdowns == s.shutdowns
    requires s'.ops == s.ops[g := s'.ops[g]]
    requires !AtRest(s'.ops[g]) ==> !AtRest(s.ops[g])
    requires s'.ops[g].scheduled > 0 ==> s'.ops[g].pc == AwaitClose || (s.ops[g].scheduled > 0 && s.ops[g].pc != AwaitClose)
    ensures Tracked(s')
  {
    assert OpIsTracked(s, g);
    forall h | h in s'.ops
      ensures OpIsTracked(s', h)
    {
      assert OpIsTracked(s, h);
      assert CloseIsAwaited(s, h) ==> CloseIsAwaited(s', h);
    }
    forall d | 0 <= d < |s'.shutdowns| ensures ShutdownInv(s', d) { assert ShutdownInv(s, d); }
  }

  lemma ResumedKeepsTracked(s: State, g: nat, step: Step)
    requires Inv(s) && Tracked(s) && g in s.ops && s.ops[g].pc == AwaitRegistry && step.RegistryDone?
    ensures Tracked(Resumed(s, g, step))
  {
    hide Inv;
    OpStepKeepsTracked(s, Resumed(s, g, step), g);
  }

  lemma ListeningKeepsTracked(s: State, g: nat, step: Step)
    requires Inv(s) && Tracked(s) && g in s.ops && s.ops[g].pc == AwaitListen && step.ListenDone?
    ensures Tracked(Listening(s, g, step))
  {
    hide Inv;
    OpStepKeepsTracked(s, Listening(s, g, step), g);
  }

  /** Whoever leaves an active transport behind waits for its close. */
  lemma SupersededIsAwaited(s: State, s': State)
    requires Inv(s) && Tracked(s)
    requires s'.ops == Superseded(s).ops && s'.generation == s.generation + 1
    requires s.tracked <= s'.tracked && s.shutdowns <= s'.shutdowns
    requires s.active.Some? ==> CloseIsAwaited(s', s.active.value)
    ensures forall g :: g in s'.ops ==> g in s.ops && OpIsTracked(s', g)
  {
    forall g | g in s'.ops
      ensures g in s.ops && OpIsTracked(s', g)
    {
      assert OpIsTracked(s, g) && OpInv(s, g, s.ops[g]);
      assert forall d :: 0 <= d < |s.shutdowns| ==> s'.shutdowns[d] == s.shutdowns[d];
      assert CloseIsAwaited(s, g) ==> CloseIsAwaited(s', g);
    }
  }

  lemma StartedKeepsTracked(s: State, manager: Manager, lookup: Lookup)
    requires Inv(s) && Tracked(s)
    ensures Tracked(Started(s, manager, lookup))
  {
    var s'' := Started(s, manager, lookup);
    var n := s.generation + 1;
    var before := s''.(ops := Superseded(s).ops);
    assert s.active.Some? ==> Closing(s.active.value) in s''.tracked && s.active.value in s.ops;
    SupersededIsAwaited(s, before);
    SupersededKeepsInv(s);
    hide Inv;
    forall g | g in s''.ops
      ensures OpIsTracked(s'', g)
    {
      if g != n {
        assert OpIsTracked(before, g);
        assert CloseIsAwaited(before, g) ==> CloseIsAwaited(s'', g);
      }
    }
    forall d | 0 <= d < |s''.shutdowns| ensures ShutdownInv(s'', d) { assert ShutdownInv(s, d); }
    forall t | t in s''.tracked ensures t.op in s''.ops {}
  }

  lemma ShutDownKeepsTracked(s: State)
    requires Inv(s) && Tracked(s)
    ensures Tracked(ShutDown(s))
  {
    var s' := ShutDown(s);
    assert s'.shutdowns[|s.shutdowns|].pc == if s.active.Some? then ClosingActive(s.active.value) else Waiting;
    SupersededIsAwaited(s, s');
    SupersededKeepsInv(s);
    hide Inv;
    forall d | 0 <= d < |s'.shutdowns|
      ensures ShutdownInv(s', d)
    {
      if d < |s.shutdowns| { assert ShutdownInv(s, d) && s'.shutdowns[d] == s.shutdowns[d]; }
    }
    forall t | t in s'.tracked ensures t.op in s'.ops {}
  }

  lemma UntrackKeepsTracked(s: State, task: Task)
    requires Tracked(s) && task in s.tracked && IsSettled(s, task)
    ensures Tracked(s.(tracked := s.tracked - {task}))
  {
    var s' := s.(tracked := s.tracked - {task});
    forall g | g in s'.ops
      ensures OpIsTracked(s', g)
    {
      assert OpIsTracked(s, g);
      assert task != Closing(g) && CloseIsAwaited(s, g) ==> CloseIsAwaited(s', g);
    }
    forall d | 0 <= d < |s'.shutdowns| ensures ShutdownInv(s', d) { assert ShutdownInv(s, d); }
  }

  lemma ShutdownNextKeepsTracked(s: State, d: nat)
    requires Tracked(s) && d < |s.shutdowns|
    ensures Tracked(ShutdownNext(s, d))
  {
    var s' := ShutdownNext(s, d);
    forall g | g in s'.ops
      ensures OpIsTracked(s', g)
    {
      assert OpIsTracked(s, g);
      if s.ops[g].scheduled > 0 && s.ops[g].pc != AwaitClose && Closing(g) !in s.tracked {
        var e :| 0 <= e < |s.shutdowns| && s.shutdowns[e].pc == ClosingActive(g);
        assert s'.shutdowns[e].pc == ClosingActive(g);
      }
    }
    forall e | 0 <= e < |s'.shutdowns| ensures ShutdownInv(s', e) { assert ShutdownInv(s, e); }
  }

  lemma CloseKeepsTracked(s: State, g: nat)
    requires Tracked(s) && g in s.ops && s.ops[g].scheduled > 0 && s.ops[g].scheduled <= 1
    ensures Tracked(s.(ops := s.ops[g := CloseBody(s.ops[g])]))
  {
    OpStepKeepsTracked(s, s.(ops := s.ops[g := CloseBody(s.ops[g])]), g);
  }

  lemma SetSessionKeepsTracked(s: State, current: Option<Manager>)
    requires Tracked(s)
    ensures Tracked(s.(current := current))
  {
    var s' := s.(current := current);
    forall g | g in s'.ops
      ensures OpIsTracked(s', g)
    {
      assert OpIsTracked(s, g);
      assert CloseIsAwaited(s, g) ==> CloseIsAwaited(s', g);
    }
    forall d | 0 <= d < |s'.shutdowns| ensures ShutdownInv(s', d) { assert ShutdownInv(s, d); }
  }

  lemma StepKeepsTracked(s: State, step: Step)
    requires Inv(s) && Tracked(s)
    ensures Tracked(Next(s, step))
  {
    hide Tracked, Resumed, Listening, Superseded, Started, ShutDown, ShutdownNext, CloseBody, IsSettled;
    match step
    case SetSession(current) => SetSessionKeepsTracked(s, current);
    case Start(manager, lookup) => StartedKeepsTracked(s, manager, lookup);
    case RegistryDone(g, _, _, _, _, _) => if g in s.ops && s.ops[g].pc == AwaitRegistry { ResumedKeepsTracked(s, g, step); }
    case ListenDone(g, _, _, _) => if g in s.ops && s.ops[g].pc == AwaitListen { ListeningKeepsTracked(s, g, step); }
    case CloseRuns(g) =>
      if g in s.ops && s.ops[g].scheduled > 0 {
        assert OpInv(s, g, s.ops[g]);
        CloseKeepsTracked(s, g);
      }
    case Untrack(task) => if task in s.tracked && IsSettled(s, task) { UntrackKeepsTracked(s, task); }
    case Shutdown => ShutDownKeepsTracked(s);
    case ShutdownGoesOn(d) => if d < |s.shutdowns| { ShutdownNextKeepsTracked(s, d); }
  }

  lemma {:induction false} RunKeepsTracked(steps: seq<Step>)
    ensures Inv(After(steps)) && Tracked(After(steps))
  {
    RunKeepsInv(steps);
    if steps != [] {
      hide Inv, Tracked, Next;
      RunKeepsTracked(steps[..|steps| - 1]);
      StepKeepsTracked(After(steps[..|steps| - 1]), steps[|steps| - 1]);
    }
  }

  // ---- What a shutdown leaves behind ----

  /** The resources of `g` are closed, each once. */
  predicate AllClosed(s: State, g: nat)
    requires g in s.ops
  {
    Closed(s.ops[g].registry, 1) && Closed(s.ops[g].listener, 1) && Closed(s.ops[g].client, 1)
  }

  /**
   * When nothing is tracked any more, a shutdown returns, and then every start
   * has closed whatever it created, with two exceptions: the transport of a
   * start after this shutdown, and one that another shutdown is still closing.
   */
  lemma NothingOpenAtReturn(steps: seq<Step>, d: nat, g: nat)
    requires var s := After(steps); d < |s.shutdowns| && s.shutdowns[d].pc == Waiting && s.tracked == {} && g in s.ops
    ensures var s := After(steps);
            && Next(s, ShutdownGoesOn(d)).shutdowns[d].pc == Returned
            && AtRest(s.ops[g])
            && (|| AllClosed(s, g)
                || (s.active == Some(g) && g > s.shutdowns[d].generation)
                || exists e :: 0 <= e < |s.shutdowns| && e != d && s.shutdowns[e].pc == ClosingActive(g))
  {
    RunKeepsTracked(steps);
    var s := After(steps);
    assert OpIsTracked(s, g) && OpInv(s, g, s.ops[g]) && ShutdownInv(s, d);
  }

  // ---- The wait ends ----

  /** The steps that the start, close and shutdown operations take by themselves. */
  predicate IsInternal(step: Step) {
    step.RegistryDone? || step.ListenDone? || step.CloseRuns? || step.Untrack? || step.ShutdownGoesOn?
  }

  /** How many more steps an operation can take. */
  function Pending(op: Op): nat {
    op.scheduled + match op.pc
                   case AwaitRegistry => 4
                   case AwaitListen => 2
                   case AwaitClose => 0
                   case Live => 0
                   case Finished => 0
  }

  function PendingOf(s: State, g: nat): nat {
    (if g in s.ops then Pending(s.ops[g]) else 0)
    + (if Startup(g) in s.tracked then 1 else 0) + (if Closing(g) in s.tracked then 1 else 0)
  }

  /** The operations below `n`. */
  function PendingBelow(s: State, n: nat): nat {
    if n == 0 then 0 else PendingBelow(s, n - 1) + PendingOf(s, n - 1)
  }

  function PendingShutdowns(shutdowns: seq<ShutdownOp>): nat {
    if shutdowns == [] then 0
    else
      PendingShutdowns(shutdowns[..|shutdowns| - 1])
      + match shutdowns[|shutdowns| - 1].pc
        case ClosingActive(_) => 2
        case Waiting => 1
        case Returned => 0
  }

  function Remaining(s: State): nat { PendingBelow(s, s.generation + 1) + PendingShutdowns(s.shutdowns) }

  lemma {:induction false} OneOpLess(s: State, s': State, g: nat, n: nat)
    requires forall h :: h != g ==> PendingOf(s', h) == PendingOf(s, h)
    requires PendingOf(s', g) < PendingOf(s, g)
    ensures if g < n then PendingBelow(s', n) < PendingBelow(s, n) else PendingBelow(s', n) == PendingBelow(s, n)
  {
    hide PendingOf;
    if n > 0 { OneOpLess(s, s', g, n - 1); }
  }

  lemma {:induction false} SamePending(s: State, s': State, n: nat)
    requires s'.ops == s.ops && s'.tracked == s.tracked
    ensures PendingBelow(s', n) == PendingBelow(s, n)
  {
    if n > 0 { SamePending(s, s', n - 1); }
  }

  lemma {:induction false} OneShutdownLess(a: seq<ShutdownOp>, d: nat, op: ShutdownOp)
    requires d < |a| && ((a[d].pc.ClosingActive? && op.pc.Waiting?) || (a[d].pc.Waiting? && op.pc.Returned?))
    ensures PendingShutdowns(a[d := op]) < PendingShutdowns(a)
  {
    var n := |a| - 1;
    if d < n {
      assert a[d := op][..n] == a[..n][d := op];
      OneShutdownLess(a[..n], d, op);
    } else {
      assert a[d := op][..n] == a[..n];
    }
  }

  /** `s'` differs from `s` in operation `g` only, which is closer to rest. */
  ghost predicate OpIsCloser(s: State, s': State, g: nat) {
    && g in s.ops && s'.generation == s.generation && s'.tracked == s.tracked && s'.shutdowns == s.shutdowns
    && s'.ops.Keys == s.ops.Keys && (forall h :: h in s.ops && h != g ==> s'.ops[h] == s.ops[h])
    && Pending(s'.ops[g]) < Pending(s.ops[g])
  }

  lemma GivenUpIsCloser(op: Op)
    requires Counted(op) && (op.pc == AwaitRegistry || op.pc == AwaitListen)
    ensures Pending(GiveUp(op)) < Pending(op) && Pending(GiveUp(op)) <= 1
  {
  }

  lemma ResumedIsCloser(s: State, g: nat, step: Step)
    requires g in s.ops && OpInv(s, g, s.ops[g]) && s.ops[g].pc == AwaitRegistry && step.RegistryDone?
    ensures OpIsCloser(s, Resumed(s, g, step), g)
  {
    hide GiveUp;
    var op := s.ops[g];
    var withRegistry := op.(registry := Some(0));
    var withListener := withRegistry.(listener := Some(0), closesRegistry := step.closesRegistry);
    GivenUpIsCloser(op);
    GivenUpIsCloser(withRegistry);
    GivenUpIsCloser(withListener);
    GivenUpIsCloser(withListener.(client := Some(0)));
  }

  lemma ListeningIsCloser(s: State, g: nat, step: Step)
    requires g in s.ops && OpInv(s, g, s.ops[g]) && s.ops[g].pc == AwaitListen && step.ListenDone?
    ensures OpIsCloser(s, Listening(s, g, step), g)
  {
    hide GiveUp;
    GivenUpIsCloser(s.ops[g]);
  }

  /** A step of a start or close operation. */
  lemma OpStepComesCloser(s: State, step: Step)
    requires Inv(s) && (step.RegistryDone? || step.ListenDone? || step.CloseRuns?) && Next(s, step) != s
    ensures OpIsCloser(s, Next(s, step), step.op)
  {
    hide Resumed, Listening, OpIsCloser;
    assert step.op in s.ops;
    assert OpInv(s, step.op, s.ops[step.op]);
    if step.RegistryDone? { ResumedIsCloser(s, step.op, step); }
    if step.ListenDone? { ListeningIsCloser(s, step.op, step); }
    if step.CloseRuns? { ClosedIsCloser(s, step.op); }
  }

  lemma ClosedIsCloser(s: State, g: nat)
    requires g in s.ops && s.ops[g].scheduled > 0
    ensures OpIsCloser(s, s.(ops := s.ops[g := CloseBody(s.ops[g])]), g)
  {
  }

  lemma ComesCloser(s: State, step: Step)
    requires Inv(s) && Tracked(s) && IsInternal(step) && Next(s, step) != s
    ensures Remaining(Next(s, step)) < Remaining(s) && Next(s, step).generation == s.generation
  {
    hide Inv, PendingBelow, PendingShutdowns, CloseBody, Resumed, Listening, Pending, OpIsTracked, ShutdownInv;
    var s' := Next(s, step);
    if step.Untrack? {
      OpsAreNumbered(s, step.task.op);
      OneOpLess(s, s', step.task.op, s.generation + 1);
    } else if step.ShutdownGoesOn? {
      SamePending(s, s', s.generation + 1);
      OneShutdownLess(s.shutdowns, step.shutdown, s'.shutdowns[step.shutdown]);
    } else {
      OpStepComesCloser(s, step);
      OpsAreNumbered(s, step.op);
      OneOpLess(s, s', step.op, s.generation + 1);
    }
  }

  lemma OpsAreNumbered(s: State, g: nat)
    requires Inv(s) && g in s.ops
    ensures g <= s.generation
  {
    assert OpInv(s, g, s.ops[g]);
  }

  /** While anything remains, something can go on. */
  lemma SomethingGoesOn(s: State) returns (step: Step)
    requires Inv(s) && Tracked(s) && Remaining(s) > 0
    ensures IsInternal(step) && Next(s, step) != s
  {
    hide Inv, Tracked;
    if g :| g in s.ops && Pending(s.ops[g]) > 0 {
      step := OpGoesOn(s, g);
    } else if task :| task in s.tracked {
      TaskIsSettled(s, task);
      step := Untrack(task);
      assert task !in Next(s, step).tracked;
    } else {
      NothingPends(s, s.generation + 1);
      var d := AShutdownPends(s.shutdowns);
      ClosingIsOver(s, d);
      step := ShutdownGoesOn(d);
      assert Next(s, step).shutdowns[d].pc != s.shutdowns[d].pc;
    }
  }

  /** An operation that is not at rest has an enabled step. */
  lemma OpGoesOn(s: State, g: nat) returns (step: Step)
    requires g in s.ops && Pending(s.ops[g]) > 0
    ensures IsInternal(step) && Next(s, step) != s
  {
    var op := s.ops[g];
    if op.scheduled > 0 {
      step := CloseRuns(g);
    } else if op.pc == AwaitRegistry {
      step := RegistryDone(g, false, false, false, false, None);
    } else {
      step := ListenDone(g, false, false, None);
    }
    assert Next(s, step).ops[g] != op;
  }

  lemma TaskIsSettled(s: State, task: Task)
    requires Tracked(s) && task in s.tracked && Inv(s) && forall g :: g in s.ops ==> Pending(s.ops[g]) == 0
    ensures IsSettled(s, task)
  {
    assert OpInv(s, task.op, s.ops[task.op]);
  }

  lemma {:induction false} NothingPends(s: State, n: nat)
    requires s.tracked == {} && forall g :: g in s.ops ==> Pending(s.ops[g]) == 0
    ensures PendingBelow(s, n) == 0
  {
    if n > 0 { NothingPends(s, n - 1); }
  }

  lemma {:induction false} AShutdownPends(shutdowns: seq<ShutdownOp>) returns (d: nat)
    requires PendingShutdowns(shutdowns) > 0
    ensures d < |shutdowns| && shutdowns[d].pc != Returned
  {
    if shutdowns[|shutdowns| - 1].pc != Returned {
      d := |shutdowns| - 1;
    } else {
      d := AShutdownPends(shutdowns[..|shutdowns| - 1]);
    }
  }

  lemma ClosingIsOver(s: State, d: nat)
    requires Tracked(s) && d < |s.shutdowns| && forall g :: g in s.ops ==> Pending(s.ops[g]) == 0
    ensures s.shutdowns[d].pc.ClosingActive? ==> s.shutdowns[d].pc.op in s.ops && s.ops[s.shutdowns[d].pc.op].scheduled == 0
  {
    assert ShutdownInv(s, d);
  }

  /** When nothing remains, all is at rest and every shutdown has returned. */
  lemma {:induction false} NothingRemains(s: State)
    requires Inv(s) && Tracked(s) && Remaining(s) == 0
    ensures Quiescent(s) && s.tracked == {} && forall d :: 0 <= d < |s.shutdowns| ==> s.shutdowns[d].pc == Returned
  {
    forall g | g in s.ops
      ensures Pending(s.ops[g]) == 0
    {
      OpsAreNumbered(s, g);
      PartIsLess(s, g, s.generation + 1);
    }
    forall g | g in s.ops ensures AtRest(s.ops[g]) && s.ops[g].scheduled == 0 { assert OpInv(s, g, s.ops[g]); }
    if task :| task in s.tracked {
      OpsAreNumbered(s, task.op);
      PartIsLess(s, task.op, s.generation + 1);
    }
    forall d | 0 <= d < |s.shutdowns| ensures s.shutdowns[d].pc == Returned {
      if s.shutdowns[d].pc != Returned { ShutdownIsLess(s.shutdowns, d); }
    }
  }

  lemma {:induction false} PartIsLess(s: State, g: nat, n: nat)
    requires g < n
    ensures PendingOf(s, g) <= PendingBelow(s, n)
  {
    if g < n - 1 { PartIsLess(s, g, n - 1); }
  }

  lemma {:induction false} ShutdownIsLess(shutdowns: seq<ShutdownOp>, d: nat)
    requires d < |shutdowns| && shutdowns[d].pc != Returned
    ensures PendingShutdowns(shutdowns) > 0
  {
    if d < |shutdowns| - 1 { ShutdownIsLess(shutdowns[..|shutdowns| - 1], d); }
  }

  function AfterFrom(s: State, steps: seq<Step>): State {
    if steps == [] then s else Next(AfterFrom(s, steps[..|steps| - 1]), steps[|steps| - 1])
  }

  /** Each of these steps does something, and the operations take it by themselves. */
  predicate AllWork(s: State, steps: seq<Step>) {
    forall k :: 0 <= k < |steps| ==>
                  IsInternal(steps[k]) && Next(AfterFrom(s, steps[..k]), steps[k]) != AfterFrom(s, steps[..k])
  }

  /**
   * The wait of every shutdown ends: without new starts and shutdowns only so
   * many steps can follow, one can always follow while a shutdown has not
   * returned, and when none can, all is at rest.
   */
  lemma {:induction false} WaitEnds(s: State, steps: seq<Step>)
    requires Inv(s) && Tracked(s) && AllWork(s, steps)
    ensures Inv(AfterFrom(s, steps)) && Tracked(AfterFrom(s, steps))
    ensures |steps| + Remaining(AfterFrom(s, steps)) <= Remaining(s)
    ensures (exists step :: IsInternal(step) && Next(AfterFrom(s, steps), step) != AfterFrom(s, steps)) <==>
            Remaining(AfterFrom(s, steps)) > 0
    ensures Remaining(AfterFrom(s, steps)) == 0 ==>
              Quiescent(AfterFrom(s, steps))
              && forall d :: 0 <= d < |AfterFrom(s, steps).shutdowns| ==> AfterFrom(s, steps).shutdowns[d].pc == Returned
  {
    hide Inv, Tracked, Next, Remaining, Quiescent, IsInternal;
    var after := AfterFrom(s, steps);
    if steps != [] {
      var n := |steps| - 1;
      var before := AfterFrom(s, steps[..n]);
      assert AllWork(s, steps[..n]) by {
        forall k | 0 <= k < n ensures steps[..n][..k] == steps[..k] && steps[..n][k] == steps[k] {}
      }
      WaitEnds(s, steps[..n]);
      StepKeepsInv(before, steps[n]);
      StepKeepsTracked(before, steps[n]);
      ComesCloser(before, steps[n]);
    }
    if Remaining(after) > 0 { var step := SomethingGoesOn(after); } else { NothingRemains(after); }
    forall step | IsInternal(step) && Next(after, step) != after
      ensures Remaining(after) > 0
    {
      ComesCloser(after, step);
    }
  }
}
