/**
 * What becomes of every start of the session transport, told from the events
 * alone: which starts begin, which become the active transport, which of them
 * serve, what each has created, and who may receive.
 */
module TransportHistory {
  import opened SessionTransport
  import opened Wrappers

  // ---- Read off the events ----

  /** Starts and shutdowns, which number the generations. */
  function Generations(steps: seq<Step>): nat {
    if steps == [] then 0
    else
      var last := steps[|steps| - 1];
      Generations(steps[..|steps| - 1]) + if last.Start? || last.Shutdown? then 1 else 0
  }

  /** The session that was set last. */
  function CurrentSession(steps: seq<Step>): Option<Manager> {
    if steps == [] then None
    else
      var last := steps[|steps| - 1];
      if last.SetSession? then last.current else CurrentSession(steps[..|steps| - 1])
  }

  /** Where the start of generation `g` is. */
  function StartAt(steps: seq<Step>, g: nat): (r: Option<nat>)
    ensures r.Some? ==> r.value < |steps| && steps[r.value].Start? && Generations(steps[..r.value]) + 1 == g
  {
    if steps == [] then None
    else
      var n := |steps| - 1;
      var r := StartAt(steps[..n], g);
      if r.Some? then
        assert steps[..n][..r.value] == steps[..r.value];
        r
      else if steps[n].Start? && Generations(steps[..n]) + 1 == g then Some(n)
      else None
  }

  /** The first answer of the registry to that start. */
  function RegistryAt(steps: seq<Step>, g: nat): (r: Option<nat>)
    ensures r.Some? ==> StartAt(steps, g).Some? && StartAt(steps, g).value < r.value < |steps|
                        && steps[r.value].RegistryDone? && steps[r.value].op == g
    ensures StartAt(steps, g).Some? ==>
              forall k :: StartAt(steps, g).value < k < (if r.Some? then r.value else |steps|) ==>
                            !(steps[k].RegistryDone? && steps[k].op == g)
  {
    if steps == [] then None
    else
      var n := |steps| - 1;
      if RegistryAt(steps[..n], g).Some? then RegistryAt(steps[..n], g)
      else if StartAt(steps[..n], g).Some? && steps[n].RegistryDone? && steps[n].op == g then Some(n)
      else None
  }

  /** The first answer of its listener after that. */
  function ListenAt(steps: seq<Step>, g: nat): (r: Option<nat>)
    ensures r.Some? ==> RegistryAt(steps, g).Some? && RegistryAt(steps, g).value < r.value < |steps|
                        && steps[r.value].ListenDone? && steps[r.value].op == g
    ensures RegistryAt(steps, g).Some? ==>
              forall k :: RegistryAt(steps, g).value < k < (if r.Some? then r.value else |steps|) ==>
                            !(steps[k].ListenDone? && steps[k].op == g)
  {
    if steps == [] then None
    else
      var n := |steps| - 1;
      if ListenAt(steps[..n], g).Some? then ListenAt(steps[..n], g)
      else if RegistryAt(steps[..n], g).Some? && steps[n].ListenDone? && steps[n].op == g then Some(n)
      else None
  }

  /** When step `k` is due, start `g` is the latest and its session is the current one. */
  predicate IsFresh(steps: seq<Step>, k: nat, g: nat, manager: Manager)
    requires k <= |steps|
  {
    Generations(steps[..k]) == g && CurrentSession(steps[..k]) == Some(manager)
  }

  /** The registry, the listener and the client are created, and the session still has its id. */
  predicate Registers(steps: seq<Step>, k: nat, g: nat, manager: Manager, id: SessionId)
    requires k < |steps| && steps[k].RegistryDone?
  {
    var step := steps[k];
    IsFresh(steps, k, g, manager) && step.ok && step.listenerOk && step.clientOk && step.idNow == Some(id)
  }

  /** The listener is up and published, and the session still has its id. */
  predicate Listens(steps: seq<Step>, k: nat, g: nat, manager: Manager, id: SessionId)
    requires k < |steps| && steps[k].ListenDone?
  {
    IsFresh(steps, k, g, manager) && steps[k] == ListenDone(g, true, true, Some(id))
  }

  datatype Fate =
    | NeverBegun        // no usable session id, or another session is current
    | LookupThrew
    | AwaitingRegistry
    | GaveUpEarly       // before it became the active transport
    | AwaitingListener
    | GaveUpLate
    | Serving

  function FateOf(steps: seq<Step>, g: nat): Fate
    requires StartAt(steps, g).Some?
  {
    var k := StartAt(steps, g).value;
    var manager, lookup := steps[k].manager, steps[k].lookup;
    if lookup.Throws? then LookupThrew
    else if lookup.Unusable? || CurrentSession(steps[..k]) != Some(manager) then NeverBegun
    else if RegistryAt(steps, g).None? then AwaitingRegistry
    else if !Registers(steps, RegistryAt(steps, g).value, g, manager, lookup.id) then GaveUpEarly
    else if ListenAt(steps, g).None? then AwaitingListener
    else if Listens(steps, ListenAt(steps, g).value, g, manager, lookup.id) then Serving
    else GaveUpLate
  }

  // ---- What the state says ----

  predicate GivenUp(op: Op) { op.closeCalled && op.pc == if op.scheduled > 0 then AwaitClose else Finished }

  /** Whatever could be created in turn before the start gave up. */
  predicate CreatedBy(op: Op, step: Step, latest: bool)
    requires step.RegistryDone?
  {
    && (op.registry.Some? <==> step.ok)
    && (op.listener.Some? <==> step.ok && latest && step.listenerOk)
    && (op.client.Some? <==> step.ok && latest && step.listenerOk && step.clientOk)
  }

  predicate Published(fate: Fate) { fate == AwaitingListener || fate == Serving }

  /** The operation is where its fate has brought it. */
  predicate Fits(steps: seq<Step>, g: nat, op: Op)
    requires StartAt(steps, g).Some?
  {
    var start := steps[StartAt(steps, g).value];
    && op.manager == start.manager && (start.lookup.Usable? ==> op.sessionId == start.lookup.id)
    && match FateOf(steps, g)
       case NeverBegun => op.pc == Finished && NothingCreated(op) && !op.closeCalled
       case LookupThrew => GivenUp(op) && NothingCreated(op)
       case AwaitingRegistry => op.pc == AwaitRegistry && NothingCreated(op) && !op.closeCalled
       case GaveUpEarly =>
         var r := RegistryAt(steps, g).value;
         GivenUp(op) && CreatedBy(op, steps[r], IsFresh(steps, r, g, op.manager))
       case AwaitingListener => op.pc == AwaitListen && AllCreated(op) && (op.closeCalled <==> g != Generations(steps))
       case GaveUpLate => GivenUp(op) && AllCreated(op)
       case Serving => op.pc == Live && AllCreated(op) && (op.closeCalled <==> g != Generations(steps))
  }

  predicate IsTold(steps: seq<Step>, s: State, g: nat) {
    && (g in s.ops <==> StartAt(steps, g).Some?)
    && (g in s.ops ==> Fits(steps, g, s.ops[g]))
    && (s.active == Some(g) <==>
          StartAt(steps, g).Some? && Published(FateOf(steps, g)) && g == Generations(steps))
  }

  /** The closure variables are what the events make them. */
  ghost predicate Told(steps: seq<Step>, s: State) {
    && s.generation == Generations(steps) && s.current == CurrentSession(steps)
    && forall g: nat :: IsTold(steps, s, g)
  }

  // ---- One step further ----

  lemma OneMore(steps: seq<Step>, e: Step, g: nat)
    ensures var more := steps + [e];
            && Generations(more) == Generations(steps) + (if e.Start? || e.Shutdown? then 1 else 0)
            && CurrentSession(more) == (if e.SetSession? then e.current else CurrentSession(steps))
            && StartAt(more, g) == (if StartAt(steps, g).Some? then StartAt(steps, g)
                                    else if e.Start? && Generations(steps) + 1 == g then Some(|steps|) else None)
            && RegistryAt(more, g) == (if RegistryAt(steps, g).Some? then RegistryAt(steps, g)
                                       else if StartAt(steps, g).Some? && e.RegistryDone? && e.op == g then Some(|steps|) else None)
            && ListenAt(more, g) == (if ListenAt(steps, g).Some? then ListenAt(steps, g)
                                     else if RegistryAt(steps, g).Some? && e.ListenDone? && e.op == g then Some(|steps|) else None)
  {
    assert (steps + [e])[..|steps|] == steps;
  }

  lemma PrefixStays(steps: seq<Step>, e: Step, k: nat, g: nat, manager: Manager, id: SessionId)
    requires k < |steps|
    ensures (steps + [e])[..k] == steps[..k] && (steps + [e])[k] == steps[k]
    ensures IsFresh(steps + [e], k, g, manager) <==> IsFresh(steps, k, g, manager)
    ensures steps[k].RegistryDone? ==> (Registers(steps + [e], k, g, manager, id) <==> Registers(steps, k, g, manager, id))
    ensures steps[k].ListenDone? ==> (Listens(steps + [e], k, g, manager, id) <==> Listens(steps, k, g, manager, id))
  {
    assert (steps + [e])[..k] == steps[..k];
  }

  /** The answer start `g` waits for. */
  predicate Decides(e: Step, g: nat, fate: Fate) {
    (fate == AwaitingRegistry && e.RegistryDone? && e.op == g) || (fate == AwaitingListener && e.ListenDone? && e.op == g)
  }

  /** Only the answer it waits for changes the fate of a start. */
  lemma FateStays(steps: seq<Step>, e: Step, g: nat)
    requires StartAt(steps, g).Some? && !Decides(e, g, FateOf(steps, g))
    ensures StartAt(steps + [e], g) == StartAt(steps, g) && FateOf(steps + [e], g) == FateOf(steps, g)
    ensures FateOf(steps, g) == GaveUpEarly ==> RegistryAt(steps, g).Some? && RegistryAt(steps + [e], g) == RegistryAt(steps, g)
  {
    hide Generations, CurrentSession, StartAt, RegistryAt, ListenAt, Registers, Listens, IsFresh;
    OneMore(steps, e, g);
    var k := StartAt(steps, g).value;
    PrefixStays(steps, e, k, g, steps[k].manager, "");
    if steps[k].lookup.Usable? {
      var id := steps[k].lookup.id;
      if RegistryAt(steps, g).Some? { PrefixStays(steps, e, RegistryAt(steps, g).value, g, steps[k].manager, id); }
      if ListenAt(steps, g).Some? { PrefixStays(steps, e, ListenAt(steps, g).value, g, steps[k].manager, id); }
    }
  }

  /** An operation that the step leaves in its place. */
  lemma StillFits(steps: seq<Step>, e: Step, g: nat, op: Op, op': Op)
    requires StartAt(steps, g).Some? && Fits(steps, g, op) && !Decides(e, g, FateOf(steps, g))
    requires op'.manager == op.manager && op'.sessionId == op.sessionId
    requires op'.registry.Some? == op.registry.Some? && op'.listener.Some? == op.listener.Some? && op'.client.Some? == op.client.Some?
    requires if op.pc == AwaitClose then op'.pc == (if op'.scheduled > 0 then AwaitClose else Finished) else op'.pc == op.pc
    requires op.pc == Finished ==> op' == op
    requires op'.closeCalled == (op.closeCalled || (Published(FateOf(steps, g)) && g != Generations(steps + [e])))
    requires g == Generations(steps) || g < Generations(steps) <= Generations(steps + [e])
    ensures Fits(steps + [e], g, op')
  {
    hide Generations, CurrentSession, StartAt, RegistryAt, ListenAt, FateOf;
    FateStays(steps, e, g);
    if FateOf(steps, g) == GaveUpEarly { PrefixStays(steps, e, RegistryAt(steps, g).value, g, op.manager, ""); }
    PrefixStays(steps, e, StartAt(steps, g).value, g, op.manager, "");
  }

  /** A step that starts nothing leaves an operation it does not touch as it was. */
  lemma OneStays(steps: seq<Step>, s: State, e: Step, s': State, g: nat)
    requires IsTold(steps, s, g) && Inv(s) && s.generation == Generations(steps) && !e.Start? && !e.Shutdown?
    requires g in s.ops ==> !Decides(e, g, FateOf(steps, g)) && g in s'.ops && s'.ops[g] == s.ops[g]
    requires g !in s.ops ==> g !in s'.ops
    requires s'.active == Some(g) <==> s.active == Some(g)
    ensures IsTold(steps + [e], s', g)
  {
    hide Generations, CurrentSession, StartAt, RegistryAt, ListenAt, FateOf;
    OneMore(steps, e, g);
    if g in s.ops {
      assert OpInv(s, g, s.ops[g]);
      FateStays(steps, e, g);
      StillFits(steps, e, g, s.ops[g], s.ops[g]);
    }
  }

  /** All operations but `g` are as they were. */
  lemma OthersStay(steps: seq<Step>, s: State, e: Step, s': State, g: nat)
    requires Told(steps, s) && Inv(s) && !e.Start? && !e.Shutdown?
    requires e.RegistryDone? || e.ListenDone? ==> e.op == g
    requires s'.generation == s.generation && s'.current == CurrentSession(steps + [e])
    requires s'.ops.Keys == s.ops.Keys && forall h :: h in s.ops && h != g ==> s'.ops[h] == s.ops[h]
    requires forall h: nat :: h != g ==> (s'.active == Some(h) <==> s.active == Some(h))
    requires IsTold(steps + [e], s', g)
    ensures Told(steps + [e], s')
  {
    hide Generations, CurrentSession, IsTold, FateOf, Inv;
    forall h: nat
      ensures IsTold(steps + [e], s', h)
    {
      assert IsTold(steps, s, h);
      if h != g { OneStays(steps, s, e, s', h); }
    }
    OneMore(steps, e, g);
  }

  // ---- Every step ----

  lemma RegistryIsTold(steps: seq<Step>, s: State, e: Step)
    requires Told(steps, s) && Inv(s) && e.RegistryDone?
    ensures Told(steps + [e], Next(s, e))
  {
    hide Told, Inv, Generations, CurrentSession, StartAt, RegistryAt, ListenAt, Fits;
    var g := e.op;
    RegistryTold(steps, s, e);
    ToldFacts(steps, s, g);
    OneMore(steps, e, g);
    OthersStay(steps, s, e, Next(s, e), g);
  }

  lemma ToldFacts(steps: seq<Step>, s: State, g: nat)
    requires Told(steps, s) && Inv(s)
    ensures s.generation == Generations(steps) && s.current == CurrentSession(steps) && IsTold(steps, s, g)
    ensures g in s.ops ==> OpInv(s, g, s.ops[g])
    ensures s.active.Some? ==> s.active.value == s.generation
  {
  }

  lemma RegistryTold(steps: seq<Step>, s: State, e: Step)
    requires Told(steps, s) && Inv(s) && e.RegistryDone?
    ensures IsTold(steps + [e], Next(s, e), e.op)
  {
    hide Told, Inv, Generations, CurrentSession, StartAt, RegistryAt, ListenAt;
    var g := e.op;
    ToldFacts(steps, s, g);
    OneMore(steps, e, g);
    if g in s.ops && FateOf(steps, g) == AwaitingRegistry {
      var start := StartAt(steps, g).value;
      PrefixStays(steps, e, start, g, s.ops[g].manager, "");
      assert (steps + [e])[..|steps|] == steps;
    } else if g in s.ops {
      OneStays(steps, s, e, s, g);
    }
  }

  lemma ListenTold(steps: seq<Step>, s: State, e: Step)
    requires Told(steps, s) && Inv(s) && e.ListenDone?
    ensures IsTold(steps + [e], Next(s, e), e.op)
  {
    hide Told, Inv, Generations, CurrentSession, StartAt, RegistryAt, ListenAt;
    var g := e.op;
    ToldFacts(steps, s, g);
    OneMore(steps, e, g);
    if g in s.ops && FateOf(steps, g) == AwaitingListener {
      var start := StartAt(steps, g).value;
      PrefixStays(steps, e, start, g, s.ops[g].manager, "");
      PrefixStays(steps, e, RegistryAt(steps, g).value, g, s.ops[g].manager, s.ops[g].sessionId);
      assert (steps + [e])[..|steps|] == steps;
    } else if g in s.ops {
      OneStays(steps, s, e, s, g);
    }
  }

  lemma ListenIsTold(steps: seq<Step>, s: State, e: Step)
    requires Told(steps, s) && Inv(s) && e.ListenDone?
    ensures Told(steps + [e], Next(s, e))
  {
    hide Told, Inv, Generations, CurrentSession, StartAt, RegistryAt, ListenAt, Fits;
    var g := e.op;
    ListenTold(steps, s, e);
    ToldFacts(steps, s, g);
    OneMore(steps, e, g);
    OthersStay(steps, s, e, Next(s, e), g);
  }

  lemma CloseIsTold(steps: seq<Step>, s: State, e: Step)
    requires Told(steps, s) && Inv(s) && e.CloseRuns?
    ensures Told(steps + [e], Next(s, e))
  {
    hide Told, Inv, Generations, CurrentSession, StartAt, RegistryAt, ListenAt, FateOf;
    var g := e.op;
    ToldFacts(steps, s, g);
    OneMore(steps, e, g);
    if g in s.ops && s.ops[g].scheduled > 0 {
      FateStays(steps, e, g);
      StillFits(steps, e, g, s.ops[g], CloseBody(s.ops[g]));
    } else {
      OneStays(steps, s, e, s, g);
    }
    OthersStay(steps, s, e, Next(s, e), g);
  }

  /** Setting the session and bookkeeping leave the operations alone. */
  lemma OtherStepIsTold(steps: seq<Step>, s: State, e: Step)
    requires Told(steps, s) && Inv(s) && (e.SetSession? || e.Untrack? || e.ShutdownGoesOn?)
    ensures Told(steps + [e], Next(s, e))
  {
    hide Told, Inv, Generations, CurrentSession, StartAt, RegistryAt, ListenAt, FateOf, IsTold;
    var s' := Next(s, e);
    ToldFacts(steps, s, 0);
    OneMore(steps, e, 0);
    OneStays(steps, s, e, s', 0);
    OthersStay(steps, s, e, s', 0);
  }

  /** What was active is closed by the next generation. */
  lemma SupersededIsTold(steps: seq<Step>, s: State, e: Step, s': State, g: nat)
    requires Told(steps, s) && Inv(s) && (e.Start? || e.Shutdown?)
    requires g != s.generation + 1 || e.Shutdown?
    requires s'.active == None && (g in s'.ops <==> g in Superseded(s).ops)
    requires g in s'.ops ==> s'.ops[g] == Superseded(s).ops[g]
    ensures IsTold(steps + [e], s', g)
  {
    hide Told, Inv, Generations, CurrentSession, StartAt, RegistryAt, ListenAt, FateOf;
    ToldFacts(steps, s, g);
    OneMore(steps, e, g);
    if g in s.ops {
      FateStays(steps, e, g);
      StillFits(steps, e, g, s.ops[g], s'.ops[g]);
    }
  }

  lemma BegunFits(steps: seq<Step>, e: Step, g: nat)
    requires e.Start? && g == Generations(steps) + 1 && StartAt(steps, g).None?
    ensures StartAt(steps + [e], g).Some? && !Published(FateOf(steps + [e], g))
    ensures Fits(steps + [e], g, Begun(CurrentSession(steps), e.manager, e.lookup))
  {
    hide Generations, CurrentSession, StartAt, RegistryAt, ListenAt;
    OneMore(steps, e, g);
    assert (steps + [e])[..|steps|] == steps;
  }

  lemma NewStartFits(steps: seq<Step>, s: State, e: Step)
    requires Told(steps, s) && Inv(s) && e.Start?
    ensures IsTold(steps + [e], Next(s, e), s.generation + 1)
  {
    hide Told, Inv, Generations, CurrentSession, StartAt, RegistryAt, ListenAt, FateOf, Fits, Begun, Published;
    var g := s.generation + 1;
    ToldFacts(steps, s, g);
    NotYetBegun(s);
    BegunFits(steps, e, g);
  }

  lemma NotYetBegun(s: State)
    requires Inv(s)
    ensures s.generation + 1 !in s.ops
  {
    forall g | g in s.ops ensures g <= s.generation { assert OpInv(s, g, s.ops[g]); }
  }

  lemma NewGenerationIsTold(steps: seq<Step>, s: State, e: Step)
    requires Told(steps, s) && Inv(s) && (e.Start? || e.Shutdown?)
    ensures Told(steps + [e], Next(s, e))
  {
    hide Told, Inv, Generations, CurrentSession, StartAt, RegistryAt, ListenAt, FateOf, IsTold;
    var s' := Next(s, e);
    assert Told(steps + [e], s') by {
      forall g: nat
        ensures IsTold(steps + [e], s', g)
      {
        if e.Start? && g == s.generation + 1 { NewStartFits(steps, s, e); } else { SupersededIsTold(steps, s, e, s', g); }
      }
      ToldFacts(steps, s, 0);
      OneMore(steps, e, 0);
      AllTold(steps + [e], s');
    }
  }

  lemma AllTold(steps: seq<Step>, s: State)
    requires s.generation == Generations(steps) && s.current == CurrentSession(steps)
    requires forall g: nat :: IsTold(steps, s, g)
    ensures Told(steps, s)
  {
  }

  lemma {:induction false} RunIsTold(steps: seq<Step>)
    ensures Told(steps, After(steps))
  {
    hide Told, Next, IsTold;
    if steps == [] {
      NothingTold();
    } else {
      var n := |steps| - 1;
      var s := After(steps[..n]);
      RunIsTold(steps[..n]);
      RunKeepsInv(steps[..n]);
      assert steps == steps[..n] + [steps[n]];
      match steps[n]
      case RegistryDone(_, _, _, _, _, _) => RegistryIsTold(steps[..n], s, steps[n]);
      case ListenDone(_, _, _, _) => ListenIsTold(steps[..n], s, steps[n]);
      case CloseRuns(_) => CloseIsTold(steps[..n], s, steps[n]);
      case Start(_, _) => NewGenerationIsTold(steps[..n], s, steps[n]);
      case Shutdown => NewGenerationIsTold(steps[..n], s, steps[n]);
      case _ => OtherStepIsTold(steps[..n], s, steps[n]);
    }
  }

  lemma NothingTold()
    ensures Told([], START)
  {
  }

  // ---- What follows ----

  /**
   * Over every interleaving, the events decide where each start is: it waits,
   * serves, or has given up and called its close; and it has created what the
   * registry, the listener and the client let it create.
   */
  lemma EachStartHasItsFate(steps: seq<Step>, g: nat)
    ensures g in After(steps).ops <==> StartAt(steps, g).Some?
    ensures g in After(steps).ops ==>
              var op, fate := After(steps).ops[g], FateOf(steps, g);
              && (op.pc == AwaitRegistry <==> fate == AwaitingRegistry)
              && (op.pc == AwaitListen <==> fate == AwaitingListener)
              && (op.pc == Live <==> fate == Serving)
              && (op.closeCalled <==>
                    || fate == LookupThrew || fate == GaveUpEarly || fate == GaveUpLate
                    || (Published(fate) && g != Generations(steps)))
              && Fits(steps, g, op)
  {
    RunIsTold(steps);
    RunKeepsInv(steps);
    ToldFacts(steps, After(steps), g);
  }

  /** A start is the active transport from its publication on, until it fails or another generation begins. */
  lemma ActiveExactly(steps: seq<Step>, g: nat)
    ensures After(steps).active == Some(g) <==>
            StartAt(steps, g).Some? && Published(FateOf(steps, g)) && g == Generations(steps)
  {
    RunIsTold(steps);
    RunKeepsInv(steps);
    ToldFacts(steps, After(steps), g);
  }

  /**
   * A start serves exactly if, first, it found a usable id in the current
   * session, then its registry, listener and client came up, and then the
   * listener started and published, while it was the latest start, its session
   * the current one and the id unchanged, both times.
   */
  lemma ServesExactly(steps: seq<Step>, g: nat)
    ensures (g in After(steps).ops && After(steps).ops[g].pc == Live) <==>
            && ListenAt(steps, g).Some?
            && var start, registry, listen := StartAt(steps, g).value, RegistryAt(steps, g).value, ListenAt(steps, g).value;
            && steps[start].lookup.Usable?
            && var manager, id := steps[start].manager, steps[start].lookup.id;
            && CurrentSession(steps[..start]) == Some(manager)
            && steps[registry] == RegistryDone(g, true, true, true, steps[registry].closesRegistry, Some(id))
            && IsFresh(steps, registry, g, manager)
            && steps[listen] == ListenDone(g, true, true, Some(id))
            && IsFresh(steps, listen, g, manager)
  {
    hide Generations, CurrentSession, StartAt, RegistryAt, ListenAt, IsFresh;
    EachStartHasItsFate(steps, g);
  }

  /** Who receives, told from the events: the published latest start, in its own session, under its own id. */
  lemma ReceivesExactly(steps: seq<Step>, g: nat, idNow: Option<SessionId>)
    ensures Receives(After(steps), g, idNow) <==>
            && StartAt(steps, g).Some? && Published(FateOf(steps, g)) && g == Generations(steps)
            && CurrentSession(steps) == Some(steps[StartAt(steps, g).value].manager)
            && steps[StartAt(steps, g).value].lookup.Usable?
            && idNow == Some(steps[StartAt(steps, g).value].lookup.id)
  {
    hide Generations, CurrentSession, StartAt, RegistryAt, ListenAt;
    RunIsTold(steps);
    RunKeepsInv(steps);
    ToldFacts(steps, After(steps), g);
  }
}
