/**
 * The token lock around the managed-assets manifest. Acquiring creates the
 * lock file exclusively; releasing reads the file and unlinks it only if it
 * still holds the releaser's own token. Between the read and the unlink other
 * processes run.
 */
module AssetLock {
  import opened Wrappers

  type Process(==) = nat
  type Token(==) = nat

  /** The lock file: absent, written by an acquirer, or something else at its path. */
  datatype LockFile = Absent | Written(token: Token) | Unreadable

  datatype Pc =
    | Outside
    | Waiting
    | Holding(token: Token)
    | Unlinking(token: Token)

  /** `nextToken` makes every drawn token new, as random UUIDs are. */
  datatype State = State(file: LockFile, pcs: map<Process, Pc>, nextToken: Token)

  datatype Step =
    | Begin(p: Process)
    | TryCreate(p: Process)             // exclusive creation, with a new token
    | GiveUp(p: Process)                // deadline passed, or the path is unsafe
    | ReadOwner(p: Process, fails: bool)
    | Unlink(p: Process, fails: bool)
    | OperatorRemoves                   // someone deletes the lock file by hand

  const START := State(Absent, map[], 0)

  function PcOf(s: State, p: Process): Pc { if p in s.pcs then s.pcs[p] else Outside }

  function Moved(s: State, p: Process, pc: Pc): State { s.(pcs := s.pcs[p := pc]) }

  /** One atomic step; a step that is not enabled changes nothing. */
  function Next(s: State, step: Step): State {
    match step
    case Begin(p) => if PcOf(s, p) == Outside then Moved(s, p, Waiting) else s
    case TryCreate(p) =>
      if PcOf(s, p) != Waiting then s
      else if s.file != Absent then s.(nextToken := s.nextToken + 1)
      else State(Written(s.nextToken), s.pcs[p := Holding(s.nextToken)], s.nextToken + 1)
    case GiveUp(p) => if PcOf(s, p) == Waiting then Moved(s, p, Outside) else s
    case ReadOwner(p, fails) =>
      (match PcOf(s, p)
       case Holding(t) => Moved(s, p, if !fails && s.file == Written(t) then Unlinking(t) else Outside)
       case _ => s)
    case Unlink(p, fails) =>
      (match PcOf(s, p)
       case Unlinking(t) => if fails then Moved(s, p, Outside) else Moved(s, p, Outside).(file := Absent)
       case _ => s)
    case OperatorRemoves => s.(file := Absent)
  }

  function After(s: State, steps: seq<Step>): State {
    if steps == [] then s else Next(After(s, steps[..|steps| - 1]), steps[|steps| - 1])
  }

  predicate Active(pc: Pc) { pc.Holding? || pc.Unlinking? }

  /** The operator follows the advice of the timeout message: no installer is active. */
  predicate Advised(s: State, steps: seq<Step>) {
    forall k :: 0 <= k < |steps| && steps[k] == OperatorRemoves ==>
                  forall p :: p in After(s, steps[..k]).pcs ==> !Active(After(s, steps[..k]).pcs[p])
  }

  /** Whoever is between acquiring and releasing owns the file. */
  predicate Inv(s: State) {
    && (forall p :: p in s.pcs && Active(s.pcs[p]) ==> s.file == Written(s.pcs[p].token))
    && (forall p, q :: p in s.pcs && q in s.pcs && Active(s.pcs[p]) && Active(s.pcs[q]) ==> p == q)
    && (s.file.Written? ==> s.file.token < s.nextToken)
  }

  lemma StepKeepsInv(s: State, step: Step)
    requires Inv(s)
    requires step == OperatorRemoves ==> forall p :: p in s.pcs ==> !Active(s.pcs[p])
    ensures Inv(Next(s, step))
  {
  }

  lemma {:induction false} RunKeepsInv(s: State, steps: seq<Step>)
    requires Inv(s) && Advised(s, steps)
    ensures Inv(After(s, steps))
  {
    if steps != [] {
      var n := |steps| - 1;
      assert Advised(s, steps[..n]) by {
        forall k | 0 <= k < n ensures steps[..n][..k] == steps[..k] {}
      }
      RunKeepsInv(s, steps[..n]);
      assert steps[n] == OperatorRemoves ==> forall p :: p in After(s, steps[..n]).pcs ==> !Active(After(s, steps[..n]).pcs[p]);
      StepKeepsInv(After(s, steps[..n]), steps[n]);
    }
  }

  /** A fresh path, or one left behind by an installer that died, satisfies the invariant. */
  predicate Initial(s: State) {
    s.pcs == map[] && (s.file.Written? ==> s.file.token < s.nextToken)
  }

  /** Over every interleaving, at most one process is between acquire and release. */
  lemma MutualExclusion(s: State, steps: seq<Step>, p: Process, q: Process)
    requires Initial(s) && Advised(s, steps)
    requires Active(PcOf(After(s, steps), p)) && Active(PcOf(After(s, steps), q))
    ensures p == q
  {
    RunKeepsInv(s, steps);
  }

  /** Over every interleaving, an unlink removes only the unlinker's own lock file. */
  lemma ReleaseRemovesOwnLock(s: State, steps: seq<Step>, p: Process)
    requires Initial(s) && Advised(s, steps) && PcOf(After(s, steps), p).Unlinking?
    ensures After(s, steps).file == Written(PcOf(After(s, steps), p).token)
  {
    RunKeepsInv(s, steps);
  }

  // ---- Removing the file by hand ----

  predicate NobodyActive(s: State) { forall p :: p in s.pcs ==> !Active(s.pcs[p]) }

  predicate Exclusive(s: State) {
    forall p, q :: p in s.pcs && q in s.pcs && Active(s.pcs[p]) && Active(s.pcs[q]) ==> p == q
  }

  lemma Run2(s: State, a: Step, b: Step)
    ensures After(s, [a, b]) == Next(Next(s, a), b)
  {
    var steps := [a, b];
    assert steps[..1] == [a] && [a][..0] == [];
    assert After(s, []) == s && After(s, [a]) == Next(s, a);
  }

  /**
   * While anybody is between acquiring and releasing, a removal by hand lets
   * any process outside in beside it.
   */
  lemma RemovalLetsIn(s: State, p: Process, q: Process)
    requires Inv(s) && p in s.pcs && Active(s.pcs[p]) && PcOf(s, q) == Outside
    ensures var after := After(Next(s, OperatorRemoves), [Begin(q), TryCreate(q)]);
            && p != q && PcOf(after, p) == s.pcs[p] && PcOf(after, q) == Holding(s.nextToken)
            && after.file == Written(s.nextToken) != Written(s.pcs[p].token)
  {
    Run2(Next(s, OperatorRemoves), Begin(q), TryCreate(q));
  }

  /** And if that one had already read its own token, it unlinks the other's file and lets in a third. */
  lemma ForeignLockIsUnlinked(s: State, p: Process, q: Process, r: Process)
    requires Inv(s) && p in s.pcs && s.pcs[p].Unlinking? && PcOf(s, q) == PcOf(s, r) == Outside && q != r
    ensures var after := After(After(Next(s, OperatorRemoves), [Begin(q), TryCreate(q)]), [Unlink(p, false), Begin(r)]);
            PcOf(after, q).Holding? && after.file == Absent && PcOf(Next(after, TryCreate(r)), r).Holding?
  {
    var entered := After(Next(s, OperatorRemoves), [Begin(q), TryCreate(q)]);
    RemovalLetsIn(s, p, q);
    Run2(Next(s, OperatorRemoves), Begin(q), TryCreate(q));
    assert PcOf(entered, r) == Outside;
    Run2(entered, Unlink(p, false), Begin(r));
  }

  lemma AFreshProcess(pcs: map<Process, Pc>) returns (q: Process)
    ensures q !in pcs
  {
    q := Above(pcs.Keys);
  }

  lemma {:induction false} Above(ps: set<Process>) returns (q: Process)
    ensures forall p :: p in ps ==> p < q
  {
    if ps == {} { return 0; }
    var p :| p in ps;
    var below := Above(ps - {p});
    q := if p < below then below else p + 1;
    forall x | x in ps
      ensures x < q
    {
      if x != p { assert x in ps - {p}; }
    }
  }

  /**
   * A removal by hand keeps mutual exclusion, over every continuation, exactly
   * when nobody is between acquiring and releasing at that moment.
   */
  lemma RemovalIsSafeExactly(s: State)
    requires Inv(s)
    ensures NobodyActive(s) <==>
            forall steps :: Advised(Next(s, OperatorRemoves), steps) ==> Exclusive(After(Next(s, OperatorRemoves), steps))
  {
    hide After, Inv;
    var removed := Next(s, OperatorRemoves);
    if NobodyActive(s) {
      StepKeepsInv(s, OperatorRemoves);
      forall steps | Advised(removed, steps)
        ensures Exclusive(After(removed, steps))
      {
        RunKeepsInv(removed, steps);
        InvIsExclusive(After(removed, steps));
      }
    } else {
      var p :| p in s.pcs && Active(s.pcs[p]);
      var q := AFreshProcess(s.pcs);
      RemovalLetsIn(s, p, q);
      var steps := [Begin(q), TryCreate(q)];
      assert Advised(removed, steps);
      assert !Exclusive(After(removed, steps));
      assert !NobodyActive(s);
    }
  }

  lemma InvIsExclusive(s: State)
    requires Inv(s)
    ensures Exclusive(s)
  {
  }

  // ---- Who gets the lock ----

  /** A process comes in by creating the absent file itself, with a token nobody has used, and in no other way. */
  lemma EntersExactly(s: State, step: Step, p: Process)
    requires !Active(PcOf(s, p))
    ensures Active(PcOf(Next(s, step), p)) <==> step == TryCreate(p) && PcOf(s, p) == Waiting && s.file == Absent
    ensures Active(PcOf(Next(s, step), p)) ==>
              Next(s, step).file == Written(PcOf(Next(s, step), p).token) && PcOf(Next(s, step), p) == Holding(s.nextToken)
    ensures Next(s, step).nextToken == s.nextToken + if step.TryCreate? && PcOf(s, step.p) == Waiting then 1 else 0
  {
  }

  /** Who has not come in waits from its beginning until it gives up. */
  lemma WaitsExactly(s: State, step: Step, p: Process)
    requires !Active(PcOf(s, p))
    ensures PcOf(Next(s, step), p) == Waiting <==>
            || (PcOf(s, p) == Outside && step == Begin(p))
            || (PcOf(s, p) == Waiting && step != GiveUp(p) && !(step == TryCreate(p) && s.file == Absent))
  {
  }

  /** A holder leaves by unlinking, or when it does not read its own token; it goes on to unlink exactly when it does. */
  lemma LeavesExactly(s: State, step: Step, p: Process)
    requires Active(PcOf(s, p))
    ensures var own := s.file == Written(PcOf(s, p).token);
            && (PcOf(Next(s, step), p) == Outside <==>
                  if PcOf(s, p).Holding? then step.ReadOwner? && step.p == p && (step.fails || !own) else step.Unlink? && step.p == p)
            && (PcOf(Next(s, step), p) == Unlinking(PcOf(s, p).token) <==>
                  (PcOf(s, p).Unlinking? && !(step.Unlink? && step.p == p)) || (PcOf(s, p).Holding? && step == ReadOwner(p, false) && own))
  {
  }

  /** The file goes when a releaser's unlink succeeds or the operator removes it, and comes when a waiting process creates it. */
  lemma FileExactly(s: State, step: Step)
    ensures Next(s, step).file ==
            if step == OperatorRemoves || (step.Unlink? && !step.fails && PcOf(s, step.p).Unlinking?) then Absent
            else if step.TryCreate? && PcOf(s, step.p) == Waiting && s.file == Absent then Written(s.nextToken)
            else s.file
  {
  }

  predicate WithoutOperator(steps: seq<Step>) { OperatorRemoves !in steps }

  /** A file that nobody will remove keeps everybody out. */
  lemma {:induction false} StuckStays(s: State, steps: seq<Step>)
    requires Inv(s) && s.file != Absent && NobodyActive(s) && WithoutOperator(steps)
    ensures NobodyActive(After(s, steps)) && After(s, steps).file == s.file
  {
    if steps != [] {
      hide Next;
      var n := |steps| - 1;
      var before := After(s, steps[..n]);
      StuckStays(s, steps[..n]);
      assert steps[n] in steps;
      FileExactly(before, steps[n]);
      forall p | p in After(s, steps).pcs
        ensures !Active(After(s, steps).pcs[p])
      {
        assert !Active(PcOf(before, p));
        EntersExactly(before, steps[n], p);
      }
    }
  }

  lemma {:induction false} Joined(s: State, a: seq<Step>, b: seq<Step>)
    ensures After(s, a + b) == After(After(s, a), b)
  {
    if b == [] {
      assert a + b == a;
    } else {
      var n := |b| - 1;
      assert (a + b)[..|a| + n] == a + b[..n] && (a + b)[|a| + n] == b[n];
      Joined(s, a, b[..n]);
    }
  }

  /** A process inside can release, and after that the path is free. */
  lemma ReleaseFrees(s: State, p: Process) returns (steps: seq<Step>)
    requires Inv(s) && p in s.pcs && Active(s.pcs[p])
    ensures WithoutOperator(steps) && After(s, steps).file == Absent
    ensures forall q :: q != p ==> PcOf(After(s, steps), q) == PcOf(s, q)
  {
    steps := [ReadOwner(p, false), Unlink(p, false)];
    Run2(s, ReadOwner(p, false), Unlink(p, false));
    if s.pcs[p].Unlinking? { assert PcOf(Next(s, ReadOwner(p, false)), p) == s.pcs[p]; }
  }

  lemma FreeLetsIn(s: State, q: Process) returns (steps: seq<Step>)
    requires s.file == Absent && !Active(PcOf(s, q))
    ensures WithoutOperator(steps) && Active(PcOf(After(s, steps), q))
  {
    steps := [Begin(q), TryCreate(q)];
    Run2(s, Begin(q), TryCreate(q));
  }

  /**
   * A process outside can still get in, without an operator, exactly if the
   * path is free or somebody inside is left to free it: a lock file left by a
   * dead installer, or one whose release failed, keeps everybody out for good.
   */
  lemma CanGetInExactly(s: State, q: Process)
    requires Inv(s) && !Active(PcOf(s, q))
    ensures (exists steps :: WithoutOperator(steps) && Active(PcOf(After(s, steps), q))) <==>
            s.file == Absent || !NobodyActive(s)
  {
    hide After, Next, Inv;
    if s.file == Absent {
      var steps := FreeLetsIn(s, q);
    } else if !NobodyActive(s) {
      var p :| p in s.pcs && Active(s.pcs[p]);
      var release := ReleaseFrees(s, p);
      var enter := FreeLetsIn(After(s, release), q);
      Joined(s, release, enter);
      assert WithoutOperator(release + enter);
    } else {
      forall steps | WithoutOperator(steps)
        ensures !Active(PcOf(After(s, steps), q))
      {
        StuckStays(s, steps);
      }
    }
  }
}
