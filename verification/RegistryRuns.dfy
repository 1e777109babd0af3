/**
 * Runs that refresh the skill registry. A run lists and fingerprints the skill
 * files, reads the cached fingerprint, and either is content with the table on
 * disk or writes a new one and then its fingerprint. It suspends between all of
 * these, runs of the watcher, of the poll and of the command overlap, and a
 * write truncates the file before it fills it.
 */
module RegistryRuns {
  import opened SkillRegistry
  import opened Wrappers

  type Files = seq<SkillFile>

  /** The table file: complete, or truncated or only partly written. */
  datatype TableFile = Whole(rows: seq<Skill>) | Damaged

  /** The cache file: a fingerprint, or text that is none. */
  datatype StampFile = Stamp(of: Fingerprint) | Unparsable

  datatype Disk = Disk(table: Option<TableFile>, stamp: Option<StampFile>)

  datatype Result = CacheHit | TrackedTarget | StorageUnavailable | Threw | Regenerated(skills: nat)

  /** What Git says of the two target files; it may be unable to say anything. */
  datatype Tracking = Untracked | TargetsTracked | Unverifiable

  /** What happened to the files, in order. A write that ended whole says which skill files it stands for. */
  datatype Fact =
    | TableOpened(run: nat)
    | TableClosed(run: nat, from: Option<Files>)
    | TableGone
    | StampOpened(run: nat)
    | StampClosed(run: nat, of: Option<Files>)
    | StampGone

  /** Where a run is suspended. */
  datatype Pc =
    | AtCache | AtDecision | AtTracking | AtLoading
    | AtTable | InTable | AtStamp | InStamp
    | Done(result: Result)

  /**
   * A run: the files it fingerprinted, the cached fingerprint it read when the
   * history had length `readAt`, the files as they were when it read the skills
   * from them, and the positions of its own facts.
   */
  datatype Run = Run(
    pc: Pc,
    force: bool,
    intentional: bool,
    files: Files,
    cached: Option<Fingerprint>,
    readAt: nat,
    loaded: Files,
    marks: seq<nat>)

  datatype State = State(disk: Disk, runs: map<nat, Run>, log: seq<Fact>)

  const START := State(Disk(None, None), map[], [])

  /** `storage`: the error is one of those that are reported as unavailable storage. */
  datatype Step =
    | Begin(run: nat, force: bool, intentional: bool, files: Files)
    | ReadCache(run: nat)
    | Decide(run: nat)
    | CheckTracking(run: nat, tracking: Tracking)
    | LoadSkills(run: nat, loaded: Files)
    | OpenTable(run: nat, opens: bool, storage: bool)
    | CloseTable(run: nat, whole: bool, storage: bool)
    | OpenStamp(run: nat, opens: bool, storage: bool)
    | CloseStamp(run: nat, whole: bool, storage: bool)
    | RemoveTable
    | RemoveStamp

  function TableOf(files: Files, rules: Rules): seq<Skill> { Table(Load(files, rules), rules) }

  function Failed(storage: bool): Pc { Done(if storage then StorageUnavailable else Threw) }

  /** The fingerprint in the cache file, if it is one. */
  function Cached(stamp: Option<StampFile>): Option<Fingerprint> {
    if stamp.Some? && stamp.value.Stamp? then Some(stamp.value.of) else None
  }

  function With(s: State, id: nat, r: Run): State { s.(runs := s.runs[id := r]) }

  /** The run goes on and something happens to a file. */
  function WithFact(s: State, id: nat, r: Run, disk: Disk, fact: Fact): State {
    State(disk, s.runs[id := r.(marks := r.marks + [|s.log|])], s.log + [fact])
  }

  predicate IsHit(s: State, r: Run) {
    !r.force && r.cached == Some(FingerprintOf(r.files)) && s.disk.table.Some?
  }

  predicate IsAt(s: State, id: nat, pc: Pc) { id in s.runs && s.runs[id].pc == pc }

  /** One atomic step; a step that is not enabled changes nothing. */
  function Next(s: State, step: Step, rules: Rules): State {
    match step
    case Begin(id, force, intentional, files) =>
      if id !in s.runs && Listed(files, rules) then With(s, id, Run(AtCache, force, intentional, files, None, 0, [], [])) else s
    case ReadCache(id) =>
      if IsAt(s, id, AtCache) then
        With(s, id, s.runs[id].(pc := AtDecision, cached := Cached(s.disk.stamp), readAt := |s.log|))
      else s
    case Decide(id) =>
      if IsAt(s, id, AtDecision) then
        var r := s.runs[id];
        With(s, id, r.(pc := if IsHit(s, r) then Done(CacheHit) else if r.intentional then AtLoading else AtTracking))
      else s
    case CheckTracking(id, tracking) =>
      if IsAt(s, id, AtTracking) then
        With(s, id, s.runs[id].(pc := match tracking
                                      case Untracked => AtLoading
                                      case TargetsTracked => Done(TrackedTarget)
                                      case Unverifiable => Done(Threw)))
      else s
    case LoadSkills(id, loaded) =>
      if IsAt(s, id, AtLoading) then With(s, id, s.runs[id].(pc := AtTable, loaded := loaded)) else s
    case OpenTable(id, opens, storage) =>
      if !IsAt(s, id, AtTable) then s
      else if !opens then With(s, id, s.runs[id].(pc := Failed(storage)))
      else WithFact(s, id, s.runs[id].(pc := InTable), s.disk.(table := Some(Damaged)), TableOpened(id))
    case CloseTable(id, whole, storage) =>
      if !IsAt(s, id, InTable) then s
      else
        var r := s.runs[id];
        if whole then
          WithFact(s, id, r.(pc := AtStamp), s.disk.(table := Some(Whole(TableOf(r.loaded, rules)))), TableClosed(id, Some(r.loaded)))
        else WithFact(s, id, r.(pc := Failed(storage)), s.disk.(table := Some(Damaged)), TableClosed(id, None))
    case OpenStamp(id, opens, storage) =>
      if !IsAt(s, id, AtStamp) then s
      else if !opens then With(s, id, s.runs[id].(pc := Failed(storage)))
      else WithFact(s, id, s.runs[id].(pc := InStamp), s.disk.(stamp := Some(Unparsable)), StampOpened(id))
    case CloseStamp(id, whole, storage) =>
      if !IsAt(s, id, InStamp) then s
      else
        var r := s.runs[id];
        if whole then
          WithFact(s, id, r.(pc := Done(Regenerated(|TableOf(r.loaded, rules)|))),
                   s.disk.(stamp := Some(Stamp(FingerprintOf(r.files)))), StampClosed(id, Some(r.files)))
        else WithFact(s, id, r.(pc := Failed(storage)), s.disk.(stamp := Some(Unparsable)), StampClosed(id, None))
    case RemoveTable => s.(disk := s.disk.(table := None), log := s.log + [TableGone])
    case RemoveStamp => s.(disk := s.disk.(stamp := None), log := s.log + [StampGone])
  }

  /** Whoever deletes one of the two files leaves the other, and every run, as it was. */
  lemma DeletedExactly(s: State, rules: Rules)
    ensures Next(s, RemoveTable, rules).disk == Disk(None, s.disk.stamp)
    ensures Next(s, RemoveStamp, rules).disk == Disk(s.disk.table, None)
    ensures Next(s, RemoveTable, rules).runs == Next(s, RemoveStamp, rules).runs == s.runs
  {
    hide TableOf;
  }

  function Play(s: State, steps: seq<Step>, rules: Rules): State
    decreases |steps|
  {
    if steps == [] then s else Play(Next(s, steps[0], rules), steps[1..], rules)
  }

  // ---- The history tells what is on disk ----

  predicate IsTableFact(f: Fact) { f.TableOpened? || f.TableClosed? || f.TableGone? }

  predicate HasRun(f: Fact) { !f.TableGone? && !f.StampGone? }

  /** The last thing that happened to the table file. */
  function LastTable(log: seq<Fact>): (r: Option<nat>)
    ensures r.Some? ==> r.value < |log| && IsTableFact(log[r.value])
    ensures r.Some? ==> forall k :: r.value < k < |log| ==> !IsTableFact(log[k])
    ensures r.None? ==> forall k :: 0 <= k < |log| ==> !IsTableFact(log[k])
  {
    if log == [] then None
    else if IsTableFact(log[|log| - 1]) then Some(|log| - 1)
    else LastTable(log[..|log| - 1])
  }

  function LastStamp(log: seq<Fact>): (r: Option<nat>)
    ensures r.Some? ==> r.value < |log| && !IsTableFact(log[r.value])
    ensures r.Some? ==> forall k :: r.value < k < |log| ==> IsTableFact(log[k])
    ensures r.None? ==> forall k :: 0 <= k < |log| ==> IsTableFact(log[k])
  {
    if log == [] then None
    else if !IsTableFact(log[|log| - 1]) then Some(|log| - 1)
    else LastStamp(log[..|log| - 1])
  }

  function TableOn(log: seq<Fact>, rules: Rules): Option<TableFile> {
    var last := LastTable(log);
    if last.None? then None
    else
      match log[last.value]
      case TableOpened(_) => Some(Damaged)
      case TableClosed(_, Some(files)) => Some(Whole(TableOf(files, rules)))
      case TableClosed(_, None) => Some(Damaged)
      case _ => None
  }

  function StampOn(log: seq<Fact>): Option<StampFile> {
    var last := LastStamp(log);
    if last.None? then None
    else
      match log[last.value]
      case StampOpened(_) => Some(Unparsable)
      case StampClosed(_, Some(files)) => Some(Stamp(FingerprintOf(files)))
      case StampClosed(_, None) => Some(Unparsable)
      case _ => None
  }

  lemma LastAfter(log: seq<Fact>, f: Fact, rules: Rules)
    ensures LastTable(log + [f]) == if IsTableFact(f) then Some(|log|) else LastTable(log)
    ensures LastStamp(log + [f]) == if IsTableFact(f) then LastStamp(log) else Some(|log|)
  {
    assert (log + [f])[..|log|] == log;
  }

  // ---- The invariant ----

  /** How many facts a run has left behind at each point. */
  predicate MarksFit(r: Run) {
    match r.pc
    case InTable => |r.marks| == 1
    case AtStamp => |r.marks| == 2
    case InStamp => |r.marks| == 3
    case Done(_) => |r.marks| <= 4
    case _ => r.marks == []
  }

  predicate MarksAre(log: seq<Fact>, id: nat, r: Run) {
    && (forall n :: 0 <= n < |r.marks| ==> r.marks[n] < |log|)
    && (forall m, n :: 0 <= m < n < |r.marks| ==> r.marks[m] < r.marks[n])
    && (|r.marks| > 0 ==> log[r.marks[0]] == TableOpened(id))
    && (|r.marks| > 1 ==> log[r.marks[1]] == TableClosed(id, Some(r.loaded)) || (log[r.marks[1]] == TableClosed(id, None) && |r.marks| == 2 && r.pc.Done?))
    && (|r.marks| > 2 ==> log[r.marks[2]] == StampOpened(id))
    && (|r.marks| > 3 ==> log[r.marks[3]] == StampClosed(id, Some(r.files)) || log[r.marks[3]] == StampClosed(id, None))
  }

  ghost predicate RunInv(s: State, id: nat, rules: Rules)
    requires id in s.runs
  {
    var r := s.runs[id];
    && |r.marks| <= 4 && MarksFit(r) && MarksAre(s.log, id, r) && Listed(r.files, rules)
    && r.readAt <= |s.log| && (r.pc != AtCache ==> r.cached == Cached(StampOn(s.log[..r.readAt])))
  }

  ghost predicate FactInv(s: State, k: nat)
    requires k < |s.log|
  {
    HasRun(s.log[k]) ==> s.log[k].run in s.runs && k in s.runs[s.log[k].run].marks
  }

  ghost predicate Inv(s: State, rules: Rules) {
    && s.disk == Disk(TableOn(s.log, rules), StampOn(s.log))
    && (forall id :: id in s.runs ==> RunInv(s, id, rules))
    && (forall k :: 0 <= k < |s.log| ==> FactInv(s, k))
  }

  lemma OtherRunStays(s: State, s': State, id: nat, rules: Rules)
    requires id in s.runs && id in s'.runs && s'.runs[id] == s.runs[id] && s.log <= s'.log && RunInv(s, id, rules)
    ensures RunInv(s', id, rules)
  {
    hide Listed, StampOn;
    var r := s.runs[id];
    assert s'.log[..r.readAt] == s.log[..r.readAt];
  }

  /** A run goes on without touching a file. */
  lemma GoesOn(s: State, id: nat, r: Run, rules: Rules)
    requires Inv(s, rules) && RunInv(With(s, id, r), id, rules)
    requires if id in s.runs then r.marks == s.runs[id].marks else r.marks == []
    ensures Inv(With(s, id, r), rules)
  {
    hide RunInv, TableOn, StampOn;
    var s' := With(s, id, r);
    forall other | other in s'.runs
      ensures RunInv(s', other, rules)
    {
      if other != id { OtherRunStays(s, s', other, rules); }
    }
    forall k | 0 <= k < |s'.log| ensures FactInv(s', k) { assert FactInv(s, k); }
  }

  /** Something happens to a file, by a run or from outside. */
  lemma FactKeepsInv(s: State, s': State, f: Fact, rules: Rules)
    requires Inv(s, rules) && s'.log == s.log + [f]
    requires s'.disk == Disk(TableOn(s'.log, rules), StampOn(s'.log))
    requires HasRun(f) ==> f.run in s.runs && f.run in s'.runs && RunInv(s', f.run, rules)
                           && s'.runs == s.runs[f.run := s'.runs[f.run]]
                           && s'.runs[f.run].marks == s.runs[f.run].marks + [|s.log|]
    requires !HasRun(f) ==> s'.runs == s.runs
    ensures Inv(s', rules)
  {
    hide RunInv, TableOn, StampOn;
    forall id | id in s'.runs
      ensures RunInv(s', id, rules)
    {
      if !HasRun(f) || id != f.run { OtherRunStays(s, s', id, rules); }
    }
    forall k | 0 <= k < |s'.log|
      ensures FactInv(s', k)
    {
      if k < |s.log| { assert FactInv(s, k) && s'.log[k] == s.log[k]; }
    }
  }

  /** What a fact makes of the disk. */
  lemma DiskAfter(log: seq<Fact>, f: Fact, rules: Rules)
    ensures TableOn(log + [f], rules) ==
            match f {
              case TableOpened(_) => Some(Damaged)
              case TableClosed(_, Some(files)) => Some(Whole(TableOf(files, rules)))
              case TableClosed(_, None) => Some(Damaged)
              case TableGone => None
              case _ => TableOn(log, rules)
            }
    ensures StampOn(log + [f]) ==
            match f {
              case StampOpened(_) => Some(Unparsable)
              case StampClosed(_, Some(files)) => Some(Stamp(FingerprintOf(files)))
              case StampClosed(_, None) => Some(Unparsable)
              case StampGone => None
              case _ => StampOn(log)
            }
  {
    LastAfter(log, f, rules);
  }

  lemma MarkedRunInv(s: State, id: nat, r: Run, disk: Disk, f: Fact, rules: Rules)
    requires Inv(s, rules) && id in s.runs
    requires r == s.runs[id].(pc := r.pc) && s.runs[id].pc != AtCache && r.pc != AtCache
    requires |r.marks| < 4 && MarksFit(r.(marks := r.marks + [|s.log|]))
    requires MarksAre(s.log + [f], id, r.(marks := r.marks + [|s.log|]))
    ensures RunInv(WithFact(s, id, r, disk, f), id, rules)
  {
    hide Listed, StampOn, MarksAre, MarksFit;
    assert RunInv(s, id, rules);
    assert (s.log + [f])[..r.readAt] == s.log[..r.readAt];
  }

  /** A run's next fact is of the kind that is due. */
  lemma MarksGrow(log: seq<Fact>, id: nat, r: Run, pc: Pc, f: Fact)
    requires MarksAre(log, id, r) && |r.marks| < 4
    requires match |r.marks|
             case 0 => f == TableOpened(id)
             case 1 => f == TableClosed(id, Some(r.loaded)) || (f == TableClosed(id, None) && pc.Done?)
             case 2 => !r.pc.Done? && f == StampOpened(id)
             case _ => f == StampClosed(id, Some(r.files)) || f == StampClosed(id, None)
    ensures MarksAre(log + [f], id, r.(pc := pc, marks := r.marks + [|log|]))
  {
    var marks := r.marks + [|log|];
    assert forall n :: 0 <= n < |r.marks| ==> marks[n] == r.marks[n] && (log + [f])[marks[n]] == log[r.marks[n]];
  }

  lemma WriteKeepsInv(s: State, id: nat, r: Run, disk: Disk, f: Fact, rules: Rules)
    requires Inv(s, rules) && id in s.runs && HasRun(f) && f.run == id
    requires r == s.runs[id].(pc := r.pc) && s.runs[id].pc != AtCache && r.pc != AtCache
    requires |r.marks| < 4 && MarksFit(r.(marks := r.marks + [|s.log|]))
    requires MarksAre(s.log + [f], id, r.(marks := r.marks + [|s.log|]))
    requires disk == Disk(TableOn(s.log + [f], rules), StampOn(s.log + [f]))
    ensures Inv(WithFact(s, id, r, disk, f), rules)
  {
    hide Inv, RunInv, MarksAre, MarksFit, TableOn, StampOn;
    MarkedRunInv(s, id, r, disk, f, rules);
    FactKeepsInv(s, WithFact(s, id, r, disk, f), f, rules);
  }

  lemma BeginKeepsInv(s: State, step: Step, rules: Rules)
    requires Inv(s, rules) && step.Begin?
    ensures Inv(Next(s, step, rules), rules)
  {
    hide StampOn, TableOn, Listed;
    if step.run !in s.runs && Listed(step.files, rules) {
      GoesOn(s, step.run, Run(AtCache, step.force, step.intentional, step.files, None, 0, [], []), rules);
    }
  }

  lemma QuietStepKeepsInv(s: State, step: Step, rules: Rules)
    requires Inv(s, rules) && (step.ReadCache? || step.Decide? || step.CheckTracking? || step.LoadSkills?)
    ensures Inv(Next(s, step, rules), rules)
  {
    hide TableOn, StampOn, Listed, IsHit, MarksAre, FactInv;
    var id := step.run;
    if id in s.runs && Next(s, step, rules) != s {
      assert RunInv(s, id, rules);
      assert s.log[..|s.log|] == s.log;
      var r' := Next(s, step, rules).runs[id];
      SameMarks(s.log, id, s.runs[id], r');
      GoesOn(s, id, r', rules);
    }
  }

  lemma SameMarks(log: seq<Fact>, id: nat, r: Run, r': Run)
    requires MarksAre(log, id, r) && r'.marks == r.marks && (|r.marks| <= 1 || (|r.marks| == 2 && r' == r.(pc := r'.pc) && r'.pc.Done?))
    ensures MarksAre(log, id, r')
  {
  }

  lemma OpenTableKeepsInv(s: State, step: Step, rules: Rules)
    requires Inv(s, rules) && step.OpenTable?
    ensures Inv(Next(s, step, rules), rules)
  {
    hide TableOn, StampOn, Listed, FactInv, MarksAre;
    var id := step.run;
    if IsAt(s, id, AtTable) {
      assert RunInv(s, id, rules);
      var r := s.runs[id];
      if step.opens {
        DiskAfter(s.log, TableOpened(id), rules);
        MarksGrow(s.log, id, r, InTable, TableOpened(id));
        WriteKeepsInv(s, id, r.(pc := InTable), s.disk.(table := Some(Damaged)), TableOpened(id), rules);
      } else {
        SameMarks(s.log, id, r, r.(pc := Failed(step.storage)));
        GoesOn(s, id, r.(pc := Failed(step.storage)), rules);
      }
    }
  }

  lemma CloseTableKeepsInv(s: State, step: Step, rules: Rules)
    requires Inv(s, rules) && step.CloseTable?
    ensures Inv(Next(s, step, rules), rules)
  {
    hide TableOn, StampOn, Listed, FactInv, TableOf, MarksAre;
    var id := step.run;
    if IsAt(s, id, InTable) {
      assert RunInv(s, id, rules);
      var r := s.runs[id];
      var fact := TableClosed(id, if step.whole then Some(r.loaded) else None);
      DiskAfter(s.log, fact, rules);
      MarksGrow(s.log, id, r, if step.whole then AtStamp else Failed(step.storage), fact);
      if step.whole {
        WriteKeepsInv(s, id, r.(pc := AtStamp), s.disk.(table := Some(Whole(TableOf(r.loaded, rules)))), fact, rules);
      } else {
        WriteKeepsInv(s, id, r.(pc := Failed(step.storage)), s.disk.(table := Some(Damaged)), fact, rules);
      }
    }
  }

  lemma OpenStampKeepsInv(s: State, step: Step, rules: Rules)
    requires Inv(s, rules) && step.OpenStamp?
    ensures Inv(Next(s, step, rules), rules)
  {
    hide TableOn, StampOn, Listed, FactInv, MarksAre;
    var id := step.run;
    if IsAt(s, id, AtStamp) {
      assert RunInv(s, id, rules);
      var r := s.runs[id];
      if step.opens {
        DiskAfter(s.log, StampOpened(id), rules);
        MarksGrow(s.log, id, r, InStamp, StampOpened(id));
        hide RunInv, Inv;
        WriteKeepsInv(s, id, r.(pc := InStamp), s.disk.(stamp := Some(Unparsable)), StampOpened(id), rules);
      } else {
        SameMarks(s.log, id, r, r.(pc := Failed(step.storage)));
        GoesOn(s, id, r.(pc := Failed(step.storage)), rules);
      }
    }
  }

  lemma CloseStampKeepsInv(s: State, step: Step, rules: Rules)
    requires Inv(s, rules) && step.CloseStamp?
    ensures Inv(Next(s, step, rules), rules)
  {
    hide TableOn, StampOn, Listed, FactInv, TableOf, MarksAre;
    var id := step.run;
    if IsAt(s, id, InStamp) {
      assert RunInv(s, id, rules);
      var r := s.runs[id];
      var fact := StampClosed(id, if step.whole then Some(r.files) else None);
      DiskAfter(s.log, fact, rules);
      MarksGrow(s.log, id, r, if step.whole then Done(Regenerated(|TableOf(r.loaded, rules)|)) else Failed(step.storage), fact);
      if step.whole {
        WriteKeepsInv(s, id, r.(pc := Done(Regenerated(|TableOf(r.loaded, rules)|))),
                      s.disk.(stamp := Some(Stamp(FingerprintOf(r.files)))), fact, rules);
      } else {
        WriteKeepsInv(s, id, r.(pc := Failed(step.storage)), s.disk.(stamp := Some(Unparsable)), fact, rules);
      }
    }
  }

  lemma RemovalKeepsInv(s: State, step: Step, rules: Rules)
    requires Inv(s, rules) && (step.RemoveTable? || step.RemoveStamp?)
    ensures Inv(Next(s, step, rules), rules)
  {
    hide TableOn, StampOn, RunInv;
    var f := if step.RemoveTable? then TableGone else StampGone;
    DiskAfter(s.log, f, rules);
    FactKeepsInv(s, Next(s, step, rules), f, rules);
  }

  lemma StepKeepsInv(s: State, step: Step, rules: Rules)
    requires Inv(s, rules)
    ensures Inv(Next(s, step, rules), rules)
  {
    hide Inv, Next;
    match step
    case Begin(_, _, _, _) => BeginKeepsInv(s, step, rules);
    case OpenTable(_, _, _) => OpenTableKeepsInv(s, step, rules);
    case CloseTable(_, _, _) => CloseTableKeepsInv(s, step, rules);
    case OpenStamp(_, _, _) => OpenStampKeepsInv(s, step, rules);
    case CloseStamp(_, _, _) => CloseStampKeepsInv(s, step, rules);
    case RemoveTable => RemovalKeepsInv(s, step, rules);
    case RemoveStamp => RemovalKeepsInv(s, step, rules);
    case _ => QuietStepKeepsInv(s, step, rules);
  }

  lemma {:induction false} PlayKeepsInv(s: State, steps: seq<Step>, rules: Rules)
    requires Inv(s, rules)
    ensures Inv(Play(s, steps, rules), rules)
    decreases |steps|
  {
    hide Inv, Next;
    if steps != [] {
      StepKeepsInv(s, steps[0], rules);
      PlayKeepsInv(Next(s, steps[0], rules), steps[1..], rules);
    }
  }

  lemma StartIsInv(rules: Rules)
    ensures Inv(START, rules)
  {
  }

  // ---- When a hit is right ----

  /** Run `h` has read the cache and is about to be content with the table on disk. */
  predicate HitsNow(s: State, h: nat) { IsAt(s, h, AtDecision) && IsHit(s, s.runs[h]) }

  /** The table on disk is the one a run over the same files would write. */
  predicate IsRight(s: State, h: nat, rules: Rules)
    requires h in s.runs
  {
    s.disk.table == Some(Whole(TableOf(s.runs[h].files, rules)))
  }

  /** The run that wrote both files whole and whose fingerprint run `h` has read. */
  ghost predicate IsStamper(s: State, h: nat, r: nat)
    requires h in s.runs
  {
    && r in s.runs && |s.runs[r].marks| == 4 && s.runs[r].marks[3] < s.runs[h].readAt <= |s.log|
    && s.log[s.runs[r].marks[3]] == StampClosed(r, Some(s.runs[r].files))
    && s.runs[r].files == s.runs[h].files
    && forall k :: s.runs[r].marks[3] < k < s.runs[h].readAt ==> IsTableFact(s.log[k])
  }

  /** Behind every hit there is such a run. */
  lemma HitHasStamper(s: State, h: nat, rules: Rules) returns (r: nat)
    requires Inv(s, rules) && PathsAreOrdered(rules) && HitsNow(s, h)
    ensures IsStamper(s, h, r)
  {
    hide PathsAreOrdered, Listed, TableOn, FactInv, LastStamp;
    assert RunInv(s, h, rules);
    var readAt := s.runs[h].readAt;
    var before := s.log[..readAt];
    var k := LastStamp(before).value;
    assert before[k] == s.log[k] && FactInv(s, k);
    r := StampsRun(s, k, rules);
    FingerprintDetermines(s.runs[r].files, s.runs[h].files, rules);
  }

  lemma StampsRun(s: State, k: nat, rules: Rules) returns (r: nat)
    requires Inv(s, rules) && k < |s.log| && s.log[k].StampClosed? && s.log[k].of.Some?
    ensures r in s.runs && |s.runs[r].marks| == 4 && s.runs[r].marks[3] == k
    ensures s.log[k] == StampClosed(r, Some(s.runs[r].files)) && Listed(s.runs[r].files, rules)
  {
    hide TableOn, StampOn, Listed;
    r := s.log[k].run;
    assert FactInv(s, k) && RunInv(s, r, rules);
    var n :| 0 <= n < |s.runs[r].marks| && s.runs[r].marks[n] == k;
  }

  /** The skill files gave the same table when they were read as when they were fingerprinted. */
  predicate IsSteady(s: State, r: nat, rules: Rules)
    requires r in s.runs
  {
    TableOf(s.runs[r].loaded, rules) == TableOf(s.runs[r].files, rules)
  }

  /** Run `t` opened the table after the stamp of `r`, and when `h` read the cache it had not completed both writes. */
  predicate LeftHalf(s: State, h: nat, r: nat, t: nat)
    requires h in s.runs && r in s.runs && t in s.runs && |s.runs[r].marks| == 4 && forall n :: 0 <= n < |s.runs[t].marks| ==> s.runs[t].marks[n] < |s.log|
  {
    && t != r && s.runs[t].marks != [] && s.runs[r].marks[3] < s.runs[t].marks[0]
    && !(|s.runs[t].marks| == 4 && s.runs[t].marks[3] < s.runs[h].readAt && s.log[s.runs[t].marks[3]] == StampClosed(t, Some(s.runs[t].files)))
  }

  /** The writing of run `t` reaches into that of `r`. */
  predicate Overlaps(s: State, r: nat, t: nat)
    requires r in s.runs && t in s.runs && |s.runs[r].marks| == 4
  {
    && t != r && s.runs[t].marks != []
    && s.runs[t].marks[0] < s.runs[r].marks[3] && s.runs[r].marks[0] < s.runs[t].marks[|s.runs[t].marks| - 1]
  }

  ghost predicate IsClean(s: State, h: nat, r: nat)
    requires h in s.runs && r in s.runs && |s.runs[r].marks| == 4
    requires forall t :: t in s.runs ==> forall n :: 0 <= n < |s.runs[t].marks| ==> s.runs[t].marks[n] < |s.log|
  {
    forall t :: t in s.runs ==> !LeftHalf(s, h, r, t) && !Overlaps(s, r, t)
  }

  /** The last thing that happened to the table is a whole write of the table that is due. */
  predicate LastWriteAgrees(s: State, h: nat, rules: Rules)
    requires h in s.runs
  {
    var last := LastTable(s.log);
    && last.Some? && s.log[last.value].TableClosed? && s.log[last.value].from.Some?
    && TableOf(s.log[last.value].from.value, rules) == TableOf(s.runs[h].files, rules)
  }

  lemma MarksAreBelow(s: State, rules: Rules)
    requires Inv(s, rules)
    ensures forall t :: t in s.runs ==> forall n :: 0 <= n < |s.runs[t].marks| ==> s.runs[t].marks[n] < |s.log|
  {
    hide TableOn, StampOn, Listed, MarksFit;
    forall t | t in s.runs
      ensures forall n :: 0 <= n < |s.runs[t].marks| ==> s.runs[t].marks[n] < |s.log|
    {
      assert RunInv(s, t, rules);
    }
  }

  /** A run that touched the table after `r` had written it, and whose stamp was not read instead, left half or overlaps. */
  lemma LaterWriterDisturbs(s: State, h: nat, r: nat, k: nat, rules: Rules) returns (t: nat)
    requires Inv(s, rules) && h in s.runs && IsStamper(s, h, r)
    requires s.runs[r].marks[1] < k < |s.log| && (s.log[k].TableOpened? || s.log[k].TableClosed?)
    ensures t == s.log[k].run && t in s.runs && t != r
    ensures forall n :: 0 <= n < |s.runs[t].marks| ==> s.runs[t].marks[n] < |s.log|
    ensures LeftHalf(s, h, r, t) || Overlaps(s, r, t)
  {
    hide Inv, MarksFit, RunInv, MarksAre, FactInv;
    t := s.log[k].run;
    MarksOf(s, k, rules);
    StamperMarks(s, r, rules);
    StampsAreNotTables(s, r, rules);
  }

  /** Where a fact stands among those of its run. */
  lemma MarksOf(s: State, k: nat, rules: Rules)
    requires Inv(s, rules) && k < |s.log| && HasRun(s.log[k])
    ensures var t := s.log[k].run;
            && t in s.runs && k in s.runs[t].marks && s.runs[t].marks[|s.runs[t].marks| - 1] >= k
            && s.runs[t].marks[|s.runs[t].marks| - 1] >= s.runs[t].marks[0]
            && (forall n :: 0 <= n < |s.runs[t].marks| ==> s.runs[t].marks[n] < |s.log|)
            && s.log[s.runs[t].marks[0]] == TableOpened(t)
  {
    hide TableOn, StampOn, Listed, MarksFit;
    assert FactInv(s, k) && RunInv(s, s.log[k].run, rules);
  }

  lemma StamperMarks(s: State, r: nat, rules: Rules)
    requires Inv(s, rules) && r in s.runs && |s.runs[r].marks| == 4
    ensures var marks := s.runs[r].marks; marks[0] < marks[1] < marks[2] < marks[3] < |s.log|
    ensures s.log[s.runs[r].marks[3]].StampClosed?
  {
    hide TableOn, StampOn, Listed, MarksFit;
    assert RunInv(s, r, rules);
  }

  /** Behind its table write a run leaves only facts of the stamp. */
  lemma StampsAreNotTables(s: State, r: nat, rules: Rules)
    requires Inv(s, rules) && r in s.runs && |s.runs[r].marks| == 4
    ensures forall k :: k in s.runs[r].marks && k > s.runs[r].marks[1] ==> k < |s.log| && !IsTableFact(s.log[k])
  {
    hide TableOn, StampOn, Listed, MarksFit;
    assert RunInv(s, r, rules);
    var marks := s.runs[r].marks;
    forall k | k in marks && k > marks[1]
      ensures k < |s.log| && !IsTableFact(s.log[k])
    {
      var n :| 0 <= n < 4 && marks[n] == k;
      assert n == 2 || n == 3;
    }
  }

  /** If nothing disturbed the stamper, the table on disk is the one it wrote. */
  lemma CleanTableIsStampers(s: State, h: nat, r: nat, rules: Rules)
    requires Inv(s, rules) && HitsNow(s, h) && IsStamper(s, h, r)
    requires forall t :: t in s.runs ==> forall n :: 0 <= n < |s.runs[t].marks| ==> s.runs[t].marks[n] < |s.log|
    requires IsClean(s, h, r)
    ensures LastTable(s.log) == Some(s.runs[r].marks[1]) && s.log[s.runs[r].marks[1]] == TableClosed(r, Some(s.runs[r].loaded))
  {
    hide TableOf, StampOn, Listed, LeftHalf, Overlaps;
    assert RunInv(s, r, rules);
    var m := s.runs[r].marks[1];
    assert IsTableFact(s.log[m]);
    var k := LastTable(s.log).value;
    if m < k { var t := LaterWriterDisturbs(s, h, r, k, rules); }
  }

  /**
   * Over every interleaving of runs, with failing and damaging writes: if the
   * run whose fingerprint a hit relies on was not disturbed (no later run left
   * its writing half done, none overlapped it), the hit shows the right table
   * exactly when the skill files held still between that run's two readings;
   * and otherwise exactly when the last write of the table happens to agree.
   */
  lemma HitIsRightExactly(steps: seq<Step>, h: nat, rules: Rules) returns (r: nat)
    requires PathsAreOrdered(rules) && HitsNow(Play(START, steps, rules), h)
    ensures var s := Play(START, steps, rules);
            && Inv(s, rules) && IsStamper(s, h, r)
            && (forall t :: t in s.runs ==> forall n :: 0 <= n < |s.runs[t].marks| ==> s.runs[t].marks[n] < |s.log|)
            && (IsRight(s, h, rules) <==> if IsClean(s, h, r) then IsSteady(s, r, rules) else LastWriteAgrees(s, h, rules))
  {
    hide Play, Next, IsClean, IsStamper, PathsAreOrdered, RunInv, FactInv, TableOf;
    var s := Play(START, steps, rules);
    StartIsInv(rules);
    PlayKeepsInv(START, steps, rules);
    r := HitHasStamper(s, h, rules);
    MarksAreBelow(s, rules);
    StamperIsThere(s, h, r);
    if IsClean(s, h, r) { CleanTableIsStampers(s, h, r, rules); }
  }

  lemma StamperIsThere(s: State, h: nat, r: nat)
    requires h in s.runs && IsStamper(s, h, r)
    ensures r in s.runs && |s.runs[r].marks| == 4 && s.runs[r].files == s.runs[h].files
  {
  }

  /** A run is content with the table on disk exactly when it hits. */
  lemma DecideHits(s: State, h: nat, rules: Rules)
    requires IsAt(s, h, AtDecision)
    ensures Next(s, Decide(h), rules).runs[h].pc == Done(CacheHit) <==> HitsNow(s, h)
  {
  }
}
