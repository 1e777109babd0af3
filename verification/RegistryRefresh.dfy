/**
 * One run of the registry refresh as the program writes it, without another in
 * between, and the runs after which a cache hit is wrong.
 */
module RegistryRefresh {
  import opened RegistryRuns
  import opened SkillRegistry
  import opened Wrappers

  /** What a run is asked to do, what it reads, and which of its writes succeed. */
  datatype Input = Input(
    force: bool,
    intentional: bool,
    files: Files,
    loaded: Files,
    tracking: Tracking,
    tableOpens: bool,
    tableWhole: bool,
    stampOpens: bool,
    stampWhole: bool,
    storage: bool)

  function Fault(i: Input): Result { if i.storage then StorageUnavailable else Threw }

  /** The result of a run and what it leaves on disk. */
  function Outcome(disk: Disk, i: Input, rules: Rules): (Result, Disk) {
    var written := disk.(table := Some(Whole(TableOf(i.loaded, rules))));
    if !i.force && Cached(disk.stamp) == Some(FingerprintOf(i.files)) && disk.table.Some? then (CacheHit, disk)
    else if !i.intentional && i.tracking.TargetsTracked? then (TrackedTarget, disk)
    else if !i.intentional && i.tracking.Unverifiable? then (Threw, disk)
    else if !i.tableOpens then (Fault(i), disk)
    else if !i.tableWhole then (Fault(i), disk.(table := Some(Damaged)))
    else if !i.stampOpens then (Fault(i), written)
    else if !i.stampWhole then (Fault(i), written.(stamp := Some(Unparsable)))
    else (Regenerated(|TableOf(i.loaded, rules)|), written.(stamp := Some(Stamp(FingerprintOf(i.files)))))
  }

  /**
   * When a run is content with what it finds, and when it has written both
   * files; in every case what is left of the fingerprint is the old one, the
   * new one behind a whole new table, or none.
   */
  lemma ResultExactly(disk: Disk, i: Input, rules: Rules)
    ensures var (result, after) := Outcome(disk, i, rules);
            var hit := !i.force && disk.stamp == Some(Stamp(FingerprintOf(i.files))) && disk.table.Some?;
            var permitted := i.intentional || i.tracking == Untracked;
            var whole := Some(Whole(TableOf(i.loaded, rules)));
            && (result == CacheHit <==> hit)
            && (result == TrackedTarget <==> !hit && !i.intentional && i.tracking == TargetsTracked)
            && (result.Regenerated? <==> !hit && permitted && i.tableOpens && i.tableWhole && i.stampOpens && i.stampWhole)
            && (after.table != disk.table ==> !hit && permitted && i.tableOpens)
            && (!hit && permitted && i.tableOpens ==> after.table == if i.tableWhole then whole else Some(Damaged))
            && (after.stamp == disk.stamp || after.stamp == Some(Unparsable)
                || after == Disk(whole, Some(Stamp(FingerprintOf(i.files)))))
            && (result.Regenerated? ==> after == Disk(whole, Some(Stamp(FingerprintOf(i.files)))) && result.skills == |TableOf(i.loaded, rules)|)
            && (!hit && permitted && !result.Regenerated? ==> result == if i.storage then StorageUnavailable else Threw)
            && (!hit && !i.intentional && i.tracking == Unverifiable ==> result == Threw)
            && (hit || !permitted || !i.tableOpens || !i.tableWhole || !i.stampOpens ==> after.stamp == disk.stamp)
  {
    hide TableOf;
  }

  // ---- A run alone, as steps ----

  function Decided(s: State, id: nat, i: Input, rules: Rules): State {
    Next(Next(Next(s, Begin(id, i.force, i.intentional, i.files), rules), ReadCache(id), rules), Decide(id), rules)
  }

  function Ready(s: State, id: nat, i: Input, rules: Rules): State {
    Next(Next(Decided(s, id, i, rules), CheckTracking(id, i.tracking), rules), LoadSkills(id, i.loaded), rules)
  }

  function TableWritten(s: State, id: nat, i: Input, rules: Rules): State {
    Next(Next(Ready(s, id, i, rules), OpenTable(id, i.tableOpens, i.storage), rules), CloseTable(id, i.tableWhole, i.storage), rules)
  }

  function RunAlone(s: State, id: nat, i: Input, rules: Rules): State {
    Next(Next(TableWritten(s, id, i, rules), OpenStamp(id, i.stampOpens, i.storage), rules), CloseStamp(id, i.stampWhole, i.storage), rules)
  }

  function AloneSteps(id: nat, i: Input): seq<Step> {
    [Begin(id, i.force, i.intentional, i.files), ReadCache(id), Decide(id)]
    + ([CheckTracking(id, i.tracking), LoadSkills(id, i.loaded)]
       + ([OpenTable(id, i.tableOpens, i.storage), CloseTable(id, i.tableWhole, i.storage)]
          + [OpenStamp(id, i.stampOpens, i.storage), CloseStamp(id, i.stampWhole, i.storage)]))
  }

  lemma Play2(s: State, a: Step, b: Step, rest: seq<Step>, rules: Rules)
    ensures Play(s, [a, b] + rest, rules) == Play(Next(Next(s, a, rules), b, rules), rest, rules)
  {
    hide Next;
    var steps := [a, b] + rest;
    assert steps[0] == a && steps[1..][0] == b && steps[1..][1..] == rest;
  }

  lemma PlayNothing(s: State, rules: Rules)
    ensures Play(s, [], rules) == s
  {
  }

  /** The nine steps in a row are the run alone. */
  lemma AloneIsPlayed(s: State, id: nat, i: Input, rules: Rules)
    ensures Play(s, AloneSteps(id, i), rules) == RunAlone(s, id, i, rules)
  {
    hide Next, Play;
    var a, b, c := Begin(id, i.force, i.intentional, i.files), ReadCache(id), Decide(id);
    var d, e := CheckTracking(id, i.tracking), LoadSkills(id, i.loaded);
    var f, g := OpenTable(id, i.tableOpens, i.storage), CloseTable(id, i.tableWhole, i.storage);
    var x, y := OpenStamp(id, i.stampOpens, i.storage), CloseStamp(id, i.stampWhole, i.storage);
    assert AloneSteps(id, i) == [a, b] + ([c, d] + ([e, f] + ([g, x] + ([y]))));
    Play2(s, a, b, [c, d] + ([e, f] + ([g, x] + [y])), rules);
    var s2 := Next(Next(s, a, rules), b, rules);
    Play2(s2, c, d, [e, f] + ([g, x] + [y]), rules);
    var s4 := Next(Next(s2, c, rules), d, rules);
    Play2(s4, e, f, [g, x] + [y], rules);
    var s6 := Next(Next(s4, e, rules), f, rules);
    Play2(s6, g, x, [y], rules);
    PlayOne(Next(Next(s6, g, rules), x, rules), y, rules);
  }

  lemma PlayOne(s: State, a: Step, rules: Rules)
    ensures Play(s, [a], rules) == Next(s, a, rules)
  {
    hide Next;
    assert [a][1..] == [];
    PlayNothing(Next(s, a, rules), rules);
  }

  lemma DecidedOutcome(s: State, id: nat, i: Input, rules: Rules)
    requires id !in s.runs && Listed(i.files, rules)
    ensures var s' := Decided(s, id, i, rules);
            && s'.disk == s.disk && id in s'.runs && s'.runs[id].files == i.files
            && s'.runs[id].pc == if !i.force && Cached(s.disk.stamp) == Some(FingerprintOf(i.files)) && s.disk.table.Some? then Done(CacheHit)
                                 else if i.intentional then AtLoading else AtTracking
  {
    hide Listed, TableOf;
  }

  lemma ReadyOutcome(s: State, id: nat, i: Input, rules: Rules)
    requires id !in s.runs && Listed(i.files, rules)
    ensures var d, s' := Decided(s, id, i, rules), Ready(s, id, i, rules);
            && s'.disk == s.disk && id in d.runs && id in s'.runs && s'.runs[id].files == i.files
            && s'.runs[id].pc == (match d.runs[id].pc
                                  case Done(_) => d.runs[id].pc
                                  case AtLoading => AtTable
                                  case _ => match i.tracking
                                            case Untracked => AtTable
                                            case TargetsTracked => Done(TrackedTarget)
                                            case Unverifiable => Done(Threw))
            && (s'.runs[id].pc == AtTable ==> s'.runs[id].loaded == i.loaded)
  {
    DecidedOutcome(s, id, i, rules);
    hide Decided, TableOf, Listed;
  }

  lemma TableSteps(d: State, id: nat, i: Input, rules: Rules)
    requires id in d.runs
    ensures var s' := Next(Next(d, OpenTable(id, i.tableOpens, i.storage), rules), CloseTable(id, i.tableWhole, i.storage), rules);
            && id in s'.runs && s'.runs[id].files == d.runs[id].files && s'.runs[id].loaded == d.runs[id].loaded
            && (d.runs[id].pc.Done? ==> s' == d)
            && (d.runs[id].pc == AtTable ==>
                  && s'.disk == (if !i.tableOpens then d.disk
                                 else d.disk.(table := Some(if i.tableWhole then Whole(TableOf(d.runs[id].loaded, rules)) else Damaged)))
                  && s'.runs[id].pc == if i.tableOpens && i.tableWhole then AtStamp else Done(Fault(i)))
  {
    hide TableOf;
  }

  lemma StampSteps(d: State, id: nat, i: Input, rules: Rules)
    requires id in d.runs
    ensures var s' := Next(Next(d, OpenStamp(id, i.stampOpens, i.storage), rules), CloseStamp(id, i.stampWhole, i.storage), rules);
            && id in s'.runs
            && (d.runs[id].pc.Done? ==> s' == d)
            && (d.runs[id].pc == AtStamp ==>
                  && s'.disk == (if !i.stampOpens then d.disk
                                 else d.disk.(stamp := Some(if i.stampWhole then Stamp(FingerprintOf(d.runs[id].files)) else Unparsable)))
                  && s'.runs[id].pc == Done(if i.stampOpens && i.stampWhole then Regenerated(|TableOf(d.runs[id].loaded, rules)|) else Fault(i)))
  {
    hide TableOf;
  }

  /** The steps of a run alone have the outcome of the program text. */
  lemma AloneOutcome(s: State, id: nat, i: Input, rules: Rules)
    requires id !in s.runs && Listed(i.files, rules)
    ensures var s' := Play(s, AloneSteps(id, i), rules);
            && s'.disk == Outcome(s.disk, i, rules).1
            && id in s'.runs && s'.runs[id].pc == Done(Outcome(s.disk, i, rules).0)
  {
    hide Play, Next, TableOf, Listed, Decided, Ready, AloneSteps;
    AloneIsPlayed(s, id, i, rules);
    DecidedOutcome(s, id, i, rules);
    ReadyOutcome(s, id, i, rules);
    TableSteps(Ready(s, id, i, rules), id, i, rules);
    StampSteps(TableWritten(s, id, i, rules), id, i, rules);
  }

  // ---- The program text ----

  class Registry {
    const rules: Rules

    var table: Option<TableFile>
    var stamp: Option<StampFile>

    ghost var s: State
    ghost var nextRun: nat

    ghost predicate Valid()
      reads this
    {
      && NamesAreOrdered(rules) && PathsAreOrdered(rules)
      && s.disk == Disk(table, stamp) && Inv(s, rules) && forall id :: id in s.runs ==> id < nextRun
    }

    constructor (rules: Rules)
      requires NamesAreOrdered(rules) && PathsAreOrdered(rules)
      ensures Valid() && table.None? && stamp.None? && this.rules == rules
    {
      this.rules := rules;
      table, stamp, s, nextRun := None, None, START, 0;
    }

    /** A run nobody interrupts. */
    method Regenerate(i: Input) returns (result: Result)
      requires Valid() && Listed(i.files, rules)
      modifies this
      ensures Valid()
      ensures s == Play(old(s), AloneSteps(old(nextRun), i), rules)
      ensures (result, Disk(table, stamp)) == Outcome(Disk(old(table), old(stamp)), i, rules)
      ensures result.Regenerated? ==>
                table.Some? && table.value.Whole? && IsTable(Load(i.loaded, rules), table.value.rows, rules)
                && result.skills == |table.value.rows|
    {
      hide Play, Next, Inv, Load, IsTable, Table, NamesAreOrdered, PathsAreOrdered, Listed, AloneSteps;
      TableIsRight(Load(i.loaded, rules), rules);
      PlayKeepsInv(s, AloneSteps(nextRun, i), rules);
      AloneOutcome(s, nextRun, i, rules);
      OnlyOneRunMore(s, nextRun, i, rules);
      s, nextRun := Play(s, AloneSteps(nextRun, i), rules), nextRun + 1;
      var fp := FingerprintOf(i.files);
      var cached := Cached(stamp);
      if !i.force && cached == Some(fp) && table.Some? { return CacheHit; }
      if !i.intentional {
        if i.tracking.Unverifiable? { return Threw; }
        if i.tracking.TargetsTracked? { return TrackedTarget; }
      }
      var rows := DedupeBySkillName(Load(i.loaded, rules), rules);
      if !i.tableOpens { return Fault(i); }
      table := Some(Damaged);
      if !i.tableWhole { return Fault(i); }
      table := Some(Whole(rows));
      if !i.stampOpens { return Fault(i); }
      stamp := Some(Unparsable);
      if !i.stampWhole { return Fault(i); }
      stamp := Some(Stamp(fp));
      return Regenerated(|rows|);
    }

    lemma OnlyOneRunMore(s: State, id: nat, i: Input, rules: Rules)
      ensures Play(s, AloneSteps(id, i), rules).runs.Keys <= s.runs.Keys + {id}
    {
      OnlyOneRunPlayed(s, AloneSteps(id, i), id, rules);
    }
  }

  lemma {:induction false} OnlyOneRunPlayed(s: State, steps: seq<Step>, id: nat, rules: Rules)
    requires forall k :: 0 <= k < |steps| && steps[k].Begin? ==> steps[k].run == id
    ensures Play(s, steps, rules).runs.Keys <= s.runs.Keys + {id}
    decreases |steps|
  {
    hide TableOf, IsHit, Listed;
    if steps != [] { OnlyOneRunPlayed(Next(s, steps[0], rules), steps[1..], id, rules); }
  }

  // ---- Runs after which a hit is wrong ----

  function ExampleRules(): Rules {
    Rules((p, q) => false, (path, text) => Some(Skill("s", path, text)), path => true, (a, b) => true)
  }

  function ExampleFiles(modified: nat, text: string): Files {
    [SkillFile("p", Content(modified, 1, text))]
  }

  /** A run over these files that nothing hinders. */
  function Smooth(files: Files, force: bool): Input {
    Input(force, false, files, files, Untracked, true, true, true, true, false)
  }

  const EMPTY := Disk(None, None)

  /** The table of a single skill. */
  lemma OneSkillTable(skill: Skill, rules: Rules)
    ensures Table([skill], rules) == [skill]
  {
    hide Choice, Insert;
    assert [skill][..0] == [] && Names([skill]) == [skill.name];
    var rows := Rows([skill], rules);
    assert rows[0] in [skill] && rows == [skill];
    assert rows[..0] == [] && SortByName([], rules) == [];
    InsertFirst(skill, rules);
  }

  lemma InsertFirst(skill: Skill, rules: Rules)
    ensures Insert([], skill, rules) == [skill]
  {
  }

  lemma ExampleTable(modified: nat, text: string)
    ensures var files, rules := ExampleFiles(modified, text), ExampleRules();
            Load(files, rules) == [Skill("s", "p", text)] == TableOf(files, rules)
  {
    hide Table;
    var files, rules := ExampleFiles(modified, text), ExampleRules();
    assert files[1..] == [] && Load([], rules) == [];
    OneSkillTable(Skill("s", "p", text), rules);
  }

  lemma ForeignRow(entries: seq<Skill>, rows: seq<Skill>, rules: Rules)
    requires rows != [] && rows[0] !in entries
    ensures !IsTable(entries, rows, rules)
  {
    hide Sorted, OnePerName, IsChoice;
    assert rows[0] in rows;
  }

  /** The two example listings differ in everything. */
  lemma ExampleTablesDiffer()
    ensures var rules := ExampleRules();
            && TableOf(ExampleFiles(2, "y"), rules) != TableOf(ExampleFiles(1, "x"), rules)
            && !IsTable(Load(ExampleFiles(1, "x"), rules), TableOf(ExampleFiles(2, "y"), rules), rules)
            && FingerprintOf(ExampleFiles(1, "x")) != FingerprintOf(ExampleFiles(2, "y"))
  {
    hide Table, IsTable, Load, TableOf, ExampleRules;
    ExampleTable(1, "x");
    ExampleTable(2, "y");
    var x, y := Skill("s", "p", "x"), Skill("s", "p", "y");
    assert "x"[0] == 'x' && "y"[0] == 'y' && x != y;
    ForeignRow([x], [y], ExampleRules());
    assert ExampleFiles(1, "x")[0] in multiset(ExampleFiles(1, "x")) && ExampleFiles(1, "x")[0] !in multiset(ExampleFiles(2, "y"));
  }

  /** A table whose fingerprint could not be written stays, and is taken for that of the old fingerprint's files. */
  lemma HalfWrittenRunMisleads()
    ensures var rules, files, edited := ExampleRules(), ExampleFiles(1, "x"), ExampleFiles(2, "y");
            var first := Outcome(EMPTY, Smooth(files, false), rules).1;
            var second := Outcome(first, Smooth(edited, false).(stampOpens := false), rules).1;
            var (result, disk) := Outcome(second, Smooth(files, false), rules);
            && result == CacheHit && disk.table == Some(Whole(TableOf(edited, rules)))
            && !IsTable(Load(files, rules), TableOf(edited, rules), rules)
  {
    hide TableOf, Load, IsTable, FingerprintOf, ExampleFiles, ExampleRules;
    ExampleTablesDiffer();
  }

  /** A refresh that is forced over unchanged files and cannot finish the table leaves a hit on a damaged file. */
  lemma DamagedTableIsHit(files: Files, rules: Rules)
    ensures var first := Outcome(EMPTY, Smooth(files, false), rules).1;
            var (failed, second) := Outcome(first, Smooth(files, true).(tableWhole := false), rules);
            var (result, disk) := Outcome(second, Smooth(files, false), rules);
            failed == Threw && result == CacheHit && disk.table == Some(Damaged)
  {
    hide TableOf, FingerprintOf;
  }

  /** Files that change between fingerprinting and reading, and change back, leave their passing state in the table. */
  lemma UnsteadyRunMisleads()
    ensures var rules, files, edited := ExampleRules(), ExampleFiles(1, "x"), ExampleFiles(2, "y");
            var first := Outcome(EMPTY, Smooth(files, false).(loaded := edited), rules).1;
            var (result, disk) := Outcome(first, Smooth(files, false), rules);
            && result == CacheHit && disk.table == Some(Whole(TableOf(edited, rules)))
            && !IsTable(Load(files, rules), TableOf(edited, rules), rules)
  {
    hide TableOf, Load, IsTable, FingerprintOf, ExampleFiles, ExampleRules;
    ExampleTablesDiffer();
  }

  // ---- Two runs at once ----

  function Waiting(files: Files): Run { Run(AtTable, false, true, files, None, 0, files, []) }

  /** Up to its first write, a run over an empty directory. */
  function Opening(id: nat, files: Files): seq<Step> {
    [Begin(id, false, true, files), ReadCache(id)] + ([Decide(id), LoadSkills(id, files)] + [])
  }

  lemma OpeningWaits(s: State, id: nat, files: Files, rules: Rules)
    requires id !in s.runs && Listed(files, rules) && s.log == [] && s.disk == Disk(None, None)
    ensures Play(s, Opening(id, files), rules) == s.(runs := s.runs[id := Waiting(files)])
  {
    hide Listed, Play;
    var s1 := Next(s, Begin(id, false, true, files), rules);
    var s2 := Next(s1, ReadCache(id), rules);
    Play2(s, Begin(id, false, true, files), ReadCache(id), [Decide(id), LoadSkills(id, files)] + [], rules);
    Play2(s2, Decide(id), LoadSkills(id, files), [], rules);
    var s4 := Next(Next(s2, Decide(id), rules), LoadSkills(id, files), rules);
    PlayNothing(s4, rules);
    assert s4.runs == s.runs[id := Waiting(files)];
  }

  /** The table of one run, both files of another, and then the fingerprint of the first. */
  function Crossing(a: nat, b: nat): seq<Step> {
    [OpenTable(b, true, false), CloseTable(b, true, false)]
    + ([OpenTable(a, true, false), CloseTable(a, true, false)]
       + ([OpenStamp(a, true, false), CloseStamp(a, true, false)]
          + ([OpenStamp(b, true, false), CloseStamp(b, true, false)] + [])))
  }

  lemma WritesTable(s: State, id: nat, rules: Rules)
    requires id in s.runs && s.runs[id].pc == AtTable
    ensures var s' := Next(Next(s, OpenTable(id, true, false), rules), CloseTable(id, true, false), rules);
            && s'.disk == s.disk.(table := Some(Whole(TableOf(s.runs[id].loaded, rules))))
            && s'.runs.Keys == s.runs.Keys && (forall o :: o in s.runs && o != id ==> s'.runs[o] == s.runs[o])
            && s'.runs[id].pc == AtStamp && s'.runs[id].files == s.runs[id].files
  {
    hide TableOf;
  }

  lemma WritesStamp(s: State, id: nat, rules: Rules)
    requires id in s.runs && s.runs[id].pc == AtStamp
    ensures var s' := Next(Next(s, OpenStamp(id, true, false), rules), CloseStamp(id, true, false), rules);
            && s'.disk == s.disk.(stamp := Some(Stamp(FingerprintOf(s.runs[id].files))))
            && s'.runs.Keys == s.runs.Keys && (forall o :: o in s.runs && o != id ==> s'.runs[o] == s.runs[o])
  {
    hide TableOf;
  }

  lemma CrossingMixes(s: State, a: nat, b: nat, rules: Rules)
    requires a != b && a in s.runs && b in s.runs && s.runs[a].pc == s.runs[b].pc == AtTable
    ensures var s' := Play(s, Crossing(a, b), rules);
            && s'.disk == Disk(Some(Whole(TableOf(s.runs[a].loaded, rules))), Some(Stamp(FingerprintOf(s.runs[b].files))))
            && s'.runs.Keys == s.runs.Keys
  {
    hide Play, Next, TableOf;
    var end := [OpenStamp(b, true, false), CloseStamp(b, true, false)] + [];
    var rest := [OpenStamp(a, true, false), CloseStamp(a, true, false)] + end;
    Play2(s, OpenTable(b, true, false), CloseTable(b, true, false), [OpenTable(a, true, false), CloseTable(a, true, false)] + rest, rules);
    WritesTable(s, b, rules);
    var s1 := Next(Next(s, OpenTable(b, true, false), rules), CloseTable(b, true, false), rules);
    Play2(s1, OpenTable(a, true, false), CloseTable(a, true, false), rest, rules);
    WritesTable(s1, a, rules);
    var s2 := Next(Next(s1, OpenTable(a, true, false), rules), CloseTable(a, true, false), rules);
    Play2(s2, OpenStamp(a, true, false), CloseStamp(a, true, false), end, rules);
    WritesStamp(s2, a, rules);
    var s3 := Next(Next(s2, OpenStamp(a, true, false), rules), CloseStamp(a, true, false), rules);
    Play2(s3, OpenStamp(b, true, false), CloseStamp(b, true, false), [], rules);
    WritesStamp(s3, b, rules);
    PlayNothing(Next(Next(s3, OpenStamp(b, true, false), rules), CloseStamp(b, true, false), rules), rules);
  }

  lemma {:induction false} PlayConcat(s: State, a: seq<Step>, b: seq<Step>, rules: Rules)
    ensures Play(s, a + b, rules) == Play(Play(s, a, rules), b, rules)
    decreases |a|
  {
    hide Next;
    if a == [] {
      assert a + b == b;
    } else {
      assert (a + b)[0] == a[0] && (a + b)[1..] == a[1..] + b;
      PlayConcat(Next(s, a[0], rules), a[1..], b, rules);
    }
  }

  /**
   * Two runs at once: one fingerprinted files that were edited before the
   * other did. When their writes cross, every later run over the edited files
   * hits the table of the old ones.
   */
  lemma CrossedRunsMislead() returns (steps: seq<Step>)
    ensures var s := Play(START, steps, ExampleRules());
            && HitsNow(s, 2) && s.runs[2].files == ExampleFiles(1, "x") && !IsRight(s, 2, ExampleRules())
  {
    hide Play, Next, TableOf, Load, IsTable, Opening, Crossing;
    var rules := ExampleRules();
    var stale, edited := ExampleFiles(2, "y"), ExampleFiles(1, "x");
    ExampleTablesDiffer();
    var last := [Begin(2, false, false, edited), ReadCache(2)] + [];
    steps := Opening(0, stale) + (Opening(1, edited) + (Crossing(0, 1) + last));
    OpeningWaits(START, 0, stale, rules);
    var s1 := Play(START, Opening(0, stale), rules);
    OpeningWaits(s1, 1, edited, rules);
    var s2 := Play(s1, Opening(1, edited), rules);
    CrossingMixes(s2, 0, 1, rules);
    var s3 := Play(s2, Crossing(0, 1), rules);
    PlayConcat(START, Opening(0, stale), Opening(1, edited) + (Crossing(0, 1) + last), rules);
    PlayConcat(s1, Opening(1, edited), Crossing(0, 1) + last, rules);
    PlayConcat(s2, Crossing(0, 1), last, rules);
    Play2(s3, Begin(2, false, false, edited), ReadCache(2), [], rules);
    ReaderHits(s3, 2, edited, rules);
    PlayNothing(Next(Next(s3, Begin(2, false, false, edited), rules), ReadCache(2), rules), rules);
  }

  lemma ReaderHits(s: State, id: nat, files: Files, rules: Rules)
    requires id !in s.runs && Listed(files, rules) && s.disk.table.Some? && s.disk.stamp == Some(Stamp(FingerprintOf(files)))
    ensures var s' := Next(Next(s, Begin(id, false, false, files), rules), ReadCache(id), rules);
            HitsNow(s', id) && s'.runs[id].files == files && s'.disk == s.disk
  {
    hide Listed;
  }
}
