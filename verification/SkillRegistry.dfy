/**
 * The table of the skill registry and the fingerprint of the files it is
 * computed from. How both get to disk is the subject of `RegistryRuns`.
 */
module SkillRegistry {
  import opened Seqs
  import opened Wrappers

  datatype Skill = Skill(name: string, path: string, description: string)

  /** What is found at a skill's path. */
  datatype FileState = Missing | Unreadable | Content(modified: nat, size: nat, text: string)
  datatype SkillFile = SkillFile(path: string, state: FileState)

  /**
   * What the searching, parsing and comparing of the program amount to: the
   * order in which files are listed, the skill a file declares, whether a path
   * lies in the project, and the order of names.
   */
  datatype Rules = Rules(
    before: (string, string) -> bool,
    load: (string, string) -> Option<Skill>,
    inProject: string -> bool,
    leq: (string, string) -> bool)

  /** Names can be sorted. */
  ghost predicate NamesAreOrdered(rules: Rules) {
    && (forall a, b :: rules.leq(a, b) || rules.leq(b, a))
    && (forall a, b, c :: rules.leq(a, b) && rules.leq(b, c) ==> rules.leq(a, c))
  }

  /** Files are listed in one order, whatever order the directories name them in. */
  ghost predicate PathsAreOrdered(rules: Rules) {
    && (forall p :: !rules.before(p, p))
    && (forall p, q, r :: rules.before(p, q) && rules.before(q, r) ==> rules.before(p, r))
  }

  lemma PathOrder(rules: Rules, p: string, q: string)
    requires PathsAreOrdered(rules)
    ensures !(rules.before(p, q) && rules.before(q, p))
  {
  }

  lemma NameOrder(rules: Rules, a: string, b: string, c: string)
    requires NamesAreOrdered(rules)
    ensures rules.leq(a, b) || rules.leq(b, a)
    ensures rules.leq(a, b) && rules.leq(b, c) ==> rules.leq(a, c)
  {
  }

  // ---- The table ----

  /** The skills the files declare, in the order of the files. */
  function Load(files: seq<SkillFile>, rules: Rules): seq<Skill> {
    if files == [] then []
    else
      var f := files[0];
      (if f.state.Content? && rules.load(f.path, f.state.text).Some? then [rules.load(f.path, f.state.text).value] else [])
      + Load(files[1..], rules)
  }

  /** Each file that could be read and declares a skill adds that skill, in its place; no other file adds anything. */
  lemma {:induction false} LoadExactly(front: seq<SkillFile>, file: SkillFile, back: seq<SkillFile>, rules: Rules)
    ensures Load(front + ([file] + back), rules)
         == Load(front, rules)
            + ((match file.state
                case Content(_, _, text) => if rules.load(file.path, text).Some? then [rules.load(file.path, text).value] else []
                case _ => [])
               + Load(back, rules))
    ensures Load([], rules) == []
  {
    if front == [] {
      assert front + ([file] + back) == [file] + back && ([file] + back)[1..] == back;
      var rest := Load([file] + back, rules);
      assert [] + rest == rest;
    } else {
      assert (front + ([file] + back))[1..] == front[1..] + ([file] + back);
      LoadExactly(front[1..], file, back, rules);
    }
  }

  /** The names, each where it occurs first. */
  function Names(entries: seq<Skill>): seq<string> {
    if entries == [] then []
    else
      var names, last := Names(entries[..|entries| - 1]), entries[|entries| - 1].name;
      if last in names then names else names + [last]
  }

  /** A candidate for a name; when `scoped`, only inside the project. */
  predicate IsFor(e: Skill, name: string, scoped: bool, rules: Rules) {
    e.name == name && (scoped ==> rules.inProject(e.path))
  }

  predicate FirstAt(entries: seq<Skill>, i: nat, name: string, scoped: bool, rules: Rules) {
    i < |entries| && IsFor(entries[i], name, scoped, rules) && forall j :: 0 <= j < i ==> !IsFor(entries[j], name, scoped, rules)
  }

  ghost predicate HasProjectSkill(entries: seq<Skill>, name: string, rules: Rules) {
    exists e :: e in entries && IsFor(e, name, true, rules)
  }

  /** The first candidate inside the project, and failing that the first of all. */
  ghost predicate IsChoice(entries: seq<Skill>, row: Skill, rules: Rules) {
    exists i: nat :: FirstAt(entries, i, row.name, HasProjectSkill(entries, row.name, rules), rules) && entries[i] == row
  }

  predicate Sorted(rows: seq<Skill>, rules: Rules) {
    forall i, j :: 0 <= i < j < |rows| ==> rules.leq(rows[i].name, rows[j].name)
  }

  predicate OnePerName(rows: seq<Skill>) {
    forall i, j :: 0 <= i < j < |rows| ==> rows[i].name != rows[j].name
  }

  /** What the table of some entries should be. */
  ghost predicate IsTable(entries: seq<Skill>, rows: seq<Skill>, rules: Rules) {
    && Sorted(rows, rules) && OnePerName(rows)
    && (forall e :: e in entries ==> exists r :: r in rows && r.name == e.name)
    && (forall r :: r in rows ==> r in entries && IsChoice(entries, r, rules))
  }

  lemma {:induction false} NamesOf(entries: seq<Skill>)
    ensures forall e :: e in entries ==> e.name in Names(entries)
    ensures forall name :: name in Names(entries) ==> exists e :: e in entries && e.name == name
    ensures Distinct(Names(entries))
  {
    if entries != [] {
      var rest, last := entries[..|entries| - 1], entries[|entries| - 1];
      NamesOf(rest);
      assert entries == rest + [last];
      forall name | name in Names(entries)
        ensures exists e :: e in entries && e.name == name
      {
        if name in Names(rest) {
          var e :| e in rest && e.name == name;
          assert e in entries;
        } else {
          assert last in entries;
        }
      }
    }
  }

  function FirstFor(entries: seq<Skill>, name: string, scoped: bool, rules: Rules): (r: Option<Skill>)
    ensures r.None? ==> forall e :: e in entries ==> !IsFor(e, name, scoped, rules)
    ensures r.Some? ==> r.value in entries && IsFor(r.value, name, scoped, rules)
  {
    if entries == [] then None
    else if IsFor(entries[0], name, scoped, rules) then Some(entries[0])
    else FirstFor(entries[1..], name, scoped, rules)
  }

  lemma {:induction false} FirstForIsFirst(entries: seq<Skill>, name: string, scoped: bool, rules: Rules)
    requires FirstFor(entries, name, scoped, rules).Some?
    ensures exists i: nat :: FirstAt(entries, i, name, scoped, rules)
                             && entries[i] == FirstFor(entries, name, scoped, rules).value
  {
    if IsFor(entries[0], name, scoped, rules) {
      assert FirstAt(entries, 0, name, scoped, rules);
    } else {
      FirstForIsFirst(entries[1..], name, scoped, rules);
      var i: nat :| FirstAt(entries[1..], i, name, scoped, rules)
                    && entries[1..][i] == FirstFor(entries[1..], name, scoped, rules).value;
      assert forall j :: 0 < j <= i ==> entries[j] == entries[1..][j - 1];
      assert FirstAt(entries, i + 1, name, scoped, rules);
    }
  }

  /** The row of a name that occurs. */
  function Choice(entries: seq<Skill>, name: string, rules: Rules): (r: Skill)
    requires name in Names(entries)
    ensures r in entries && r.name == name
  {
    NamesOf(entries);
    match FirstFor(entries, name, true, rules)
    case Some(row) => row
    case None =>
      assert exists e :: e in entries && IsFor(e, name, false, rules);
      FirstFor(entries, name, false, rules).value
  }

  lemma ChoiceIsRight(entries: seq<Skill>, name: string, rules: Rules)
    requires name in Names(entries)
    ensures IsChoice(entries, Choice(entries, name, rules), rules)
  {
    NamesOf(entries);
    var scoped := FirstFor(entries, name, true, rules).Some?;
    assert scoped <==> HasProjectSkill(entries, name, rules);
    FirstForIsFirst(entries, name, scoped, rules);
  }

  /** Puts a row behind those that do not come after it, as a stable sort does. */
  function Insert(rows: seq<Skill>, r: Skill, rules: Rules): (all: seq<Skill>)
    ensures multiset(all) == multiset(rows) + multiset{r}
  {
    if rows == [] || rules.leq(rows[|rows| - 1].name, r.name) then rows + [r]
    else
      var last := |rows| - 1;
      assert rows == rows[..last] + [rows[last]];
      Insert(rows[..last], r, rules) + [rows[last]]
  }

  function SortByName(rows: seq<Skill>, rules: Rules): (all: seq<Skill>)
    ensures multiset(all) == multiset(rows)
  {
    if rows == [] then []
    else
      var last := |rows| - 1;
      assert rows == rows[..last] + [rows[last]];
      Insert(SortByName(rows[..last], rules), rows[last], rules)
  }

  lemma {:induction false} InsertSorts(rows: seq<Skill>, r: Skill, rules: Rules)
    requires NamesAreOrdered(rules) && Sorted(rows, rules)
    ensures Sorted(Insert(rows, r, rules), rules)
  {
    hide NamesAreOrdered;
    if rows == [] { return; }
    var last := |rows| - 1;
    var end := rows[last].name;
    if rules.leq(end, r.name) {
      forall x | x in rows
        ensures rules.leq(x.name, r.name)
      {
        var i :| 0 <= i < |rows| && rows[i] == x;
        if i < last { NameOrder(rules, x.name, end, r.name); }
      }
    } else {
      NameOrder(rules, end, r.name, r.name);
      InsertSorts(rows[..last], r, rules);
      var front := Insert(rows[..last], r, rules);
      forall x | x in front
        ensures rules.leq(x.name, end)
      {
        assert x in multiset(front);
        assert x == r || x in rows[..last];
      }
    }
  }

  lemma {:induction false} SortSorts(rows: seq<Skill>, rules: Rules)
    requires NamesAreOrdered(rules)
    ensures Sorted(SortByName(rows, rules), rules)
  {
    hide NamesAreOrdered;
    if rows != [] {
      var last := |rows| - 1;
      SortSorts(rows[..last], rules);
      InsertSorts(SortByName(rows[..last], rules), rows[last], rules);
    }
  }

  /** One row for each name, in the order of the names' first occurrences. */
  function Rows(entries: seq<Skill>, rules: Rules): (rows: seq<Skill>)
    ensures |rows| == |Names(entries)|
    ensures forall i :: 0 <= i < |rows| ==> rows[i].name == Names(entries)[i] && rows[i] in entries
  {
    NamesOf(entries);
    seq(|Names(entries)|, i requires 0 <= i < |Names(entries)| => Choice(entries, Names(entries)[i], rules))
  }

  lemma RowsAreDistinct(entries: seq<Skill>, rules: Rules)
    ensures OnePerName(Rows(entries, rules))
    ensures forall i :: 0 <= i < |Names(entries)| ==> Rows(entries, rules)[i] == Choice(entries, Names(entries)[i], rules)
  {
    NamesOf(entries);
  }

  function Table(entries: seq<Skill>, rules: Rules): seq<Skill> { SortByName(Rows(entries, rules), rules) }

  lemma DistinctIsPermuted(rows: seq<Skill>, all: seq<Skill>)
    requires OnePerName(rows) && multiset(all) == multiset(rows)
    ensures OnePerName(all)
  {
    forall i, j | 0 <= i < j < |all| && all[i].name == all[j].name
      ensures false
    {
      var x, y := all[i], all[j];
      assert x in multiset(all) && y in multiset(all);
      assert x in rows && y in rows;
      assert x == y;
      assert all == all[..j] + [all[j]] + all[j + 1..];
      assert multiset(all) == multiset(all[..j]) + multiset{x} + multiset(all[j + 1..]);
      assert x in all[..j];
      assert multiset(rows)[x] >= 2;
      AtMostOnce(rows, x);
    }
  }

  lemma {:induction false} AtMostOnce(rows: seq<Skill>, x: Skill)
    requires OnePerName(rows)
    ensures multiset(rows)[x] <= 1
  {
    if rows != [] {
      AtMostOnce(rows[1..], x);
      assert rows == [rows[0]] + rows[1..];
      if x == rows[0] { assert forall r :: r in rows[1..] ==> r != x; }
    }
  }

  lemma SameMembers(rows: seq<Skill>, all: seq<Skill>)
    requires multiset(all) == multiset(rows)
    ensures forall r :: r in all <==> r in rows
  {
    assert forall r :: r in all <==> r in multiset(all);
    assert forall r :: r in rows <==> r in multiset(rows);
  }

  lemma RowsAreRight(entries: seq<Skill>, rules: Rules)
    ensures forall r :: r in Rows(entries, rules) ==> r in entries && IsChoice(entries, r, rules)
    ensures forall e :: e in entries ==> exists r :: r in Rows(entries, rules) && r.name == e.name
  {
    hide Choice, IsChoice, Names;
    var rows := Rows(entries, rules);
    NamesOf(entries);
    RowsAreDistinct(entries, rules);
    forall r | r in rows
      ensures r in entries && IsChoice(entries, r, rules)
    {
      var i :| 0 <= i < |rows| && rows[i] == r;
      ChoiceIsRight(entries, Names(entries)[i], rules);
    }
    forall e | e in entries
      ensures exists r :: r in rows && r.name == e.name
    {
      var i :| 0 <= i < |rows| && Names(entries)[i] == e.name;
      assert rows[i] in rows;
    }
  }

  lemma MovedRowsAreRight(entries: seq<Skill>, rows: seq<Skill>, all: seq<Skill>, rules: Rules)
    requires Sorted(all, rules) && OnePerName(all)
    requires forall r :: r in all <==> r in rows
    requires forall r :: r in rows ==> r in entries && IsChoice(entries, r, rules)
    requires forall e :: e in entries ==> exists r :: r in rows && r.name == e.name
    ensures IsTable(entries, all, rules)
  {
    hide Sorted, OnePerName, IsChoice;
    forall e | e in entries
      ensures exists r :: r in all && r.name == e.name
    {
      var r :| r in rows && r.name == e.name;
      assert r in all;
    }
  }

  /** Every name has one row, the project's where there is one, and the rows are in order. */
  lemma TableIsRight(entries: seq<Skill>, rules: Rules)
    requires NamesAreOrdered(rules)
    ensures IsTable(entries, Table(entries, rules), rules)
  {
    hide NamesAreOrdered, IsChoice, SortByName, Rows, Sorted, OnePerName, Names, IsTable;
    var rows := Rows(entries, rules);
    RowsAreRight(entries, rules);
    RowsAreDistinct(entries, rules);
    SortSorts(rows, rules);
    DistinctIsPermuted(rows, SortByName(rows, rules));
    SameMembers(rows, SortByName(rows, rules));
    MovedRowsAreRight(entries, rows, SortByName(rows, rules), rules);
  }

  /** The row at `i` is the one its name gets: the first in the project if the name has one there, else the first. */
  ghost predicate IsPicked(entries: seq<Skill>, i: nat, rules: Rules)
    requires i < |entries|
  {
    if exists e :: e in entries && e.name == entries[i].name && rules.inProject(e.path) then
      rules.inProject(entries[i].path)
      && forall j :: 0 <= j < i && entries[j].name == entries[i].name ==> !rules.inProject(entries[j].path)
    else forall j :: 0 <= j < i ==> entries[j].name != entries[i].name
  }

  /** The table in terms of the entries alone: strictly ordered names, all of them, each with its row. */
  lemma TableExactly(entries: seq<Skill>, rules: Rules)
    requires NamesAreOrdered(rules)
    ensures var table := Table(entries, rules);
            && (forall i, j :: 0 <= i < j < |table| ==> rules.leq(table[i].name, table[j].name) && table[i].name != table[j].name)
            && (forall e :: e in entries ==> exists r :: r in table && r.name == e.name)
            && (forall r :: r in table ==> exists i: nat :: i < |entries| && entries[i] == r && IsPicked(entries, i, rules))
  {
    hide Table, NamesAreOrdered, IsChoice, IsPicked;
    TableIsRight(entries, rules);
    forall r | r in Table(entries, rules)
      ensures exists i: nat :: i < |entries| && entries[i] == r && IsPicked(entries, i, rules)
    {
      var i := ChoiceIsPicked(entries, r, rules);
    }
  }

  lemma ChoiceIsPicked(entries: seq<Skill>, r: Skill, rules: Rules) returns (i: nat)
    requires IsChoice(entries, r, rules)
    ensures i < |entries| && entries[i] == r && IsPicked(entries, i, rules)
  {
    i :| FirstAt(entries, i, r.name, HasProjectSkill(entries, r.name, rules), rules) && entries[i] == r;
    if e :| e in entries && e.name == r.name && rules.inProject(e.path) {
      assert IsFor(e, r.name, true, rules);
    }
  }

  // ---- Computing the rows with one bucket a name ----

  function Bucket(entries: seq<Skill>, name: string): seq<Skill> {
    if entries == [] then []
    else Bucket(entries[..|entries| - 1], name) + if entries[|entries| - 1].name == name then [entries[|entries| - 1]] else []
  }

  lemma {:induction false} FirstForAppend(entries: seq<Skill>, e: Skill, name: string, scoped: bool, rules: Rules)
    ensures FirstFor(entries + [e], name, scoped, rules) ==
            if FirstFor(entries, name, scoped, rules).Some? then FirstFor(entries, name, scoped, rules)
            else if IsFor(e, name, scoped, rules) then Some(e) else None
  {
    if entries == [] {
      assert [] + [e] == [e];
    } else {
      assert (entries + [e])[1..] == entries[1..] + [e];
      FirstForAppend(entries[1..], e, name, scoped, rules);
    }
  }

  /** A bucket decides as all entries do. */
  lemma {:induction false} BucketDecides(entries: seq<Skill>, name: string, scoped: bool, rules: Rules)
    ensures FirstFor(Bucket(entries, name), name, scoped, rules) == FirstFor(entries, name, scoped, rules)
  {
    if entries != [] {
      var rest, last := entries[..|entries| - 1], entries[|entries| - 1];
      assert entries == rest + [last];
      BucketDecides(rest, name, scoped, rules);
      FirstForAppend(rest, last, name, scoped, rules);
      FirstForAppend(Bucket(rest, name), last, name, scoped, rules);
      if last.name != name { assert Bucket(rest, name) + [] == Bucket(rest, name); }
    }
  }

  /** A bucket's first member is its first candidate. */
  lemma {:induction false} BucketHead(entries: seq<Skill>, name: string, rules: Rules)
    ensures forall e :: e in Bucket(entries, name) ==> e.name == name
    ensures Bucket(entries, name) != [] ==>
              FirstFor(Bucket(entries, name), name, false, rules) == Some(Bucket(entries, name)[0])
    ensures Bucket(entries, name) == [] <==> name !in Names(entries)
  {
    if entries != [] {
      BucketHead(entries[..|entries| - 1], name, rules);
    }
  }

  lemma NothingYet(entries: seq<Skill>)
    ensures Names(entries[..0]) == []
  {
  }

  lemma BucketsGrow(entries: seq<Skill>, i: nat, name: string)
    requires i < |entries|
    ensures Names(entries[..i + 1]) == if entries[i].name in Names(entries[..i]) then Names(entries[..i])
                                       else Names(entries[..i]) + [entries[i].name]
    ensures Bucket(entries[..i + 1], name) == Bucket(entries[..i], name) + if entries[i].name == name then [entries[i]] else []
  {
    assert entries[..i + 1][..i] == entries[..i];
  }

  lemma BucketChooses(entries: seq<Skill>, name: string, rules: Rules)
    requires name in Names(entries)
    ensures var bucket := Bucket(entries, name);
            var projectScoped := FirstFor(bucket, name, true, rules);
            bucket != [] && Choice(entries, name, rules) == if projectScoped.Some? then projectScoped.value else bucket[0]
  {
    hide FirstFor;
    BucketDecides(entries, name, true, rules);
    BucketDecides(entries, name, false, rules);
    BucketHead(entries, name, rules);
  }

  method DedupeBySkillName(entries: seq<Skill>, rules: Rules) returns (table: seq<Skill>)
    ensures table == Table(entries, rules)
  {
    hide FirstFor, SortByName, Bucket, Names, Choice, Rows;
    NothingYet(entries);
    var names: seq<string> := [];
    var buckets: map<string, seq<Skill>> := map[];
    var i := 0;
    while i < |entries|
      invariant 0 <= i <= |entries|
      invariant names == Names(entries[..i])
      invariant forall n :: n in buckets <==> n in names
      invariant forall n :: n in buckets ==> buckets[n] == Bucket(entries[..i], n)
    {
      var entry := entries[i];
      BucketHead(entries[..i], entry.name, rules);
      forall n { BucketsGrow(entries, i, n); }
      var bucket := if entry.name in buckets then buckets[entry.name] else [];
      if entry.name !in buckets { names := names + [entry.name]; }
      buckets := buckets[entry.name := bucket + [entry]];
      i := i + 1;
    }
    assert entries[..i] == entries;
    RowsAreDistinct(entries, rules);
    var rows: seq<Skill> := [];
    var k := 0;
    while k < |names|
      invariant 0 <= k <= |names|
      invariant rows == Rows(entries, rules)[..k]
    {
      var bucket := buckets[names[k]];
      BucketChooses(entries, names[k], rules);
      var projectScoped := FirstFor(bucket, names[k], true, rules);
      rows := rows + [if projectScoped.Some? then projectScoped.value else bucket[0]];
      k := k + 1;
    }
    assert rows == Rows(entries, rules);
    table := SortByName(rows, rules);
  }

  // ---- The fingerprint ----

  /** The fingerprint identifies every file's path, stamp and contents, but not the order of the files. */
  type Fingerprint(==) = multiset<SkillFile>

  function FingerprintOf(files: seq<SkillFile>): Fingerprint { multiset(files) }

  predicate Listed(files: seq<SkillFile>, rules: Rules) {
    forall i, j :: 0 <= i < j < |files| ==> rules.before(files[i].path, files[j].path)
  }

  lemma FirstOfSame(f: seq<SkillFile>, g: seq<SkillFile>, rules: Rules)
    requires PathsAreOrdered(rules) && Listed(f, rules) && Listed(g, rules)
    requires f != [] && g != [] && f[0] in g && g[0] in f
    ensures f[0] == g[0]
  {
    hide PathsAreOrdered;
    var i :| 0 <= i < |g| && g[i] == f[0];
    var j :| 0 <= j < |f| && f[j] == g[0];
    PathOrder(rules, f[0].path, g[0].path);
  }

  lemma Tail(f: seq<SkillFile>, rules: Rules)
    requires f != [] && Listed(f, rules)
    ensures multiset(f[1..]) == multiset(f) - multiset{f[0]} && Listed(f[1..], rules)
  {
    assert f == [f[0]] + f[1..];
  }

  /** Files with one fingerprint are listed alike, so their tables are the same. */
  lemma {:induction false} FingerprintDetermines(f: seq<SkillFile>, g: seq<SkillFile>, rules: Rules)
    requires PathsAreOrdered(rules) && Listed(f, rules) && Listed(g, rules)
    requires FingerprintOf(f) == FingerprintOf(g)
    ensures f == g
  {
    hide PathsAreOrdered, Listed;
    assert |multiset(f)| == |f| && |multiset(g)| == |g|;
    if f != [] {
      assert f[0] in multiset(f) && g[0] in multiset(g);
      assert f[0] in g && g[0] in f;
      FirstOfSame(f, g, rules);
      Tail(f, rules);
      Tail(g, rules);
      FingerprintDetermines(f[1..], g[1..], rules);
      assert f == [f[0]] + f[1..] && g == [g[0]] + g[1..];
    }
  }
}
