/**
 * The temporary directory of a session: the temp variables are pointed at a
 * directory of its own and put back when it ends, a ledger on disk outlives the
 * process, and a sweep removes what ended sessions left behind.
 */
module SessionScratch {
  import opened Seqs
  import opened Text
  import opened Wrappers

  /** An absolute path, symbolic links followed, by its components. */
  type Path(==) = seq<string>

  predicate Within(p: Path, dir: Path) { dir <= p }

  predicate IsAlphanumeric(c: char) { 'A' <= c <= 'Z' || 'a' <= c <= 'z' || '0' <= c <= '9' }

  predicate IsMadeFrom(prefix: string, name: string) {
    |name| == |prefix| + 6 && prefix <= name && forall c :: c in name[|prefix|..] ==> IsAlphanumeric(c)
  }

  predicate IsScratchName(name: string) { IsMadeFrom("gp", name) }
  predicate IsSubagentName(name: string) { IsMadeFrom("ga", name) }

  const ARTIFACTS_CAP: nat := 64
  const TMPDIR := "TMPDIR"

  /** The values of the temp variables, absent ones included. */
  type Variables = map<string, Option<string>>

  datatype Ledger = Ledger(
    sessionId: string,
    pid: nat,
    token: Option<string>,
    tempRoot: Option<Path>,
    inherited: Variables,
    scratchDir: Option<Path>,
    artifacts: seq<Path>)

  datatype Active = Active(sessionId: string, path: string, ledger: Ledger)

  datatype Removal = Removed | Absent | Kept | Refused

  datatype Created = Created(path: string, realPath: Path)

  /** What the operating system answers during one event. */
  datatype World = World(
    alive: nat -> bool,
    token: nat -> Option<string>,
    intact: Path -> bool,
    create: string -> Option<Created>,
    subagents: set<Path>,
    recent: string -> bool)

  /** A process identifier alone does not make a ledger live: it may have been given out again. */
  predicate IsLive(l: Ledger, w: World) {
    w.alive(l.pid) && (l.token.None? || w.token(l.pid).None? || w.token(l.pid) == l.token)
  }

  /** A ledger is dead when its process is, or when another process has its identifier now. */
  lemma DeadExactly(l: Ledger, w: World)
    ensures !IsLive(l, w) <==>
            !w.alive(l.pid) || exists mine: string, now: string :: l.token == Some(mine) && w.token(l.pid) == Some(now) && mine != now
  {
    if w.alive(l.pid) && l.token.Some? && w.token(l.pid).Some? {
      assert l.token == Some(l.token.value) && w.token(l.pid) == Some(w.token(l.pid).value);
    }
  }

  // ---- Removing a scratch directory ----

  /** The recorded directory is one this runtime makes, where it makes them. */
  predicate Trusted(l: Ledger, ownRoot: Option<Path>, home: Path) {
    && l.scratchDir.Some?
    && var dir := l.scratchDir.value;
    && dir != [] && IsScratchName(dir[|dir| - 1])
    && l.tempRoot == Some(dir[..|dir| - 1])
    && (Within(dir[..|dir| - 1], home) ==> l.tempRoot == ownRoot)
  }

  ghost predicate Holds(dir: Path, kept: set<Path>) { exists h :: h in kept && Within(h, dir) }

  /** The entry of `dir` through which `p` is reached. */
  function EntryOf(p: Path, dir: Path): (r: Path)
    requires Within(p, dir) && p != dir
    ensures Within(p, r) && Within(r, dir) && |r| == |dir| + 1
  {
    p[..|dir| + 1]
  }

  /** Without live subagents everything goes; otherwise the entries that hold none and are not theirs. */
  ghost predicate Goes(p: Path, dir: Path, subagents: set<Path>, files: set<Path>) {
    && Within(p, dir)
    && (Holds(dir, subagents) ==>
          && p != dir && EntryOf(p, dir) in files
          && !IsSubagentName(EntryOf(p, dir)[|dir|]) && !Holds(EntryOf(p, dir), subagents))
  }

  ghost function Outcome(files: set<Path>, l: Ledger, held: set<Path>, ownRoot: Option<Path>, home: Path, w: World)
    : (Removal, set<Path>)
  {
    if l.scratchDir.None? || !Trusted(l, ownRoot, home) then (Refused, files)
    else
      var dir := l.scratchDir.value;
      if dir !in files then (Absent, files)
      else if !w.intact(dir) then (Refused, files)
      else if Holds(dir, held) then (Kept, files)
      else
        var left := set p | p in files && !Goes(p, dir, w.subagents, files);
        (if exists p :: p in files && !Goes(p, dir, w.subagents, files) && Within(p, dir) && |p| == |dir| + 1
         then Kept else Removed, left)
  }

  function Entries(files: set<Path>, dir: Path): set<Path> {
    set p | p in files && Within(p, dir) && |p| == |dir| + 1
  }

  /** Going through the entries one by one leaves what the reference says is left. */
  lemma SubagentsStay(files: set<Path>, dir: Path, subagents: set<Path>, gone: set<Path>)
    requires Holds(dir, subagents)
    requires forall e :: e in gone <==> e in Entries(files, dir) && !IsSubagentName(e[|dir|]) && !Holds(e, subagents)
    ensures (set p | p in files && !(Within(p, dir) && p != dir && EntryOf(p, dir) in gone))
         == set p | p in files && !Goes(p, dir, subagents, files)
    ensures Entries(files, dir) == gone <==>
            !exists p :: p in files && !Goes(p, dir, subagents, files) && Within(p, dir) && |p| == |dir| + 1
  {
    hide IsSubagentName;
    forall p | p in files && Within(p, dir) && p != dir
      ensures EntryOf(p, dir) in gone <==> Goes(p, dir, subagents, files)
      ensures |p| == |dir| + 1 ==> EntryOf(p, dir) == p && p in Entries(files, dir)
    {
    }
    assert forall e :: e in Entries(files, dir) ==> (e in gone <==> Goes(e, dir, subagents, files));
  }

  /** The name the runtime gives the directory of a session. */
  lemma ScratchNameExactly(name: string)
    ensures IsScratchName(name) <==>
            && |name| == 8 && name[0] == 'g' && name[1] == 'p'
            && forall k :: 2 <= k < 8 ==> 'A' <= name[k] <= 'Z' || 'a' <= name[k] <= 'z' || '0' <= name[k] <= '9'
  {
    if |name| == 8 {
      var rest := name[|"gp"|..];
      assert "gp" <= name <==> name[0] == "gp"[0] && name[1] == "gp"[1];
      assert forall k :: 2 <= k < 8 ==> name[k] == rest[k - 2] && name[k] in rest;
      assert forall c :: c in rest ==> exists k :: 2 <= k < 8 && name[k] == c;
    }
  }

  /** The recorded directory lies directly under the recorded root and is named as the runtime names one. */
  lemma TrustedExactly(l: Ledger, ownRoot: Option<Path>, home: Path)
    ensures Trusted(l, ownRoot, home) <==>
            exists root: Path, name: string ::
              && l.tempRoot == Some(root) && l.scratchDir == Some(root + [name])
              && |name| == 8 && name[0] == 'g' && name[1] == 'p'
              && (forall k :: 2 <= k < 8 ==> 'A' <= name[k] <= 'Z' || 'a' <= name[k] <= 'z' || '0' <= name[k] <= '9')
              && (Within(root, home) ==> ownRoot == Some(root))
  {
    hide IsScratchName;
    if l.scratchDir.Some? && l.scratchDir.value != [] { ScratchNameExactly(l.scratchDir.value[|l.scratchDir.value| - 1]); }
    if Trusted(l, ownRoot, home) {
      var dir := l.scratchDir.value;
      var root, name := dir[..|dir| - 1], dir[|dir| - 1];
      assert dir == root + [name];
    }
    forall root: Path, name: string |
      && l.tempRoot == Some(root) && l.scratchDir == Some(root + [name])
      && |name| == 8 && name[0] == 'g' && name[1] == 'p'
      && (forall k :: 2 <= k < 8 ==> 'A' <= name[k] <= 'Z' || 'a' <= name[k] <= 'z' || '0' <= name[k] <= '9')
      && (Within(root, home) ==> ownRoot == Some(root))
      ensures Trusted(l, ownRoot, home)
    {
      assert (root + [name])[..|root|] == root;
    }
  }

  /** Exactly what a removal takes: everything in a directory it may remove, but beside live subagents only what is not theirs. */
  lemma RemovalExactly(files: set<Path>, l: Ledger, held: set<Path>, ownRoot: Option<Path>, home: Path, w: World, p: Path)
    requires p in files
    ensures p !in Outcome(files, l, held, ownRoot, home, w).1 <==>
            && Trusted(l, ownRoot, home)
            && var dir := l.scratchDir.value;
            && dir in files && w.intact(dir) && Within(p, dir) && (forall h :: h in held ==> !Within(h, dir))
            && (|| (forall h :: h in w.subagents ==> !Within(h, dir))
                || (&& p != dir && EntryOf(p, dir) in files && !IsSubagentName(EntryOf(p, dir)[|dir|])
                    && forall h :: h in w.subagents ==> !Within(h, EntryOf(p, dir))))
  {
    hide IsSubagentName;
  }

  /** What a removal answers: refused, absent, kept for what is held or for what is left of the entries, or removed. */
  lemma AnswerExactly(files: set<Path>, l: Ledger, held: set<Path>, ownRoot: Option<Path>, home: Path, w: World)
    ensures var answer := Outcome(files, l, held, ownRoot, home, w).0;
            var trusted := Trusted(l, ownRoot, home);
            && (answer == Refused <==> !trusted || (l.scratchDir.value in files && !w.intact(l.scratchDir.value)))
            && (answer == Absent <==> trusted && l.scratchDir.value !in files)
            && (answer == Kept <==>
                  && trusted
                  && var dir := l.scratchDir.value;
                  && dir in files && w.intact(dir)
                  && (|| (exists h :: h in held && Within(h, dir))
                      || (&& (exists h :: h in w.subagents && Within(h, dir))
                          && exists e :: e in files && Within(e, dir) && |e| == |dir| + 1
                               && (IsSubagentName(e[|dir|]) || exists h :: h in w.subagents && Within(h, e)))))
  {
    hide IsSubagentName;
    if Trusted(l, ownRoot, home) {
      var dir := l.scratchDir.value;
      forall e | e in files && Within(e, dir) && |e| == |dir| + 1
        ensures EntryOf(e, dir) == e
      {
      }
    }
  }

  /** The name the runtime gives the directory of a subagent. */
  lemma SubagentNameExactly(name: string)
    ensures IsSubagentName(name) <==>
            && |name| == 8 && name[0] == 'g' && name[1] == 'a'
            && forall k :: 2 <= k < 8 ==> 'A' <= name[k] <= 'Z' || 'a' <= name[k] <= 'z' || '0' <= name[k] <= '9'
  {
    if |name| == 8 {
      var rest := name[|"ga"|..];
      assert "ga" <= name <==> name[0] == "ga"[0] && name[1] == "ga"[1];
      assert forall k :: 2 <= k < 8 ==> name[k] == rest[k - 2] && name[k] in rest;
      assert forall c :: c in rest ==> exists k :: 2 <= k < 8 && name[k] == c;
    }
  }

  /** A path that contains what must be kept is never removed, whatever the ledger says. */
  lemma RemovalKeepsHeld(files: set<Path>, l: Ledger, held: set<Path>, ownRoot: Option<Path>, home: Path, w: World,
                         p: Path, h: Path)
    requires p in files && Within(h, p) && (h in held || h in w.subagents)
    ensures p in Outcome(files, l, held, ownRoot, home, w).1
  {
    if l.scratchDir.Some? && Within(p, l.scratchDir.value) {
      var dir := l.scratchDir.value;
      assert Within(h, dir);
      if h in w.subagents && p != dir { assert Within(h, EntryOf(p, dir)); }
    }
  }

  /** Only what lies in the ledger's directory goes, and only when none of what is held lies there. */
  lemma RemovalIsConfined(files: set<Path>, l: Ledger, held: set<Path>, ownRoot: Option<Path>, home: Path, w: World)
    ensures forall p :: p in files && p !in Outcome(files, l, held, ownRoot, home, w).1 ==>
                          Trusted(l, ownRoot, home) && Within(p, l.scratchDir.value) && !Holds(l.scratchDir.value, held)
    ensures Outcome(files, l, held, ownRoot, home, w).1 <= files
  {
  }

  /** The live scratch directories that removal through the ledger at `path` must leave alone. */
  function LiveElsewhere(disk: map<string, Ledger>, own: Option<Active>, path: string, w: World): set<Path> {
    (set q | q in disk && q != path && disk[q].scratchDir.Some? && IsLive(disk[q], w) :: disk[q].scratchDir.value)
    + if own.Some? && own.value.path != path && own.value.ledger.scratchDir.Some?
      then {own.value.ledger.scratchDir.value} else {}
  }

  function Paths(s: seq<Path>): set<Path> { set p | p in s }

  // ---- The temp variables ----

  function Snapshot(env: map<string, string>, keys: set<string>): (r: Variables)
    ensures r.Keys == keys
  {
    map k | k in keys :: if k in env then Some(env[k]) else None
  }

  /** An environment with these values, and otherwise as it was. */
  function With(env: map<string, string>, values: Variables): (r: map<string, string>) {
    (env - values.Keys) + map k | k in values && values[k].Some? :: values[k].value
  }

  lemma WithReadsBack(env: map<string, string>, values: Variables)
    ensures Snapshot(With(env, values), values.Keys) == values
    ensures With(env, values) - values.Keys == env - values.Keys
  {
  }

  /** Which directories this process's temp directory lies in. */
  predicate PointsInto(value: Option<string>, dir: Path, realOf: string -> Option<Path>, resolved: string -> Path) {
    && value.Some? && !IsBlank(value.value)
    && (Within(resolved(value.value), dir)
        || (realOf(value.value).Some? && Within(realOf(value.value).value, dir)))
  }

  // ---- What the ledger remembers ----

  function Newest(artifacts: seq<Path>): seq<Path> {
    if |artifacts| <= ARTIFACTS_CAP then artifacts else artifacts[|artifacts| - ARTIFACTS_CAP..]
  }

  /** The oldest entries give way, and only as many as there are too many. */
  lemma NewestIsTheEnd(artifacts: seq<Path>)
    ensures |Newest(artifacts)| == if |artifacts| <= 64 then |artifacts| else 64
    ensures forall k :: 0 <= k < |Newest(artifacts)| ==> Newest(artifacts)[k] == artifacts[|artifacts| - |Newest(artifacts)| + k]
  {
  }

  /** The record after a command created these directories. */
  function Recording(artifacts: seq<Path>, created: seq<Path>, guarded: set<Path>): seq<Path> {
    if created == [] then artifacts
    else
      var before := Recording(artifacts, created[..|created| - 1], guarded);
      var p := created[|created| - 1];
      if p == [] || (exists d :: d in guarded && Within(d, p)) || p in before then before else before + [p]
  }

  predicate NoDuplicates(s: seq<Path>) { forall i, j :: 0 <= i < j < |s| ==> s[i] != s[j] }

  /** Nothing is recorded twice, forgotten before the cap, or recorded that leads to a guarded directory. */
  lemma {:induction false} RecordingIsExact(artifacts: seq<Path>, created: seq<Path>, guarded: set<Path>, p: Path)
    ensures artifacts <= Recording(artifacts, created, guarded)
    ensures p in Recording(artifacts, created, guarded) <==>
            p in artifacts || (p in created && p != [] && forall d :: d in guarded ==> !Within(d, p))
    ensures NoDuplicates(artifacts) ==> NoDuplicates(Recording(artifacts, created, guarded))
  {
    if created != [] {
      var rest, last := created[..|created| - 1], created[|created| - 1];
      RecordingIsExact(artifacts, rest, guarded, p);
      RecordingIsExact(artifacts, rest, guarded, last);
      assert created == rest + [last];
    }
  }

  /** The ledger file after a session was recorded: it is absent when there is nothing to remember. */
  function Persisted(disk: map<string, Ledger>, path: string, ledger: Ledger): map<string, Ledger> {
    if ledger.scratchDir.None? && ledger.artifacts == [] then disk - {path} else disk[path := ledger]
  }

  /** What removal leaves in the ledger. */
  function AfterRemoval(l: Ledger, removal: Removal): Ledger {
    if removal == Removed || removal == Absent then l.(scratchDir := None) else l
  }

  /**
   * A ledger forgets its directory exactly if the directory was gone, or had
   * nothing in it to keep and none of its entries is left; beside a live
   * subagent whose own directory is missing the emptied directory itself stays.
   */
  lemma ForgottenExactly(files: set<Path>, l: Ledger, held: set<Path>, ownRoot: Option<Path>, home: Path, w: World)
    requires l.scratchDir.Some?
    ensures var (removal, left) := Outcome(files, l, held, ownRoot, home, w);
            var dir := l.scratchDir.value;
            AfterRemoval(l, removal)
            == if Trusted(l, ownRoot, home)
                  && (dir !in files
                      || (w.intact(dir) && (forall h :: h in held ==> !Within(h, dir))
                          && forall e :: e in left ==> !(Within(e, dir) && |e| == |dir| + 1)))
               then l.(scratchDir := None) else l
  {
    hide Trusted, IsSubagentName;
    AnswerExactly(files, l, held, ownRoot, home, w);
    var dir := l.scratchDir.value;
    forall e | e in files && Within(e, dir) && |e| == |dir| + 1
      ensures e !in Outcome(files, l, held, ownRoot, home, w).1 <==>
              (&& Trusted(l, ownRoot, home) && dir in files && w.intact(dir) && (forall h :: h in held ==> !Within(h, dir))
               && (|| (forall h :: h in w.subagents ==> !Within(h, dir))
                   || (!IsSubagentName(e[|dir|]) && forall h :: h in w.subagents ==> !Within(h, e))))
    {
      RemovalExactly(files, l, held, ownRoot, home, w, e);
      assert EntryOf(e, dir) == e;
    }
  }

  /** The artifacts that are still there. */
  function Present(paths: seq<Path>, files: set<Path>): (r: seq<Path>)
    ensures forall a :: a in r <==> a in paths && a in files
  {
    FilterMembers(paths, p => p in files);
    Filter(paths, p => p in files)
  }

  class Runtime {
    const pid: nat
    const keys: set<string>
    const home: Path
    /** The home, configuration and working directories. */
    const guarded: set<Path>
    const defaultTmp: string

    /** File names and the paths behind them; all of these read a value without its surrounding blanks. */
    const realOf: string -> Option<Path>
    const resolved: string -> Path
    const namesScratch: string -> bool
    const parent: string -> string
    const ledgerPath: string -> string

    var env: map<string, string>
    var active: Option<Active>
    var disk: map<string, Ledger>
    var files: set<Path>

    /** The temp variables before this process first changed them. */
    ghost const original: Variables

    ghost predicate WorldIsSane(w: World) {
      forall base :: w.create(base).Some? ==> IsNewUnder(w.create(base).value, base)
    }

    /** A directory made under a temp root is one component longer, and the temp root does not lie in it. */
    ghost predicate IsNewUnder(c: Created, base: string) {
      && realOf(base).Some? && c.realPath != [] && c.realPath[..|c.realPath| - 1] == realOf(base).value
      && !Within(resolved(base), c.realPath)
    }

    ghost predicate Outside(l: Ledger) {
      l.scratchDir.Some? && TMPDIR in original ==> !PointsInto(original[TMPDIR], l.scratchDir.value, realOf, resolved)
    }

    /** The ledger file is written through, and absent when there is nothing to remember. */
    ghost predicate Recorded(a: Active)
      reads this
    {
      if a.ledger.scratchDir.None? && a.ledger.artifacts == [] then a.path !in disk
      else a.path in disk && disk[a.path] == a.ledger
    }

    /** The temp directory this process started with lies in no directory its ledgers record. */
    ghost predicate Base()
      reads this
    {
      && TMPDIR in keys && original.Keys == keys
      && (forall v :: namesScratch(v) ==> parent(v) != v)
      && (forall q :: q in disk && disk[q].pid == pid ==> Outside(disk[q]))
    }

    /** A session knows the original values, and without one the variables have them. */
    ghost predicate Knows(a: Active)
      reads this
    {
      && a.path == ledgerPath(a.sessionId) && Recorded(a)
      && a.ledger.pid == pid && a.ledger.inherited == original && Outside(a.ledger)
      && (a.ledger.scratchDir.None? ==> Snapshot(env, keys) == original)
    }

    ghost predicate Valid()
      reads this
    {
      Base() && if active.Some? then Knows(active.value) else Snapshot(env, keys) == original
    }

    constructor (pid: nat, keys: set<string>, home: Path, guarded: set<Path>, defaultTmp: string,
                 realOf: string -> Option<Path>, resolved: string -> Path,
                 namesScratch: string -> bool, parent: string -> string, ledgerPath: string -> string,
                 env: map<string, string>, disk: map<string, Ledger>, files: set<Path>)
      requires TMPDIR in keys
      requires forall v :: namesScratch(v) ==> parent(v) != v
      requires forall q :: q in disk && disk[q].pid == pid && disk[q].scratchDir.Some? ==>
                             !PointsInto(if TMPDIR in env then Some(env[TMPDIR]) else None, disk[q].scratchDir.value, realOf, resolved)
      ensures Valid() && active.None? && original == Snapshot(env, keys)
      ensures this.pid == pid && this.keys == keys && this.namesScratch == namesScratch && this.parent == parent
      ensures this.env == env && this.disk == disk
    {
      this.pid, this.keys, this.home, this.guarded, this.defaultTmp := pid, keys, home, guarded, defaultTmp;
      this.realOf, this.resolved, this.namesScratch, this.parent := realOf, resolved, namesScratch, parent;
      this.ledgerPath := ledgerPath;
      this.env, this.active, this.disk, this.files := env, None, disk, files;
      original := Snapshot(env, keys);
    }

    /** The real path of the temp directory this process has now. */
    function TempRoot(): (r: Option<Path>)
      reads this
      ensures r == realOf(if TMPDIR !in env || IsBlank(env[TMPDIR]) then defaultTmp else env[TMPDIR])
    {
      realOf(if TMPDIR in env && !IsBlank(env[TMPDIR]) then env[TMPDIR] else defaultTmp)
    }

    /** The temp root the asking session trusts inside the home. */
    function OwnRoot(): (r: Option<Path>)
      reads this
      ensures active.Some? && active.value.ledger.tempRoot.Some? ==> r == active.value.ledger.tempRoot
      ensures active.None? || active.value.ledger.tempRoot.None? ==> r == TempRoot()
    {
      if active.Some? && active.value.ledger.tempRoot.Some? then active.value.ledger.tempRoot
      else TempRoot()
    }

    /** Puts the recorded values back, one variable after the other. */
    method Restore(values: Variables)
      modifies `env
      ensures env == With(old(env), values)
    {
      var left := values.Keys;
      while left != {}
        invariant left <= values.Keys
        invariant forall k :: k !in values || k in left ==> (k in env <==> k in old(env)) && (k in env ==> env[k] == old(env)[k])
        invariant forall k :: k in values && k !in left ==> (k in env <==> values[k].Some?) && (k in env ==> env[k] == values[k].value)
        decreases left
      {
        var key :| key in left;
        if values[key].None? { env := env - {key}; } else { env := env[key := values[key].value]; }
        left := left - {key};
      }
    }

    method Persist(path: string, ledger: Ledger)
      modifies `disk
      ensures disk == Persisted(old(disk), path, ledger)
      ensures path in disk <==> ledger.scratchDir.Some? || ledger.artifacts != []
      ensures path in disk ==> disk[path] == ledger
      ensures forall q :: q != path ==> (q in disk <==> q in old(disk)) && (q in disk ==> disk[q] == old(disk)[q])
    {
      if ledger.scratchDir.None? && |ledger.artifacts| == 0 { disk := disk - {path}; } else { disk := disk[path := ledger]; }
    }

    method RemoveSessionScratch(l: Ledger, held: set<Path>, ownRoot: Option<Path>, w: World) returns (removal: Removal)
      modifies `files
      ensures (removal, files) == Outcome(old(files), l, held, ownRoot, home, w)
    {
      hide Trusted, IsSubagentName;
      if l.scratchDir.None? || !Trusted(l, ownRoot, home) { return Refused; }
      var dir := l.scratchDir.value;
      if dir !in files { return Absent; }
      if !w.intact(dir) { return Refused; }
      if exists h :: h in held && Within(h, dir) { return Kept; }
      if !exists h :: h in w.subagents && Within(h, dir) {
        files := set p | p in files && !Within(p, dir);
        assert files == Outcome(old(files), l, held, ownRoot, home, w).1;
        return Removed;
      }
      var entries := Entries(files, dir);
      var gone := set e | e in entries && !IsSubagentName(e[|dir|]) && !exists h :: h in w.subagents && Within(h, e);
      SubagentsStay(files, dir, w.subagents, gone);
      files := set p | p in files && !(Within(p, dir) && p != dir && EntryOf(p, dir) in gone);
      removal := if entries == gone then Removed else Kept;
    }

    /** What the sweep may take: a directory an ended session recorded, not held by it any more. */
    ghost predicate IsSwept(p: Path, q: string, ownPath: string, w: World,
                            before: map<string, Ledger>, ownRoot: Option<Path>, left: set<Path>)
    {
      && q in before && q != ownPath && !IsLive(before[q], w) && !w.recent(q)
      && Trusted(before[q], ownRoot, home) && Within(p, before[q].scratchDir.value)
      && forall a :: a in before[q].artifacts && Within(a, before[q].scratchDir.value) ==> a !in left
    }

    /** The scratch directories of live sessions, this one included, and of live subagents. */
    ghost predicate InUse(h: Path, w: World, ledgers: map<string, Ledger>, own: Option<Active>) {
      || h in w.subagents
      || (own.Some? && own.value.ledger.scratchDir == Some(h))
      || exists q :: q in ledgers && IsLive(ledgers[q], w) && ledgers[q].scratchDir == Some(h)
    }

    /** A ledger may forget what is gone, and nothing else. */
    ghost predicate OnlyForgets(before: map<string, Ledger>, after: map<string, Ledger>, left: set<Path>) {
      && (forall q :: q in after ==> q in before && KeepsEntry(before[q], after[q]))
      && (forall q, a :: q in before && a in before[q].artifacts && a in left ==> q in after && a in after[q].artifacts)
    }

    ghost predicate KeepsEntry(before: Ledger, after: Ledger) {
      && (after.scratchDir == before.scratchDir || after.scratchDir.None?)
      && (forall a :: a in after.artifacts ==> a in before.artifacts)
      && after == before.(scratchDir := after.scratchDir, artifacts := after.artifacts)
    }

    /** The directory of an ended session, in which nothing lies that must be kept. */
    ghost predicate IsLeftBehind(q: string, ownPath: string, w: World, ledgers: map<string, Ledger>, ownRoot: Option<Path>, now: set<Path>)
      reads this`active
    {
      && q in ledgers && q != ownPath && !IsLive(ledgers[q], w) && !w.recent(q)
      && Trusted(ledgers[q], ownRoot, home)
      && var dir := ledgers[q].scratchDir.value;
      && w.intact(dir)
      && (forall a :: a in ledgers[q].artifacts && a in now ==> !Within(a, dir))
      && (forall h :: h in LiveElsewhere(ledgers, active, q, w) || h in w.subagents ==> !Within(h, dir))
    }

    /** Nothing of it is left, and the ledger does not mention it any more. */
    ghost predicate IsCleared(q: string, ledgers: map<string, Ledger>, now: map<string, Ledger>, was: set<Path>, left: set<Path>)
    {
      && q in ledgers && ledgers[q].scratchDir.Some?
      && var dir := ledgers[q].scratchDir.value;
      && dir !in left && (dir in was ==> forall p :: p in was && Within(p, dir) ==> p !in left)
      && (q in now ==> now[q].scratchDir.None?)
    }

    /** What goes takes everything in it along. */
    ghost predicate GoesWhole(was: set<Path>, left: set<Path>) {
      forall d, p :: d in was && d !in left && p in was && Within(p, d) ==> p !in left
    }

    lemma RemovalGoesWhole(was: set<Path>, now: set<Path>, l: Ledger, held: set<Path>, ownRoot: Option<Path>, w: World)
      requires GoesWhole(was, now) && now <= was
      ensures GoesWhole(was, Outcome(now, l, held, ownRoot, home, w).1)
    {
      hide Trusted, IsSubagentName;
      var left := Outcome(now, l, held, ownRoot, home, w).1;
      forall d, p | d in was && d !in left && p in was && Within(p, d)
        ensures p !in left
      {
        RemovalIsConfined(now, l, held, ownRoot, home, w);
        if d in now && p in now {
          RemovalExactly(now, l, held, ownRoot, home, w, d);
          RemovalExactly(now, l, held, ownRoot, home, w, p);
          var dir := l.scratchDir.value;
          if d != dir { assert EntryOf(p, dir) == EntryOf(d, dir); }
        }
      }
    }

    /** A directory that was left behind is cleared when its turn comes. */
    lemma LeftBehindGoes(q: string, ownPath: string, w: World, ledgers: map<string, Ledger>, ownRoot: Option<Path>,
                         was: set<Path>, now: set<Path>, held: set<Path>)
      requires IsLeftBehind(q, ownPath, w, ledgers, ownRoot, was) && now <= was && GoesWhole(was, now)
      requires forall h :: h in held ==> (h in ledgers[q].artifacts && h in now) || h in LiveElsewhere(ledgers, active, q, w)
      ensures var (removal, left) := Outcome(now, ledgers[q], held, ownRoot, home, w);
              var dir := ledgers[q].scratchDir.value;
              && (removal == Removed || removal == Absent)
              && dir !in left && (dir in was ==> forall p :: p in was && Within(p, dir) ==> p !in left)
    {
      hide IsSubagentName, IsLive, LiveElsewhere, IsScratchName;
      var l := ledgers[q];
      var dir := l.scratchDir.value;
      RemovalIsConfined(now, l, held, ownRoot, home, w);
      forall p | p in now && Within(p, dir) && dir in now
        ensures p !in Outcome(now, l, held, ownRoot, home, w).1
      {
        RemovalExactly(now, l, held, ownRoot, home, w, p);
      }
      AnswerExactly(now, l, held, ownRoot, home, w);
    }

    /** Removing through the ledger of an ended session; without a directory there is nothing to remove. */
    ghost function SweptRemoval(l: Ledger, now: set<Path>, others: set<Path>, ownRoot: Option<Path>, w: World): (Removal, set<Path>) {
      if l.scratchDir.None? then (Absent, now)
      else Outcome(now, l, Paths(Present(l.artifacts, now)) + others, ownRoot, home, w)
    }

    ghost function SweptLedger(l: Ledger, now: set<Path>, others: set<Path>, ownRoot: Option<Path>, w: World): Ledger {
      AfterRemoval(l, SweptRemoval(l, now, others, ownRoot, w).0).(artifacts := Present(l.artifacts, now))
    }

    /** Clears what one ended session left. */
    method SweepOne(path: string, l: Ledger, others: set<Path>, ownRoot: Option<Path>, w: World)
      modifies `files, `disk
      ensures files == SweptRemoval(l, old(files), others, ownRoot, w).1
      ensures disk == Persisted(old(disk), path, SweptLedger(l, old(files), others, ownRoot, w))
    {
      hide Outcome;
      var artifacts := Present(l.artifacts, files);
      var removal := Absent;
      if l.scratchDir.Some? { removal := RemoveSessionScratch(l, Paths(artifacts) + others, ownRoot, w); }
      Persist(path, AfterRemoval(l, removal).(artifacts := artifacts));
    }

    lemma SweptIsConfined(l: Ledger, now: set<Path>, others: set<Path>, ownRoot: Option<Path>, w: World)
      ensures var left := SweptRemoval(l, now, others, ownRoot, w).1;
              && left <= now
              && (forall p, h :: p in now && Within(h, p) && (h in others || h in w.subagents) ==> p in left)
              && (forall p :: p in now && p !in left ==>
                    && Trusted(l, ownRoot, home) && Within(p, l.scratchDir.value)
                    && forall a :: a in l.artifacts && Within(a, l.scratchDir.value) ==> a !in left)
    {
      hide Trusted, Goes, Outcome;
      if l.scratchDir.Some? {
        var held := Paths(Present(l.artifacts, now)) + others;
        forall p, h | p in now && Within(h, p) && (h in held || h in w.subagents)
          ensures p in Outcome(now, l, held, ownRoot, home, w).1
        {
          RemovalKeepsHeld(now, l, held, ownRoot, home, w, p, h);
        }
        RemovalIsConfined(now, l, held, ownRoot, home, w);
      }
    }

    lemma SweptHere(p: Path, q: string, ownPath: string, w: World, ledgers: map<string, Ledger>, ownRoot: Option<Path>, left: set<Path>)
      requires q in ledgers && q != ownPath && !IsLive(ledgers[q], w) && !w.recent(q)
      requires Trusted(ledgers[q], ownRoot, home) && Within(p, ledgers[q].scratchDir.value)
      requires forall a :: a in ledgers[q].artifacts && Within(a, ledgers[q].scratchDir.value) ==> a !in left
      ensures IsSwept(p, q, ownPath, w, ledgers, ownRoot, left)
    {
    }

    lemma SweptStays(p: Path, q: string, ownPath: string, w: World, ledgers: map<string, Ledger>, ownRoot: Option<Path>,
                     before: set<Path>, left: set<Path>)
      requires IsSwept(p, q, ownPath, w, ledgers, ownRoot, before) && left <= before
      ensures IsSwept(p, q, ownPath, w, ledgers, ownRoot, left)
    {
      hide Trusted, IsLive;
    }

    /** What is in use is held from every ledger that is neither live nor this session's. */
    lemma OthersAreInUse(path: string, ledgers: map<string, Ledger>, w: World)
      requires path in ledgers && !IsLive(ledgers[path], w) && active.Some? && active.value.path != path
      ensures forall h :: InUse(h, w, ledgers, active) ==> h in LiveElsewhere(ledgers, active, path, w) || h in w.subagents
    {
      hide IsLive;
    }

    // What a sweep that has been through all ledgers but `left` has made of the files.

    ghost predicate FilesSwept(ledgers: map<string, Ledger>, ownPath: string, ownRoot: Option<Path>, w: World, was: set<Path>, now: set<Path>)
      reads this`active
    {
      && now <= was && GoesWhole(was, now)
      && (forall p, h :: p in was && Within(h, p) && InUse(h, w, ledgers, active) ==> p in now)
      && (forall p :: p in was && p !in now ==> exists q :: IsSwept(p, q, ownPath, w, ledgers, ownRoot, now))
    }

    ghost predicate LedgersSwept(ledgers: map<string, Ledger>, left: set<string>, ownPath: string, w: World,
                                 disk: map<string, Ledger>, was: set<Path>, now: set<Path>) {
      && OnlyForgets(ledgers, disk, now)
      && (forall q :: q in disk && q !in left && q != ownPath && !IsLive(disk[q], w) && !w.recent(q) ==>
            forall a :: a in disk[q].artifacts ==> a in was)
      && forall q :: q in ledgers && (q in left || q == ownPath || IsLive(ledgers[q], w) || w.recent(q)) ==>
                       q in disk && disk[q] == ledgers[q]
    }

    ghost predicate AllCleared(ledgers: map<string, Ledger>, left: set<string>, ownPath: string, ownRoot: Option<Path>, w: World,
                               disk: map<string, Ledger>, was: set<Path>, now: set<Path>)
      reads this`active
    {
      forall q :: q in ledgers && q !in left && IsLeftBehind(q, ownPath, w, ledgers, ownRoot, was) ==>
                    IsCleared(q, ledgers, disk, was, now)
    }

    lemma FilesStep(ledgers: map<string, Ledger>, path: string, ownPath: string, ownRoot: Option<Path>, w: World, was: set<Path>, now: set<Path>)
      requires FilesSwept(ledgers, ownPath, ownRoot, w, was, now) && active.Some? && active.value.path == ownPath
      requires path in ledgers && path != ownPath && !IsLive(ledgers[path], w) && !w.recent(path)
      ensures FilesSwept(ledgers, ownPath, ownRoot, w, was,
                         SweptRemoval(ledgers[path], now, LiveElsewhere(ledgers, active, path, w), ownRoot, w).1)
    {
      hide Trusted, IsLive, Outcome, LiveElsewhere, InUse, IsSwept, GoesWhole;
      var l, others := ledgers[path], LiveElsewhere(ledgers, active, path, w);
      var left := SweptRemoval(l, now, others, ownRoot, w).1;
      SweptIsConfined(l, now, others, ownRoot, w);
      OthersAreInUse(path, ledgers, w);
      if l.scratchDir.Some? { RemovalGoesWhole(was, now, l, Paths(Present(l.artifacts, now)) + others, ownRoot, w); }
      forall p | p in was && p !in left
        ensures exists q :: IsSwept(p, q, ownPath, w, ledgers, ownRoot, left)
      {
        if p in now {
          SweptHere(p, path, ownPath, w, ledgers, ownRoot, left);
        } else {
          var q :| IsSwept(p, q, ownPath, w, ledgers, ownRoot, now);
          SweptStays(p, q, ownPath, w, ledgers, ownRoot, now, left);
        }
      }
    }

    lemma LedgersStep(ledgers: map<string, Ledger>, left: set<string>, path: string, ownPath: string, ownRoot: Option<Path>, w: World,
                      disk: map<string, Ledger>, was: set<Path>, now: set<Path>, others: set<Path>)
      requires now <= was && LedgersSwept(ledgers, left, ownPath, w, disk, was, now) && path in left && path in ledgers
      requires path != ownPath && !IsLive(ledgers[path], w) && !w.recent(path)
      ensures LedgersSwept(ledgers, left - {path}, ownPath, w,
                           Persisted(disk, path, SweptLedger(ledgers[path], now, others, ownRoot, w)), was,
                           SweptRemoval(ledgers[path], now, others, ownRoot, w).1)
    {
      hide Trusted, IsLive, Outcome, Present;
      var l := ledgers[path];
      SweptIsConfined(l, now, others, ownRoot, w);
      var after := Persisted(disk, path, SweptLedger(l, now, others, ownRoot, w));
      assert KeepsEntry(l, SweptLedger(l, now, others, ownRoot, w));
      assert forall q :: q != path ==> (q in after <==> q in disk) && (q in after ==> after[q] == disk[q]);
    }

    lemma ClearedStep(ledgers: map<string, Ledger>, left: set<string>, path: string, ownPath: string, ownRoot: Option<Path>, w: World,
                      disk: map<string, Ledger>, was: set<Path>, now: set<Path>)
      requires AllCleared(ledgers, left, ownPath, ownRoot, w, disk, was, now) && path in ledgers
      requires now <= was && GoesWhole(was, now)
      ensures var others := LiveElsewhere(ledgers, active, path, w);
              AllCleared(ledgers, left - {path}, ownPath, ownRoot, w,
                         Persisted(disk, path, SweptLedger(ledgers[path], now, others, ownRoot, w)), was,
                         SweptRemoval(ledgers[path], now, others, ownRoot, w).1)
    {
      hide Trusted, IsLive, Outcome, LiveElsewhere, GoesWhole, IsLeftBehind, Present;
      var l, others := ledgers[path], LiveElsewhere(ledgers, active, path, w);
      SweptIsConfined(l, now, others, ownRoot, w);
      if IsLeftBehind(path, ownPath, w, ledgers, ownRoot, was) {
        LeftBehindGoes(path, ownPath, w, ledgers, ownRoot, was, now, Paths(Present(l.artifacts, now)) + others);
        IsTrusted(path, ownPath, w, ledgers, ownRoot, was);
      }
    }

    lemma NothingToClear(ledgers: map<string, Ledger>, left: set<string>, path: string, ownPath: string, ownRoot: Option<Path>, w: World,
                         disk: map<string, Ledger>, was: set<Path>, now: set<Path>)
      requires AllCleared(ledgers, left, ownPath, ownRoot, w, disk, was, now) && path in ledgers
      requires path == ownPath || IsLive(ledgers[path], w) || w.recent(path)
      ensures AllCleared(ledgers, left - {path}, ownPath, ownRoot, w, disk, was, now)
    {
      if IsLeftBehind(path, ownPath, w, ledgers, ownRoot, was) { IsTrusted(path, ownPath, w, ledgers, ownRoot, was); }
    }

    lemma NothingGone(was: set<Path>)
      ensures GoesWhole(was, was)
    {
    }

    lemma IsTrusted(q: string, ownPath: string, w: World, ledgers: map<string, Ledger>, ownRoot: Option<Path>, now: set<Path>)
      requires IsLeftBehind(q, ownPath, w, ledgers, ownRoot, now)
      ensures q in ledgers && ledgers[q].scratchDir.Some? && q != ownPath && !IsLive(ledgers[q], w) && !w.recent(q)
    {
    }

    /** A sweep over these ledgers and files has been: it took from ended sessions only, cleared what they left, and forgot what is gone. */
    ghost predicate HasSwept(w: World, ledgers: map<string, Ledger>, was: set<Path>)
      requires active.Some?
      reads this
    {
      var path := active.value.path;
      && files <= was
      && (forall p :: p in was && p !in files ==> exists q :: IsSwept(p, q, path, w, ledgers, OwnRoot(), files))
      && (forall q :: q in ledgers && IsLeftBehind(q, path, w, ledgers, OwnRoot(), was) ==> IsCleared(q, ledgers, disk, was, files))
      && OnlyForgets(ledgers, disk, files)
    }

    /** The sweep at the start of a session, over the ledgers as they are when it begins. */
    method Sweep(ownPath: string, w: World)
      requires active.Some? && active.value.path == ownPath
      modifies `files, `disk
      ensures files <= old(files)
      ensures forall p, h :: p in old(files) && Within(h, p) && InUse(h, w, old(disk), active) ==> p in files
      ensures forall p :: p in old(files) && p !in files ==>
                            exists q :: IsSwept(p, q, ownPath, w, old(disk), old(OwnRoot()), files)
      ensures forall q :: q in old(disk) && IsLeftBehind(q, ownPath, w, old(disk), old(OwnRoot()), old(files)) ==>
                            IsCleared(q, old(disk), disk, old(files), files)
      ensures OnlyForgets(old(disk), disk, files) && HasSwept(w, old(disk), old(files))
      ensures forall q :: q in disk && q != ownPath && !IsLive(disk[q], w) && !w.recent(q) ==>
                            forall a :: a in disk[q].artifacts ==> a in old(files)
      ensures forall q :: q in old(disk) && (q == ownPath || IsLive(old(disk)[q], w) || w.recent(q)) ==>
                            q in disk && disk[q] == old(disk)[q]
      ensures ownPath in disk ==> ownPath in old(disk)
    {
      hide IsLive, Trusted, Present, LiveElsewhere, IsSwept, InUse, Outcome, GoesWhole, IsLeftBehind, SweptRemoval, SweptLedger, IsCleared;
      NothingGone(files);
      var ledgers := disk;
      var ownRoot := OwnRoot();
      var left := ledgers.Keys;
      while left != {}
        invariant left <= ledgers.Keys
        invariant FilesSwept(ledgers, ownPath, ownRoot, w, old(files), files)
        invariant LedgersSwept(ledgers, left, ownPath, w, disk, old(files), files)
        invariant AllCleared(ledgers, left, ownPath, ownRoot, w, disk, old(files), files)
        decreases left
      {
        hide FilesSwept, LedgersSwept, AllCleared;
        var path :| path in left;
        var l := ledgers[path];
        if path != ownPath && !IsLive(l, w) && !w.recent(path) {
          var others := LiveElsewhere(ledgers, active, path, w);
          WithinWas(ledgers, ownPath, ownRoot, w, old(files), files);
          FilesStep(ledgers, path, ownPath, ownRoot, w, old(files), files);
          LedgersStep(ledgers, left, path, ownPath, ownRoot, w, disk, old(files), files, others);
          ClearedStep(ledgers, left, path, ownPath, ownRoot, w, disk, old(files), files);
          SweepOne(path, l, others, ownRoot, w);
        } else {
          NothingToClear(ledgers, left, path, ownPath, ownRoot, w, disk, old(files), files);
          FewerLeft(ledgers, left, path, ownPath, w, disk, old(files), files);
        }
        left := left - {path};
      }
      assert OwnRoot() == ownRoot;
      Finished(ledgers, ownPath, ownRoot, w, old(files));
    }

    lemma Finished(ledgers: map<string, Ledger>, ownPath: string, ownRoot: Option<Path>, w: World, was: set<Path>)
      requires active.Some? && active.value.path == ownPath && ownRoot == OwnRoot()
      requires FilesSwept(ledgers, ownPath, ownRoot, w, was, files) && LedgersSwept(ledgers, {}, ownPath, w, disk, was, files)
      requires AllCleared(ledgers, {}, ownPath, ownRoot, w, disk, was, files)
      ensures HasSwept(w, ledgers, was)
    {
      hide IsSwept, IsLeftBehind, IsCleared, OnlyForgets, OwnRoot, IsLive;
      forall q | q in ledgers && IsLeftBehind(q, ownPath, w, ledgers, ownRoot, was)
        ensures IsCleared(q, ledgers, disk, was, files)
      {
        assert q !in {};
      }
    }

    lemma WithinWas(ledgers: map<string, Ledger>, ownPath: string, ownRoot: Option<Path>, w: World, was: set<Path>, now: set<Path>)
      requires FilesSwept(ledgers, ownPath, ownRoot, w, was, now)
      ensures now <= was && GoesWhole(was, now)
    {
    }

    lemma FewerLeft(ledgers: map<string, Ledger>, left: set<string>, path: string, ownPath: string, w: World,
                    disk: map<string, Ledger>, was: set<Path>, now: set<Path>)
      requires LedgersSwept(ledgers, left, ownPath, w, disk, was, now) && path in ledgers
      requires path == ownPath || IsLive(ledgers[path], w) || w.recent(path)
      ensures LedgersSwept(ledgers, left - {path}, ownPath, w, disk, was, now)
    {
      hide IsLive;
    }

    lemma ElsewhereIsNotOwn(w: World)
      requires active.Some?
      ensures LiveElsewhere(disk, active, active.value.path, w) == LiveElsewhere(disk, None, active.value.path, w)
    {
      hide IsLive;
    }

    /** What removal through a session's own ledger must leave alone. */
    ghost predicate IsHeldFrom(h: Path, a: Active, w: World, ledgers: map<string, Ledger>) {
      h in w.subagents || h in a.ledger.artifacts || h in LiveElsewhere(ledgers, None, a.path, w)
    }

    /** What ending a session leaves of the files and the ledgers. */
    ghost predicate EndsAs(session: Active, w: World, was: set<Path>, ledgers: map<string, Ledger>, left: set<Path>, after: map<string, Ledger>) {
      var l := session.ledger;
      var held := Paths(l.artifacts) + LiveElsewhere(ledgers, Some(session), session.path, w);
      var (removal, rest) := Outcome(was, l, held, l.tempRoot, home, w);
      left == rest && after == Persisted(ledgers, session.path, AfterRemoval(l, removal))
    }

    /** The session ends: its directory goes when nothing in use lies in it, and the variables come back. */
    method EndSession(w: World)
      requires Base() && active.Some?
      modifies `env, `active, `disk, `files
      ensures active.None? && env == With(old(env), old(active).value.ledger.inherited)
      ensures old(Valid()) ==> Valid() && Snapshot(env, keys) == original && env - keys == old(env) - keys
      ensures forall q :: q != old(active).value.path ==>
                            (q in disk <==> q in old(disk)) && (q in disk ==> disk[q] == old(disk)[q])
      ensures EndsAs(old(active).value, w, old(files), old(disk), files, disk)
      ensures files <= old(files)
      ensures forall p, h :: p in old(files) && Within(h, p) && IsHeldFrom(h, old(active).value, w, old(disk)) ==> p in files
    {
      hide Outcome, Trusted, IsLive, PointsInto, LiveElsewhere, With, Snapshot;
      ElsewhereIsNotOwn(w);
      var session := active.value;
      var ledger := session.ledger;
      var held := Paths(ledger.artifacts) + LiveElsewhere(disk, active, session.path, w);
      forall p, h | p in files && Within(h, p) && (h in held || h in w.subagents)
        ensures p in Outcome(files, ledger, held, ledger.tempRoot, home, w).1
      {
        RemovalKeepsHeld(files, ledger, held, ledger.tempRoot, home, w, p, h);
      }
      RemovalIsConfined(files, ledger, held, ledger.tempRoot, home, w);
      var removal := RemoveSessionScratch(ledger, held, ledger.tempRoot, w);
      ledger := AfterRemoval(ledger, removal);
      WithReadsBack(env, ledger.inherited);
      Restore(ledger.inherited);
      Persist(session.path, ledger);
      active := None;
    }

    /** This process made the directory and its temp directory still lies in it. */
    predicate IsLiveScratch(l: Ledger, w: World)
      reads this
    {
      && l.pid == pid && l.scratchDir.Some? && Trusted(l, l.tempRoot, home)
      && l.scratchDir.value in files && w.intact(l.scratchDir.value)
      && PointsInto(Snapshot(env, {TMPDIR})[TMPDIR], l.scratchDir.value, realOf, resolved)
    }

    /** The parent of a value that names a scratch directory, else the value. */
    function WithoutScratch(value: Option<string>): Option<string> {
      if value.Some? && !IsBlank(value.value) && namesScratch(value.value) then Some(parent(value.value)) else value
    }

    /** The values a session takes to be the inherited ones. */
    function Inherited(previous: Option<Ledger>, reload: bool): (r: Variables)
      reads this
      ensures r.Keys == keys
    {
      var now := Snapshot(env, keys);
      map k | k in keys ::
        if reload && previous.Some? && previous.value.pid == pid && k in previous.value.inherited then previous.value.inherited[k]
        else if reload then WithoutScratch(now[k])
        else now[k]
    }

    function Previous(sessionId: string): Option<Ledger>
      reads this
    {
      if ledgerPath(sessionId) in disk then Some(disk[ledgerPath(sessionId)]) else None
    }

    /** What the session that begins now will put back when it ends. */
    function Taken(sessionId: string, reload: bool, w: World): Variables
      reads this
    {
      var previous := Previous(sessionId);
      if previous.Some? && IsLiveScratch(previous.value, w) then previous.value.inherited else Inherited(previous, reload)
    }

    /**
     * A ledger is recovered exactly if this process wrote it, its directory is
     * its own, there and intact, and the temp directory lies in it, as spelled
     * or as it really is.
     */
    lemma RecoversExactly(l: Ledger, w: World)
      ensures IsLiveScratch(l, w) <==>
              && l.pid == pid
              && exists dir: Path ::
                   && l.scratchDir == Some(dir) && dir in files && w.intact(dir) && Trusted(l, l.tempRoot, home)
                   && TMPDIR in env && !IsBlank(env[TMPDIR])
                   && (Within(resolved(env[TMPDIR]), dir) || (realOf(env[TMPDIR]).Some? && Within(realOf(env[TMPDIR]).value, dir)))
    {
      hide Trusted, IsBlank;
      if l.scratchDir.Some? { assert l.scratchDir == Some(l.scratchDir.value); }
    }

    /**
     * The values a session takes to be the inherited ones: those of a recovered
     * ledger; at a reload those this process recorded, or else the present ones
     * with the parent in place of a session's directory; and otherwise the
     * present ones.
     */
    lemma TakenExactly(sessionId: string, reload: bool, w: World, k: string)
      requires k in keys
      ensures var path := ledgerPath(sessionId);
              var present := if k in env then Some(env[k]) else None;
              if path in disk && IsLiveScratch(disk[path], w) then Taken(sessionId, reload, w) == disk[path].inherited
              else Taken(sessionId, reload, w)[k] ==
                   if !reload then present
                   else if path in disk && disk[path].pid == pid && k in disk[path].inherited then disk[path].inherited[k]
                   else if k in env && !IsBlank(env[k]) && namesScratch(env[k]) then Some(parent(env[k]))
                   else present
    {
      hide IsLiveScratch, IsBlank;
    }

    /** The temp root a session's directory is made under. */
    function BaseFor(inherited: Variables): (base: string)
      requires TMPDIR in inherited
      ensures inherited[TMPDIR].None? || IsBlank(inherited[TMPDIR].value) ==> base == defaultTmp
      ensures !IsBlank(base) || base == defaultTmp
      ensures base == defaultTmp || inherited[TMPDIR] == Some(base)
      ensures inherited[TMPDIR].Some? && !IsBlank(inherited[TMPDIR].value) ==> inherited[TMPDIR] == Some(base)
    {
      if inherited[TMPDIR].Some? && !IsBlank(inherited[TMPDIR].value) then inherited[TMPDIR].value else defaultTmp
    }

    /** Makes the session's directory and points the variables at it, when it can. */
    method Redirect(inherited: Variables, w: World) returns (scratchDir: Option<Path>)
      requires WorldIsSane(w) && inherited.Keys == keys && TMPDIR in keys
      modifies `env, `files
      ensures files == old(files) + if scratchDir.Some? then {scratchDir.value} else {}
      ensures w.create(BaseFor(inherited)).None? ==> scratchDir.None? && Snapshot(env, keys) == inherited
      ensures w.create(BaseFor(inherited)).Some? ==>
                && scratchDir == Some(w.create(BaseFor(inherited)).value.realPath)
                && forall k :: k in keys ==> k in env && env[k] == w.create(BaseFor(inherited)).value.path
      ensures env - keys == old(env) - keys
      ensures scratchDir.Some? ==> scratchDir.value != [] && !PointsInto(inherited[TMPDIR], scratchDir.value, realOf, resolved)
    {
      WithReadsBack(env, inherited);
      Restore(inherited);
      var base := BaseFor(inherited);
      var created := w.create(base);
      if created.None? { return None; }
      var values: Variables := map k | k in keys :: Some(created.value.path);
      assert values.Keys == keys;
      WithReadsBack(env, values);
      Restore(values);
      assert forall k :: k in keys ==> k in values && env[k] == created.value.path;
      files := files + {created.value.realPath};
      assert IsNewUnder(created.value, base);
      return Some(created.value.realPath);
    }

    /** The directory an earlier process left under the session that is resumed. */
    method ClearPrevious(l: Ledger, path: string, own: set<Path>, w: World)
      modifies `files
      ensures files <= old(files)
      ensures files == Outcome(old(files), l, Paths(l.artifacts) + LiveElsewhere(disk, active, path, w) + own, OwnRoot(), home, w).1
      ensures forall p, h :: p in old(files) && Within(h, p)
                             && (h in w.subagents || h in l.artifacts || h in LiveElsewhere(disk, active, path, w) || h in own) ==>
                               p in files
    {
      var held := Paths(l.artifacts) + LiveElsewhere(disk, active, path, w) + own;
      forall p, h | p in files && Within(h, p) && (h in held || h in w.subagents)
        ensures p in Outcome(files, l, held, OwnRoot(), home, w).1
      {
        RemovalKeepsHeld(files, l, held, OwnRoot(), home, w, p, h);
      }
      RemovalIsConfined(files, l, held, OwnRoot(), home, w);
      var _ := RemoveSessionScratch(l, held, OwnRoot(), w);
    }

    lemma InUseStays(session: Active, w: World, before: map<string, Ledger>)
      ensures var after := Persisted(before, session.path, session.ledger);
              && (forall h :: InUse(h, w, before - {session.path}, None) ==> InUse(h, w, after, Some(session)))
              && (session.ledger.scratchDir.Some? ==> InUse(session.ledger.scratchDir.value, w, after, Some(session)))
    {
      hide IsLive;
      var after := Persisted(before, session.path, session.ledger);
      assert forall q :: q in before - {session.path} ==> q in after && after[q] == (before - {session.path})[q];
    }

    /** A session becomes the active one: it is recorded, and what others left is swept. */
    method Activate(session: Active, w: World)
      requires TMPDIR in keys && original.Keys == keys && (forall v :: namesScratch(v) ==> parent(v) != v)
      requires active.None? && (forall q :: q in disk && disk[q].pid == pid ==> Outside(disk[q]))
      modifies `active, `disk, `files
      ensures active == Some(session) && Recorded(session) && files <= old(files)
      ensures HasSwept(w, Persisted(old(disk), session.path, session.ledger), old(files))
      ensures session.ledger.scratchDir.Some? && session.ledger.scratchDir.value in old(files) ==> session.ledger.scratchDir.value in files
      ensures Outside(session.ledger) ==> Base()
      ensures forall p, h :: p in old(files) && Within(h, p) && InUse(h, w, old(disk) - {session.path}, None) ==> p in files
    {
      hide Trusted, Goes, IsLive, PointsInto, IsSwept, HasSwept, InUse, IsLeftBehind, IsCleared, Persisted;
      InUseStays(session, w, disk);
      active := Some(session);
      Persist(session.path, session.ledger);
      Sweep(session.path, w);
    }

    /** A session without a directory and without artifacts, of which no ledger tells. */
    ghost predicate IsBare(a: Active) { a.ledger.scratchDir.None? && a.ledger.artifacts == [] }

    /** The ledger of a session that makes its own directory, or can make none. */
    function NewLedger(sessionId: string, inherited: Variables, previous: Option<Ledger>, w: World): Ledger
      requires TMPDIR in inherited
    {
      var made := w.create(BaseFor(inherited));
      Ledger(sessionId, pid, w.token(pid),
             if made.Some? && made.value.realPath != [] then Some(made.value.realPath[..|made.value.realPath| - 1]) else None,
             inherited,
             if made.Some? then Some(made.value.realPath) else None,
             if previous.Some? then previous.value.artifacts else [])
    }

    /** The directory another process left under this session, when nothing in it must be kept. */
    ghost predicate IsOutlived(l: Ledger, path: string, own: Option<Path>, w: World, ledgers: map<string, Ledger>) {
      && l.scratchDir.Some? && l.scratchDir != own && l.pid != pid && !IsLive(l, w) && Trusted(l, None, home)
      && var dir := l.scratchDir.value;
      && w.intact(dir) && (own.Some? ==> !Within(own.value, dir))
      && (forall h :: h in l.artifacts || h in w.subagents || h in LiveElsewhere(ledgers, None, path, w) ==> !Within(h, dir))
    }

    lemma OutlivedGoes(l: Ledger, path: string, own: Option<Path>, ownRoot: Option<Path>, w: World, ledgers: map<string, Ledger>, now: set<Path>)
      requires IsOutlived(l, path, own, w, ledgers)
      ensures var held := Paths(l.artifacts) + LiveElsewhere(ledgers, None, path, w) + (if own.Some? then {own.value} else {});
              l.scratchDir.value in now ==>
                forall p :: p in now && Within(p, l.scratchDir.value) ==> p !in Outcome(now, l, held, ownRoot, home, w).1
    {
      hide IsScratchName, IsSubagentName, IsLive, LiveElsewhere;
    }

    /** A directory of this process, or of a live one, is never cleared when a session begins. */
    predicate MayClear(l: Ledger, own: Option<Path>, w: World) {
      l.scratchDir.Some? && l.scratchDir != own && l.pid != pid && !IsLive(l, w)
    }

    ghost function ClearedOther(previous: Option<Ledger>, path: string, own: Option<Path>, ownRoot: Option<Path>, w: World,
                                ledgers: map<string, Ledger>, now: set<Path>): set<Path>
    {
      if previous.None? || !MayClear(previous.value, own, w) then now
      else
        var held := Paths(previous.value.artifacts) + LiveElsewhere(ledgers, None, path, w) + (if own.Some? then {own.value} else {});
        Outcome(now, previous.value, held, ownRoot, home, w).1
    }

    /** Clears the directory another process left under the session that begins. */
    method ClearOther(previous: Option<Ledger>, path: string, own: Option<Path>, w: World)
      requires active.None?
      modifies `files
      ensures files <= old(files) && (own.Some? && own.value in old(files) ==> own.value in files)
      ensures files == ClearedOther(previous, path, own, TempRoot(), w, disk, old(files))
      ensures forall p :: p in old(files) && p !in files ==>
                            && previous.Some? && previous.value.scratchDir.Some? && Within(p, previous.value.scratchDir.value)
                            && previous.value.pid != pid && !IsLive(previous.value, w) && previous.value.scratchDir != own
      ensures previous.Some? && IsOutlived(previous.value, path, own, w, disk) && previous.value.scratchDir.value in old(files) ==>
                forall p :: p in old(files) && Within(p, previous.value.scratchDir.value) ==> p !in files
      ensures forall p, h :: p in old(files) && Within(h, p) && InUse(h, w, disk - {path}, None) ==> p in files
    {
      hide Trusted, Goes, IsLive, Outcome;
      if previous.None? { return; }
      var l := previous.value;
      if MayClear(l, own, w) {
        RemovalIsConfined(files, l, Paths(l.artifacts) + LiveElsewhere(disk, active, path, w) + (if own.Some? then {own.value} else {}),
                          OwnRoot(), home, w);
        if IsOutlived(l, path, own, w, disk) { OutlivedGoes(l, path, own, OwnRoot(), w, disk, files); }
        assert forall h :: InUse(h, w, disk - {path}, None) ==> h in w.subagents || h in LiveElsewhere(disk, active, path, w);
        ClearPrevious(l, path, if own.Some? then {own.value} else {}, w);
      }
    }

    /** A session begins with a directory of its own, if one can be made. */
    method BeginAnew(sessionId: string, inherited: Variables, w: World)
      requires Base() && active.None? && WorldIsSane(w) && inherited.Keys == keys
      modifies `env, `active, `disk, `files
      ensures active == Some(Active(sessionId, ledgerPath(sessionId), NewLedger(sessionId, inherited, old(Previous(sessionId)), w)))
      ensures Recorded(active.value)
      ensures var l, made := active.value.ledger, w.create(BaseFor(inherited));
              && l.sessionId == sessionId && l.pid == pid && l.token == w.token(pid) && l.inherited == inherited
              && (if made.None? then l.scratchDir.None? && l.tempRoot.None?
                  else l.scratchDir == Some(made.value.realPath) && l.tempRoot == realOf(BaseFor(inherited)))
              && l.artifacts == if ledgerPath(sessionId) in old(disk) then old(disk)[ledgerPath(sessionId)].artifacts else []
      ensures HasSwept(w, Persisted(old(disk), active.value.path, active.value.ledger),
                       ClearedOther(old(Previous(sessionId)), active.value.path, active.value.ledger.scratchDir, TempRoot(), w, old(disk),
                                    old(files) + if active.value.ledger.scratchDir.Some? then {active.value.ledger.scratchDir.value} else {}))
      ensures inherited == original ==> Valid()
      ensures env - keys == old(env) - keys
      ensures Snapshot(env, keys) == (if w.create(BaseFor(inherited)).None? then inherited
                                      else map k | k in keys :: Some(w.create(BaseFor(inherited)).value.path))
      ensures w.create(BaseFor(inherited)).Some? ==> w.create(BaseFor(inherited)).value.realPath in files
      ensures var previous := old(Previous(sessionId));
              previous.Some? && IsOutlived(previous.value, ledgerPath(sessionId), active.value.ledger.scratchDir, w, old(disk))
              && previous.value.scratchDir.value in old(files) ==>
                forall p :: p in old(files) && Within(p, previous.value.scratchDir.value) ==> p !in files
      ensures forall p, h :: p in old(files) && Within(h, p) && InUse(h, w, old(disk) - {ledgerPath(sessionId)}, None) ==> p in files
    {
      hide Trusted, Goes, IsLive, PointsInto, Outcome, LiveElsewhere, IsOutlived, HasSwept, ClearedOther;
      var path := ledgerPath(sessionId);
      var previous := Previous(sessionId);
      var scratchDir := Redirect(inherited, w);
      var ledger := NewLedger(sessionId, inherited, previous, w);
      ClearOther(previous, path, scratchDir, w);
      Activate(Active(sessionId, path, ledger), w);
    }

    /** A session begins where none is active. */
    method Begin(sessionId: string, reload: bool, w: World)
      requires Base() && active.None? && WorldIsSane(w)
      modifies `env, `active, `disk, `files
      ensures active.Some? && active.value.sessionId == sessionId && active.value.path == ledgerPath(sessionId)
      ensures active.value.ledger.inherited == old(Taken(sessionId, reload, w)) && Recorded(active.value)
      ensures var previous := old(Previous(sessionId));
              if previous.Some? && old(IsLiveScratch(previous.value, w)) then
                active.value.ledger == previous.value && env == old(env)
              else
                var inherited := old(Inherited(previous, reload));
                var made := w.create(BaseFor(inherited));
                && active.value.ledger == NewLedger(sessionId, inherited, previous, w)
                && Snapshot(env, keys) == (if made.None? then inherited else map k | k in keys :: Some(made.value.path))
                && (made.Some? ==> made.value.realPath in files)
                && (previous.Some? && IsOutlived(previous.value, ledgerPath(sessionId), active.value.ledger.scratchDir, w, old(disk))
                    && previous.value.scratchDir.value in old(files) ==>
                      forall p :: p in old(files) && Within(p, previous.value.scratchDir.value) ==> p !in files)
      ensures active.value.ledger.inherited == original ==> Valid()
      ensures old(Previous(sessionId)).None? && (forall base :: w.create(base).None?) ==> IsBare(active.value)
      ensures env - keys == old(env) - keys
      ensures forall p, h :: p in old(files) && Within(h, p) && InUse(h, w, old(disk) - {ledgerPath(sessionId)}, None) ==> p in files
    {
      hide Trusted, Goes, IsLive, PointsInto, Inherited, Outcome, IsOutlived, LiveElsewhere;
      var path := ledgerPath(sessionId);
      var previous := Previous(sessionId);
      if previous.Some? && IsLiveScratch(previous.value, w) {
        Activate(Active(sessionId, path, previous.value), w);
        return;
      }
      BeginAnew(sessionId, Inherited(previous, reload), w);
    }

    /** The ledgers a start writes itself: that of the session that ends and that of the one that begins. */
    function OwnPaths(ending: Option<Active>, sessionId: string): set<string> {
      {ledgerPath(sessionId)} + if ending.Some? then {ending.value.path} else {}
    }

    lemma TakesParents(sessionId: string, w: World)
      requires Previous(sessionId).None?
      ensures Taken(sessionId, true, w) == map k | k in keys :: WithoutScratch(Snapshot(env, keys)[k])
    {
    }

    /** A bare session left no ledger and changed nothing. */
    lemma BareSessionIsForgotten()
      requires Valid() && active.Some? && IsBare(active.value)
      ensures Previous(active.value.sessionId).None? && Snapshot(env, keys) == original
    {
      hide Trusted, PointsInto;
    }

    lemma TakesTheOriginal(sessionId: string, w: World)
      requires Valid() && active.None?
      ensures Taken(sessionId, false, w) == original
    {
      assert Inherited(Previous(sessionId), false) == Snapshot(env, keys);
    }

    /** A start, a resumption or a switch: whatever session was active ends first. */
    method StartSession(sessionId: string, w: World)
      requires Valid() && WorldIsSane(w)
      modifies `env, `active, `disk, `files
      ensures Valid() && env - keys == old(env) - keys
      ensures sessionId == "" ==> active == old(active) && env == old(env)
      ensures sessionId != "" ==> active.Some? && active.value.sessionId == sessionId
      ensures var previous := old(Previous(sessionId));
              sessionId != "" && old(active).None? && !(previous.Some? && old(IsLiveScratch(previous.value, w))) ==>
                && active.value.ledger == NewLedger(sessionId, original, previous, w)
                && (w.create(BaseFor(original)).Some? ==>
                      forall k :: k in keys ==> k in env && env[k] == w.create(BaseFor(original)).value.path)
      ensures sessionId != "" && old(active).None? && old(Previous(sessionId)).None? && (forall base :: w.create(base).None?) ==>
                IsBare(active.value)
      ensures forall p, h :: p in old(files) && Within(h, p)
                             && InUse(h, w, old(disk) - OwnPaths(old(active), sessionId), None) ==>
                               p in files
    {
      hide IsLive, Trusted, PointsInto, Outside;
      if sessionId == "" { return; }
      ghost var others := disk - OwnPaths(active, sessionId);
      if active.Some? {
        assert forall h :: InUse(h, w, others, None) ==> IsHeldFrom(h, active.value, w, disk);
        EndSession(w);
      }
      ghost var left := disk - {ledgerPath(sessionId)};
      assert forall q :: q in others ==> q in left && left[q] == others[q];
      forall h | InUse(h, w, others, None)
        ensures InUse(h, w, left, None)
      {
        if h !in w.subagents {
          var q :| q in others && IsLive(others[q], w) && others[q].scratchDir == Some(h);
          assert q in left;
        }
      }
      TakesTheOriginal(sessionId, w);
      Begin(sessionId, false, w);
    }

    /**
     * A reload keeps the session; when it also loses the state in memory, the
     * session is found again through its ledger. Without a ledger there was no
     * directory either, and a temp directory that the process was started with
     * is mistaken for one exactly when it is named like one.
     */
    method Reload(reevaluated: bool, w: World)
      requires Valid() && active.Some? && WorldIsSane(w)
      modifies `env, `active, `disk, `files
      ensures active.Some? && active.value.sessionId == old(active).value.sessionId && env - keys == old(env) - keys
      ensures reevaluated ==> active.value.ledger.inherited == old(Taken(active.value.sessionId, true, w))
      ensures Valid() <==> !(&& reevaluated && old(active).value.ledger.scratchDir.None?
                             && old(active).value.ledger.artifacts == []
                             && exists k :: k in keys && MistakenForScratch(original[k]))
    {
      if !reevaluated { return; }
      var session := active.value;
      active := None;
      assert Previous(session.sessionId) == if session.path in disk then Some(session.ledger) else None;
      Begin(session.sessionId, true, w);
    }

    ghost predicate MistakenForScratch(value: Option<string>) {
      value.Some? && !IsBlank(value.value) && namesScratch(value.value)
    }

    predicate IsProtected(p: Path) { p == [] || exists d :: d in guarded && Within(d, p) }

    /** What a successful command created joins the ledger; the oldest entries give way. */
    method Capture(created: seq<Path>)
      requires Valid() && active.Some?
      modifies `active, `disk
      ensures Valid() && active.Some?
      ensures active.value.(ledger := active.value.ledger.(artifacts := old(active).value.ledger.artifacts)) == old(active).value
      ensures active.value.ledger.artifacts ==
              (var all := Recording(old(active).value.ledger.artifacts, created, guarded);
               if all == old(active).value.ledger.artifacts then all else Newest(all))
    {
      var session := active.value;
      var artifacts := session.ledger.artifacts;
      var i := 0;
      var changed := false;
      while i < |created|
        invariant 0 <= i <= |created|
        invariant artifacts == Recording(session.ledger.artifacts, created[..i], guarded)
        invariant |artifacts| >= |session.ledger.artifacts|
        invariant !changed <==> artifacts == session.ledger.artifacts
      {
        assert created[..i + 1][..i] == created[..i];
        var path := created[i];
        if !IsProtected(path) && path !in artifacts { artifacts, changed := artifacts + [path], true; }
        i := i + 1;
      }
      assert created[..i] == created;
      if !changed { return; }
      artifacts := Newest(artifacts);
      active := Some(session.(ledger := session.ledger.(artifacts := artifacts)));
      Persist(session.path, active.value.ledger);
    }

    method SessionShutdown(w: World)
      requires Valid()
      modifies `env, `active, `disk, `files
      ensures Valid() && active.None? && Snapshot(env, keys) == original && env - keys == old(env) - keys
      ensures if old(active).Some? then EndsAs(old(active).value, w, old(files), old(disk), files, disk)
              else files == old(files) && disk == old(disk)
    {
      hide EndsAs;
      if active.Some? { EndSession(w); }
    }
  }

  /** A session that can make no directory and is reloaded takes the parents of what names one. */
  method ReloadBareSession(r: Runtime, sessionId: string, w: World)
    requires r.Valid() && r.active.None? && r.WorldIsSane(w) && sessionId != ""
    requires r.Previous(sessionId).None? && forall base :: w.create(base).None?
    modifies r
    ensures r.active.Some?
    ensures r.active.value.ledger.inherited == map k | k in r.keys :: r.WithoutScratch(old(Snapshot(r.env, r.keys))[k])
  {
    hide Outcome, Trusted, PointsInto, IsLive, LiveElsewhere, With, Snapshot;
    r.StartSession(sessionId, w);
    r.BareSessionIsForgotten();
    r.TakesParents(sessionId, w);
    r.Reload(true, w);
  }

  /**
   * So it happens to a process started inside another session's directory
   * `outer`: its temp directory is restored to the parent, `above`.
   */
  method ReloadTakesTheParent(outer: string, above: string) returns (original: Variables, restored: Variables)
    requires !IsBlank(outer) && above != outer
    ensures original == map[TMPDIR := Some(outer)] && restored == map[TMPDIR := Some(above)]
  {
    hide Outcome, Trusted, PointsInto, IsLive, LiveElsewhere, With, IsBlank;
    var r := new Runtime(1, {TMPDIR}, [], {}, above, v => None, v => [], v => v == outer, v => above, id => id,
                         map[TMPDIR := outer], map[], {});
    original := Snapshot(r.env, {TMPDIR});
    var w := World(p => true, p => None, p => true, base => None, {}, path => false);
    ReloadBareSession(r, "s", w);
    restored := r.active.value.ledger.inherited;
  }
}
