/**
 * Installing the package's managed assets under the agent home. A manifest
 * records the hash of every file the package owns; forced installs replace
 * owned files, adopt files that an earlier package version is known to have
 * installed, retire assets the package dropped, and leave everything else alone.
 */
module AssetInstaller {
  import opened Wrappers
  import opened Text
  import opened Routing

  type Key(==) = string

  /** A manifest value: the SHA-256 of a text, which is taken to identify it, or any other string. */
  datatype Hash = Sha256(content: string) | Foreign(text: string)

  datatype File = Readable(content: string) | Unreadable

  /** What the home holds for one ownership key: a file, perhaps, and a manifest entry, perhaps. */
  datatype Slot = Slot(file: Option<File>, entry: Option<Hash>)

  const RESEARCH: Key := "agents/sdd-research.md"
  const STRICT_TDD: Key := "gentle-ai/support/strict-tdd.md"

  function SddAgent(name: string): Key { "agents/sdd-" + name + ".md" }

  const RETIRED: seq<Key> := [
    SddAgent("sync"),
    SddAgent("apply"), SddAgent("archive"), SddAgent("design"), SddAgent("explore"), SddAgent("init"),
    SddAgent("onboard"), SddAgent("proposal"), SddAgent("remediate"), SddAgent("research"), SddAgent("spec"),
    SddAgent("status"), SddAgent("tasks"), SddAgent("verify"),
    "chains/sdd-full.chain.md", "chains/sdd-plan.chain.md", "chains/sdd-verify.chain.md",
    "gentle-ai/support/sdd-status-contract.md",
    "agents/review-refuter.md", "agents/review-validator.md"
  ]

  // ---- One key at a time ----

  /** Everything an install run depends on besides the home itself. */
  datatype Config = Config(
    force: bool,
    selected: Option<set<Key>>,
    legacy: map<Key, set<Hash>>,
    undeletable: set<Key>)

  function LegacyOf(cfg: Config, key: Key): set<Hash> { if key in cfg.legacy then cfg.legacy[key] else {} }

  predicate InLegacy(cfg: Config, key: Key, content: string) {
    Sha256(Comparable(key, content)) in LegacyOf(cfg, key)
  }

  /** The package itself put this file there, unless the user rewrote it byte for byte. */
  predicate Vouched(cfg: Config, key: Key, slot: Slot) {
    && slot.file.Some? && slot.file.value.Readable?
    && (slot.entry == Some(Sha256(slot.file.value.content)) || InLegacy(cfg, key, slot.file.value.content))
  }

  predicate IsSelected(cfg: Config, key: Key) { cfg.selected.Some? ==> key in cfg.selected.value }

  predicate RetiresNow(cfg: Config, key: Key) {
    || IsSelected(cfg, key)
    || (IndexOf(key, "sdd-", 0).Some? && STRICT_TDD in cfg.selected.value)
  }

  function Retired(cfg: Config, key: Key, slot: Slot): Slot {
    match slot.file
    case None => Slot(None, None)
    case Some(Unreadable) => slot
    case Some(Readable(_)) =>
      if Vouched(cfg, key, slot) then
        if key in cfg.undeletable then slot else Slot(None, None)
      else Slot(slot.file, None)
  }

  function Owned(content: string): Slot { Slot(Some(Readable(content)), Some(Sha256(content))) }

  /** One packaged file meets what is installed under its key. */
  function Installed(cfg: Config, key: Key, source: string, slot: Slot): Slot {
    match slot.file
    case None => Owned(source)
    case Some(file) =>
      if !cfg.force then slot
      else if file.Unreadable? then Slot(slot.file, None)
      else
        match slot.entry
        case None =>
          if InLegacy(cfg, key, file.content) then Owned(Migrate(key, file.content, source))
          else Slot(slot.file, None)
        case Some(hash) =>
          if hash != Sha256(file.content) then Slot(slot.file, None)
          else Owned(if key == RESEARCH then Migrate(key, file.content, source) else source)
  }

  /** A whole run, seen from one key: `source` is what the package ships under it. */
  function RunSlot(cfg: Config, source: Option<string>, key: Key, slot: Slot): Slot {
    var afterRetire := if key in RETIRED && RetiresNow(cfg, key) then Retired(cfg, key, slot) else slot;
    if source.Some? && IsSelected(cfg, key) then Installed(cfg, key, source.value, afterRetire) else afterRetire
  }

  /** The file is one that some earlier package version is known to have installed, its routing aside. */
  predicate IsKnown(cfg: Config, key: Key, content: string) {
    key in cfg.legacy && Sha256(if IsAgent(key) then Strip(content) else content) in cfg.legacy[key]
  }

  /** A shipped file that is not there is installed, by every run, and so is one that the run itself retired. */
  lemma MissingIsInstalled(cfg: Config, source: string, key: Key, slot: Slot)
    requires IsSelected(cfg, key)
    requires || slot.file.None?
             || (&& key in RETIRED && key !in cfg.undeletable && slot.file.value.Readable?
                 && var content := slot.file.value.content;
                    slot.entry == Some(Sha256(content)) || IsKnown(cfg, key, content))
    ensures RunSlot(cfg, Some(source), key, slot) == Slot(Some(Readable(source)), Some(Sha256(source)))
  {
    hide RETIRED;
  }

  /**
   * What becomes of an installed file that the package ships: an unforced run
   * leaves it; a forced one replaces it exactly if it is the text the manifest
   * vouches for, adopts it exactly if nothing is recorded but the text is
   * known, and otherwise leaves the file and disowns it.
   */
  lemma InstalledFileExactly(cfg: Config, source: string, key: Key, slot: Slot)
    requires IsSelected(cfg, key) && key !in RETIRED && slot.file.Some?
    ensures var after, file := RunSlot(cfg, Some(source), key, slot), slot.file.value;
            var replaced := file.Readable? && slot.entry == Some(Sha256(file.content));
            var adopted := file.Readable? && slot.entry.None? && IsKnown(cfg, key, file.content);
            && (!cfg.force ==> after == slot)
            && (cfg.force ==> (after.entry.Some? <==> replaced || adopted))
            && (cfg.force && !replaced && !adopted ==> after.file == slot.file)
            && (cfg.force && replaced && key != RESEARCH ==> after.file == Some(Readable(source)))
            && (cfg.force && (adopted || (replaced && key == RESEARCH)) ==>
                  after.file == Some(Readable(Migrate(key, file.content, source))))
            && (after.entry.Some? && cfg.force ==>
                  after.file.Some? && after.file.value.Readable? && after.entry == Some(Sha256(after.file.value.content)))
  {
    hide RETIRED, Migrate;
  }

  /** A run removes a retired file exactly if it covers it and knows it for the package's own; it never does more than disown any other. */
  lemma RetiredFileExactly(cfg: Config, key: Key, slot: Slot)
    requires key in RETIRED
    ensures var after := RunSlot(cfg, None, key, slot);
            var covered := || cfg.selected.None? || key in cfg.selected.value
                           || (IndexOf(key, "sdd-", 0).Some? && STRICT_TDD in cfg.selected.value);
            var readable := slot.file.Some? && slot.file.value.Readable?;
            var own := readable && (slot.entry == Some(Sha256(slot.file.value.content)) || IsKnown(cfg, key, slot.file.value.content));
            && (!covered ==> after == slot)
            && (covered && slot.file.None? ==> after == Slot(None, None))
            && (covered && slot.file == Some(Unreadable) ==> after == slot)
            && (covered && own ==> after == if key in cfg.undeletable then slot else Slot(None, None))
            && (covered && readable && !own ==> after == Slot(slot.file, None))
  {
    hide RETIRED;
  }

  /** What is neither shipped nor retired is left alone. */
  lemma OthersAreLeft(cfg: Config, source: Option<string>, key: Key, slot: Slot)
    requires key !in RETIRED && (source.None? || !IsSelected(cfg, key))
    ensures RunSlot(cfg, source, key, slot) == slot
  {
    hide RETIRED;
  }

  /** No run, forced or not, changes or removes a file that nothing vouches for. */
  lemma UsersAreRespected(cfg: Config, source: Option<string>, key: Key, slot: Slot)
    ensures slot.file.Some? && RunSlot(cfg, source, key, slot).file != slot.file ==> Vouched(cfg, key, slot)
    ensures slot.file.Some? && !cfg.force && key !in RETIRED ==> RunSlot(cfg, source, key, slot) == slot
  {
    hide RETIRED;
  }

  /**
   * A manifest entry that a forced run leaves under a key it processed is the
   * hash of the installed file; a retired key keeps an entry only where the
   * run could not read or delete the file and changed nothing.
   */
  lemma EntriesAreTrue(cfg: Config, source: Option<string>, key: Key, slot: Slot)
    requires cfg.force
    ensures var after := RunSlot(cfg, source, key, slot);
            && (source.Some? && IsSelected(cfg, key) && after.entry.Some? ==>
                  exists content :: after == Owned(content))
            && (source.None? && key in RETIRED && RetiresNow(cfg, key) && after.entry.Some? ==>
                  after == slot && (slot.file == Some(Unreadable) || key in cfg.undeletable))
  {
    hide RETIRED;
    var after := RunSlot(cfg, source, key, slot);
    if source.Some? && IsSelected(cfg, key) && after.entry.Some? {
      assert after == Owned(after.file.value.content);
    }
  }

  // ---- Convergence ----

  function Runs(cfg: Config, source: Option<string>, key: Key, slot: Slot, n: nat): Slot {
    if n == 0 then slot else RunSlot(cfg, source, key, Runs(cfg, source, key, slot, n - 1))
  }

  /** Migrating to a package version twice is migrating once, with one exception that settles the second time. */
  lemma MigrationSettles(key: Key, installed: string, source: string)
    ensures var once := Migrate(key, installed, source);
            var twice := Migrate(key, once, source);
            Migrate(key, twice, source) == twice
    ensures IsAgent(key) && FrontmatterEnd(installed).Some? ==>
              Migrate(key, Migrate(key, installed, source), source) == Migrate(key, installed, source)
  {
    hide Update, FrontmatterEnd, FrontmatterLines, RoutingOf;
    var once := Migrate(key, installed, source);
    if IsAgent(key) && FrontmatterEnd(source).Some? {
      MigrationLaw(key, installed, source);
      MigrationLaw(key, once, source);
      MigratedHasFrontmatter(key, installed, source);
      MigratedHasFrontmatter(key, once, source);
    } else if IsAgent(key) {
      UpdateWithoutFrontmatter(source);
    }
  }

  lemma UpdateWithoutFrontmatter(content: string)
    requires FrontmatterEnd(content).None?
    ensures forall routing :: Update(content, routing) == content
  {
  }

  lemma MigratedHasFrontmatter(key: Key, installed: string, source: string)
    requires FrontmatterEnd(source).Some?
    ensures FrontmatterEnd(Migrate(key, installed, source)).Some?
  {
    if IsAgent(key) && FrontmatterEnd(installed).Some? {
      FilterMembers(FrontmatterLines(installed));
      UpdateReadsBack(source, RoutingOf(FrontmatterLines(installed)));
    }
  }

  predicate RemovedFirst(cfg: Config, key: Key) {
    key in RETIRED && RetiresNow(cfg, key) && key !in cfg.undeletable
  }

  /** What a forced run makes of a file the manifest owns. */
  lemma OwnedStep(cfg: Config, source: string, key: Key, content: string)
    requires cfg.force && IsSelected(cfg, key)
    ensures RunSlot(cfg, Some(source), key, Owned(content))
         == Owned(if key == RESEARCH && !RemovedFirst(cfg, key) then Migrate(key, content, source) else source)
  {
    hide RETIRED, Migrate, Comparable;
  }

  /** What a forced run makes of a file without a manifest entry: it is adopted, or left alone for good. */
  lemma UnownedStep(cfg: Config, source: string, key: Key, file: File)
    requires cfg.force && IsSelected(cfg, key)
    ensures var slot := Slot(Some(file), None);
            var after := RunSlot(cfg, Some(source), key, slot);
            || after == slot
            || (file.Readable? && after == Owned(if RemovedFirst(cfg, key) then source else Migrate(key, file.content, source)))
  {
    hide RETIRED, Migrate, Comparable;
  }

  /** After one forced run a shipped key's file is owned, or has no entry. */
  lemma FirstStep(cfg: Config, source: string, key: Key, slot: Slot) returns (file: File)
    requires cfg.force && IsSelected(cfg, key)
    ensures var after := RunSlot(cfg, Some(source), key, slot);
            after == Slot(Some(file), None) || (file.Readable? && after == Owned(file.content))
  {
    hide RETIRED, Migrate, Comparable;
    file := RunSlot(cfg, Some(source), key, slot).file.value;
  }

  /** An owned file is settled after two more forced runs. */
  lemma OwnedSettles(cfg: Config, source: string, key: Key, content: string)
    requires cfg.force && IsSelected(cfg, key)
    ensures var one := RunSlot(cfg, Some(source), key, Owned(content));
            var two := RunSlot(cfg, Some(source), key, one);
            RunSlot(cfg, Some(source), key, two) == two
  {
    hide RunSlot, RemovedFirst, Migrate;
    OwnedStep(cfg, source, key, content);
    var one := if key == RESEARCH && !RemovedFirst(cfg, key) then Migrate(key, content, source) else source;
    OwnedStep(cfg, source, key, one);
    var two := if key == RESEARCH && !RemovedFirst(cfg, key) then Migrate(key, one, source) else source;
    OwnedStep(cfg, source, key, two);
    MigrationSettles(key, content, source);
  }

  /** Three forced runs settle every key, whatever was there before. */
  lemma ThreeRunsSettle(cfg: Config, source: Option<string>, key: Key, slot: Slot)
    requires cfg.force
    ensures Runs(cfg, source, key, slot, 4) == Runs(cfg, source, key, slot, 3)
  {
    RunsUnfold(cfg, source, key, slot);
    if source.Some? && IsSelected(cfg, key) {
      hide RunSlot, Migrate;
      var file := FirstStep(cfg, source.value, key, slot);
      if RunSlot(cfg, source, key, slot) == Slot(Some(file), None) {
        UnownedStep(cfg, source.value, key, file);
        UnownedSettles(cfg, source.value, key, file);
      } else {
        OwnedSettles(cfg, source.value, key, file.content);
      }
    } else {
      hide RETIRED, Comparable;
    }
  }

  /** A file without an entry is settled after three more forced runs. */
  lemma UnownedSettles(cfg: Config, source: string, key: Key, file: File)
    requires cfg.force && IsSelected(cfg, key)
    ensures var two := RunSlot(cfg, Some(source), key, Slot(Some(file), None));
            var three := RunSlot(cfg, Some(source), key, two);
            RunSlot(cfg, Some(source), key, three) == three
  {
    hide RunSlot, Migrate, RemovedFirst;
    UnownedStep(cfg, source, key, file);
    if RunSlot(cfg, Some(source), key, Slot(Some(file), None)) != Slot(Some(file), None) {
      var adopted := if RemovedFirst(cfg, key) then source else Migrate(key, file.content, source);
      OwnedStep(cfg, source, key, adopted);
      var next := if key == RESEARCH && !RemovedFirst(cfg, key) then Migrate(key, adopted, source) else source;
      OwnedStep(cfg, source, key, next);
      MigrationSettles(key, file.content, source);
    }
  }

  lemma RunsUnfold(cfg: Config, source: Option<string>, key: Key, slot: Slot)
    ensures var one := RunSlot(cfg, source, key, slot);
            var two := RunSlot(cfg, source, key, one);
            var three := RunSlot(cfg, source, key, two);
            && Runs(cfg, source, key, slot, 3) == three
            && Runs(cfg, source, key, slot, 4) == RunSlot(cfg, source, key, three)
            && Runs(cfg, source, key, slot, 2) == two
  {
    hide RunSlot;
    assert Runs(cfg, source, key, slot, 0) == slot;
    assert Runs(cfg, source, key, slot, 1) == RunSlot(cfg, source, key, slot);
    assert Runs(cfg, source, key, slot, 2) == RunSlot(cfg, source, key, Runs(cfg, source, key, slot, 1));
    assert Runs(cfg, source, key, slot, 3) == RunSlot(cfg, source, key, Runs(cfg, source, key, slot, 2));
  }

  /**
   * Three is exact: a file of an earlier package version under a stale manifest
   * entry first loses the entry, is then adopted with its routing, and only the
   * third run installs the package's own text.
   */
  lemma ThirdRunMatters(cfg: Config, source: string, key: Key, content: string, stale: Hash)
    requires cfg.force && IsSelected(cfg, key) && key !in RETIRED && key != RESEARCH
    requires InLegacy(cfg, key, content) && stale != Sha256(content)
    requires Migrate(key, content, source) != source
    ensures var slot := Slot(Some(Readable(content)), Some(stale));
            && Runs(cfg, Some(source), key, slot, 1) == Slot(Some(Readable(content)), None)
            && Runs(cfg, Some(source), key, slot, 2) == Owned(Migrate(key, content, source))
            && Runs(cfg, Some(source), key, slot, 3) == Owned(source) != Runs(cfg, Some(source), key, slot, 2)
  {
    hide RETIRED, Migrate, Comparable;
    var slot := Slot(Some(Readable(content)), Some(stale));
    RunsUnfold(cfg, Some(source), key, slot);
    assert Runs(cfg, Some(source), key, slot, 0) == slot;
  }

  // ---- The package ----

  /** A directory listing, as the package ships it. */
  datatype Entry =
    | FileEntry(name: string, content: string)
    | DirEntry(name: string, children: seq<Entry>)
    | SpecialEntry(name: string)

  datatype Asset = Asset(key: Key, content: string)

  function FlattenEntry(entry: Entry, prefix: Key): seq<Asset>
    decreases entry
  {
    match entry
    case FileEntry(name, content) => [Asset(prefix + "/" + name, content)]
    case DirEntry(name, children) => Flatten(children, prefix + "/" + name)
    case SpecialEntry(_) => []
  }

  /** Every file below a directory, with its ownership key. */
  function Flatten(entries: seq<Entry>, prefix: Key): seq<Asset>
    decreases entries
  {
    if entries == [] then []
    else FlattenEntry(entries[0], prefix) + Flatten(entries[1..], prefix)
  }

  lemma {:induction false} FlattenConcat(a: seq<Entry>, b: seq<Entry>, prefix: Key)
    ensures Flatten(a + b, prefix) == Flatten(a, prefix) + Flatten(b, prefix)
  {
    if a == [] {
      assert a + b == b;
    } else {
      assert (a + b)[0] == a[0] && (a + b)[1..] == a[1..] + b;
      FlattenConcat(a[1..], b, prefix);
      assert FlattenEntry(a[0], prefix) + (Flatten(a[1..], prefix) + Flatten(b, prefix))
          == FlattenEntry(a[0], prefix) + Flatten(a[1..], prefix) + Flatten(b, prefix);
    }
  }

  lemma {:induction false} KeysAreBelow(entries: seq<Entry>, prefix: Key)
    ensures forall asset :: asset in Flatten(entries, prefix) ==> StartsWith(asset.key, prefix + "/")
    decreases entries
  {
    if entries != [] {
      KeysAreBelow(entries[1..], prefix);
      match entries[0]
      case FileEntry(name, content) =>
        assert prefix + "/" + name == (prefix + "/") + name;
      case DirEntry(name, children) =>
        KeysAreBelow(children, prefix + "/" + name);
        forall asset | asset in Flatten(children, prefix + "/" + name) ensures StartsWith(asset.key, prefix + "/") {
          assert prefix + "/" + name + "/" == (prefix + "/") + (name + "/");
        }
      case SpecialEntry(_) =>
    }
  }

  /** No two files have the same path. */
  predicate DistinctKeys(assets: seq<Asset>) {
    forall i, j :: 0 <= i < j < |assets| ==> assets[i].key != assets[j].key
  }

  function SourceOf(assets: seq<Asset>, key: Key): Option<string> {
    if assets == [] then None
    else if assets[0].key == key then Some(assets[0].content)
    else SourceOf(assets[1..], key)
  }

  lemma {:induction false} SourceOfConcat(a: seq<Asset>, b: seq<Asset>, key: Key)
    ensures SourceOf(a + b, key) == if SourceOf(a, key).Some? then SourceOf(a, key) else SourceOf(b, key)
    ensures DistinctKeys(a + b) && SourceOf(a, key).Some? ==> SourceOf(b, key).None?
    ensures SourceOf(a, key).Some? ==> exists k :: 0 <= k < |a| && a[k].key == key
  {
    if a == [] {
      assert a + b == b;
    } else {
      var all := a + b;
      assert all[0] == a[0] && all[1..] == a[1..] + b;
      SourceOfConcat(a[1..], b, key);
      if a[0].key == key && DistinctKeys(all) {
        NoSource(b, key) by {
          forall k | 0 <= k < |b| ensures b[k].key != key { assert all[|a| + k] == b[k]; }
        }
      } else if DistinctKeys(all) {
        forall i, j | 0 <= i < j < |a[1..] + b| ensures (a[1..] + b)[i].key != (a[1..] + b)[j].key {
          assert all[i + 1].key != all[j + 1].key;
        }
      }
      if SourceOf(a[1..], key).Some? {
        var k :| 0 <= k < |a[1..]| && a[1..][k].key == key;
        assert a[k + 1].key == key;
      }
    }
  }

  lemma {:induction false} NoSource(assets: seq<Asset>, key: Key)
    requires forall k :: 0 <= k < |assets| ==> assets[k].key != key
    ensures SourceOf(assets, key).None?
  {
    if assets != [] { NoSource(assets[1..], key); }
  }

  datatype Package = Package(agents: seq<Entry>, chains: seq<Entry>, support: seq<Entry>)

  function Assets(package: Package): seq<Asset> {
    Flatten(package.agents, "agents") + (Flatten(package.chains, "chains") + Flatten(package.support, "gentle-ai/support"))
  }

  /** The directory has this file at the end of the path. */
  predicate HasFile(entries: seq<Entry>, path: seq<string>, content: string)
    decreases |path|
  {
    && path != []
    && if |path| == 1 then FileEntry(path[0], content) in entries
       else exists e :: e in entries && e.DirEntry? && e.name == path[0] && HasFile(e.children, path[1..], content)
  }

  function KeyOf(prefix: Key, path: seq<string>): Key
    decreases |path|
  {
    if path == [] then prefix else KeyOf(prefix + "/" + path[0], path[1..])
  }

  lemma {:induction false} FileIsListed(entries: seq<Entry>, prefix: Key, path: seq<string>, content: string)
    requires HasFile(entries, path, content)
    ensures Asset(KeyOf(prefix, path), content) in Flatten(entries, prefix)
    decreases entries
  {
    FileIsBelow(entries, path, content);
    if HasFile(entries[1..], path, content) {
      FileIsListed(entries[1..], prefix, path, content);
    } else if |path| == 1 {
      assert KeyOf(prefix, path) == prefix + "/" + path[0];
    } else {
      FileIsListed(entries[0].children, prefix + "/" + path[0], path[1..], content);
    }
  }

  lemma {:induction false} AssetHasPath(entries: seq<Entry>, prefix: Key, asset: Asset) returns (path: seq<string>)
    requires asset in Flatten(entries, prefix)
    ensures HasFile(entries, path, asset.content) && asset.key == KeyOf(prefix, path)
    decreases entries
  {
    var first := entries[0];
    if asset in Flatten(entries[1..], prefix) {
      path := AssetHasPath(entries[1..], prefix, asset);
      FileIsBelow(entries, path, asset.content);
    } else if first.FileEntry? {
      path := [first.name];
      assert first in entries && KeyOf(prefix, path) == prefix + "/" + first.name;
    } else {
      var rest := AssetHasPath(first.children, prefix + "/" + first.name, asset);
      path := [first.name] + rest;
      assert path[1..] == rest && first in entries;
    }
  }

  /** The listing has exactly the files of the directory, each under the key of its path. */
  lemma FilesAreListed(entries: seq<Entry>, prefix: Key, asset: Asset)
    ensures asset in Flatten(entries, prefix) <==>
            exists path :: HasFile(entries, path, asset.content) && asset.key == KeyOf(prefix, path)
  {
    hide Flatten, HasFile, KeyOf;
    if asset in Flatten(entries, prefix) { var path := AssetHasPath(entries, prefix, asset); }
    forall path | HasFile(entries, path, asset.content) && asset.key == KeyOf(prefix, path)
      ensures asset in Flatten(entries, prefix)
    {
      FileIsListed(entries, prefix, path, asset.content);
    }
  }

  /** A file is in the first entry or in the others. */
  lemma FileIsBelow(entries: seq<Entry>, path: seq<string>, content: string)
    requires entries != []
    ensures HasFile(entries, path, content) <==> HasFile([entries[0]], path, content) || HasFile(entries[1..], path, content)
  {
    assert forall e :: e in entries <==> e == entries[0] || e in entries[1..];
  }

  /** The package ships the files of its three directories, and nothing else. */
  lemma PackageShips(package: Package, asset: Asset)
    ensures asset in Assets(package) <==>
            || (exists path :: HasFile(package.agents, path, asset.content) && asset.key == KeyOf("agents", path))
            || (exists path :: HasFile(package.chains, path, asset.content) && asset.key == KeyOf("chains", path))
            || (exists path :: HasFile(package.support, path, asset.content) && asset.key == KeyOf("gentle-ai/support", path))
  {
    hide Flatten, HasFile, KeyOf;
    FilesAreListed(package.agents, "agents", asset);
    FilesAreListed(package.chains, "chains", asset);
    FilesAreListed(package.support, "gentle-ai/support", asset);
  }

  lemma {:induction false} SourceOfAsset(assets: seq<Asset>, asset: Asset)
    requires asset in assets && DistinctKeys(assets)
    ensures SourceOf(assets, asset.key) == Some(asset.content)
  {
    if assets[0] != asset {
      var k :| 0 <= k < |assets| && assets[k] == asset;
      assert assets[0].key != assets[k].key;
      assert forall i :: 0 < i < |assets| ==> assets[i] == assets[1..][i - 1];
      SourceOfAsset(assets[1..], asset);
    }
  }

  // ---- The home ----

  function SlotOf(files: map<Key, File>, manifest: map<Key, Hash>, key: Key): Slot {
    Slot(if key in files then Some(files[key]) else None, if key in manifest then Some(manifest[key]) else None)
  }

  function Shipped(cfg: Config, source: Option<string>, key: Key, slot: Slot): Slot {
    if source.Some? && IsSelected(cfg, key) then Installed(cfg, key, source.value, slot) else slot
  }

  function RetiredPart(cfg: Config, retired: seq<Key>, key: Key, slot: Slot): Slot {
    if key in retired && RetiresNow(cfg, key) then Retired(cfg, key, slot) else slot
  }

  class Home {
    var files: map<Key, File>
    var manifest: map<Key, Hash>

    function At(key: Key): Slot
      reads this
    {
      SlotOf(files, manifest, key)
    }

    method WriteOwned(key: Key, content: string)
      modifies this
      ensures At(key) == Owned(content)
      ensures forall k :: k != key ==> At(k) == old(At(k))
    {
      files := files[key := Readable(content)];
      manifest := manifest[key := Sha256(content)];
    }

    method Disown(key: Key)
      modifies this`manifest
      ensures At(key) == Slot(old(At(key)).file, None)
      ensures forall k :: k != key ==> At(k) == old(At(k))
    {
      manifest := manifest - {key};
    }

    /** Deletes retired assets the package owns and forgets the others. */
    method RemoveRetiredManagedAssets(cfg: Config)
      modifies this
      ensures forall key :: At(key) == RetiredPart(cfg, RETIRED, key, old(At(key)))
    {
      hide RETIRED, Comparable;
      var retired := RETIRED;
      for i := 0 to |retired|
        invariant forall key :: At(key) == RetiredPart(cfg, retired[..i], key, old(At(key)))
      {
        var key := retired[i];
        assert forall k :: k in retired[..i + 1] <==> k in retired[..i] || k == key;
        ghost var before := At(key);
        RetiringTwice(cfg, key, old(At(key)));
        if !RetiresNow(cfg, key) { continue; }
        if key !in files {
          Disown(key);
          continue;
        }
        if files[key].Unreadable? { continue; }
        var content := files[key].content;
        var managed := key in manifest && manifest[key] == Sha256(content);
        if managed || InLegacy(cfg, key, content) {
          if key in cfg.undeletable { continue; }
          files := files - {key};
        }
        Disown(key);
      }
      assert retired[..|retired|] == retired;
    }

    /** Installs one directory of the package, subdirectories included. */
    method CopyDirectoryFiles(entries: seq<Entry>, prefix: Key, cfg: Config)
      requires DistinctKeys(Flatten(entries, prefix))
      modifies this
      ensures forall key :: At(key) == Shipped(cfg, SourceOf(Flatten(entries, prefix), key), key, old(At(key)))
      decreases entries
    {
      hide Flatten, FlattenEntry, SourceOf, Installed, Comparable;
      if cfg.selected.Some? && !(exists key :: key in cfg.selected.value && StartsWith(key, prefix + "/")) {
        NothingSelected(cfg, entries, prefix);
        return;
      }
      FlattenEmpty(prefix);
      for i := 0 to |entries|
        invariant forall key :: At(key) == Shipped(cfg, SourceOf(Flatten(entries[..i], prefix), key), key, old(At(key)))
      {
        label before:
        assert entries[..i + 1] == entries[..i] + [entries[i]];
        FlattenConcat(entries[..i], [entries[i]], prefix);
        FlattenPart(entries, prefix, i);
        forall key { SourceOfConcat(Flatten(entries[..i], prefix), FlattenEntry(entries[i], prefix), key); }
        EntrySources(entries[i], prefix);
        match entries[i] {
          case DirEntry(name, children) => CopyDirectoryFiles(children, prefix + "/" + name, cfg);
          case FileEntry(name, content) => CopyFile(prefix + "/" + name, content, cfg);
          case SpecialEntry(_) =>
        }
        forall key ensures At(key) == Shipped(cfg, SourceOf(Flatten(entries[..i + 1], prefix), key), key, old(At(key))) {
          assert At(key) == Shipped(cfg, SourceOf(FlattenEntry(entries[i], prefix), key), key, old@before(At(key)));
        }
      }
      assert entries[..|entries|] == entries;
    }

    method CopyFile(key: Key, source: string, cfg: Config)
      modifies this
      ensures At(key) == Shipped(cfg, Some(source), key, old(At(key)))
      ensures forall k :: k != key ==> At(k) == old(At(k))
    {
      hide Comparable, Migrate;
      if !IsSelected(cfg, key) { return; }
      var nextSource := source;
      if key in files {
        if !cfg.force { return; }
        if key !in manifest {
          if files[key].Unreadable? || !InLegacy(cfg, key, files[key].content) {
            Disown(key);
            return;
          }
          nextSource := Migrate(key, files[key].content, source);
        } else if files[key].Unreadable? || manifest[key] != Sha256(files[key].content) {
          Disown(key);
          return;
        } else if key == RESEARCH {
          nextSource := Migrate(key, files[key].content, source);
        }
      }
      WriteOwned(key, nextSource);
    }

    /**
     * Replaces a file through a temporary one beside it. Whatever step fails,
     * the file is the old one or, on success only, the new one as a whole; a
     * temporary file stays behind only if it cannot be removed either.
     */
    method ReplaceFile(key: Key, content: string, r: Replacement) returns (ok: bool, temporary: Option<File>)
      modifies this`files
      ensures ok == Works(r)
      ensures files == if ok then old(files)[key := Readable(content)] else old(files)
      ensures temporary == if !r.inspects || ok || r.removes then None
                           else Some(if r.writes then Readable(content) else Unreadable)
    {
      if !r.inspects { return false, None; }
      temporary := Some(if r.writes then Readable(content) else Unreadable);
      ok := r.writes && r.renames;
      if ok {
        files := files[key := temporary.value];
        temporary := None;
      }
      if temporary.Some? && r.removes { temporary := None; }
    }

    /** Updates an owned file and its manifest entry together, under the lock. */
    method UpdateOwnership(key: Key, previous: string, next: string, disk: Disk) returns (outcome: Outcome)
      modifies this
      ensures (outcome, At(key)) == OwnershipUpdate(old(At(key)), previous, next, disk)
      ensures forall k :: k != key ==> At(k) == old(At(k))
    {
      if key !in manifest || manifest[key] != Sha256(previous) { return Refused; }
      if key !in files || files[key].Unreadable? { return Threw; }
      var installed := files[key].content;
      if installed != next && installed != previous { return Refused; }
      var ok := true;
      var left: Option<File>;
      if installed == previous { ok, left := ReplaceFile(key, next, disk.file); }
      if ok && Works(disk.manifest) {
        manifest := manifest[key := Sha256(next)];
        return Updated;
      }
      var restored;
      restored, left := ReplaceFile(key, previous, disk.restored);
      return if restored then Threw else CouldNotRestore;
    }

    /** A whole install run. */
    method InstallPackageAssets(package: Package, cfg: Config)
      requires DistinctKeys(Assets(package))
      modifies this
      ensures forall key :: At(key) == RunSlot(cfg, SourceOf(Assets(package), key), key, old(At(key)))
      ensures forall asset :: asset in Assets(package) && IsSelected(cfg, asset.key) && asset.key !in old(files) ==>
                asset.key in files && files[asset.key] == Readable(asset.content)
                && asset.key in manifest && manifest[asset.key] == Sha256(asset.content)
    {
      hide RETIRED, Flatten, SourceOf, Installed, Shipped, Retired, RetiresNow;
      ghost var agents, chains := Flatten(package.agents, "agents"), Flatten(package.chains, "chains");
      ghost var support := Flatten(package.support, "gentle-ai/support");
      DistinctParts(agents, chains + support);
      DistinctParts(chains, support);
      RemoveRetiredManagedAssets(cfg);
      CopyDirectoryFiles(package.agents, "agents", cfg);
      CopyDirectoryFiles(package.chains, "chains", cfg);
      CopyDirectoryFiles(package.support, "gentle-ai/support", cfg);
      forall key ensures At(key) == RunSlot(cfg, SourceOf(Assets(package), key), key, old(At(key))) {
        PartsCombine(cfg, agents, chains, support, key, old(At(key)));
      }
      forall asset | asset in Assets(package) && IsSelected(cfg, asset.key) && asset.key !in old(files)
        ensures At(asset.key) == Slot(Some(Readable(asset.content)), Some(Sha256(asset.content)))
      {
        SourceOfAsset(Assets(package), asset);
        MissingIsInstalled(cfg, asset.content, asset.key, old(At(asset.key)));
      }
    }
  }

  lemma RetiringTwice(cfg: Config, key: Key, slot: Slot)
    ensures Retired(cfg, key, Retired(cfg, key, slot)) == Retired(cfg, key, slot)
  {
    hide Comparable;
  }

  lemma FlattenEmpty(prefix: Key)
    ensures Flatten([], prefix) == [] && forall key :: SourceOf([], key).None?
  {
  }

  lemma DistinctParts(a: seq<Asset>, b: seq<Asset>)
    requires DistinctKeys(a + b)
    ensures DistinctKeys(a) && DistinctKeys(b)
  {
    forall i, j | 0 <= i < j < |a| ensures a[i].key != a[j].key { assert (a + b)[i] == a[i] && (a + b)[j] == a[j]; }
    forall i, j | 0 <= i < j < |b| ensures b[i].key != b[j].key {
      assert (a + b)[|a| + i] == b[i] && (a + b)[|a| + j] == b[j];
    }
  }

  /** The listing splits at every entry, and its parts have distinct keys too. */
  lemma FlattenPart(entries: seq<Entry>, prefix: Key, i: nat)
    requires i < |entries| && DistinctKeys(Flatten(entries, prefix))
    ensures Flatten([entries[i]], prefix) == FlattenEntry(entries[i], prefix)
    ensures DistinctKeys(FlattenEntry(entries[i], prefix))
    ensures DistinctKeys(Flatten(entries[..i], prefix) + FlattenEntry(entries[i], prefix))
  {
    var one := [entries[i]];
    assert Flatten(one, prefix) == FlattenEntry(entries[i], prefix) + Flatten(one[1..], prefix);
    assert entries == entries[..i] + (one + entries[i + 1..]);
    var front, rest := Flatten(entries[..i], prefix), Flatten(entries[i + 1..], prefix);
    FlattenConcat(entries[..i], one + entries[i + 1..], prefix);
    FlattenConcat(one, entries[i + 1..], prefix);
    assert Flatten(entries, prefix) == (front + Flatten(one, prefix)) + rest;
    DistinctParts(front + Flatten(one, prefix), rest);
    DistinctParts(front, Flatten(one, prefix));
  }

  lemma EntrySources(entry: Entry, prefix: Key)
    ensures entry.DirEntry? ==> FlattenEntry(entry, prefix) == Flatten(entry.children, prefix + "/" + entry.name)
    ensures entry.FileEntry? ==>
              forall key :: SourceOf(FlattenEntry(entry, prefix), key)
                         == if key == prefix + "/" + entry.name then Some(entry.content) else None
    ensures entry.SpecialEntry? ==> forall key :: SourceOf(FlattenEntry(entry, prefix), key).None?
  {
  }

  lemma NothingSelected(cfg: Config, entries: seq<Entry>, prefix: Key)
    requires cfg.selected.Some?
    requires !(exists key :: key in cfg.selected.value && StartsWith(key, prefix + "/"))
    ensures forall key :: SourceOf(Flatten(entries, prefix), key).Some? ==> !IsSelected(cfg, key)
  {
    KeysAreBelow(entries, prefix);
    forall key | SourceOf(Flatten(entries, prefix), key).Some? ensures !IsSelected(cfg, key) {
      SourceOfConcat(Flatten(entries, prefix), [], key);
      assert Flatten(entries, prefix) + [] == Flatten(entries, prefix);
      var k :| 0 <= k < |Flatten(entries, prefix)| && Flatten(entries, prefix)[k].key == key;
      assert Flatten(entries, prefix)[k] in Flatten(entries, prefix);
    }
  }

  /** Three directories installed one after the other are one package. */
  lemma PartsCombine(cfg: Config, agents: seq<Asset>, chains: seq<Asset>, support: seq<Asset>, key: Key, slot: Slot)
    requires DistinctKeys(agents + (chains + support))
    ensures var retired := RetiredPart(cfg, RETIRED, key, slot);
            Shipped(cfg, SourceOf(support, key), key,
                    Shipped(cfg, SourceOf(chains, key), key, Shipped(cfg, SourceOf(agents, key), key, retired)))
            == RunSlot(cfg, SourceOf(agents + (chains + support), key), key, slot)
  {
    hide RETIRED, SourceOf, Installed, Retired, RetiresNow;
    DistinctParts(agents, chains + support);
    SourceOfConcat(agents, chains + support, key);
    SourceOfConcat(chains, support, key);
  }

  /** One run takes the home from `before` to `after`. */
  ghost predicate RunTakes(cfg: Config, package: Package,
                           before: (map<Key, File>, map<Key, Hash>), after: (map<Key, File>, map<Key, Hash>)) {
    forall key :: SlotOf(after.0, after.1, key)
               == RunSlot(cfg, SourceOf(Assets(package), key), key, SlotOf(before.0, before.1, key))
  }

  /**
   * Forced runs converge: the fourth of four consecutive runs finds files and
   * manifest as it leaves them, wherever the first one started.
   */
  lemma ForcedRunsConverge(cfg: Config, package: Package, homes: seq<(map<Key, File>, map<Key, Hash>)>)
    requires cfg.force && |homes| == 5
    requires forall i :: 0 <= i < 4 ==> RunTakes(cfg, package, homes[i], homes[i + 1])
    ensures homes[3] == homes[4]
  {
    hide RunSlot, SourceOf, Assets;
    forall key ensures SlotOf(homes[3].0, homes[3].1, key) == SlotOf(homes[4].0, homes[4].1, key) {
      var source, slot := SourceOf(Assets(package), key), SlotOf(homes[0].0, homes[0].1, key);
      assert RunTakes(cfg, package, homes[0], homes[1]) && RunTakes(cfg, package, homes[1], homes[2]);
      assert RunTakes(cfg, package, homes[2], homes[3]) && RunTakes(cfg, package, homes[3], homes[4]);
      RunsUnfold(cfg, source, key, slot);
      ThreeRunsSettle(cfg, source, key, slot);
    }
    SameSlotsSameHome(homes[3], homes[4]);
  }

  lemma SameSlotsSameHome(a: (map<Key, File>, map<Key, Hash>), b: (map<Key, File>, map<Key, Hash>))
    requires forall key :: SlotOf(a.0, a.1, key) == SlotOf(b.0, b.1, key)
    ensures a == b
  {
    forall key ensures key in a.0 <==> key in b.0 { assert SlotOf(a.0, a.1, key) == SlotOf(b.0, b.1, key); }
    forall key ensures key in a.1 <==> key in b.1 { assert SlotOf(a.0, a.1, key) == SlotOf(b.0, b.1, key); }
    forall key | key in a.0 ensures a.0[key] == b.0[key] { assert SlotOf(a.0, a.1, key) == SlotOf(b.0, b.1, key); }
    forall key | key in a.1 ensures a.1[key] == b.1[key] { assert SlotOf(a.0, a.1, key) == SlotOf(b.0, b.1, key); }
    assert a.0 == b.0 && a.1 == b.1;
  }

  // ---- Updating one owned file ----

  datatype Outcome = Updated | Refused | Threw | CouldNotRestore

  /** Which steps of one replacement succeed: looking at the old file, writing beside it, renaming, removing. */
  datatype Replacement = Replacement(inspects: bool, writes: bool, renames: bool, removes: bool)

  predicate Works(r: Replacement) { r.inspects && r.writes && r.renames }

  /** The replacements of the file and of the manifest, and that of the file on the way back. */
  datatype Disk = Disk(file: Replacement, manifest: Replacement, restored: Replacement)

  /** `updatePackageManagedSddAgentOwnership`, seen from its key. */
  function OwnershipUpdate(slot: Slot, previous: string, next: string, disk: Disk): (Outcome, Slot) {
    if slot.entry != Some(Sha256(previous)) then (Refused, slot)
    else if slot.file.None? || slot.file.value.Unreadable? then (Threw, slot)
    else
      var installed := slot.file.value.content;
      if installed != next && installed != previous then (Refused, slot)
      else if (installed == previous ==> Works(disk.file)) && Works(disk.manifest) then (Updated, Owned(next))
      else
        var reached := if installed == previous && Works(disk.file) then next else installed;
        if Works(disk.restored) then (Threw, Owned(previous))
        else (CouldNotRestore, Slot(Some(Readable(reached)), slot.entry))
  }

  /**
   * Whatever write fails, an update that reports success left file and manifest
   * at the new text; one that does not left the manifest alone, and, unless it
   * says that it could not restore, the file is the one it found or the
   * previous text that the manifest vouches for.
   */
  lemma UpdateIsAtomic(slot: Slot, previous: string, next: string, disk: Disk)
    ensures var (outcome, after) := OwnershipUpdate(slot, previous, next, disk);
            && (outcome == Updated ==> after == Owned(next))
            && (outcome == Refused ==> after == slot)
            && (outcome == Threw ==> after == slot || after == Owned(previous))
            && (outcome != Updated ==> after.entry == slot.entry)
            && (outcome == CouldNotRestore ==>
                  && slot.entry == Some(Sha256(previous))
                  && (after.file == Some(Readable(previous)) || after.file == Some(Readable(next))))
    ensures var (outcome, after) := OwnershipUpdate(slot, previous, next, disk);
            var replaced := disk.file.inspects && disk.file.writes && disk.file.renames;
            var recorded := disk.manifest.inspects && disk.manifest.writes && disk.manifest.renames;
            var restored := disk.restored.inspects && disk.restored.writes && disk.restored.renames;
            var vouched := slot.entry == Some(Sha256(previous));
            var ready := vouched && (slot.file == Some(Readable(previous)) || slot.file == Some(Readable(next)));
            var done := (slot.file == Some(Readable(previous)) ==> replaced) && recorded;
            && (outcome == Updated <==> ready && done)
            && (outcome == Refused <==> !vouched || (!ready && slot.file.Some? && slot.file.value.Readable?))
            && (outcome == CouldNotRestore <==> ready && !done && !restored)
            && (ready && !done && restored ==> outcome == Threw && after == Owned(previous))
            && (outcome == CouldNotRestore ==>
                  after.file == if slot.file == Some(Readable(previous)) && replaced then Some(Readable(next)) else slot.file)
  {
  }
}
