/**
 * Model routing in the frontmatter of an installed agent file: the lines that
 * choose a model are dropped, inserted and carried over to a new package
 * version without touching the rest of the file.
 */
module Routing {
  import opened Wrappers
  import opened Text

  const FENCE := "\n---"

  /** Text is a nonempty list of newline-free lines. */
  predicate IsLine(l: string) { '\n' !in l }

  predicate AreLines(lines: seq<string>) { forall l :: l in lines ==> IsLine(l) }

  /** `lines.join("\n")` */
  function Join(lines: seq<string>): string {
    if lines == [] then ""
    else if |lines| == 1 then lines[0]
    else lines[0] + (['\n'] + Join(lines[1..]))
  }

  /** `s.split("\n")` */
  function Split(s: string): (lines: seq<string>)
    ensures lines != [] && AreLines(lines) && Join(lines) == s
  {
    if s == "" then [""]
    else
      var rest := Split(s[1..]);
      if s[0] == '\n' then
        assert s == [s[0]] + s[1..];
        [""] + rest
      else
        assert s == [s[0]] + s[1..];
        assert IsLine(rest[0]);
        assert ([[s[0]] + rest[0]] + rest[1..])[1..] == rest[1..];
        [[s[0]] + rest[0]] + rest[1..]
  }

  lemma {:induction false} SplitJoin(lines: seq<string>)
    requires lines != [] && AreLines(lines)
    ensures Split(Join(lines)) == lines
    decreases |lines|, |lines[0]|
  {
    var s := Join(lines);
    if lines[0] == "" {
      if |lines| > 1 {
        assert s == ['\n'] + Join(lines[1..]);
        SplitJoin(lines[1..]);
        assert [""] + lines[1..] == lines;
      }
    } else {
      var shorter := [lines[0][1..]] + lines[1..];
      assert IsLine(lines[0]) && AreLines(lines[1..]);
      assert AreLines(shorter) by {
        forall l | l in shorter ensures IsLine(l) { assert l == lines[0][1..] || l in lines[1..]; }
      }
      assert shorter[1..] == lines[1..];
      assert s == [lines[0][0]] + Join(shorter);
      SplitJoin(shorter);
      assert [lines[0][0]] + lines[0][1..] == lines[0];
      assert [[s[0]] + shorter[0]] + shorter[1..] == lines;
    }
  }

  /** `/^(?:model|thinking):/.test(line)` */
  predicate IsRouting(line: string) { StartsWith(line, "model:") || StartsWith(line, "thinking:") }

  /** The routing lines among `lines`, in order. */
  function RoutingOf(lines: seq<string>): seq<string> {
    if lines == [] then []
    else (if IsRouting(lines[0]) then [lines[0]] else []) + RoutingOf(lines[1..])
  }

  function WithoutRouting(lines: seq<string>): seq<string> {
    if lines == [] then []
    else (if IsRouting(lines[0]) then [] else [lines[0]]) + WithoutRouting(lines[1..])
  }

  lemma {:induction false} FilterMembers(lines: seq<string>)
    ensures forall l :: l in RoutingOf(lines) <==> l in lines && IsRouting(l)
    ensures forall l :: l in WithoutRouting(lines) <==> l in lines && !IsRouting(l)
  {
    hide IsRouting;
    if lines != [] {
      FilterMembers(lines[1..]);
      assert forall l :: l in lines <==> l == lines[0] || l in lines[1..];
    }
  }

  /** The first line that opens with the description key. */
  function DescriptionIndex(lines: seq<string>): (r: Option<nat>)
    ensures r.Some? ==> r.value < |lines| && StartsWith(lines[r.value], "description:")
    ensures r.Some? ==> forall k :: 0 <= k < r.value ==> !StartsWith(lines[k], "description:")
    ensures r.None? ==> forall l :: l in lines ==> !StartsWith(l, "description:")
  {
    if lines == [] then None
    else if StartsWith(lines[0], "description:") then Some(0)
    else
      match DescriptionIndex(lines[1..])
      case None => None
      case Some(k) => Some(k + 1)
  }

  function InsertionIndex(lines: seq<string>): (k: nat)
    ensures k <= |lines|
  {
    match DescriptionIndex(lines)
    case Some(k) => k + 1
    case None => if |lines| < 1 then |lines| else 1
  }

  /** The frontmatter of a file ends at the first closing fence after its opening one. */
  function FrontmatterEnd(content: string): (r: Option<nat>)
    ensures r.Some? ==> 4 <= r.value && r.value + 4 <= |content|
  {
    if !StartsWith(content, "---\n") then None else IndexOf(content, FENCE, 4)
  }

  function FrontmatterLines(content: string): (lines: seq<string>)
    requires FrontmatterEnd(content).Some?
    ensures lines != [] && AreLines(lines)
  {
    Split(content[4..FrontmatterEnd(content).value])
  }

  function Body(content: string): (body: string)
    requires FrontmatterEnd(content).Some?
    ensures StartsWith(body, FENCE)
  {
    content[FrontmatterEnd(content).value..]
  }

  function WithRouting(lines: seq<string>, routing: seq<string>): seq<string> {
    var kept := WithoutRouting(lines);
    var k := InsertionIndex(kept);
    if routing == [] then kept else kept[..k] + routing + kept[k..]
  }

  function Assembled(lines: seq<string>, body: string): string { "---\n" + (Join(lines) + body) }

  /** `updateAgentFrontmatterRouting` */
  function Update(content: string, routing: seq<string>): string {
    if FrontmatterEnd(content).None? then content
    else Assembled(WithRouting(FrontmatterLines(content), routing), Body(content))
  }

  function Strip(content: string): string { Update(content, []) }

  /** The routing lines an installed file carries; none without frontmatter. */
  function RoutingLines(content: string): (r: seq<string>)
    ensures AreRoutingLines(r)
  {
    if FrontmatterEnd(content).None? then []
    else
      FilterMembers(FrontmatterLines(content));
      RoutingOf(FrontmatterLines(content))
  }

  predicate AreRoutingLines(routing: seq<string>) {
    forall l :: l in routing ==> IsRouting(l) && IsLine(l)
  }

  predicate IsAgent(key: string) { StartsWith(key, "agents/") }

  /** `legacyComparableAssetContent` */
  function Comparable(key: string, content: string): string {
    if IsAgent(key) then Strip(content) else content
  }

  /** `migrateLegacyAssetContent` */
  function Migrate(key: string, installed: string, packaged: string): string {
    if !IsAgent(key) || FrontmatterEnd(installed).None? then packaged
    else Update(packaged, RoutingOf(FrontmatterLines(installed)))
  }

  // ---- Filtering ----

  lemma {:induction false} RoutingOfConcat(a: seq<string>, b: seq<string>)
    ensures RoutingOf(a + b) == RoutingOf(a) + RoutingOf(b)
  {
    hide IsRouting;
    if a == [] {
      assert a + b == b;
    } else {
      assert (a + b)[0] == a[0] && (a + b)[1..] == a[1..] + b;
      RoutingOfConcat(a[1..], b);
      var head := if IsRouting(a[0]) then [a[0]] else [];
      assert head + (RoutingOf(a[1..]) + RoutingOf(b)) == head + RoutingOf(a[1..]) + RoutingOf(b);
    }
  }

  lemma {:induction false} OthersConcat(a: seq<string>, b: seq<string>)
    ensures WithoutRouting(a + b) == WithoutRouting(a) + WithoutRouting(b)
  {
    hide IsRouting;
    if a == [] {
      assert a + b == b;
    } else {
      assert (a + b)[0] == a[0] && (a + b)[1..] == a[1..] + b;
      OthersConcat(a[1..], b);
      var head := if IsRouting(a[0]) then [] else [a[0]];
      assert head + (WithoutRouting(a[1..]) + WithoutRouting(b)) == head + WithoutRouting(a[1..]) + WithoutRouting(b);
    }
  }

  lemma WithoutRoutingConcat(a: seq<string>, b: seq<string>)
    ensures WithoutRouting(a + b) == WithoutRouting(a) + WithoutRouting(b)
    ensures RoutingOf(a + b) == RoutingOf(a) + RoutingOf(b)
  {
    RoutingOfConcat(a, b);
    OthersConcat(a, b);
  }

  lemma {:induction false} FilterAllOrNone(lines: seq<string>)
    ensures (forall l :: l in lines ==> IsRouting(l)) ==> WithoutRouting(lines) == [] && RoutingOf(lines) == lines
    ensures (forall l :: l in lines ==> !IsRouting(l)) ==> WithoutRouting(lines) == lines && RoutingOf(lines) == []
  {
    if lines != [] {
      FilterAllOrNone(lines[1..]);
      assert lines == [lines[0]] + lines[1..];
    }
  }

  /** Inserted routing lines are exactly what a later filter separates again. */
  lemma InsertedIsSeparable(lines: seq<string>, routing: seq<string>)
    requires AreRoutingLines(routing)
    ensures WithoutRouting(WithRouting(lines, routing)) == WithoutRouting(lines)
    ensures RoutingOf(WithRouting(lines, routing)) == routing
  {
    hide IsRouting, DescriptionIndex, RoutingOf, WithoutRouting;
    var kept := WithoutRouting(lines);
    FilterMembers(lines);
    FilterAllOrNone(kept);
    if routing != [] {
      var k := InsertionIndex(kept);
      FilterAllOrNone(kept[..k]);
      FilterAllOrNone(routing);
      FilterAllOrNone(kept[k..]);
      WithoutRoutingConcat(kept[..k] + routing, kept[k..]);
      WithoutRoutingConcat(kept[..k], routing);
      assert kept[..k] + [] + kept[k..] == kept;
      assert [] + routing + [] == routing;
    }
  }

  // ---- The closing fence ----

  /** No line below the first one opens with a fence, so no closing fence is inside. */
  predicate NoFenceInside(lines: seq<string>) {
    forall i :: 1 <= i < |lines| ==> !StartsWith(lines[i], "---")
  }

  lemma {:induction false} FenceLineOccurs(lines: seq<string>, i: nat)
    requires 1 <= i < |lines| && StartsWith(lines[i], "---")
    ensures exists j: nat :: OccursAt(Join(lines), FENCE, j)
    decreases i
  {
    var text := Join(lines);
    var rest := Join(lines[1..]);
    assert text == lines[0] + (['\n'] + rest);
    if i == 1 {
      assert StartsWith(rest, "---") by { assert lines[1..][0] == lines[1]; }
      assert text[|lines[0]|..|lines[0]| + 4] == FENCE;
      assert OccursAt(text, FENCE, |lines[0]|);
    } else {
      FenceLineOccurs(lines[1..], i - 1);
      var j: nat :| OccursAt(rest, FENCE, j);
      assert text[|lines[0]| + 1 + j..|lines[0]| + 1 + j + 4] == rest[j..j + 4];
      assert OccursAt(text, FENCE, |lines[0]| + 1 + j);
    }
  }

  lemma FrontmatterHasNoFenceInside(content: string)
    requires FrontmatterEnd(content).Some?
    ensures NoFenceInside(FrontmatterLines(content))
  {
    var lines := FrontmatterLines(content);
    var end := FrontmatterEnd(content).value;
    forall i | 1 <= i < |lines| ensures !StartsWith(lines[i], "---") {
      if StartsWith(lines[i], "---") {
        FenceLineOccurs(lines, i);
        var j: nat :| OccursAt(content[4..end], FENCE, j);
        OccursInSlice(content, 4, end, FENCE, j);
      }
    }
  }

  /** Where a fence in joined lines can begin: at the end of the first line, or further down. */
  lemma FenceIsFurtherDown(head: string, tail: string, j: nat)
    requires IsLine(head) && OccursAt(head + (['\n'] + tail), FENCE, j)
    ensures j >= |head|
    ensures j == |head| ==> StartsWith(tail, "---")
    ensures j > |head| ==> OccursAt(tail, FENCE, j - |head| - 1)
  {
    var text := head + (['\n'] + tail);
    var found := text[j..j + 4];
    assert found == FENCE && found[0] == text[j] == '\n';
    if j == |head| {
      assert tail[..3] == found[1..] == "---";
    } else if j > |head| {
      var k := j - |head| - 1;
      assert tail[k..k + 4] == found;
    }
  }

  /** Lines are joined so that the first fence is the one that opens the body. */
  lemma {:induction false} FirstFence(lines: seq<string>, body: string, j: nat)
    requires AreLines(lines) && NoFenceInside(lines) && StartsWith(body, FENCE)
    ensures OccursAt(Join(lines) + body, FENCE, |Join(lines)|)
    ensures j < |Join(lines)| ==> !OccursAt(Join(lines) + body, FENCE, j)
    decreases |lines|
  {
    BodyOpens(Join(lines), body);
    if j < |Join(lines)| && OccursAt(Join(lines) + body, FENCE, j) {
      hide OccursAt, StartsWith, IsLine;
      var head, rest := lines[0], lines[1..];
      if |lines| == 1 {
        LastLineHasNoFence(head, body, j);
      } else {
        var tail := Join(rest) + body;
        assert Join(lines) + body == head + (['\n'] + tail);
        FenceIsFurtherDown(head, tail, j);
        if j == |head| { LineAfterFence(rest, body); } else { FirstFence(rest, body, j - |head| - 1); }
      }
    }
  }

  lemma BodyOpens(text: string, body: string)
    requires StartsWith(body, FENCE)
    ensures OccursAt(text + body, FENCE, |text|)
  {
    assert (text + body)[|text|..][..4] == body[..4] == FENCE;
  }

  lemma LastLineHasNoFence(line: string, body: string, j: nat)
    requires IsLine(line) && j < |line|
    ensures !OccursAt(line + body, FENCE, j)
  {
    if j + 4 <= |line + body| { assert (line + body)[j..j + 4][0] == line[j]; }
  }

  /** If joined lines open with a fence, it is their first line that does. */
  lemma LineAfterFence(lines: seq<string>, body: string)
    requires lines != [] && AreLines(lines) && StartsWith(body, FENCE)
    requires StartsWith(Join(lines) + body, "---")
    ensures StartsWith(lines[0], "---")
  {
    var text := Join(lines) + body;
    var n := |lines[0]|;
    assert text[..n] == lines[0];
    assert text[n] == '\n';
    assert text[0] == text[..3][0] == '-' && text[1] == text[..3][1] == '-' && text[2] == text[..3][2] == '-';
    assert n >= 3;
    assert lines[0][..3] == text[..3];
  }

  /** Occurrences below the opening fence are occurrences in what follows it. */
  lemma OccursBelow(inner: string, j: nat)
    requires 4 <= j
    ensures OccursAt("---\n" + inner, FENCE, j) <==> OccursAt(inner, FENCE, j - 4)
  {
    var content := "---\n" + inner;
    if j + 4 <= |content| { assert content[j..j + 4] == inner[j - 4..j]; }
  }

  lemma AssembledEnd(lines: seq<string>, body: string)
    requires AreLines(lines) && NoFenceInside(lines) && StartsWith(body, FENCE)
    ensures FrontmatterEnd(Assembled(lines, body)) == Some(4 + |Join(lines)|)
  {
    hide Join, NoFenceInside, AreLines, OccursAt;
    var content := Assembled(lines, body);
    var n := 4 + |Join(lines)|;
    FirstFence(lines, body, 0);
    OccursBelow(Join(lines) + body, n);
    forall j: nat | 4 <= j < n ensures !OccursAt(content, FENCE, j) {
      OccursBelow(Join(lines) + body, j);
      FirstFence(lines, body, j - 4);
    }
    assert OccursAt(content, FENCE, n);
    assert content[..4] == "---\n";
  }

  /** Reading back an assembled file finds the lines and the body it was made of. */
  lemma AssembledReadsBack(lines: seq<string>, body: string)
    requires AreLines(lines) && NoFenceInside(lines) && StartsWith(body, FENCE)
    ensures var content := Assembled(lines, body);
            && FrontmatterEnd(content) == Some(4 + |Join(lines)|)
            && FrontmatterLines(content) == (if lines == [] then [""] else lines)
            && Body(content) == body
  {
    hide FrontmatterEnd, Split, NoFenceInside;
    var content := Assembled(lines, body);
    AssembledEnd(lines, body);
    assert content[4..4 + |Join(lines)|] == Join(lines);
    assert content[4 + |Join(lines)|..] == body;
    if lines != [] { SplitJoin(lines); } else { SplitJoin([""]); }
  }

  lemma {:induction false} WithoutRoutingKeepsFences(lines: seq<string>)
    requires NoFenceInside(lines)
    ensures NoFenceInside(WithoutRouting(lines))
    ensures WithoutRouting(lines) != [] ==> forall l :: l in WithoutRouting(lines)[1..] ==> l in lines[1..]
  {
    if lines != [] {
      var tail := lines[1..];
      FilterMembers(tail);
      var kept := WithoutRouting(lines);
      if IsRouting(lines[0]) {
        assert kept == WithoutRouting(tail);
      } else {
        assert kept[1..] == WithoutRouting(tail);
      }
      forall i | 1 <= i < |kept| ensures !StartsWith(kept[i], "---") {
        assert kept[i] in kept[1..] && kept[i] in tail;
      }
    }
  }

  /** Rewriting routing lines never creates an earlier closing fence. */
  lemma UpdatedHasNoFenceInside(content: string, routing: seq<string>)
    requires FrontmatterEnd(content).Some? && AreRoutingLines(routing)
    ensures var lines := WithRouting(FrontmatterLines(content), routing);
            NoFenceInside(lines) && AreLines(lines)
  {
    var lines := FrontmatterLines(content);
    FrontmatterHasNoFenceInside(content);
    WithoutRoutingKeepsFences(lines);
    FilterMembers(lines);
    var kept := WithoutRouting(lines);
    var k := InsertionIndex(kept);
    forall r | r in routing ensures !StartsWith(r, "---") {
      assert r[0] == 'm' || r[0] == 't';
    }
  }

  /** What an update leaves behind, read back: the new lines and the old body. */
  lemma UpdateReadsBack(content: string, routing: seq<string>)
    requires FrontmatterEnd(content).Some? && AreRoutingLines(routing)
    ensures var updated, lines := Update(content, routing), WithRouting(FrontmatterLines(content), routing);
            && FrontmatterEnd(updated).Some?
            && FrontmatterLines(updated) == (if lines == [] then [""] else lines)
            && Body(updated) == Body(content)
  {
    UpdatedHasNoFenceInside(content, routing);
    AssembledReadsBack(WithRouting(FrontmatterLines(content), routing), Body(content));
  }

  // ---- The laws ----

  /** Stripping forgets every update. */
  lemma StripAbsorbsUpdate(content: string, routing: seq<string>)
    requires AreRoutingLines(routing)
    ensures Strip(Update(content, routing)) == Strip(content)
  {
    if FrontmatterEnd(content).Some? {
      UpdateReadsBack(content, routing);
      InsertedIsSeparable(FrontmatterLines(content), routing);
      assert Join([""]) == Join([]);
      assert WithoutRouting([""]) == [""];
    }
  }

  lemma StripIsIdempotent(content: string)
    ensures Strip(Strip(content)) == Strip(content)
  {
    StripAbsorbsUpdate(content, []);
  }

  /** An updated file carries exactly the routing lines it was given, in order. */
  lemma UpdateCarriesRouting(content: string, routing: seq<string>)
    requires FrontmatterEnd(content).Some? && AreRoutingLines(routing)
    ensures FrontmatterEnd(Update(content, routing)).Some?
    ensures RoutingLines(Update(content, routing)) == routing
  {
    UpdateReadsBack(content, routing);
    InsertedIsSeparable(FrontmatterLines(content), routing);
    assert RoutingOf([""]) == [];
  }

  /**
   * The last of two updates wins, except that stripping a frontmatter made of
   * routing lines only leaves an empty line, which the second update keeps.
   */
  lemma LastUpdateWins(content: string, first: seq<string>, second: seq<string>)
    requires AreRoutingLines(first) && AreRoutingLines(second) && second != []
    ensures Update(Update(content, first), second) == Update(content, second)
       <==> FrontmatterEnd(content).None? || WithoutRouting(FrontmatterLines(content)) != [] || first != []
  {
    if FrontmatterEnd(content).Some? {
      UpdateReadsBack(content, first);
      InsertedIsSeparable(FrontmatterLines(content), first);
      if WithoutRouting(FrontmatterLines(content)) == [] && first == [] {
        assert WithRouting([""], second) == [""] + second;
        assert WithRouting(FrontmatterLines(content), second) == second;
        assert Join([""] + second) == "" + (['\n'] + Join(second)) by { assert ([""] + second)[1..] == second; }
        assert |Update(Update(content, first), second)| == |Update(content, second)| + 1;
      }
    }
  }

  /**
   * A migrated file is the packaged one but for routing, and when both files
   * have frontmatter it carries exactly the installed file's routing lines.
   */
  lemma MigrationLaw(key: string, installed: string, packaged: string)
    ensures Comparable(key, Migrate(key, installed, packaged)) == Comparable(key, packaged)
    ensures IsAgent(key) && FrontmatterEnd(installed).Some? && FrontmatterEnd(packaged).Some? ==>
              RoutingLines(Migrate(key, installed, packaged)) == RoutingLines(installed)
  {
    if IsAgent(key) && FrontmatterEnd(installed).Some? {
      var routing := RoutingOf(FrontmatterLines(installed));
      FilterMembers(FrontmatterLines(installed));
      StripAbsorbsUpdate(packaged, routing);
      if FrontmatterEnd(packaged).Some? { UpdateCarriesRouting(packaged, routing); }
    }
  }

  // ---- What an update writes ----

  /** The first line that opens with the description key is the last of `front`. */
  predicate EndsInDescription(front: seq<string>) {
    && front != [] && "description:" <= front[|front| - 1]
    && forall k :: 0 <= k < |front| - 1 ==> !("description:" <= front[k])
  }

  /**
   * The lines that choose a model go, all others stay in their order, and new
   * routing stands right below the description, or below the first line when
   * there is none.
   */
  lemma RoutingIsPlaced(lines: seq<string>, routing: seq<string>) returns (front: seq<string>, back: seq<string>)
    ensures front + back == WithoutRouting(lines)
    ensures forall l :: l in front + back <==> l in lines && !("model:" <= l) && !("thinking:" <= l)
    ensures WithRouting(lines, routing) == front + routing + back
    ensures (exists l :: l in front + back && "description:" <= l) ==> EndsInDescription(front)
    ensures (forall l :: l in front + back ==> !("description:" <= l)) ==> |front| == if front + back == [] then 0 else 1
  {
    FilterMembers(lines);
    var kept := WithoutRouting(lines);
    hide WithoutRouting;
    front, back := InsertionIsPlaced(kept);
    if routing == [] { assert front + routing + back == kept; }
  }

  lemma InsertionIsPlaced(kept: seq<string>) returns (front: seq<string>, back: seq<string>)
    ensures front + back == kept && front == kept[..InsertionIndex(kept)] && back == kept[InsertionIndex(kept)..]
    ensures (exists l :: l in kept && "description:" <= l) ==> EndsInDescription(front)
    ensures (forall l :: l in kept ==> !("description:" <= l)) ==> |front| == if kept == [] then 0 else 1
  {
    hide DescriptionIndex;
    var k := InsertionIndex(kept);
    front, back := kept[..k], kept[k..];
    assert front + back == kept;
    if DescriptionIndex(kept).Some? { assert kept[DescriptionIndex(kept).value] in kept; }
  }

  /** A file without frontmatter stays as it is. */
  lemma NoFrontmatterNoChange(content: string, routing: seq<string>)
    requires !("---\n" <= content) || forall j: nat :: 4 <= j ==> !OccursAt(content, "\n---", j)
    ensures Update(content, routing) == content
  {
  }

  /** In any other nothing but the lines between the fences changes, and they change as `RoutingIsPlaced` says. */
  lemma UpdateRewritesLines(content: string, routing: seq<string>, end: nat) returns (lines: seq<string>)
    requires "---\n" <= content && 4 <= end && OccursAt(content, "\n---", end)
    requires forall j: nat :: 4 <= j < end ==> !OccursAt(content, "\n---", j)
    ensures lines != [] && AreLines(lines) && Join(lines) == content[4..end]
    ensures Update(content, routing) == "---\n" + (Join(WithRouting(lines, routing)) + content[end..])
  {
    assert FrontmatterEnd(content) == Some(end);
    lines := FrontmatterLines(content);
  }

  /** Only agents are compared and migrated without regard to their routing. */
  lemma OnlyAgentsAreRouted(key: string, installed: string, packaged: string)
    ensures !("agents/" <= key) ==> Comparable(key, installed) == installed && Migrate(key, installed, packaged) == packaged
    ensures "agents/" <= key ==> Comparable(key, installed) == Update(installed, [])
    ensures FrontmatterEnd(installed).None? ==> Migrate(key, installed, packaged) == packaged
  {
  }
}
