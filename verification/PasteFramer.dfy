/**
 * Bracketed-paste framing in the prompt editor. A paste arrives in arbitrary
 * chunks between a start and an end marker; the framer holds it back, in a
 * bounded buffer, until it is whole.
 */
module PasteFramer {
  import opened Wrappers
  import opened Text

  const BEGIN: string := "\U{1B}[200~"
  const END: string := "\U{1B}[201~"
  const MAX_CHARS: nat := 1024 * 1024

  /** What leaves the framer: a whole frame for the editor, or ordinary input. */
  datatype Output = Paste(frame: string) | Keys(data: string)

  // ---- Reference: keep everything, look for the marker in all of it ----

  /** `seen` is every character since the start marker, when inside a frame. */
  datatype Parse = Parse(seen: Option<string>, outputs: seq<Output>)

  function Forwarded(text: string, normal: bool): seq<Output> {
    if |text| <= MAX_CHARS && !normal then [Paste(BEGIN + text + END)] else []
  }

  /** One input event, with no bound on what is remembered. */
  function Feed(seen: Option<string>, data: string, normal: bool): (r: Parse)
    requires seen.Some? ==> IndexOf(seen.value, END, 0).None?
    ensures r.seen.Some? ==> IndexOf(r.seen.value, END, 0).None?
    decreases |data|, if seen.None? then 1 else 0
  {
    match seen
    case None =>
      (match IndexOf(data, BEGIN, 0)
       case None => Parse(None, [Keys(data)])
       case Some(start) => Feed(Some(""), data[start + |BEGIN|..], normal))
    case Some(before) =>
      var text := before + data;
      match IndexOf(text, END, 0)
      case None => Parse(Some(text), [])
      case Some(end) =>
        FrameEndsInNewData(before, data, end);
        var rest := text[end + |END|..];
        if rest == "" then Parse(None, Forwarded(text[..end], normal))
        else
          var next := Feed(None, rest, normal);
          Parse(next.seen, Forwarded(text[..end], normal) + next.outputs)
  }

  lemma FeedOutside(data: string, normal: bool)
    ensures Feed(None, data, normal) ==
              match IndexOf(data, BEGIN, 0)
              case None => Parse(None, [Keys(data)])
              case Some(start) => Feed(Some(""), data[start + |BEGIN|..], normal)
  {
  }

  /** How a frame goes on: it is collected, or it ends and the rest is new input. */
  lemma FeedInside(before: string, data: string, normal: bool)
    requires IndexOf(before, END, 0).None?
    ensures var text := before + data;
            Feed(Some(before), data, normal) ==
              match IndexOf(text, END, 0)
              case None => Parse(Some(text), [])
              case Some(end) =>
                var rest := text[end + |END|..];
                var next := if rest == "" then Parse(None, []) else Feed(None, rest, normal);
                Parse(next.seen, Forwarded(text[..end], normal) + next.outputs)
  {
    match IndexOf(before + data, END, 0)
    case None =>
    case Some(end) =>
      assert Forwarded((before + data)[..end], normal) + [] == Forwarded((before + data)[..end], normal);
  }

  /** The marker that ends a frame takes in new data, so what is left is shorter. */
  lemma FrameEndsInNewData(before: string, data: string, end: nat)
    requires IndexOf(before, END, 0).None? && OccursAt(before + data, END, end)
    ensures |before| < end + |END| && |(before + data)[end + |END|..]| < |data|
  {
    OccursInPrefix(before, data, END, end);
  }

  /** A run of input events. */
  function FeedAll(seen: Option<string>, chunks: seq<string>, normal: bool): (r: Parse)
    requires seen.Some? ==> IndexOf(seen.value, END, 0).None?
    ensures r.seen.Some? ==> IndexOf(r.seen.value, END, 0).None?
    decreases |chunks|
  {
    if chunks == [] then Parse(seen, [])
    else
      var first := Feed(seen, chunks[0], normal);
      var rest := FeedAll(first.seen, chunks[1..], normal);
      Parse(rest.seen, first.outputs + rest.outputs)
  }

  // ---- Chunking does not matter ----

  lemma NoMarkerInPrefix(text: string, more: string)
    requires IndexOf(text + more, END, 0).None?
    ensures IndexOf(text, END, 0).None?
  {
    match IndexOf(text, END, 0)
    case None =>
    case Some(i) => OccursInPrefix(text, more, END, i);
  }

  /** Inside a frame, chunks that do not finish it are only collected. */
  lemma {:induction false} CollectedUntilMarker(before: string, chunks: seq<string>, normal: bool)
    requires IndexOf(before, END, 0).None? && IndexOf(before + Concat(chunks), END, 0).None?
    ensures FeedAll(Some(before), chunks, normal) == Parse(Some(before + Concat(chunks)), [])
    decreases |chunks|
  {
    if chunks == [] {
      assert before + Concat(chunks) == before;
    } else {
      var text := before + chunks[0];
      assert before + Concat(chunks) == text + Concat(chunks[1..]);
      NoMarkerInPrefix(text, Concat(chunks[1..]));
      CollectedUntilMarker(text, chunks[1..], normal);
      assert [] + FeedAll(Some(text), chunks[1..], normal).outputs == [];
    }
  }

  lemma {:induction false} FeedAllConcat(seen: Option<string>, a: seq<string>, b: seq<string>, normal: bool)
    requires seen.Some? ==> IndexOf(seen.value, END, 0).None?
    ensures var first := FeedAll(seen, a, normal);
            var second := FeedAll(first.seen, b, normal);
            FeedAll(seen, a + b, normal) == Parse(second.seen, first.outputs + second.outputs)
    decreases |a|
  {
    hide Feed, IndexOf;
    if a == [] {
      assert a + b == b;
      assert [] + FeedAll(seen, b, normal).outputs == FeedAll(seen, b, normal).outputs;
    } else {
      assert (a + b)[1..] == a[1..] + b;
      var one := Feed(seen, a[0], normal);
      FeedAllConcat(one.seen, a[1..], b, normal);
      var rest := FeedAll(one.seen, a[1..], normal);
      var second := FeedAll(rest.seen, b, normal);
      assert one.outputs + (rest.outputs + second.outputs) == one.outputs + rest.outputs + second.outputs;
    }
  }

  /**
   * Once a chunk has brought the start marker, every split of what follows, up
   * to the chunk that completes the end marker, has one outcome: the text
   * before the first end marker reaches the editor (unless it is too long, or
   * the mode is NORMAL), and exactly the text after the marker is new input.
   */
  lemma ChunkingDoesNotMatter(opening: string, start: nat, chunks: seq<string>, last: string, normal: bool)
    requires IndexOf(opening, BEGIN, 0) == Some(start)
    requires IndexOf(opening[start + |BEGIN|..] + Concat(chunks), END, 0).None?
    requires IndexOf(opening[start + |BEGIN|..] + Concat(chunks) + last, END, 0).Some?
    ensures var text := opening[start + |BEGIN|..] + Concat(chunks) + last;
            var end := IndexOf(text, END, 0).value;
            var rest := text[end + |END|..];
            var after := if rest == "" then Parse(None, []) else Feed(None, rest, normal);
            && |rest| < |last|
            && FeedAll(None, [opening] + chunks + [last], normal)
               == Parse(after.seen, Forwarded(text[..end], normal) + after.outputs)
  {
    hide IndexOf, Feed, FeedAll;
    var first := opening[start + |BEGIN|..];
    var whole := first + Concat(chunks);
    NoMarkerInPrefix(first, Concat(chunks));
    OpeningStartsFrame(opening, start, normal);
    FeedAllConcat(None, [opening], chunks, normal);
    FeedAllConcat(None, [opening] + chunks, [last], normal);
    CollectedUntilMarker(first, chunks, normal);
    assert FeedAll(None, [opening] + chunks, normal) == Parse(Some(whole), [] + []);
    var end := IndexOf(whole + last, END, 0).value;
    FrameEndsInNewData(whole, last, end);
    FeedInside(whole, last, normal);
    FeedOne(Some(whole), last, normal);
    var outputs := FeedAll(Some(whole), [last], normal).outputs;
    assert [] + [] + outputs == outputs;
  }

  lemma FeedOne(seen: Option<string>, chunk: string, normal: bool)
    requires seen.Some? ==> IndexOf(seen.value, END, 0).None?
    ensures FeedAll(seen, [chunk], normal) == Feed(seen, chunk, normal)
  {
    var r := Feed(seen, chunk, normal);
    assert FeedAll(seen, [chunk], normal) == Parse(r.seen, r.outputs + []);
    assert r.outputs + [] == r.outputs;
  }

  lemma OpeningStartsFrame(opening: string, start: nat, normal: bool)
    requires IndexOf(opening, BEGIN, 0) == Some(start)
    requires IndexOf(opening[start + |BEGIN|..], END, 0).None?
    ensures FeedAll(None, [opening], normal) == Parse(Some(opening[start + |BEGIN|..]), [])
  {
    hide IndexOf, Feed;
    var first := opening[start + |BEGIN|..];
    FeedOne(None, opening, normal);
    FeedOutside(opening, normal);
    assert "" + first == first;
    assert IndexOf("", END, 0).None? by { NoMarkerInPrefix("", first); }
    FeedInside("", first, normal);
  }

  // ---- Whole pastes ----

  /** The closing marker after `text` is the first one in what follows the start marker. */
  predicate IsPasteText(text: string) { IndexOf(text + END, END, 0) == Some(|text|) }

  /** The chunks bring one paste: the first has the whole start marker, the last something of the end marker. */
  predicate IsPaste(chunks: seq<string>, text: string) {
    && chunks != [] && Concat(chunks) == BEGIN + (text + END)
    && BEGIN <= chunks[0] && chunks[|chunks| - 1] != ""
  }

  /**
   * However a paste is cut, in INSERT the editor gets it as the one frame it
   * was, unless it is too long; in NORMAL, or when too long, nothing gets
   * through, and in no case is the framer left inside a frame.
   */
  lemma PasteIsOneFrame(text: string, chunks: seq<string>, normal: bool)
    requires IsPasteText(text) && IsPaste(chunks, text)
    ensures FeedAll(None, chunks, normal).seen == None
    ensures !normal && |text| <= MAX_CHARS ==> FeedAll(None, chunks, normal).outputs == [Paste(BEGIN + text + END)]
    ensures normal || |text| > MAX_CHARS ==> FeedAll(None, chunks, normal).outputs == []
  {
    hide IndexOf, Feed, FeedAll, Concat;
    var n := |chunks| - 1;
    var opening, last := chunks[0], chunks[n];
    var first := opening[|BEGIN|..];
    BeginsAtOnce(opening);
    if n == 0 {
      SingleChunk(chunks);
      assert chunks == [opening];
      assert opening == BEGIN + (text + END) && first == text + END && "" + first == first;
      FeedOne(None, opening, normal);
      FeedOutside(opening, normal);
      NoMarkerInNothing();
      FeedInside("", first, normal);
      assert first[..|text|] == text && first[|text| + |END|..] == "";
    } else {
      var middle := chunks[1..n];
      PasteParts(chunks, n);
      var before := first + Concat(middle);
      assert BEGIN + (before + last) == BEGIN + (text + END);
      SameTail(BEGIN, before + last, text + END);
      NoMarkerYet(before, last, text);
      assert first == opening[0 + |BEGIN|..];
      ChunkingDoesNotMatter(opening, 0, middle, last, normal);
      assert (before + last)[..|text|] == text && (before + last)[|text| + |END|..] == "";
    }
  }

  lemma SameTail(head: string, a: string, b: string)
    requires head + a == head + b
    ensures a == b
  {
    assert a == (head + a)[|head|..] && b == (head + b)[|head|..];
  }

  lemma BeginsAtOnce(opening: string)
    requires BEGIN <= opening
    ensures IndexOf(opening, BEGIN, 0) == Some(0)
  {
  }

  lemma NoMarkerInNothing()
    ensures IndexOf("", END, 0).None?
  {
  }

  lemma SingleChunk(chunks: seq<string>)
    requires |chunks| == 1
    ensures Concat(chunks) == chunks[0]
  {
    assert chunks[1..] == [];
  }

  lemma {:induction false} ConcatLast(front: seq<string>, last: string)
    ensures Concat(front + [last]) == Concat(front) + last
  {
    if front == [] {
      SingleChunk([last]);
      assert front + [last] == [last];
    } else {
      assert (front + [last])[1..] == front[1..] + [last];
      ConcatLast(front[1..], last);
    }
  }

  lemma PasteParts(chunks: seq<string>, n: nat)
    requires 1 <= n == |chunks| - 1 && BEGIN <= chunks[0]
    ensures chunks == [chunks[0]] + chunks[1..n] + [chunks[n]]
    ensures Concat(chunks) == BEGIN + (chunks[0][|BEGIN|..] + Concat(chunks[1..n]) + chunks[n])
  {
    SplitHead(chunks[0], BEGIN);
    ChunkParts(chunks, n);
    Regroup(BEGIN, chunks[0][|BEGIN|..], Concat(chunks[1..n]), chunks[n]);
  }

  lemma SplitHead(s: string, head: string)
    requires head <= s
    ensures s == head + s[|head|..]
  {
  }

  lemma ChunkParts(chunks: seq<string>, n: nat)
    requires 1 <= n == |chunks| - 1
    ensures chunks == [chunks[0]] + chunks[1..n] + [chunks[n]]
    ensures Concat(chunks) == chunks[0] + (Concat(chunks[1..n]) + chunks[n])
  {
    assert Concat(chunks) == chunks[0] + Concat(chunks[1..]);
    hide Concat;
    assert chunks[1..] == chunks[1..n] + [chunks[n]];
    ConcatLast(chunks[1..n], chunks[n]);
  }

  lemma Regroup(a: string, b: string, c: string, d: string)
    ensures a + b + (c + d) == a + (b + c + d)
  {
  }

  /** Before the last chunk of a paste the end marker is not complete. */
  lemma NoMarkerYet(before: string, last: string, text: string)
    requires IsPasteText(text) && before + last == text + END && last != ""
    ensures IndexOf(before, END, 0).None?
    ensures IndexOf(before + last, END, 0) == Some(|text|)
  {
    match IndexOf(before, END, 0)
    case None =>
    case Some(i) => OccursInPrefix(before, last, END, i);
  }

  /** What the terminal sends: ordinary input, or a paste cut into chunks. */
  datatype Input = Typed(data: string) | Pasted(text: string, chunks: seq<string>)

  predicate IsInput(input: Input) {
    match input
    case Typed(data) => IndexOf(data, BEGIN, 0).None?
    case Pasted(text, chunks) => IsPasteText(text) && IsPaste(chunks, text)
  }

  function Chunks(input: Input): seq<string> {
    match input
    case Typed(data) => [data]
    case Pasted(_, chunks) => chunks
  }

  function AllChunks(inputs: seq<Input>): seq<string> {
    if inputs == [] then [] else Chunks(inputs[0]) + AllChunks(inputs[1..])
  }

  /** Ordinary input passes as it is; a paste passes whole, in INSERT and within the limit. */
  predicate IsReceived(input: Input, normal: bool, outputs: seq<Output>) {
    match input
    case Typed(data) => outputs == [Keys(data)]
    case Pasted(text, _) =>
      outputs == if normal || |text| > MAX_CHARS then [] else [Paste(BEGIN + text + END)]
  }

  function Joined(parts: seq<seq<Output>>): seq<Output> {
    if parts == [] then [] else parts[0] + Joined(parts[1..])
  }

  /** Over every run of typing and pasting, each input is received by itself, in order, and nothing else is. */
  lemma {:induction false} EachInputIsReceived(inputs: seq<Input>, normal: bool) returns (parts: seq<seq<Output>>)
    requires forall i :: 0 <= i < |inputs| ==> IsInput(inputs[i])
    ensures |parts| == |inputs| && forall i :: 0 <= i < |parts| ==> IsReceived(inputs[i], normal, parts[i])
    ensures FeedAll(None, AllChunks(inputs), normal) == Parse(None, Joined(parts))
  {
    if inputs == [] { return []; }
    hide IndexOf, Feed, Concat;
    var rest := EachInputIsReceived(inputs[1..], normal);
    var one := FeedAll(None, Chunks(inputs[0]), normal);
    match inputs[0] {
      case Typed(data) =>
        FeedOne(None, data, normal);
        FeedOutside(data, normal);
      case Pasted(text, chunks) => PasteIsOneFrame(text, chunks, normal);
    }
    FeedAllConcat(None, Chunks(inputs[0]), AllChunks(inputs[1..]), normal);
    parts := [one.outputs] + rest;
    assert parts[1..] == rest;
  }

  // ---- The bounded framer ----

  function Last(s: string, n: nat): string { if |s| <= n then s else s[|s| - n..] }

  function AllBut(s: string, n: nat): string { if |s| <= n then "" else s[..|s| - n] }

  /** The characters that cannot belong to an end marker still being received. */
  function Sure(s: string): string { AllBut(s, |END| - 1) }

  function Pending(s: string): string { Last(s, |END| - 1) }

  /** The bounded buffers stand for the text `seen`: the last five characters apart, the rest while it fits. */
  predicate Holds(seen: string, frame: string, overflow: bool, tail: string) {
    && IndexOf(seen, END, 0).None?
    && tail == Pending(seen)
    && overflow == (|Sure(seen)| > MAX_CHARS)
    && frame == (if overflow then "" else Sure(seen))
  }

  lemma SlicesAgree(front: string, chunk: string, i: nat, n: nat)
    requires i + n <= |chunk|
    ensures (front + chunk)[|front| + i + n..] == chunk[i + n..]
    ensures (front + chunk)[..|front| + i] == front + chunk[..i]
  {
  }

  /** Occurrences in the held tail and the new data are the late ones in everything. */
  lemma OccursInChunk(before: string, input: string, i: nat)
    ensures OccursAt(Pending(before) + input, END, i) <==> OccursAt(before + input, END, |Sure(before)| + i)
  {
    var text := before + input;
    assert text[|Sure(before)|..] == Pending(before) + input;
    OccursInTail(text, |Sure(before)|, END, i);
  }

  lemma FrameEndsInChunk(before: string, input: string)
    requires IndexOf(before, END, 0).None?
    ensures var inAll, inChunk := IndexOf(before + input, END, 0), IndexOf(Pending(before) + input, END, 0);
            if inAll.None? then inChunk.None?
            else inAll.value >= |Sure(before)| && inChunk == Some(inAll.value - |Sure(before)|)
  {
    hide OccursAt;
    forall i: nat { OccursInChunk(before, input, i); }
    match IndexOf(before + input, END, 0)
    case None =>
    case Some(e) =>
      FrameEndsInNewData(before, input, e);
      assert OccursAt(Pending(before) + input, END, e - |Sure(before)|);
  }

  /** Searching the held tail and the new data finds what searching everything would. */
  lemma ChunkFindsMarker(before: string, input: string)
    requires IndexOf(before, END, 0).None?
    ensures var chunk := Pending(before) + input;
            var inAll, inChunk := IndexOf(before + input, END, 0), IndexOf(chunk, END, 0);
            && inAll.Some? == inChunk.Some?
            && (inAll.Some? ==>
                  && inAll.value == |Sure(before)| + inChunk.value
                  && chunk[inChunk.value + |END|..] == (before + input)[inAll.value + |END|..]
                  && |chunk[inChunk.value + |END|..]| < |input|
                  && Sure(before) + chunk[..inChunk.value] == (before + input)[..inAll.value])
  {
    hide IndexOf;
    var chunk := Pending(before) + input;
    FrameEndsInChunk(before, input);
    var inAll := IndexOf(before + input, END, 0);
    if inAll.Some? {
      FrameEndsInNewData(before, input, inAll.value);
      assert before + input == Sure(before) + chunk;
      SlicesAgree(Sure(before), chunk, inAll.value - |Sure(before)|, |END|);
    }
  }

  /** What was kept plus the new content is the frame's text so far. */
  lemma ContentExtends(before: string, input: string)
    ensures var chunk := Pending(before) + input;
            && Sure(before) + Sure(chunk) == Sure(before + input)
            && Pending(chunk) == Pending(before + input)
  {
    assert before + input == Sure(before) + (Pending(before) + input);
  }

  /** The fields the paste handler uses, and the unbounded text they stand for. */
  class Framer {
    var pasteFrame: Option<string>
    var pasteOverflow: bool
    var pasteTail: string
    var outputs: seq<Output>
    ghost var seen: Option<string>

    ghost predicate Valid()
      reads this
    {
      && pasteFrame.Some? == seen.Some?
      && (seen.None? ==> pasteTail == "" && !pasteOverflow)
      && (seen.Some? ==> Holds(seen.value, pasteFrame.value, pasteOverflow, pasteTail))
    }

    constructor ()
      ensures Valid() && seen == None && outputs == []
    {
      pasteFrame, pasteOverflow, pasteTail, outputs, seen := None, false, "", [], None;
    }

    /** A mode change forgets any frame in progress. */
    method Reset()
      modifies this
      ensures Valid() && seen == None && outputs == old(outputs)
    {
      pasteFrame, pasteOverflow, pasteTail, seen := None, false, "", None;
    }

    /** The buffers stay bounded whatever the terminal sends. */
    lemma Bounded()
      requires Valid()
      ensures |pasteTail| <= 5
      ensures pasteFrame.Some? ==> |pasteFrame.value| <= MAX_CHARS
    {
    }

    /** One input event: a chunk belongs to a frame or is ordinary input. */
    method HandleInput(data: string, vimNormal: bool)
      requires Valid()
      modifies this
      ensures Valid()
      ensures seen == Feed(old(seen), data, vimNormal).seen
      ensures outputs == old(outputs) + Feed(old(seen), data, vimNormal).outputs
      decreases |data|, 2
    {
      hide Feed, Holds;
      FeedOutside(data, vimNormal);
      var handled := HandleVimPasteFrame(data, vimNormal);
      if !handled { outputs := outputs + [Keys(data)]; }
    }

    method HandleVimPasteFrame(data: string, vimNormal: bool) returns (handled: bool)
      requires Valid()
      modifies this
      ensures Valid()
      ensures !handled <==> old(seen).None? && IndexOf(data, BEGIN, 0).None?
      ensures !handled ==> seen == None && outputs == old(outputs)
      ensures handled ==> seen == Feed(old(seen), data, vimNormal).seen
      ensures handled ==> outputs == old(outputs) + Feed(old(seen), data, vimNormal).outputs
      decreases |data|, 1
    {
      hide Feed;
      FeedOutside(data, vimNormal);
      if pasteFrame.None? {
        var start := IndexOf(data, BEGIN, 0);
        if start.None? { return false; }
        pasteFrame := Some("");
        pasteOverflow := false;
        seen := Some("");
        ContinueFrame(data[start.value + |BEGIN|..], vimNormal);
      } else {
        ContinueFrame(data, vimNormal);
      }
      return true;
    }

    /** A run of input events. */
    method HandleAll(chunks: seq<string>, vimNormal: bool)
      requires Valid()
      modifies this
      ensures Valid() && seen == FeedAll(old(seen), chunks, vimNormal).seen
      ensures outputs == old(outputs) + FeedAll(old(seen), chunks, vimNormal).outputs
    {
      hide Feed;
      assert chunks[..|chunks|] == chunks;
      for i := 0 to |chunks|
        invariant Valid() && seen == FeedAll(old(seen), chunks[..i], vimNormal).seen
        invariant outputs == old(outputs) + FeedAll(old(seen), chunks[..i], vimNormal).outputs
      {
        assert chunks[..i + 1] == chunks[..i] + [chunks[i]];
        FeedAllConcat(old(seen), chunks[..i], [chunks[i]], vimNormal);
        FeedOne(seen, chunks[i], vimNormal);
        HandleInput(chunks[i], vimNormal);
      }
    }

    /** A paste, however it is cut, reaches the editor whole or not at all. */
    method HandlePaste(text: string, chunks: seq<string>, vimNormal: bool)
      requires Valid() && seen == None && IsPasteText(text) && IsPaste(chunks, text)
      modifies this
      ensures Valid() && seen == None && pasteFrame == None
      ensures !vimNormal && |text| <= MAX_CHARS ==> outputs == old(outputs) + [Paste(BEGIN + text + END)]
      ensures vimNormal || |text| > MAX_CHARS ==> outputs == old(outputs)
    {
      PasteIsOneFrame(text, chunks, vimNormal);
      HandleAll(chunks, vimNormal);
    }

    /** The part of the handler that runs inside a frame. */
    method ContinueFrame(data: string, vimNormal: bool)
      requires Valid() && pasteFrame.Some?
      modifies this
      ensures Valid()
      ensures seen == Feed(old(seen), data, vimNormal).seen
      ensures outputs == old(outputs) + Feed(old(seen), data, vimNormal).outputs
      decreases |data|, 0
    {
      hide Feed, IndexOf;
      ghost var before := seen.value;
      FeedInside(before, data, vimNormal);
      ChunkFindsMarker(before, data);
      ContentExtends(before, data);
      var chunk := pasteTail + data;
      var end := IndexOf(chunk, END, 0);
      var content := if end.None? then AllBut(chunk, |END| - 1) else chunk[..end.value];
      if !pasteOverflow {
        if |pasteFrame.value| + |content| > MAX_CHARS {
          pasteFrame, pasteOverflow := Some(""), true;
        } else {
          pasteFrame := Some(pasteFrame.value + content);
        }
      }
      if end.None? {
        pasteTail := Last(chunk, |END| - 1);
        seen := Some(before + data);
        return;
      }
      var paste, overflow := pasteFrame.value, pasteOverflow;
      pasteFrame, pasteOverflow, pasteTail := None, false, "";
      seen := None;
      if !overflow && !vimNormal { outputs := outputs + [Paste(BEGIN + paste + END)]; }
      var remaining := chunk[end.value + |END|..];
      if remaining != "" { HandleInput(remaining, vimNormal); }
    }
  }
}
