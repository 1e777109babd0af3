/**
 * The written form of a command, piece by piece: blanks, plain characters,
 * backslashes and quoted passages, in any mixture within one word. A command
 * is taken apart exactly if it has such a form, into the tokens it spells.
 */
module ShellGrammar {
  import opened ShellTokenizer
  import opened Text
  import opened Wrappers

  /** Inside double quotes: a character, or a backslash and the character behind it. */
  datatype Part = Literal(c: char) | Slashed(c: char)

  datatype Piece =
    | Blank(c: char)
    | Plain(c: char)
    | Backslash(c: char)
    | SingleQuoted(text: string)
    | DoubleQuoted(parts: seq<Part>)

  predicate Breaks(c: char) { c == '\r' || c == '\n' }

  /** The characters that cannot stand for themselves in a word, wherever they are. */
  const SPECIAL: string := "*?~{};&|<>()`$'\"\\"

  function WrittenPart(part: Part): string {
    match part
    case Literal(c) => [c]
    case Slashed(c) => ['\\', c]
  }

  /** What a backslash protects in double quotes; before anything else it stays. */
  function PartText(part: Part): string {
    match part
    case Literal(c) => [c]
    case Slashed(c) => if c == '$' || c == '`' || c == '"' || c == '\\' then [c] else ['\\', c]
  }

  predicate IsPart(part: Part) {
    match part
    case Literal(c) => !Breaks(c) && c != '"' && c != '\\' && c != '$' && c != '`'
    case Slashed(c) => !Breaks(c)
  }

  function WrittenParts(parts: seq<Part>): string {
    if parts == [] then "" else WrittenPart(parts[0]) + WrittenParts(parts[1..])
  }

  function PartsText(parts: seq<Part>): string {
    if parts == [] then "" else PartText(parts[0]) + PartsText(parts[1..])
  }

  predicate AreParts(parts: seq<Part>) { forall k :: 0 <= k < |parts| ==> IsPart(parts[k]) }

  function WrittenPiece(piece: Piece): string {
    match piece
    case Blank(c) => [c]
    case Plain(c) => [c]
    case Backslash(c) => ['\\', c]
    case SingleQuoted(text) => ['\''] + (text + ['\''])
    case DoubleQuoted(parts) => ['"'] + (WrittenParts(parts) + ['"'])
  }

  function Writing(pieces: seq<Piece>): string {
    if pieces == [] then "" else WrittenPiece(pieces[0]) + Writing(pieces[1..])
  }

  /** The finished tokens, and the one in progress, if there is one. */
  datatype Reading = Reading(tokens: seq<string>, word: Option<string>)

  const NOTHING := Reading([], None)

  function WordOf(r: Reading): string { if r.word.Some? then r.word.value else "" }

  function Finished(r: Reading): seq<string> { if r.word.Some? then r.tokens + [r.word.value] else r.tokens }

  /** After these a backslash separates the components of a Windows path. */
  predicate KeepsBackslash(word: string) {
    || word == "."
    || (|word| == 2 && ('a' <= word[0] <= 'z' || 'A' <= word[0] <= 'Z') && word[1] == ':')
    || '\\' in word
  }

  function Read(r: Reading, piece: Piece): Reading {
    match piece
    case Blank(_) => Reading(Finished(r), None)
    case Plain(c) => r.(word := Some(WordOf(r) + [c]))
    case Backslash(c) => r.(word := Some(WordOf(r) + if KeepsBackslash(WordOf(r)) then ['\\', c] else [c]))
    case SingleQuoted(text) => r.(word := Some(WordOf(r) + text))
    case DoubleQuoted(parts) => r.(word := Some(WordOf(r) + PartsText(parts)))
  }

  function ReadAll(r: Reading, pieces: seq<Piece>): Reading
    decreases |pieces|
  {
    if pieces == [] then r else ReadAll(Read(r, pieces[0]), pieces[1..])
  }

  /** The piece means itself where it stands: behind `r`, and in front of `rest`. */
  predicate IsPiece(piece: Piece, r: Reading, rest: string) {
    match piece
    case Blank(c) => IsSpace(c) && !Breaks(c)
    case Plain(c) => !IsSpace(c) && c !in SPECIAL && (c == '#' ==> r.word.Some?) && (c == '[' ==> ']' !in rest)
    case Backslash(c) => !Breaks(c)
    case SingleQuoted(text) => '\'' !in text && '\r' !in text && '\n' !in text
    case DoubleQuoted(parts) => AreParts(parts)
  }

  predicate ArePieces(r: Reading, pieces: seq<Piece>, rest: string)
    decreases |pieces|
  {
    pieces == [] || (IsPiece(pieces[0], r, Writing(pieces[1..]) + rest) && ArePieces(Read(r, pieces[0]), pieces[1..], rest))
  }

  // ---- Reading what was written ----

  /** The scanner's variables between two pieces. */
  function AsScan(r: Reading): Scan { Scan(r.tokens, WordOf(r), Unquoted, r.word.Some?) }

  /** `front` stands at `i`, and `rest` behind it up to the end. */
  predicate Stands(command: string, i: nat, front: string, rest: string) {
    i <= |command| && command[i..] == front + rest
  }

  lemma StandsNext(command: string, i: nat, a: string, b: string, rest: string)
    requires Stands(command, i, a + b, rest)
    ensures Stands(command, i, a, b + rest) && Stands(command, i + |a|, b, rest)
    ensures i + |a| + |b| == |command| - |rest|
    ensures |a| > 0 ==> command[i] == a[0] && command[i + 1..] == a[1..] + (b + rest)
    ensures |a| > 1 ==> command[i + 1] == a[1]
  {
    assert a + b + rest == a + (b + rest);
    assert forall k :: 0 <= k < |a| ==> command[i + k] == command[i..][k];
    assert command[i + |a|..] == command[i..][|a|..];
    if |a| > 0 { assert command[i + 1..] == command[i..][1..] == a[1..] + (b + rest); }
  }

  lemma PartStep(command: string, i: nat, s: Scan, part: Part)
    requires s.quote == Double && IsPart(part) && i + |WrittenPart(part)| <= |command|
    requires forall k :: 0 <= k < |WrittenPart(part)| ==> command[i + k] == WrittenPart(part)[k]
    ensures StepAt(command, i, s) == Next(i + |WrittenPart(part)|, s.(token := s.token + PartText(part)))
  {
    if part.Slashed? { assert command[i + 1] == WrittenPart(part)[1]; }
    assert command[i] == WrittenPart(part)[0];
  }

  lemma ScanPart(command: string, i: nat, s: Scan, part: Part, rest: string)
    requires Stands(command, i, WrittenPart(part), rest) && s.quote == Double && IsPart(part)
    ensures ScanFrom(command, i, s) == ScanFrom(command, i + |WrittenPart(part)|, s.(token := s.token + PartText(part)))
  {
    hide StepAt, IsPart, ScanFrom, PartText;
    assert forall k :: 0 <= k < |WrittenPart(part)| ==> command[i + k] == command[i..][k];
    PartStep(command, i, s, part);
    ScanOneStep(command, i, s);
  }

  lemma {:induction false} ScanParts(command: string, i: nat, s: Scan, parts: seq<Part>, rest: string)
    requires Stands(command, i, WrittenParts(parts), rest) && s.quote == Double && AreParts(parts)
    ensures ScanFrom(command, i, s) == ScanFrom(command, |command| - |rest|, s.(token := s.token + PartsText(parts)))
    decreases |parts|
  {
    hide ScanFrom, IsPart, WrittenPart, PartText;
    if parts == [] {
      assert command[i..] == rest && s.token + "" == s.token;
    } else {
      var one, more := WrittenPart(parts[0]), WrittenParts(parts[1..]);
      StandsNext(command, i, one, more, rest);
      ScanPart(command, i, s, parts[0], more + rest);
      ScanParts(command, i + |one|, s.(token := s.token + PartText(parts[0])), parts[1..], rest);
      assert s.token + PartText(parts[0]) + PartsText(parts[1..]) == s.token + (PartText(parts[0]) + PartsText(parts[1..]));
    }
  }

  lemma PlainStep(command: string, i: nat, r: Reading, c: char)
    requires i < |command| && command[i] == c && IsPiece(Plain(c), r, command[i + 1..])
    ensures StepAt(command, i, AsScan(r)) == Next(i + 1, AsScan(Read(r, Plain(c))))
  {
  }

  lemma BlankStep(command: string, i: nat, r: Reading, c: char)
    requires i < |command| && command[i] == c && IsSpace(c) && !Breaks(c)
    ensures StepAt(command, i, AsScan(r)) == Next(i + 1, AsScan(Read(r, Blank(c))))
  {
  }

  lemma BackslashStep(command: string, i: nat, r: Reading, c: char)
    requires i + 1 < |command| && command[i] == '\\' && command[i + 1] == c && !Breaks(c)
    ensures StepAt(command, i, AsScan(r)) == Next(i + 2, AsScan(Read(r, Backslash(c))))
  {
  }

  lemma OpeningStep(command: string, i: nat, s: Scan)
    requires i < |command|
    ensures command[i] == '"' && s.quote == Unquoted ==> StepAt(command, i, s) == Next(i + 1, s.(quote := Double, started := true))
    ensures command[i] == '"' && s.quote == Double ==> StepAt(command, i, s) == Next(i + 1, s.(quote := Unquoted))
    ensures command[i] == '\'' && s.quote == Unquoted ==> StepAt(command, i, s) == Next(i + 1, s.(quote := Single, started := true))
    ensures command[i] == '\'' && s.quote == Single ==> StepAt(command, i, s) == Next(i + 1, s.(quote := Unquoted))
  {
    StepAtDelimiter(command, i, s);
  }

  lemma ScanDoublePiece(command: string, i: nat, r: Reading, parts: seq<Part>, rest: string)
    requires Stands(command, i, WrittenPiece(DoubleQuoted(parts)), rest) && AreParts(parts)
    ensures ScanFrom(command, i, AsScan(r)) == ScanFrom(command, |command| - |rest|, AsScan(Read(r, DoubleQuoted(parts))))
  {
    hide StepAt, ScanFrom, PartsText, WrittenParts, AreParts;
    StandsNext(command, i, ['"'], WrittenParts(parts) + ['"'], rest);
    StandsNext(command, i + 1, WrittenParts(parts), ['"'], rest);
    OpeningStep(command, i, AsScan(r));
    ScanOneStep(command, i, AsScan(r));
    ScanRestOfDouble(command, i + 1, AsScan(r).(quote := Double, started := true), parts, rest);
  }

  lemma ScanRestOfDouble(command: string, i: nat, s: Scan, parts: seq<Part>, rest: string)
    requires Stands(command, i, WrittenParts(parts), ['"'] + rest) && s.quote == Double && AreParts(parts)
    ensures ScanFrom(command, i, s) == ScanFrom(command, |command| - |rest|, s.(token := s.token + PartsText(parts), quote := Unquoted))
  {
    hide StepAt, ScanFrom, PartsText, WrittenParts, AreParts;
    ScanParts(command, i, s, parts, ['"'] + rest);
    var j := i + |WrittenParts(parts)|;
    assert command[j] == command[j..][0] == '"';
    OpeningStep(command, j, s.(token := s.token + PartsText(parts)));
    ScanOneStep(command, j, s.(token := s.token + PartsText(parts)));
  }

  lemma ScanSinglePiece(command: string, i: nat, r: Reading, text: string, rest: string)
    requires Stands(command, i, WrittenPiece(SingleQuoted(text)), rest) && IsPiece(SingleQuoted(text), r, rest)
    ensures ScanFrom(command, i, AsScan(r)) == ScanFrom(command, |command| - |rest|, AsScan(Read(r, SingleQuoted(text))))
  {
    hide StepAt, ScanFrom;
    StandsNext(command, i, ['\''], text + ['\''], rest);
    StandsNext(command, i + 1, text, ['\''], rest);
    OpeningStep(command, i, AsScan(r));
    ScanOneStep(command, i, AsScan(r));
    ScanRestOfSingle(command, i + 1, AsScan(r).(quote := Single, started := true), text, rest);
  }

  lemma ScanRestOfSingle(command: string, i: nat, s: Scan, text: string, rest: string)
    requires Stands(command, i, text, ['\''] + rest) && s.quote == Single && OneLine(text) && '\'' !in text
    ensures ScanFrom(command, i, s) == ScanFrom(command, |command| - |rest|, s.(token := s.token + text, quote := Unquoted))
  {
    hide StepAt, ScanFrom, OneLine;
    ScanLiteral(command, i, s, text, ['\''] + rest);
    var j := i + |text|;
    assert command[j] == command[j..][0] == '\'';
    OpeningStep(command, j, s.(token := s.token + text));
    ScanOneStep(command, j, s.(token := s.token + text));
  }

  lemma ScanPiece(command: string, i: nat, r: Reading, piece: Piece, rest: string)
    requires Stands(command, i, WrittenPiece(piece), rest) && IsPiece(piece, r, rest)
    ensures ScanFrom(command, i, AsScan(r)) == ScanFrom(command, |command| - |rest|, AsScan(Read(r, piece)))
  {
    hide StepAt, ScanFrom, Read;
    var written := WrittenPiece(piece);
    assert written + "" == written && "" + rest == rest;
    StandsNext(command, i, written, "", rest);
    assert |command| - |rest| == i + |written|;
    match piece {
      case Blank(c) => BlankStep(command, i, r, c);
      case Plain(c) =>
        assert command[i + 1..] == rest;
        PlainStep(command, i, r, c);
      case Backslash(c) => BackslashStep(command, i, r, c);
      case SingleQuoted(text) => ScanSinglePiece(command, i, r, text, rest);
      case DoubleQuoted(parts) => ScanDoublePiece(command, i, r, parts, rest);
    }
    if piece.Blank? || piece.Plain? || piece.Backslash? { ScanOneStep(command, i, AsScan(r)); }
  }

  /** Pieces are read one after the other, whatever comes behind them. */
  lemma {:induction false} ScanPieces(command: string, i: nat, r: Reading, pieces: seq<Piece>, rest: string)
    requires Stands(command, i, Writing(pieces), rest) && ArePieces(r, pieces, rest)
    ensures |rest| <= |command|
    ensures ScanFrom(command, i, AsScan(r)) == ScanFrom(command, |command| - |rest|, AsScan(ReadAll(r, pieces)))
    decreases |pieces|
  {
    hide ScanFrom, IsPiece, Read, WrittenPiece, AsScan;
    if pieces == [] {
      assert command[i..] == rest;
    } else {
      var one, more := WrittenPiece(pieces[0]), Writing(pieces[1..]);
      StandsNext(command, i, one, more, rest);
      ScanPiece(command, i, r, pieces[0], more + rest);
      ScanPieces(command, i + |one|, Read(r, pieces[0]), pieces[1..], rest);
    }
  }

  /** A command written in pieces is taken apart into the tokens it spells. */
  lemma PiecesReadBack(pieces: seq<Piece>)
    requires ArePieces(NOTHING, pieces, "")
    ensures Tokens(Writing(pieces)) == Complete(Finished(ReadAll(NOTHING, pieces)))
  {
    hide ScanFrom, ArePieces, ReadAll, Writing;
    var command := Writing(pieces);
    assert command[0..] == command + "";
    ScanPieces(command, 0, NOTHING, pieces, "");
    ScanAtEnd(command, AsScan(ReadAll(NOTHING, pieces)));
  }

  // ---- Where taking apart ends ----

  predicate InOneLine(text: string) { '\r' !in text && '\n' !in text }

  /** A backslash with nothing on its line to protect. */
  predicate Dangles(rest: string) { rest != "" && rest[0] == '\\' && (|rest| == 1 || Breaks(rest[1])) }

  /** A passage in single quotes that goes on to the end, or to `more`. */
  predicate OpensSingle(rest: string, text: string, more: string) {
    rest == ['\''] + (text + more) && '\'' !in text && InOneLine(text)
  }

  predicate OpensDouble(rest: string, parts: seq<Part>, more: string) {
    rest == ['"'] + (WrittenParts(parts) + more) && AreParts(parts)
  }

  const META: string := "*?~{};&|<>`()$"

  /** What only a shell can evaluate: an operator, a pattern, an expansion, a comment, or a second line. */
  ghost predicate GivesUp(r: Reading, rest: string) {
    && rest != ""
    && (|| Breaks(rest[0]) || rest[0] in META
        || (rest[0] == '#' && r.word.None?)
        || (rest[0] == '[' && ']' in rest[1..])
        || (exists text, more :: OpensSingle(rest, text, more) && more != "" && Breaks(more[0]))
        || (exists parts, more :: OpensDouble(rest, parts, more) && more != "" && (Breaks(more[0]) || more[0] == '$' || more[0] == '`')))
  }

  /** What more input could finish: a backslash at the end, or a passage whose quote is open. */
  ghost predicate BreaksOff(rest: string) {
    || Dangles(rest)
    || (exists text :: OpensSingle(rest, text, ""))
    || (exists parts, more :: OpensDouble(rest, parts, more) && (more == "" || Dangles(more)))
  }

  lemma MetaStops(command: string, i: nat, r: Reading, rest: string)
    requires i < |command| && command[i..] == rest
    requires Breaks(rest[0]) || rest[0] in META || (rest[0] == '#' && r.word.None?) || (rest[0] == '[' && ']' in rest[1..])
    ensures StepAt(command, i, AsScan(r)) == Stop(Generic)
  {
    assert rest[0] == command[i] && rest[1..] == command[i + 1..];
    if !Breaks(rest[0]) { NeitherSpaceNorQuote(rest[0]); }
    hide IsSpace;
  }

  lemma NeitherSpaceNorQuote(c: char)
    requires c in META || c == '#' || c == '['
    ensures !IsSpace(c) && c != '\'' && c != '"' && c != '\\'
  {
  }

  lemma DanglingStops(command: string, i: nat, s: Scan, rest: string)
    requires i < |command| && command[i..] == rest && Dangles(rest) && s.quote != Single
    ensures StepAt(command, i, s) == Stop(Incomplete(s.tokens))
  {
    assert rest[0] == command[i];
    if |rest| > 1 { assert rest[1] == command[i + 1]; }
  }

  lemma OpenSingleScans(command: string, i: nat, r: Reading, rest: string, text: string, more: string)
    requires i < |command| && command[i..] == rest && OpensSingle(rest, text, more)
    ensures |more| <= |command| && command[|command| - |more|..] == more
    ensures var s := AsScan(r).(quote := Single, started := true);
            ScanFrom(command, i, AsScan(r)) == ScanFrom(command, |command| - |more|, s.(token := s.token + text))
  {
    hide StepAt, ScanFrom;
    StandsNext(command, i, ['\''], text, more);
    OpeningStep(command, i, AsScan(r));
    ScanOneStep(command, i, AsScan(r));
    ScanLiteral(command, i + 1, AsScan(r).(quote := Single, started := true), text, more);
  }

  lemma OpenDoubleScans(command: string, i: nat, r: Reading, rest: string, parts: seq<Part>, more: string)
    requires i < |command| && command[i..] == rest && OpensDouble(rest, parts, more)
    ensures |more| <= |command| && command[|command| - |more|..] == more
    ensures var s := AsScan(r).(quote := Double, started := true);
            ScanFrom(command, i, AsScan(r)) == ScanFrom(command, |command| - |more|, s.(token := s.token + PartsText(parts)))
  {
    hide StepAt, ScanFrom, PartsText, WrittenParts, AreParts;
    StandsNext(command, i, ['"'], WrittenParts(parts), more);
    OpeningStep(command, i, AsScan(r));
    ScanOneStep(command, i, AsScan(r));
    ScanParts(command, i + 1, AsScan(r).(quote := Double, started := true), parts, more);
    assert command[i + 1 + |WrittenParts(parts)|..] == more;
  }

  lemma QuotedStops(command: string, i: nat, s: Scan)
    requires i < |command| && s.quote != Unquoted
    ensures Breaks(command[i]) ==> StepAt(command, i, s) == Stop(Generic)
    ensures s.quote == Double && (command[i] == '$' || command[i] == '`') ==> StepAt(command, i, s) == Stop(Generic)
  {
  }

  lemma GivesUpScans(command: string, i: nat, r: Reading, rest: string)
    requires i <= |command| && command[i..] == rest && GivesUp(r, rest)
    ensures ScanFrom(command, i, AsScan(r)) == Generic
  {
    hide StepAt, ScanFrom, OpensSingle, OpensDouble, AsScan;
    if text, more :| OpensSingle(rest, text, more) && more != "" && Breaks(more[0]) {
      OpenSingleScans(command, i, r, rest, text, more);
      StopsBehind(command, more, AsScan(r).(quote := Single, started := true, token := AsScan(r).token + text));
    } else if parts, more :| OpensDouble(rest, parts, more) && more != "" && (Breaks(more[0]) || more[0] == '$' || more[0] == '`') {
      OpenDoubleScans(command, i, r, rest, parts, more);
      StopsBehind(command, more, AsScan(r).(quote := Double, started := true, token := AsScan(r).token + PartsText(parts)));
    } else {
      MetaStops(command, i, r, rest);
      ScanOneStep(command, i, AsScan(r));
    }
  }

  lemma StopsBehind(command: string, more: string, s: Scan)
    requires 0 < |more| <= |command| && command[|command| - |more|..] == more && s.quote != Unquoted
    requires Breaks(more[0]) || (s.quote == Double && (more[0] == '$' || more[0] == '`'))
    ensures ScanFrom(command, |command| - |more|, s) == Generic
  {
    hide StepAt, ScanFrom;
    var j := |command| - |more|;
    assert command[j] == command[j..][0];
    QuotedStops(command, j, s);
    ScanOneStep(command, j, s);
  }

  lemma BreaksOffScans(command: string, i: nat, r: Reading, rest: string)
    requires i <= |command| && command[i..] == rest && BreaksOff(rest)
    ensures ScanFrom(command, i, AsScan(r)) == Incomplete(r.tokens)
  {
    hide StepAt, ScanFrom, OpensSingle, OpensDouble, Dangles;
    if Dangles(rest) {
      DanglesScans(command, i, AsScan(r), rest);
    } else if text :| OpensSingle(rest, text, "") {
      NotEmpty(rest, text, [], "", true);
      OpenSingleScans(command, i, r, rest, text, "");
      ScanAtEnd(command, AsScan(r).(quote := Single, started := true, token := AsScan(r).token + text));
    } else {
      var parts, more :| OpensDouble(rest, parts, more) && (more == "" || Dangles(more));
      NotEmpty(rest, "", parts, more, false);
      OpenDoubleScans(command, i, r, rest, parts, more);
      var s := AsScan(r).(quote := Double, started := true, token := AsScan(r).token + PartsText(parts));
      if more == "" { ScanAtEnd(command, s); } else { DanglesScans(command, |command| - |more|, s, more); }
    }
  }

  lemma NotEmpty(rest: string, text: string, parts: seq<Part>, more: string, single: bool)
    requires if single then OpensSingle(rest, text, more) else OpensDouble(rest, parts, more)
    ensures rest != ""
  {
  }

  lemma DanglesScans(command: string, i: nat, s: Scan, rest: string)
    requires i <= |command| && command[i..] == rest && Dangles(rest) && s.quote != Single
    ensures ScanFrom(command, i, s) == Incomplete(s.tokens)
  {
    hide StepAt, ScanFrom;
    DanglingStops(command, i, s, rest);
    ScanOneStep(command, i, s);
  }

  // ---- Every command has a form ----

  lemma {:induction false} SingleRest(s: string) returns (text: string, more: string)
    ensures s == text + more && '\'' !in text && InOneLine(text)
    ensures more == "" || more[0] == '\'' || Breaks(more[0])
  {
    if s == "" || s[0] == '\'' || Breaks(s[0]) { return "", s; }
    text, more := SingleRest(s[1..]);
    text := [s[0]] + text;
    assert s == [s[0]] + s[1..];
  }

  lemma {:induction false} DoubleRest(s: string) returns (parts: seq<Part>, more: string)
    ensures s == WrittenParts(parts) + more && AreParts(parts)
    ensures more == "" || more[0] == '"' || Breaks(more[0]) || more[0] == '$' || more[0] == '`' || Dangles(more)
    decreases |s|
  {
    if s == "" || s[0] == '"' || Breaks(s[0]) || s[0] == '$' || s[0] == '`' || Dangles(s) { return [], s; }
    var part := if s[0] == '\\' then Slashed(s[1]) else Literal(s[0]);
    var n := |WrittenPart(part)|;
    var rest;
    rest, more := DoubleRest(s[n..]);
    parts := [part] + rest;
    assert parts[1..] == rest && s[..n] == WrittenPart(part) && s == s[..n] + s[n..];
    assert WrittenParts(parts) + more == WrittenPart(part) + (WrittenParts(rest) + more);
  }

  /** The first piece, or the reason why there is none. */
  lemma FirstPiece(r: Reading, s: string) returns (piece: Option<Piece>, more: string)
    requires s != ""
    ensures piece.None? ==> GivesUp(r, s) || BreaksOff(s)
    ensures piece.Some? ==> s == WrittenPiece(piece.value) + more && IsPiece(piece.value, r, more)
    ensures piece.Some? ==> |more| < |s|
  {
    hide WrittenParts, AreParts;
    var c := s[0];
    more := s[1..];
    assert s == [c] + more;
    if c == '\'' {
      var text, rest := SingleRest(more);
      assert OpensSingle(s, text, rest);
      if rest == "" || Breaks(rest[0]) { return None, more; }
      assert rest == ['\''] + rest[1..];
      assert s == (['\''] + (text + ['\''])) + rest[1..];
      return Some(SingleQuoted(text)), rest[1..];
    }
    if c == '"' {
      var parts, rest := DoubleRest(more);
      assert OpensDouble(s, parts, rest);
      if rest == "" || rest[0] != '"' { return None, more; }
      assert rest == ['"'] + rest[1..];
      assert s == (['"'] + (WrittenParts(parts) + ['"'])) + rest[1..];
      return Some(DoubleQuoted(parts)), rest[1..];
    }
    if c == '\\' {
      if Dangles(s) { return None, more; }
      assert s == ['\\', s[1]] + s[2..];
      return Some(Backslash(s[1])), s[2..];
    }
    if Breaks(c) || c in META || (c == '#' && r.word.None?) || (c == '[' && ']' in more) { return None, more; }
    SpecialIsMetaOrQuote(c);
    return Some(if IsSpace(c) then Blank(c) else Plain(c)), more;
  }

  lemma SpecialIsMetaOrQuote(c: char)
    ensures c in SPECIAL <==> c in META || c == '\'' || c == '"' || c == '\\'
  {
  }

  /** Every command is a list of pieces, up to its end or to what stops the taking apart. */
  lemma {:induction false} InPieces(r: Reading, s: string) returns (pieces: seq<Piece>, rest: string)
    ensures s == Writing(pieces) + rest && ArePieces(r, pieces, rest)
    ensures rest == "" || GivesUp(ReadAll(r, pieces), rest) || BreaksOff(rest)
    decreases |s|
  {
    if s == "" { return [], ""; }
    hide IsPiece, GivesUp, BreaksOff, WrittenPiece, Read;
    var piece, more := FirstPiece(r, s);
    if piece.None? { return [], s; }
    pieces, rest := InPieces(Read(r, piece.value), more);
    assert ([piece.value] + pieces)[1..] == pieces;
    pieces := [piece.value] + pieces;
    assert Writing(pieces) + rest == WrittenPiece(piece.value) + (Writing(pieces[1..]) + rest);
  }

  /** The command is written in these pieces, and `rest`. */
  predicate IsWritten(command: string, pieces: seq<Piece>, rest: string) {
    command == Writing(pieces) + rest && ArePieces(NOTHING, pieces, rest)
  }

  lemma VerdictOf(command: string, pieces: seq<Piece>, rest: string)
    requires IsWritten(command, pieces, rest)
    ensures rest == "" ==> Tokens(command) == Complete(Finished(ReadAll(NOTHING, pieces)))
    ensures GivesUp(ReadAll(NOTHING, pieces), rest) ==> Tokens(command) == Generic
    ensures BreaksOff(rest) ==> Tokens(command) == Incomplete(ReadAll(NOTHING, pieces).tokens)
  {
    hide ScanFrom, ArePieces, ReadAll, Writing, GivesUp, BreaksOff;
    assert command[0..] == Writing(pieces) + rest;
    ScanPieces(command, 0, NOTHING, pieces, rest);
    var r := ReadAll(NOTHING, pieces);
    var i := |command| - |rest|;
    assert command[i..] == rest;
    if rest == "" { ScanAtEnd(command, AsScan(r)); }
    if GivesUp(r, rest) { GivesUpScans(command, i, r, rest); }
    if BreaksOff(rest) { BreaksOffScans(command, i, r, rest); }
  }

  /**
   * The scanner's verdict, for every command: it is complete exactly if the
   * whole command is written in pieces, generic exactly if behind some pieces
   * stands what only a shell can evaluate, and incomplete exactly if it breaks
   * off behind some pieces; and the tokens are those the pieces spell.
   */
  lemma VerdictExactly(command: string)
    ensures forall tokens :: Tokens(command) == Complete(tokens) <==>
              exists pieces :: IsWritten(command, pieces, "") && tokens == Finished(ReadAll(NOTHING, pieces))
    ensures Tokens(command) == Generic <==>
              exists pieces, rest :: IsWritten(command, pieces, rest) && GivesUp(ReadAll(NOTHING, pieces), rest)
    ensures forall tokens :: Tokens(command) == Incomplete(tokens) <==>
              exists pieces, rest :: IsWritten(command, pieces, rest) && BreaksOff(rest) && tokens == ReadAll(NOTHING, pieces).tokens
  {
    hide Tokens, ReadAll, GivesUp, BreaksOff, IsWritten, Finished;
    var ps, end := InPieces(NOTHING, command);
    assert IsWritten(command, ps, end) by { hide IsWritten; AreWritten(command, ps, end); }
    forall pieces, rest | IsWritten(command, pieces, rest)
      ensures rest == "" ==> Tokens(command) == Complete(Finished(ReadAll(NOTHING, pieces)))
      ensures GivesUp(ReadAll(NOTHING, pieces), rest) ==> Tokens(command) == Generic
      ensures BreaksOff(rest) ==> Tokens(command) == Incomplete(ReadAll(NOTHING, pieces).tokens)
    {
      VerdictOf(command, pieces, rest);
    }
  }

  lemma AreWritten(command: string, pieces: seq<Piece>, rest: string)
    requires command == Writing(pieces) + rest && ArePieces(NOTHING, pieces, rest)
    ensures IsWritten(command, pieces, rest)
  {
  }
}
