/**
 * The quote and escape scanner of quiet-tools: it splits a shell command into
 * tokens, gives up ("generic") on anything only a real shell can evaluate, and
 * also runs on commands that are still being streamed.
 */
module ShellTokenizer {
  import opened Text
  import opened Wrappers

  datatype Tokenization =
    | Complete(tokens: seq<string>)
    | Incomplete(tokens: seq<string>)
    | Generic

  datatype Quote = Unquoted | Single | Double

  /** The scanner's local variables. */
  datatype Scan = Scan(tokens: seq<string>, token: string, quote: Quote, started: bool)

  datatype Step = Next(index: nat, scan: Scan) | Stop(result: Tokenization)

  const START := Scan([], "", Unquoted, false)

  function Pushed(s: Scan): Scan {
    Scan(if s.started then s.tokens + [s.token] else s.tokens, "", s.quote, false)
  }

  /** `"$`\"\\".includes(c)` */
  predicate IsEscapable(c: char) { c == '$' || c == '`' || c == '"' || c == '\\' }

  predicate IsLetter(c: char) { 'a' <= c <= 'z' || 'A' <= c <= 'Z' }

  predicate IsGlob(c: char) { c == '*' || c == '?' || c == '~' || c == '{' || c == '}' }

  predicate IsOperator(c: char) {
    c == ';' || c == '&' || c == '|' || c == '<' || c == '>' || c == '`' || c == '(' || c == ')'
  }

  /** After these tokens a backslash separates path components and is kept. */
  predicate IsWindowsPath(token: string) {
    token == "." || (|token| == 2 && IsLetter(token[0]) && token[1] == ':') || '\\' in token
  }

  /** What the scanner does with the character at `i`. */
  function StepAt(command: string, i: nat, s: Scan): (r: Step)
    requires i < |command|
    ensures r.Next? ==> i < r.index <= |command| && s.tokens <= r.scan.tokens
    ensures r.Stop? ==> r.result.Generic? || r.result == Incomplete(s.tokens)
  {
    var c := command[i];
    var noEscape := i + 1 == |command| || command[i + 1] == '\r' || command[i + 1] == '\n';
    if c == '\r' || c == '\n' then Stop(Generic)
    else if s.quote == Single then
      Next(i + 1, if c == '\'' then s.(quote := Unquoted) else s.(token := s.token + [c]))
    else if s.quote == Double then
      if c == '"' then Next(i + 1, s.(quote := Unquoted))
      else if c == '\\' then
        if noEscape then Stop(Incomplete(s.tokens))
        else if IsEscapable(command[i + 1]) then Next(i + 2, s.(token := s.token + [command[i + 1]]))
        else Next(i + 2, s.(token := s.token + ['\\', command[i + 1]]))
      else if c == '$' || c == '`' then Stop(Generic)
      else Next(i + 1, s.(token := s.token + [c]))
    else if IsSpace(c) then Next(i + 1, Pushed(s))
    else if c == '\'' then Next(i + 1, s.(quote := Single, started := true))
    else if c == '"' then Next(i + 1, s.(quote := Double, started := true))
    else if c == '\\' then
      if noEscape then Stop(Incomplete(s.tokens))
      else
        var added := if IsWindowsPath(s.token) then ['\\', command[i + 1]] else [command[i + 1]];
        Next(i + 2, s.(token := s.token + added, started := true))
    else if IsGlob(c) then Stop(Generic)
    else if c == '[' && ']' in command[i + 1..] then Stop(Generic)
    else if IsOperator(c) || c == '$' then Stop(Generic)
    else if c == '#' && !s.started then Stop(Generic)
    else Next(i + 1, s.(token := s.token + [c], started := true))
  }

  /** The verdict of a scan that is at `i` in state `s`. */
  function ScanFrom(command: string, i: nat, s: Scan): Tokenization
    requires i <= |command|
    decreases |command| - i
  {
    if i == |command| then
      if s.quote != Unquoted then Incomplete(s.tokens) else Complete(Pushed(s).tokens)
    else
      match StepAt(command, i, s)
      case Stop(result) => result
      case Next(index, scan) => ScanFrom(command, index, scan)
  }

  function Tokens(command: string): Tokenization {
    ScanFrom(command, 0, START)
  }

  lemma ScanOneStep(command: string, i: nat, s: Scan)
    requires i < |command|
    ensures var step := StepAt(command, i, s);
            ScanFrom(command, i, s) == if step.Stop? then step.result else ScanFrom(command, step.index, step.scan)
  {
    hide StepAt;
  }

  lemma ScanAtEnd(command: string, s: Scan)
    ensures ScanFrom(command, |command|, s) == if s.quote != Unquoted then Incomplete(s.tokens) else Complete(Pushed(s).tokens)
  {
  }

  /** The scanning loop, one assignment at a time. */
  method ShellTokens(command: string) returns (r: Tokenization)
    ensures r == Tokens(command)
  {
    hide ScanFrom, IsSpace, IsGlob, IsOperator, IsEscapable, IsWindowsPath;
    var tokens: seq<string> := [];
    var token := "";
    var quote := Unquoted;
    var started := false;
    var index := 0;
    while index < |command|
      invariant index <= |command|
      invariant Tokens(command) == ScanFrom(command, index, Scan(tokens, token, quote, started))
    {
      ScanOneStep(command, index, Scan(tokens, token, quote, started));
      var character := command[index];
      if character == '\r' || character == '\n' { return Generic; }
      if quote == Single {
        if character == '\'' { quote := Unquoted; } else { token := token + [character]; }
        index := index + 1;
        continue;
      }
      if quote == Double {
        if character == '"' {
          quote := Unquoted;
        } else if character == '\\' {
          index := index + 1;
          if index == |command| || command[index] == '\r' || command[index] == '\n' { return Incomplete(tokens); }
          var next := command[index];
          token := token + if IsEscapable(next) then [next] else ['\\', next];
        } else if character == '$' || character == '`' {
          return Generic;
        } else {
          token := token + [character];
        }
        index := index + 1;
        continue;
      }
      if IsSpace(character) {
        if started { tokens := tokens + [token]; }
        token, started := "", false;
      } else if character == '\'' {
        quote, started := Single, true;
      } else if character == '"' {
        quote, started := Double, true;
      } else if character == '\\' {
        index := index + 1;
        if index == |command| || command[index] == '\r' || command[index] == '\n' { return Incomplete(tokens); }
        token := token + if IsWindowsPath(token) then ['\\', command[index]] else [command[index]];
        started := true;
      } else if IsGlob(character) || (character == '[' && ']' in command[index + 1..]) {
        return Generic;
      } else if IsOperator(character) || character == '$' || (character == '#' && !started) {
        return Generic;
      } else {
        token, started := token + [character], true;
      }
      index := index + 1;
    }
    ScanAtEnd(command, Scan(tokens, token, quote, started));
    if quote != Unquoted { return Incomplete(tokens); }
    if started { tokens := tokens + [token]; }
    return Complete(tokens);
  }

  // ---- Round trip ----

  function Escaped(token: string): string {
    if token == "" then ""
    else (if IsEscapable(token[0]) then ['\\', token[0]] else [token[0]]) + Escaped(token[1..])
  }

  predicate OneLine(token: string) { '\r' !in token && '\n' !in token }

  /** A character that means itself outside quotes, wherever it stands in a word. */
  predicate IsOrdinary(c: char) {
    !IsSpace(c) && !IsGlob(c) && !IsOperator(c)
    && c != '\'' && c != '"' && c != '\\' && c != '$' && c != '#' && c != '['
  }

  /** A token and the way it is written: bare, in single quotes or in double quotes. */
  datatype Word = Word(text: string, style: Quote)

  predicate Writable(w: Word) {
    match w.style
    case Unquoted => w.text != "" && forall c :: c in w.text ==> IsOrdinary(c)
    case Single => OneLine(w.text) && '\'' !in w.text
    case Double => OneLine(w.text)
  }

  /**
   * Quoting as in section 2.2 of POSIX.1-2017, Shell Command Language; double
   * quotes put a backslash before the four characters that stay special in them.
   */
  function Written(w: Word): string {
    match w.style
    case Unquoted => w.text
    case Single => ['\''] + (w.text + ['\''])
    case Double => ['"'] + (Escaped(w.text) + ['"'])
  }

  function CommandLine(words: seq<Word>): string {
    if words == [] then ""
    else if |words| == 1 then Written(words[0])
    else Written(words[0]) + ([' '] + CommandLine(words[1..]))
  }

  function Texts(words: seq<Word>): (r: seq<string>)
    ensures |r| == |words| && forall k :: 0 <= k < |words| ==> r[k] == words[k].text
  {
    seq(|words|, k requires 0 <= k < |words| => words[k].text)
  }

  /** How the escaped form of one character is read inside double quotes. */
  lemma StepInDouble(command: string, i: nat, s: Scan, c: char)
    requires s.quote == Double && c != '\r' && c != '\n'
    requires if IsEscapable(c) then i + 1 < |command| && command[i] == '\\' && command[i + 1] == c
             else i < |command| && command[i] == c
    ensures StepAt(command, i, s) == Next(if IsEscapable(c) then i + 2 else i + 1, s.(token := s.token + [c]))
  {
  }

  /** Inside double quotes, the escaped form of `t` scans back to `t` up to the closing quote. */
  lemma {:induction false} ScanEscaped(command: string, i: nat, s: Scan, t: string, rest: string)
    requires i <= |command| && command[i..] == Escaped(t) + rest
    requires s.quote == Double && OneLine(t)
    ensures |rest| <= |command| && command[|command| - |rest|..] == rest
    ensures ScanFrom(command, i, s) == ScanFrom(command, |command| - |rest|, s.(token := s.token + t))
    decreases |t|
  {
    hide StepAt;
    if t == "" {
      assert command[i..] == rest;
      assert s.token + t == s.token;
    } else {
      var c := t[0];
      var n := if IsEscapable(c) then 2 else 1;
      assert Escaped(t) + rest == (Escaped(t)[..n] + Escaped(t[1..])) + rest;
      assert command[i] == command[i..][0];
      if IsEscapable(c) { assert command[i + 1] == command[i..][1]; }
      StepInDouble(command, i, s, c);
      assert command[i + n..] == command[i..][n..] == Escaped(t[1..]) + rest;
      ScanEscaped(command, i + n, s.(token := s.token + [c]), t[1..], rest);
      assert s.token + [c] + t[1..] == s.token + t;
    }
  }

  lemma StepAtDelimiter(command: string, i: nat, s: Scan)
    requires i < |command|
    ensures command[i] == '"' && s.quote == Unquoted ==>
              StepAt(command, i, s) == Next(i + 1, s.(quote := Double, started := true))
    ensures command[i] == '"' && s.quote == Double ==>
              StepAt(command, i, s) == Next(i + 1, s.(quote := Unquoted))
    ensures command[i] == '\'' && s.quote == Unquoted ==>
              StepAt(command, i, s) == Next(i + 1, s.(quote := Single, started := true))
    ensures command[i] == '\'' && s.quote == Single ==>
              StepAt(command, i, s) == Next(i + 1, s.(quote := Unquoted))
    ensures command[i] == ' ' && s.quote == Unquoted ==>
              StepAt(command, i, s) == Next(i + 1, Pushed(s))
  {
  }

  /** Reading a suffix one character at a time. */
  lemma SuffixHead(command: string, i: nat, head: char, rest: string)
    requires i <= |command| && command[i..] == [head] + rest
    ensures i < |command| && command[i] == head && command[i + 1..] == rest
    ensures |rest| <= |command| && i + 1 == |command| - |rest|
  {
    assert command[i] == command[i..][0];
    assert command[i + 1..] == command[i..][1..];
  }

  /** Bare and single-quoted text scans to itself. */
  lemma {:induction false} ScanLiteral(command: string, i: nat, s: Scan, t: string, rest: string)
    requires i <= |command| && command[i..] == t + rest
    requires || (s.quote == Single && OneLine(t) && '\'' !in t)
             || (s.quote == Unquoted && s.started && forall c :: c in t ==> IsOrdinary(c))
    ensures |rest| <= |command| && command[|command| - |rest|..] == rest
    ensures ScanFrom(command, i, s) == ScanFrom(command, |command| - |rest|, s.(token := s.token + t))
    decreases |t|
  {
    if t == "" {
      assert command[i..] == rest;
      assert s.token + t == s.token;
    } else {
      SuffixHead(command, i, t[0], t[1..] + rest) by { assert t + rest == [t[0]] + (t[1..] + rest); }
      var s' := s.(token := s.token + [t[0]]);
      assert t[0] in t && StepAt(command, i, s) == Next(i + 1, s');
      ScanLiteral(command, i + 1, s', t[1..], rest);
      assert s.token + [t[0]] + t[1..] == s.token + t;
    }
  }

  lemma ScanDoubleQuoted(command: string, i: nat, done: seq<string>, t: string, rest: string)
    requires i <= |command| && command[i..] == ['"'] + (Escaped(t) + (['"'] + rest)) && OneLine(t)
    ensures |rest| <= |command| && command[|command| - |rest|..] == rest
    ensures ScanFrom(command, i, Scan(done, "", Unquoted, false))
         == ScanFrom(command, |command| - |rest|, Scan(done, t, Unquoted, true))
  {
    hide StepAt;
    var closing := ['"'] + rest;
    SuffixHead(command, i, '"', Escaped(t) + closing);
    StepAtDelimiter(command, i, Scan(done, "", Unquoted, false));
    var inside := Scan(done, "", Double, true);
    ScanEscaped(command, i + 1, inside, t, closing);
    var j := |command| - |closing|;
    SuffixHead(command, j, '"', rest);
    assert inside.token + t == t;
    StepAtDelimiter(command, j, Scan(done, t, Double, true));
  }

  lemma ScanSingleQuoted(command: string, i: nat, done: seq<string>, t: string, rest: string)
    requires i <= |command| && command[i..] == ['\''] + (t + (['\''] + rest)) && OneLine(t) && '\'' !in t
    ensures |rest| <= |command| && command[|command| - |rest|..] == rest
    ensures ScanFrom(command, i, Scan(done, "", Unquoted, false))
         == ScanFrom(command, |command| - |rest|, Scan(done, t, Unquoted, true))
  {
    hide StepAt;
    var closing := ['\''] + rest;
    SuffixHead(command, i, '\'', t + closing);
    StepAtDelimiter(command, i, Scan(done, "", Unquoted, false));
    var inside := Scan(done, "", Single, true);
    ScanLiteral(command, i + 1, inside, t, closing);
    var j := |command| - |closing|;
    SuffixHead(command, j, '\'', rest);
    assert inside.token + t == t;
    StepAtDelimiter(command, j, Scan(done, t, Single, true));
  }

  lemma ScanBare(command: string, i: nat, done: seq<string>, t: string, rest: string)
    requires i <= |command| && command[i..] == t + rest && Writable(Word(t, Unquoted))
    ensures |rest| <= |command| && command[|command| - |rest|..] == rest
    ensures ScanFrom(command, i, Scan(done, "", Unquoted, false))
         == ScanFrom(command, |command| - |rest|, Scan(done, t, Unquoted, true))
  {
    SuffixHead(command, i, t[0], t[1..] + rest) by { assert t + rest == [t[0]] + (t[1..] + rest); }
    assert t[0] in t && StepAt(command, i, Scan(done, "", Unquoted, false)) == Next(i + 1, Scan(done, [t[0]], Unquoted, true));
    ScanLiteral(command, i + 1, Scan(done, [t[0]], Unquoted, true), t[1..], rest);
    assert [t[0]] + t[1..] == t;
  }

  /** A written word scans to its text, whatever follows it. */
  lemma ScanWord(command: string, i: nat, done: seq<string>, w: Word, rest: string)
    requires i <= |command| && command[i..] == Written(w) + rest && Writable(w)
    ensures |rest| <= |command| && command[|command| - |rest|..] == rest
    ensures ScanFrom(command, i, Scan(done, "", Unquoted, false))
         == ScanFrom(command, |command| - |rest|, Scan(done, w.text, Unquoted, true))
  {
    hide StepAt, ScanFrom;
    match w.style
    case Unquoted => ScanBare(command, i, done, w.text, rest);
    case Single =>
      assert Written(w) + rest == ['\''] + (w.text + (['\''] + rest));
      ScanSingleQuoted(command, i, done, w.text, rest);
    case Double =>
      assert Written(w) + rest == ['"'] + (Escaped(w.text) + (['"'] + rest));
      ScanDoubleQuoted(command, i, done, w.text, rest);
  }

  /** A word and the space behind it. */
  lemma ScanWordAndSpace(command: string, i: nat, done: seq<string>, w: Word, rest: string)
    requires i <= |command| && command[i..] == Written(w) + ([' '] + rest) && Writable(w)
    ensures |rest| <= |command| && command[|command| - |rest|..] == rest
    ensures ScanFrom(command, i, Scan(done, "", Unquoted, false))
         == ScanFrom(command, |command| - |rest|, Scan(done + [w.text], "", Unquoted, false))
  {
    hide StepAt, Written, Writable, ScanFrom;
    ScanWord(command, i, done, w, [' '] + rest);
    var j := |command| - |rest| - 1;
    assert command[j..] == [' '] + rest;
    SuffixHead(command, j, ' ', rest);
    StepAtDelimiter(command, j, Scan(done, w.text, Unquoted, true));
    ScanOneStep(command, j, Scan(done, w.text, Unquoted, true));
  }

  lemma ScanLastWord(command: string, i: nat, done: seq<string>, w: Word)
    requires i <= |command| && command[i..] == Written(w) && Writable(w)
    ensures ScanFrom(command, i, Scan(done, "", Unquoted, false)) == Complete(done + [w.text])
  {
    hide StepAt, Written, Writable;
    assert command[i..] == Written(w) + "";
    ScanWord(command, i, done, w, "");
  }

  lemma {:induction false} ScanCommandLine(command: string, i: nat, done: seq<string>, words: seq<Word>)
    requires i <= |command| && command[i..] == CommandLine(words)
    requires forall w :: w in words ==> Writable(w)
    ensures ScanFrom(command, i, Scan(done, "", Unquoted, false)) == Complete(done + Texts(words))
    decreases |words|
  {
    hide StepAt, Written, Writable;
    if words == [] {
      assert done + Texts(words) == done;
    } else if |words| == 1 {
      hide ScanFrom;
      ScanLastWord(command, i, done, words[0]);
      assert Texts(words) == [words[0].text];
    } else {
      hide ScanFrom;
      var rest := CommandLine(words[1..]);
      ScanWordAndSpace(command, i, done, words[0], rest);
      ScanCommandLine(command, |command| - |rest|, done + [words[0].text], words[1..]);
      assert done + [words[0].text] + Texts(words[1..]) == done + Texts(words);
    }
  }

  /**
   * Every list of words tokenizes to exactly the texts that were written, in
   * any mixture of bare, single-quoted and double-quoted words, empty quoted
   * words included.
   */
  lemma QuotingRoundTrip(words: seq<Word>)
    requires forall w :: w in words ==> Writable(w)
    ensures Tokens(CommandLine(words)) == Complete(Texts(words))
  {
    var command := CommandLine(words);
    assert command[0..] == command;
    ScanCommandLine(command, 0, [], words);
    assert [] + Texts(words) == Texts(words);
  }

  // ---- Streaming ----

  /** The tokens of a verdict that later characters cannot change. */
  function Settled(t: Tokenization): seq<string>
    requires !t.Generic?
  {
    if t.Complete? && t.tokens != [] then t.tokens[..|t.tokens| - 1] else t.tokens
  }

  /** Tokens already pushed stay in front of whatever the scan ends with. */
  lemma {:induction false} PushedStay(command: string, i: nat, s: Scan)
    requires i <= |command| && !ScanFrom(command, i, s).Generic?
    ensures s.tokens <= ScanFrom(command, i, s).tokens
    decreases |command| - i
  {
    if i < |command| {
      var step := StepAt(command, i, s);
      if step.Next? { PushedStay(command, step.index, step.scan); }
    }
  }

  /** One character later commands agree on: the longer one may only give up earlier. */
  lemma StepExtends(command: string, more: string, i: nat, s: Scan)
    requires i < |command|
    ensures var short, long := StepAt(command, i, s), StepAt(command + more, i, s);
            || short == long
            || long == Stop(Generic)
            || (short == Stop(Incomplete(s.tokens)) && (long.Next? ==> s.tokens <= long.scan.tokens))
    ensures StepAt(command, i, s) == Stop(Generic) ==> StepAt(command + more, i, s) == Stop(Generic)
  {
    var whole := command + more;
    assert whole[i] == command[i];
    assert whole[i + 1..] == command[i + 1..] + more;
    if i + 1 < |command| { assert whole[i + 1] == command[i + 1]; }
  }

  lemma {:induction false} ScanExtends(command: string, more: string, i: nat, s: Scan)
    requires i <= |command|
    ensures var short, long := ScanFrom(command, i, s), ScanFrom(command + more, i, s);
            && (short.Generic? ==> long.Generic?)
            && (!long.Generic? ==> Settled(short) <= long.tokens)
    decreases |command| - i
  {
    var whole := command + more;
    if !ScanFrom(whole, i, s).Generic? { PushedStay(whole, i, s); }
    if i < |command| {
      StepExtends(command, more, i, s);
      var step := StepAt(command, i, s);
      if step.Next? { ScanExtends(command, more, step.index, step.scan); }
    }
  }

  /**
   * A streamed prefix never contradicts the finished command: a generic verdict
   * is final, and otherwise the prefix's settled tokens are the command's first.
   */
  lemma StreamingIsStable(command: string, more: string)
    ensures Tokens(command).Generic? ==> Tokens(command + more).Generic?
    ensures !Tokens(command + more).Generic? ==>
              !Tokens(command).Generic? && Settled(Tokens(command)) <= Tokens(command + more).tokens
  {
    ScanExtends(command, more, 0, START);
  }

  /** Where the scan stands behind the last character; nothing when it stopped before. */
  function EndOf(command: string, i: nat, s: Scan): Option<Scan>
    requires i <= |command|
    decreases |command| - i
  {
    if i == |command| then Some(s)
    else
      match StepAt(command, i, s)
      case Stop(_) => None
      case Next(index, scan) => EndOf(command, index, scan)
  }

  /**
   * The tokens that are finished: all but the one in progress, if there is one.
   * A token is in progress until white space follows it.
   */
  function Firm(command: string): seq<string>
    requires !Tokens(command).Generic?
  {
    var end := EndOf(command, 0, START);
    if end.Some? then end.value.tokens else Tokens(command).tokens
  }

  lemma {:induction false} EndDecides(command: string, i: nat, s: Scan)
    requires i <= |command|
    ensures EndOf(command, i, s).Some? ==>
              (var e := EndOf(command, i, s).value;
               ScanFrom(command, i, s) == if e.quote != Unquoted then Incomplete(e.tokens) else Complete(Pushed(e).tokens))
    ensures EndOf(command, i, s).None? ==> !ScanFrom(command, i, s).Complete?
    decreases |command| - i
  {
    if i < |command| {
      var step := StepAt(command, i, s);
      if step.Next? { EndDecides(command, step.index, step.scan); }
    }
  }

  /** Only a token in progress is not firm. */
  lemma FirmIsAllButTheLast(command: string)
    requires !Tokens(command).Generic?
    ensures var end, tokens := EndOf(command, 0, START), Tokens(command).tokens;
            if end.Some? && end.value.quote == Unquoted && end.value.started
            then tokens == Firm(command) + [end.value.token] else tokens == Firm(command)
  {
    hide StepAt;
    EndDecides(command, 0, START);
  }

  lemma {:induction false} FirmScan(command: string, more: string, i: nat, s: Scan)
    requires i <= |command| && EndOf(command, i, s).Some? && !ScanFrom(command + more, i, s).Generic?
    ensures EndOf(command, i, s).value.tokens <= ScanFrom(command + more, i, s).tokens
    decreases |command| - i
  {
    if i < |command| {
      StepExtends(command, more, i, s);
      var step := StepAt(command, i, s);
      FirmScan(command, more, step.index, step.scan);
    } else {
      PushedStay(command + more, i, s);
    }
  }

  /** Firm tokens begin the tokens of every extension that is not generic. */
  lemma FirmStays(command: string, more: string)
    requires !Tokens(command + more).Generic?
    ensures !Tokens(command).Generic? && Firm(command) <= Tokens(command + more).tokens
  {
    hide StepAt, Settled;
    StreamingIsStable(command, more);
    EndDecides(command, 0, START);
    if EndOf(command, 0, START).Some? { FirmScan(command, more, 0, START); } else { SettledWhenIncomplete(command); }
  }

  lemma SettledWhenIncomplete(command: string)
    requires Tokens(command).Incomplete?
    ensures Settled(Tokens(command)) == Tokens(command).tokens
  {
  }

  lemma StepSame(command: string, c: char, i: nat, s: Scan)
    requires i < |command| && IsOrdinary(c) && c != ']' && StepAt(command, i, s).Next?
    ensures StepAt(command + [c], i, s) == StepAt(command, i, s)
  {
    var whole := command + [c];
    assert whole[i] == command[i];
    assert whole[i + 1..] == command[i + 1..] + [c];
    if i + 1 < |command| { assert whole[i + 1] == command[i + 1]; }
  }

  lemma {:induction false} ScanSame(command: string, c: char, i: nat, s: Scan)
    requires i <= |command| && IsOrdinary(c) && c != ']' && EndOf(command, i, s).Some?
    ensures ScanFrom(command + [c], i, s) == ScanFrom(command + [c], |command|, EndOf(command, i, s).value)
    decreases |command| - i
  {
    if i < |command| {
      hide IsOrdinary;
      var step := StepAt(command, i, s);
      StepSame(command, c, i, s);
      ScanSame(command, c, step.index, step.scan);
    }
  }

  /** A token in progress goes on with any ordinary character. */
  lemma LastTokenGoesOn(command: string, c: char)
    requires IsOrdinary(c) && c != ']'
    requires EndOf(command, 0, START).Some? && EndOf(command, 0, START).value.quote == Unquoted && EndOf(command, 0, START).value.started
    ensures var end := EndOf(command, 0, START).value;
            Tokens(command + [c]) == Complete(end.tokens + [end.token + [c]])
  {
    var end := EndOf(command, 0, START).value;
    var whole := command + [c];
    ScanSame(command, c, 0, START);
    assert whole[|command|] == c;
    OrdinaryStep(whole, |command|, end);
  }

  lemma OrdinaryStep(command: string, i: nat, s: Scan)
    requires i < |command| && IsOrdinary(command[i]) && s.quote == Unquoted && s.started
    ensures StepAt(command, i, s) == Next(i + 1, s.(token := s.token + [command[i]]))
  {
  }

  /** A metacharacter only a shell can evaluate. */
  predicate IsMeta(c: char) { IsGlob(c) || IsOperator(c) || c == '$' || c == '\r' || c == '\n' }

  lemma {:induction false} ScanMeta(command: string, c: char, more: string, i: nat, s: Scan)
    requires i <= |command| && IsMeta(c) && ScanFrom(command, i, s).Complete?
    ensures ScanFrom(command + ([c] + more), i, s).Generic?
    decreases |command| - i
  {
    if i < |command| {
      StepExtends(command, [c] + more, i, s);
      var step := StepAt(command, i, s);
      if step.Next? { ScanMeta(command, c, more, step.index, step.scan); }
    } else {
      assert (command + ([c] + more))[i] == c;
    }
  }

  /** Nothing that contains an unprotected metacharacter is ever taken apart. */
  lemma UnprotectedMetaIsGeneric(command: string, c: char, more: string)
    requires Tokens(command).Complete? && IsMeta(c)
    ensures Tokens(command + ([c] + more)).Generic?
  {
    ScanMeta(command, c, more, 0, START);
  }
}
