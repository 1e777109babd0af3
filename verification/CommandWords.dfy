/**
 * Recognising a direct call of the command-line tool in the tokens of a shell
 * command: assignments, `command` and `env` may stand before the executable.
 */
module CommandWords {
  import opened ShellTokenizer
  import opened Text
  import opened Wrappers

  predicate IsNameStart(c: char) { IsLetter(c) || c == '_' }
  predicate IsNamePart(c: char) { IsNameStart(c) || '0' <= c <= '9' }

  /** A variable name, then "=". */
  predicate IsAssignment(token: string) {
    exists n :: 0 < n < |token| && token[n] == '=' && IsNameStart(token[0]) && forall k :: 0 < k < n ==> IsNamePart(token[k])
  }

  /** A shell variable's name, as in section 3.231 of POSIX.1-2017, Base Definitions. */
  predicate IsName(name: string) {
    && name != "" && !('0' <= name[0] <= '9')
    && forall c :: c in name ==> 'a' <= c <= 'z' || 'A' <= c <= 'Z' || c == '_' || '0' <= c <= '9'
  }

  /** An assignment is a name, an equals sign and any value. */
  lemma AssignmentExactly(token: string)
    ensures IsAssignment(token) <==> exists name: string, value: string :: IsName(name) && token == name + (['='] + value)
  {
    if IsAssignment(token) {
      var n :| 0 < n < |token| && token[n] == '=' && IsNameStart(token[0]) && forall k :: 0 < k < n ==> IsNamePart(token[k]);
      assert token == token[..n] + (['='] + token[n + 1..]);
      assert IsName(token[..n]);
    }
    forall name: string, value: string | IsName(name) && token == name + (['='] + value)
      ensures IsAssignment(token)
    {
      assert token[|name|] == '=' && forall k :: 0 <= k < |name| ==> token[k] == name[k] && name[k] in name;
    }
  }

  predicate IsOption(token: string) { StartsWith(token, "-") }

  /** Which tokens name the executable; none of them reads as anything else. */
  type Executable = string -> bool

  ghost predicate IsPlain(isExecutable: Executable) {
    forall t :: isExecutable(t) ==> t != "" && t != "command" && t != "env" && !IsAssignment(t) && !IsOption(t)
  }

  function At(tokens: seq<string>, i: nat): string { if i < |tokens| then tokens[i] else "" }

  function SkipAssignments(tokens: seq<string>, i: nat): (r: nat)
    ensures i <= r && (i <= |tokens| ==> r <= |tokens|)
    ensures r < |tokens| ==> !IsAssignment(tokens[r])
    ensures forall k :: i <= k < r ==> k < |tokens| && IsAssignment(tokens[k])
    decreases |tokens| - i
  {
    if i < |tokens| && IsAssignment(tokens[i]) then SkipAssignments(tokens, i + 1) else i
  }

  /** The position behind `command`, or nothing when it takes an option. */
  function SkipCommand(tokens: seq<string>, i: nat): Option<nat> {
    if At(tokens, i) != "command" then Some(i)
    else if At(tokens, i + 1) == "--" then Some(i + 2)
    else if IsOption(At(tokens, i + 1)) then None
    else Some(i + 1)
  }

  function SkipEnv(tokens: seq<string>, i: nat): Option<nat> {
    if At(tokens, i) != "env" then Some(i)
    else
      var j := SkipAssignments(tokens, i + 1);
      if IsOption(At(tokens, j)) then None else Some(j)
  }

  /** The tokens behind the executable. */
  function CommandTokens(tokens: seq<string>, isExecutable: Executable): Option<seq<string>> {
    var command := SkipCommand(tokens, SkipAssignments(tokens, 0));
    if command.None? then None
    else
      var env := SkipEnv(tokens, command.value);
      if env.None? || !isExecutable(At(tokens, env.value)) then None
      else if env.value + 1 <= |tokens| then Some(tokens[env.value + 1..])
      else Some([])
  }

  /** The loop that passes over assignments. */
  method PassAssignments(tokens: seq<string>, start: nat) returns (index: nat)
    ensures index == SkipAssignments(tokens, start)
  {
    hide IsAssignment;
    index := start;
    while index < |tokens| && IsAssignment(tokens[index])
      invariant start <= index
      invariant SkipAssignments(tokens, index) == SkipAssignments(tokens, start)
    {
      index := index + 1;
    }
  }

  method GentleAiCommandTokensFrom(tokens: seq<string>, isExecutable: Executable) returns (r: Option<seq<string>>)
    ensures r == CommandTokens(tokens, isExecutable)
  {
    hide IsAssignment, IsOption, SkipAssignments, At;
    var index := PassAssignments(tokens, 0);
    if At(tokens, index) == "command" {
      index := index + 1;
      if At(tokens, index) == "--" {
        index := index + 1;
      } else if IsOption(At(tokens, index)) {
        return None;
      }
    }
    if At(tokens, index) == "env" {
      index := PassAssignments(tokens, index + 1);
      if IsOption(At(tokens, index)) { return None; }
    }
    if !isExecutable(At(tokens, index)) { return None; }
    r := Some(if index < |tokens| then tokens[index + 1..] else []);
  }

  // ---- The grammar ----

  /** A command line taken apart; `env` is empty or starts with that word. */
  datatype Parts = Parts(assignments: seq<string>, command: seq<string>, env: seq<string>, executable: string, rest: seq<string>)

  ghost predicate AreAssignments(tokens: seq<string>) { forall t :: t in tokens ==> IsAssignment(t) }

  ghost predicate IsCall(p: Parts, isExecutable: Executable) {
    && AreAssignments(p.assignments)
    && (p.command == [] || p.command == ["command"] || p.command == ["command", "--"])
    && (p.env == [] || (p.env[0] == "env" && AreAssignments(p.env[1..])))
    && isExecutable(p.executable)
  }

  function Whole(p: Parts): seq<string> {
    p.assignments + p.command + p.env + [p.executable] + p.rest
  }

  lemma CommandPart(tokens: seq<string>, i: nat)
    requires SkipCommand(tokens, i).Some? && SkipCommand(tokens, i).value <= |tokens|
    ensures var j := SkipCommand(tokens, i).value;
            i <= j && (tokens[i..j] == [] || tokens[i..j] == ["command"] || tokens[i..j] == ["command", "--"])
  {
  }

  lemma EnvPart(tokens: seq<string>, j: nat)
    requires SkipEnv(tokens, j).Some? && SkipEnv(tokens, j).value <= |tokens|
    ensures var k := SkipEnv(tokens, j).value;
            j <= k && (tokens[j..k] == [] || (tokens[j..k][0] == "env" && AreAssignments(tokens[j..k][1..])))
  {
    hide IsAssignment, IsOption;
    var k := SkipEnv(tokens, j).value;
    if j < k { assert tokens[j..k][1..] == tokens[j + 1..k]; }
  }

  lemma Parted(tokens: seq<string>, i: nat, j: nat, k: nat)
    requires i <= j <= k < |tokens|
    ensures Whole(Parts(tokens[..i], tokens[i..j], tokens[j..k], tokens[k], tokens[k + 1..])) == tokens
  {
  }

  /** What is recognised is a call. */
  lemma RecognisedIsCall(tokens: seq<string>, isExecutable: Executable) returns (p: Parts)
    requires IsPlain(isExecutable) && CommandTokens(tokens, isExecutable).Some?
    ensures IsCall(p, isExecutable) && Whole(p) == tokens && p.rest == CommandTokens(tokens, isExecutable).value
  {
    var i := SkipAssignments(tokens, 0);
    var j := SkipCommand(tokens, i).value;
    var k := SkipEnv(tokens, j).value;
    assert k < |tokens|;
    hide IsAssignment, IsOption, SkipEnv, SkipCommand, Whole;
    EnvPart(tokens, j);
    CommandPart(tokens, i);
    Parted(tokens, i, j, k);
    p := Parts(tokens[..i], tokens[i..j], tokens[j..k], tokens[k], tokens[k + 1..]);
  }

  lemma {:induction false} SkipsAll(tokens: seq<string>, i: nat, n: nat)
    requires i <= n <= |tokens| && AreAssignments(tokens[i..n])
    requires n < |tokens| ==> !IsAssignment(tokens[n])
    ensures SkipAssignments(tokens, i) == n
    decreases n - i
  {
    hide IsAssignment;
    if i < n {
      assert tokens[i] == tokens[i..n][0] && tokens[i] in tokens[i..n];
      assert tokens[i + 1..n] == tokens[i..n][1..];
      SkipsAll(tokens, i + 1, n);
    }
  }

  lemma HasEquals(token: string)
    ensures IsAssignment(token) ==> '=' in token
  {
  }

  lemma NotAssignments()
    ensures !IsAssignment("command") && !IsAssignment("env")
    ensures !IsOption("env")
  {
    hide IsAssignment;
    var command, env := "command", "env";
    assert command == ['c', 'o', 'm', 'm', 'a', 'n', 'd'] && env == ['e', 'n', 'v'];
    assert '=' !in command && '=' !in env;
    HasEquals(command);
    HasEquals(env);
    assert env[0] == 'e' && "-"[0] == '-';
  }

  lemma Positions(p: Parts)
    ensures var i, tokens := |p.assignments|, Whole(p);
            var j := i + |p.command|;
            var k := j + |p.env|;
            && k < |tokens| && tokens[..i] == p.assignments && tokens[i..j] == p.command && tokens[j..k] == p.env
            && tokens[k] == p.executable && tokens[k + 1..] == p.rest
  {
  }

  lemma CommandSkipped(tokens: seq<string>, i: nat, j: nat)
    requires i <= j < |tokens|
    requires tokens[i..j] == [] || tokens[i..j] == ["command"] || tokens[i..j] == ["command", "--"]
    requires tokens[j] != "command" && !IsOption(tokens[j])
    ensures SkipCommand(tokens, i) == Some(j)
  {
    var dashes := "--";
    assert dashes[0] == '-' && IsOption(dashes);
    assert forall n :: i <= n < j ==> tokens[n] == tokens[i..j][n - i];
    if tokens[i..j] == ["command", "--"] { assert tokens[i + 1] == dashes; }
  }

  /** Behind its assignments a call goes on with something else, and so it does behind those of `env`. */
  lemma AssignmentsEnd(p: Parts, isExecutable: Executable)
    requires IsPlain(isExecutable) && IsCall(p, isExecutable)
    ensures var i, tokens := |p.assignments|, Whole(p);
            var j := i + |p.command|;
            var k := j + |p.env|;
            && k < |tokens| && !IsAssignment(tokens[i]) && !IsAssignment(tokens[k])
            && tokens[j] != "command" && !IsOption(tokens[j]) && !IsOption(tokens[k])
            && (tokens[j] == "env" <==> p.env != [])
  {
    var tokens := Whole(p);
    var i := |p.assignments|;
    var j := i + |p.command|;
    Positions(p);
    NotAssignments();
    hide IsAssignment, IsOption, Whole;
    assert isExecutable(p.executable);
    if p.command != [] { assert tokens[i] == tokens[i..j][0] == p.command[0]; }
    if p.env != [] { assert tokens[j] == tokens[j..j + |p.env|][0] == "env"; }
  }

  /** Every call is recognised, with exactly its arguments. */
  lemma CallIsRecognised(p: Parts, isExecutable: Executable)
    requires IsPlain(isExecutable) && IsCall(p, isExecutable)
    ensures CommandTokens(Whole(p), isExecutable) == Some(p.rest)
  {
    var tokens := Whole(p);
    var i := |p.assignments|;
    var j := i + |p.command|;
    var k := j + |p.env|;
    hide IsAssignment, IsOption, Whole, SkipAssignments, SkipCommand, IsPlain, AreAssignments;
    Positions(p);
    AssignmentsEnd(p, isExecutable);
    assert tokens[0..i] == tokens[..i];
    SkipsAll(tokens, 0, i);
    CommandSkipped(tokens, i, j);
    if p.env != [] {
      assert tokens[j + 1..k] == p.env[1..];
      SkipsAll(tokens, j + 1, k);
    }
    assert SkipEnv(tokens, j) == Some(k);
  }

  /** Behind `command` and `env` an option rules a call out, whatever names the executable. */
  lemma OptionsRuleOut(assignments: seq<string>, option: string, rest: seq<string>, isExecutable: Executable)
    requires AreAssignments(assignments) && "-" <= option
    ensures option != "--" ==> CommandTokens(assignments + (["command", option] + rest), isExecutable).None?
    ensures CommandTokens(assignments + (["env", option] + rest), isExecutable).None?
  {
    assert option[0] == "-"[0] && !IsAssignment(option);
    hide IsAssignment;
    NotAssignments();
    var n := |assignments|;
    var command, env := assignments + (["command", option] + rest), assignments + (["env", option] + rest);
    assert command[0..n] == assignments == env[0..n];
    SkipsAll(command, 0, n);
    SkipsAll(env, 0, n);
    assert command[n] == "command" && command[n + 1] == option && env[n] == "env" && env[n + 1] == option;
  }

  // ---- With the scanner ----

  lemma MoreArguments(tokens: seq<string>, more: seq<string>, isExecutable: Executable)
    requires IsPlain(isExecutable) && CommandTokens(tokens, isExecutable).Some?
    ensures CommandTokens(tokens + more, isExecutable) == Some(CommandTokens(tokens, isExecutable).value + more)
  {
    hide CommandTokens, IsPlain;
    var p := RecognisedIsCall(tokens, isExecutable);
    var longer := p.(rest := p.rest + more);
    var front := p.assignments + p.command + p.env + [p.executable];
    assert front + (p.rest + more) == front + p.rest + more;
    assert Whole(longer) == tokens + more;
    CallIsRecognised(longer, isExecutable);
  }

  /** The position of the executable. */
  function ExecutableAt(tokens: seq<string>, isExecutable: Executable): int
    requires CommandTokens(tokens, isExecutable).Some?
  {
    |tokens| - |CommandTokens(tokens, isExecutable).value| - 1
  }

  lemma ExecutableIsThere(tokens: seq<string>, isExecutable: Executable)
    requires IsPlain(isExecutable) && CommandTokens(tokens, isExecutable).Some?
    ensures var k := ExecutableAt(tokens, isExecutable);
            && 0 <= k < |tokens| && isExecutable(tokens[k]) && CommandTokens(tokens, isExecutable).value == tokens[k + 1..]
            && forall n :: 0 <= n < k ==> !isExecutable(tokens[n])
  {
    hide IsAssignment, CommandTokens;
    var p := RecognisedIsCall(tokens, isExecutable);
    Positions(p);
    Dashes();
    var i := |p.assignments|;
    var j := i + |p.command|;
    var k := j + |p.env|;
    forall n | 0 <= n < k
      ensures !isExecutable(tokens[n])
    {
      if n < i {
        assert tokens[n] == p.assignments[n];
      } else if n < j {
        assert tokens[n] == tokens[i..j][n - i];
      } else if n > j {
        assert tokens[n] == p.env[n - j] == p.env[1..][n - j - 1];
      } else {
        assert tokens[n] == p.env[0];
      }
    }
  }

  lemma Dashes()
    ensures IsOption("--")
  {
    var dashes := "--";
    assert dashes[0] == '-';
  }

  /** The executable and what stands before it decide. */
  lemma FewerArguments(tokens: seq<string>, m: nat, isExecutable: Executable)
    requires IsPlain(isExecutable) && CommandTokens(tokens, isExecutable).Some?
    requires ExecutableAt(tokens, isExecutable) < m <= |tokens|
    ensures CommandTokens(tokens[..m], isExecutable) == Some(tokens[ExecutableAt(tokens, isExecutable) + 1..m])
  {
    hide CommandTokens, IsPlain;
    var p := RecognisedIsCall(tokens, isExecutable);
    var k := ExecutableAt(tokens, isExecutable);
    Positions(p);
    var shorter := p.(rest := tokens[k + 1..m]);
    assert tokens[..k + 1] == p.assignments + p.command + p.env + [p.executable];
    assert tokens[..m] == tokens[..k + 1] + tokens[k + 1..m];
    assert Whole(shorter) == tokens[..m];
    CallIsRecognised(shorter, isExecutable);
  }

  /** No executable's name can be lengthened in every way, as only finitely many endings are known. */
  ghost predicate IsSpecific(isExecutable: Executable) {
    forall t :: isExecutable(t) ==> HasOtherEnding(t, isExecutable)
  }

  ghost predicate HasOtherEnding(t: string, isExecutable: Executable) {
    exists c :: IsOrdinary(c) && c != ']' && !isExecutable(t + [c])
  }

  /** Every extension of the command that is taken apart is still a call. */
  ghost predicate StaysACall(command: string, isExecutable: Executable) {
    forall more :: !Tokens(command + more).Generic? ==> CommandTokens(Tokens(command + more).tokens, isExecutable).Some?
  }

  /** A call whose executable is firm stays one, and its firm arguments stay. */
  lemma FirmCallStays(command: string, more: string, isExecutable: Executable)
    requires IsPlain(isExecutable) && !Tokens(command).Generic? && !Tokens(command + more).Generic?
    requires CommandTokens(Tokens(command).tokens, isExecutable).Some?
    requires ExecutableAt(Tokens(command).tokens, isExecutable) < |Firm(command)|
    ensures var arguments := CommandTokens(Tokens(command + more).tokens, isExecutable);
            && arguments.Some?
            && Firm(command)[ExecutableAt(Tokens(command).tokens, isExecutable) + 1..] <= arguments.value
  {
    hide CommandTokens, IsPlain, Tokens, Firm;
    FirmIsAllButTheLast(command);
    FirmStays(command, more);
    var firm, tokens, all := Firm(command), Tokens(command).tokens, Tokens(command + more).tokens;
    assert tokens[..|firm|] == firm;
    ExecutableIsThere(tokens, isExecutable);
    FewerArguments(tokens, |firm|, isExecutable);
    assert firm + all[|firm|..] == all;
    MoreArguments(firm, all[|firm|..], isExecutable);
  }

  /** An executable in progress can turn out to be another word. */
  lemma UnfinishedCallCanFail(command: string, isExecutable: Executable) returns (more: string)
    requires IsPlain(isExecutable) && IsSpecific(isExecutable) && !Tokens(command).Generic?
    requires CommandTokens(Tokens(command).tokens, isExecutable).Some?
    requires ExecutableAt(Tokens(command).tokens, isExecutable) >= |Firm(command)|
    ensures !Tokens(command + more).Generic? && CommandTokens(Tokens(command + more).tokens, isExecutable).None?
  {
    hide CommandTokens, IsPlain, Tokens, EndOf, IsOrdinary;
    var tokens := Tokens(command).tokens;
    FirmIsAllButTheLast(command);
    ExecutableIsThere(tokens, isExecutable);
    var end := EndOf(command, 0, START).value;
    var k := ExecutableAt(tokens, isExecutable);
    assert k == |end.tokens| && tokens[k] == end.token;
    var c :| IsOrdinary(c) && c != ']' && !isExecutable(end.token + [c]);
    more := [c];
    LastTokenGoesOn(command, c);
    var longer := end.tokens + [end.token + [c]];
    assert forall n :: 0 <= n < k ==> longer[n] == tokens[n];
    CallNamesExecutable(longer, isExecutable);
  }

  lemma CallNamesExecutable(tokens: seq<string>, isExecutable: Executable)
    requires IsPlain(isExecutable)
    ensures CommandTokens(tokens, isExecutable).Some? ==> exists n :: 0 <= n < |tokens| && isExecutable(tokens[n])
  {
    hide CommandTokens;
    if CommandTokens(tokens, isExecutable).Some? { ExecutableIsThere(tokens, isExecutable); }
  }

  /**
   * The renderer looks for a call in all tokens of a streamed prefix. What it
   * finds stays a call, however the command goes on, exactly when the
   * executable is not the token in progress.
   */
  lemma StreamedCallStaysExactly(command: string, isExecutable: Executable)
    requires IsPlain(isExecutable) && IsSpecific(isExecutable) && !Tokens(command).Generic?
    requires CommandTokens(Tokens(command).tokens, isExecutable).Some?
    ensures StaysACall(command, isExecutable) <==>
            ExecutableAt(Tokens(command).tokens, isExecutable) < |Firm(command)|
  {
    hide CommandTokens, IsPlain, Tokens, Firm, IsSpecific;
    if ExecutableAt(Tokens(command).tokens, isExecutable) < |Firm(command)| {
      forall more | !Tokens(command + more).Generic?
        ensures CommandTokens(Tokens(command + more).tokens, isExecutable).Some?
      {
        FirmCallStays(command, more, isExecutable);
      }
    } else {
      var more := UnfinishedCallCanFail(command, isExecutable);
      assert !StaysACall(command, isExecutable);
    }
  }

  /** The prefix `gentle-ai` reads as a call, and `gentle-aix` is none. */
  lemma PrefixReadsAsCall()
    ensures var isExecutable := (t: string) => t == "gentle-ai";
            && Tokens("gentle-ai") == Complete(["gentle-ai"]) && CommandTokens(["gentle-ai"], isExecutable) == Some([])
            && Tokens("gentle-ai" + "x") == Complete(["gentle-ai" + "x"])
            && CommandTokens(["gentle-ai" + "x"], isExecutable).None?
  {
    hide Tokens, CommandTokens;
    var short, long := "gentle-ai", "gentle-ai" + "x";
    var isExecutable := (t: string) => t == "gentle-ai";
    assert short == ['g', 'e', 'n', 't', 'l', 'e', '-', 'a', 'i'];
    assert long == ['g', 'e', 'n', 't', 'l', 'e', '-', 'a', 'i', 'x'];
    BareWord(short);
    BareWord(long);
    OneWord(short, isExecutable);
    OneWord(long, isExecutable);
  }

  lemma OneWord(t: string, isExecutable: Executable)
    requires |t| > 7 && t[0] == 'g' && forall c :: c in t ==> 'a' <= c <= 'z' || c == '-'
    ensures CommandTokens([t], isExecutable) == if isExecutable(t) then Some([]) else None
  {
    NoPrefixWord(t);
    hide SkipAssignments, SkipCommand, SkipEnv;
    assert [t][1..] == [];
  }

  lemma BareWord(t: string)
    requires t != "" && forall c :: c in t ==> 'a' <= c <= 'z' || c == '-'
    ensures Tokens(t) == Complete([t])
  {
    hide Tokens;
    var w := Word(t, Unquoted);
    assert Writable(w);
    QuotingRoundTrip([w]);
    assert CommandLine([w]) == t && Texts([w]) == [t];
  }

  lemma NoPrefixWord(t: string)
    requires |t| > 7 && t[0] == 'g' && forall c :: c in t ==> 'a' <= c <= 'z' || c == '-'
    ensures SkipAssignments([t], 0) == 0 && SkipCommand([t], 0) == Some(0) && SkipEnv([t], 0) == Some(0)
  {
    HasEquals(t);
    assert "command"[0] == 'c' && "env"[0] == 'e';
  }

  /** However its words are quoted, a call is recognised with exactly its arguments. */
  lemma QuotedCallIsRecognised(words: seq<Word>, p: Parts, isExecutable: Executable)
    requires forall w :: w in words ==> Writable(w)
    requires IsPlain(isExecutable) && IsCall(p, isExecutable) && Texts(words) == Whole(p)
    ensures Tokens(CommandLine(words)).Complete?
    ensures CommandTokens(Tokens(CommandLine(words)).tokens, isExecutable) == Some(p.rest)
  {
    hide CommandTokens, IsPlain, Tokens, Whole, IsCall;
    QuotingRoundTrip(words);
    CallIsRecognised(p, isExecutable);
  }
}
