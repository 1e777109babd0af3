/**
 * How the model is kept informed of the todo list: the list is written into the
 * transcript when it changes, and a transcript that lost the last snapshot gets
 * it again, once, so that later requests only ever grow.
 */
module TodoState {
  import opened Wrappers

  datatype Status = Pending | InProgress | Blocked | Done | Dropped
  datatype Task = Task(id: nat, title: string, status: Status, note: string)
  datatype Todo = Todo(tasks: seq<Task>, nextId: nat)

  const REMIND_AFTER_TOOL_TURNS: nat := 4
  const CLOSED := "Current todo list: no open tasks."
  const HEADING := "Current todo list:\n"

  predicate IsOpen(t: Task) { t.status != Done && t.status != Dropped }

  function Open(tasks: seq<Task>): nat {
    if tasks == [] then 0 else (if IsOpen(tasks[0]) then 1 else 0) + Open(tasks[1..])
  }

  /** A list is finished when every task is done or dropped. */
  lemma {:induction false} FinishedExactly(tasks: seq<Task>)
    ensures Open(tasks) == 0 <==> forall t :: t in tasks ==> t.status == Done || t.status == Dropped
  {
    if tasks != [] {
      FinishedExactly(tasks[1..]);
      assert forall t :: t in tasks <==> t == tasks[0] || t in tasks[1..];
    }
  }

  predicate Actionable(todo: Todo) {
    exists t :: t in todo.tasks && (t.status == Pending || t.status == InProgress)
  }

  /** The rendering of the task lines is left open. */
  type Lines = seq<Task> -> string

  /** The snapshot of a list; nothing when it has no open task. */
  function StateMessage(todo: Todo, lines: Lines): Option<string> {
    if Open(todo.tasks) == 0 then None else Some(HEADING + lines(todo.tasks))
  }

  /** What the transcript should say last about a list that was ever shown. */
  function Target(todo: Todo, lines: Lines): string {
    match StateMessage(todo, lines)
    case Some(state) => state
    case None => CLOSED
  }

  /** No snapshot reads as the closing marker. */
  lemma ClosedIsNoSnapshot(todo: Todo, lines: Lines)
    ensures StateMessage(todo, lines) != Some(CLOSED)
    ensures Target(todo, lines) == CLOSED <==> Open(todo.tasks) == 0
    ensures Open(todo.tasks) > 0 ==> Target(todo, lines) == HEADING + lines(todo.tasks)
  {
    var i := |HEADING| - 1;
    assert HEADING[i] == '\n' && CLOSED[i] == ' ';
    assert forall rest: string :: (HEADING + rest)[i] == '\n';
  }

  /** A message of the conversation; the content of a state message may not be text. */
  datatype Message = Snapshot(content: Option<string>) | Reminder | Other(id: nat)

  /** The text of the last state message. */
  function Seen(messages: seq<Message>): (r: Option<string>) {
    if messages == [] then None
    else
      var last := messages[|messages| - 1];
      if last.Snapshot? then last.content else Seen(messages[..|messages| - 1])
  }

  /** What the model sees is the last state message, whatever follows it, and nothing when there is none. */
  lemma {:induction false} SeenExactly(messages: seq<Message>)
    ensures (forall m :: m in messages ==> !m.Snapshot?) ==> Seen(messages) == None
    ensures forall k :: 0 <= k < |messages| && IsLastState(messages, k) ==> Seen(messages) == messages[k].content
  {
    if messages != [] {
      var n := |messages| - 1;
      var before := messages[..n];
      SeenExactly(before);
      assert forall m :: m in before ==> m in messages;
      assert messages[n] in messages;
      forall k | 0 <= k < |messages| && IsLastState(messages, k)
        ensures Seen(messages) == messages[k].content
      {
        if k < n { assert IsLastState(before, k); }
      }
    }
  }

  predicate IsLastState(messages: seq<Message>, k: nat)
    requires k < |messages|
  {
    messages[k].Snapshot? && forall j :: k < j < |messages| ==> !messages[j].Snapshot?
  }

  function Snapshots(states: seq<string>): (r: seq<Message>)
    ensures |r| == |states| && forall i :: 0 <= i < |r| ==> r[i] == Snapshot(Some(states[i]))
  {
    seq(|states|, i requires 0 <= i < |states| => Snapshot(Some(states[i])))
  }

  lemma {:induction false} SeenAppended(messages: seq<Message>, more: seq<Message>)
    ensures (forall m :: m in more ==> !m.Snapshot?) ==> Seen(messages + more) == Seen(messages)
    ensures more != [] && more[|more| - 1].Snapshot? ==> Seen(messages + more) == more[|more| - 1].content
  {
    if more == [] {
      assert messages + more == messages;
    } else {
      var rest := more[..|more| - 1];
      assert (messages + more)[..|messages + more| - 1] == messages + rest;
      SeenAppended(messages, rest);
      assert forall m :: m in rest ==> m in more;
      assert more[|more| - 1] in more;
    }
  }

  /** The transcript already says what it should: nothing is to be added. */
  predicate UpToDate(todo: Todo, lines: Lines, seen: Option<string>) {
    if Open(todo.tasks) > 0 then seen == Some(Target(todo, lines)) else seen.None? || seen == Some(CLOSED)
  }

  /** What a new list makes known: a list that was never shown is not announced as closed. */
  function Announced(todo: Todo, lines: Lines, lastSent: Option<string>): (r: Option<string>)
    ensures r == if Open(todo.tasks) > 0 || lastSent.Some? then Some(Target(todo, lines)) else None
  {
    match StateMessage(todo, lines)
    case Some(open) => Some(open)
    case None => if lastSent.None? then None else Some(CLOSED)
  }

  /** Two lists that read alike are up to date alike. */
  lemma SameTarget(todo: Todo, next: Todo, lines: Lines, seen: Option<string>)
    ensures Target(todo, lines) == Target(next, lines) ==> (UpToDate(todo, lines, seen) <==> UpToDate(next, lines, seen))
  {
    ClosedIsNoSnapshot(todo, lines);
    ClosedIsNoSnapshot(next, lines);
    hide Open;
  }

  /** What a request lacks. */
  function Lacking(todo: Todo, lines: Lines, seen: Option<string>): (r: Option<string>)
    ensures r.None? <==> UpToDate(todo, lines, seen)
    ensures r.Some? ==> r.value == Target(todo, lines)
  {
    ClosedIsNoSnapshot(todo, lines);
    var text := match StateMessage(todo, lines)
      case Some(open) => Some(open)
      case None => if seen.None? || seen == Some(CLOSED) then None else Some(CLOSED);
    if text.Some? && seen != text then text else None
  }

  /** A request with what it lacked reads as the list is. */
  lemma RequestIsCurrent(todo: Todo, lines: Lines, messages: seq<Message>, request: seq<Message>)
    requires var lacking := Lacking(todo, lines, Seen(messages));
             request == messages + (if lacking.Some? then [Snapshot(lacking)] else [])
             || request == messages + (if lacking.Some? then [Snapshot(lacking)] else []) + [Reminder]
    ensures Open(todo.tasks) > 0 ==> Seen(request) == Some(Target(todo, lines))
    ensures Open(todo.tasks) == 0 ==> Seen(request) == if Seen(messages).None? then None else Some(CLOSED)
  {
    hide Open;
    ClosedIsNoSnapshot(todo, lines);
    var state := if UpToDate(todo, lines, Seen(messages)) then [] else [Snapshot(Some(Target(todo, lines)))];
    SeenAppended(messages, state);
    SeenAppended(messages + state, [Reminder]);
  }

  predicate NoRepeats(states: seq<string>) {
    forall i :: 0 < i < |states| ==> states[i - 1] != states[i]
  }

  /** What the todo tool did: an error, a reading, or a new list. */
  datatype ToolResult = Refused | Read | Written(next: Todo)

  class Session {
    const lines: Lines
    /** Whether the host offers a way to add a message. */
    const canSend: bool

    var state: Todo
    var toolTurnsSinceWrite: nat
    var reminded: bool
    var wroteThisTurn: bool
    var clearOnNextTurn: bool
    var lastSent: Option<string>
    var pending: Option<string>

    /** The host's side: the transcript, and what it appends at the end of the turn. */
    var transcript: seq<Message>
    var queue: seq<string>

    /** How often the context hook queued since the turn ended or the list was written. */
    ghost var hookQueued: nat

    ghost predicate Valid()
      reads this
    {
      && (pending.Some? ==> lastSent == pending)
      && (queue != [] <==> pending.Some?)
      && (queue != [] ==> pending == Some(queue[|queue| - 1]))
      && NoRepeats(queue)
      && (!canSend ==> lastSent.None?)
    }

    /** What was sent last is the list as it is, and only a finished list is about to be cleared. */
    ghost predicate Current()
      reads this
    {
      && (clearOnNextTurn ==> Open(state.tasks) == 0)
      && (lastSent.Some? ==> lastSent.value == Target(state, lines))
      && hookQueued <= 1
      && (hookQueued == 1 ==> pending.Some?)
    }

    /** Nothing is queued and nothing needs to be. */
    ghost predicate AtRest()
      reads this
    {
      queue == [] && UpToDate(state, lines, Seen(transcript))
    }

    constructor (lines: Lines, canSend: bool)
      ensures Valid() && Current() && this.lines == lines && this.canSend == canSend
      ensures state == Todo([], 1) && transcript == [] && !clearOnNextTurn
    {
      this.lines, this.canSend := lines, canSend;
      state, toolTurnsSinceWrite, reminded, wroteThisTurn, clearOnNextTurn := Todo([], 1), 0, false, false, false;
      lastSent, pending, transcript, queue, hookQueued := None, None, [], [], 0;
    }

    method PersistState(text: string)
      requires Valid() && pending != Some(text)
      modifies `queue, `lastSent, `pending
      ensures Valid()
      ensures canSend ==> queue == old(queue) + [text] && pending == lastSent == Some(text)
      ensures !canSend ==> queue == old(queue) && lastSent == old(lastSent) && pending == old(pending)
    {
      if !canSend { return; }
      queue := queue + [text];
      lastSent, pending := Some(text), Some(text);
    }

    /**
     * The todo tool. A written list is queued unless it is what was sent last;
     * a list that was never shown is not announced as closed.
     */
    method Execute(result: ToolResult)
      requires Valid()
      modifies `state, `clearOnNextTurn, `toolTurnsSinceWrite, `reminded, `wroteThisTurn, `queue, `lastSent, `pending, `hookQueued
      ensures Valid() && (old(Current()) ==> Current())
      ensures !result.Written? ==>
                && state == old(state) && queue == old(queue) && lastSent == old(lastSent) && pending == old(pending)
                && hookQueued == old(hookQueued) && toolTurnsSinceWrite == old(toolTurnsSinceWrite) && reminded == old(reminded)
      ensures wroteThisTurn == (old(wroteThisTurn) || result.Written?)
      ensures clearOnNextTurn == (old(clearOnNextTurn) && result.Refused?)
      ensures result.Written? ==>
                && state == result.next && !reminded && toolTurnsSinceWrite == 0 && hookQueued == 0
                && queue == if canSend && (Open(state.tasks) > 0 || old(lastSent).Some?) && old(lastSent) != Some(Target(state, lines))
                            then old(queue) + [Target(state, lines)] else old(queue)
      ensures old(AtRest()) && (result.Written? ==> old(lastSent) == Some(Target(old(state), lines)) == Some(Target(state, lines))) ==>
                AtRest()
    {
      hide Open, StateMessage, Target, UpToDate, Seen, Announced, NoRepeats;
      if result.Refused? { return; }
      clearOnNextTurn := false;
      if result.Read? { return; }
      SameTarget(state, result.next, lines, Seen(transcript));
      state := result.next;
      toolTurnsSinceWrite, reminded, wroteThisTurn := 0, false, true;
      hookQueued := 0;
      var text := Announced(state, lines, lastSent);
      if text.Some? && text != lastSent { PersistState(text.value); }
    }

    /** A session is resumed with the list replayed from it; a finished list is history. */
    method SessionStart(replayed: Todo, branch: seq<Message>)
      requires Valid()
      modifies this
      ensures Valid() && queue == [] && lastSent.None? && transcript == branch
      ensures state == if Open(replayed.tasks) == 0 then replayed.(tasks := []) else replayed
      ensures clearOnNextTurn == old(clearOnNextTurn) && pending.None?
      ensures toolTurnsSinceWrite == 0 && !reminded && !wroteThisTurn
      ensures Current() <==> !old(clearOnNextTurn) || Open(replayed.tasks) == 0
    {
      state := if |replayed.tasks| > 0 && Open(replayed.tasks) == 0 then replayed.(tasks := []) else replayed;
      toolTurnsSinceWrite, reminded, wroteThisTurn := 0, false, false;
      lastSent, pending := None, None;
      transcript, queue, hookQueued := branch, [], 0;
    }

    method BeforeAgentStart()
      requires Valid()
      modifies `state, `clearOnNextTurn
      ensures Valid() && (old(Current()) ==> Current() && Target(state, lines) == Target(old(state), lines))
      ensures state == if old(clearOnNextTurn) then old(state).(tasks := []) else old(state)
      ensures !clearOnNextTurn
      ensures old(Current()) && old(AtRest()) ==> AtRest()
    {
      if clearOnNextTurn {
        state, clearOnNextTurn := state.(tasks := []), false;
      }
    }

    method AgentEnd()
      requires Valid()
      modifies `clearOnNextTurn
      ensures Valid() && (old(Current()) ==> Current())
      ensures clearOnNextTurn == (old(clearOnNextTurn) || (state.tasks != [] && Open(state.tasks) == 0))
    {
      if |state.tasks| > 0 && Open(state.tasks) == 0 { clearOnNextTurn := true; }
    }

    /** The turn ends and the host appends what was queued; `usedTools`: the answer called a tool. */
    method TurnEnd(usedTools: bool)
      requires Valid()
      modifies `toolTurnsSinceWrite, `wroteThisTurn, `pending, `transcript, `queue, `hookQueued
      ensures Valid() && (old(Current()) ==> Current())
      ensures transcript == old(transcript) + Snapshots(old(queue)) && queue == [] && pending.None? && !wroteThisTurn
      ensures toolTurnsSinceWrite == old(toolTurnsSinceWrite) + if !old(wroteThisTurn) && usedTools then 1 else 0
      ensures old(Current()) && (old(AtRest()) || old(queue) != []) ==> AtRest()
    {
      hide Open, Seen, StateMessage, IsOpen, Target;
      if !wroteThisTurn && usedTools { toolTurnsSinceWrite := toolTurnsSinceWrite + 1; }
      wroteThisTurn, pending := false, None;
      ClosedIsNoSnapshot(state, lines);
      SeenAppended(transcript, Snapshots(queue));
      transcript, queue, hookQueued := transcript + Snapshots(queue), [], 0;
    }

    /** Anything else joins the conversation. */
    method Grow(more: seq<Message>)
      requires Valid() && forall m :: m in more ==> !m.Snapshot?
      modifies `transcript
      ensures Valid() && (old(Current()) ==> Current())
      ensures transcript == old(transcript) + more && (old(AtRest()) ==> AtRest())
    {
      SeenAppended(transcript, more);
      transcript := transcript + more;
    }

    /** Compaction or navigation puts another conversation in its place. */
    method Rewrite(messages: seq<Message>)
      requires Valid()
      modifies `transcript
      ensures Valid() && (old(Current()) ==> Current()) && transcript == messages
    {
      transcript := messages;
    }

    /**
     * The messages of one request. Whatever the host passes, the last state
     * message the model reads is the list as it is.
     */
    method Context(messages: seq<Message>) returns (request: seq<Message>)
      requires Valid()
      modifies `queue, `lastSent, `pending, `reminded, `hookQueued
      ensures Valid() && (old(Current()) ==> Current())
      ensures messages <= request
      ensures Open(state.tasks) > 0 ==> Seen(request) == Some(Target(state, lines))
      ensures Open(state.tasks) == 0 ==> Seen(request) == if Seen(messages).None? then None else Some(CLOSED)
      ensures UpToDate(state, lines, Seen(messages)) ==>
                queue == old(queue) && lastSent == old(lastSent) && (request == messages || request == messages + [Reminder])
      ensures !UpToDate(state, lines, Seen(messages)) && canSend ==> queue != [] && pending == Some(Target(state, lines))
      ensures queue == old(queue) || (queue == old(queue) + [Target(state, lines)] && hookQueued == old(hookQueued) + 1)
      ensures Reminder in request[|messages|..] <==>
              && !old(reminded) && toolTurnsSinceWrite >= REMIND_AFTER_TOOL_TURNS
              && exists t :: t in state.tasks && (t.status == Pending || t.status == InProgress)
      ensures reminded == (old(reminded) || Reminder in request[|messages|..])
    {
      hide Open, NoRepeats, UpToDate, Lacking, Target, Seen;
      var trailing: seq<Message> := [];
      var lacking := Lacking(state, lines, Seen(messages));
      if lacking.Some? {
        trailing := [Snapshot(lacking)];
        if pending != lacking {
          PersistState(lacking.value);
          if canSend { hookQueued := hookQueued + 1; }
        }
      }
      assert Reminder !in trailing;
      if !reminded && toolTurnsSinceWrite >= REMIND_AFTER_TOOL_TURNS && Actionable(state) {
        reminded := true;
        assert messages + (trailing + [Reminder]) == messages + trailing + [Reminder];
        trailing := trailing + [Reminder];
      }
      request := messages + trailing;
      assert request[|messages|..] == trailing;
      RequestIsCurrent(state, lines, messages, request);
    }

    /**
     * Whatever a transcript lost, one turn repairs it: the following request
     * carries the transcript alone (save for a reminder), and nothing is queued.
     */
    method OneTurnRepairs(usedTools: bool, more: seq<Message>) returns (first: seq<Message>, second: seq<Message>)
      requires Valid() && Current() && canSend
      requires forall m :: m in more ==> !m.Snapshot?
      modifies this
      ensures Valid() && Current() && AtRest() && state == old(state)
      ensures old(transcript) <= transcript && old(transcript) <= first
      ensures second == transcript || second == transcript + [Reminder]
      ensures old(AtRest()) ==> transcript == old(transcript) + more
    {
      first := Context(transcript);
      TurnEnd(usedTools);
      Grow(more);
      second := Context(transcript);
      assert old(AtRest()) ==> transcript == old(transcript) + more;
    }
  }

  /** A finished list, then a second start with an open one on the same record: the next prompt clears open work. */
  method SecondStartClearsOpenList(lines: Lines) returns (listed: Todo, left: Todo)
    ensures Open(listed.tasks) == 1 && left.tasks == []
  {
    hide Target, StateMessage, UpToDate, Seen;
    var done, open := Task(1, "write", Done, ""), Task(2, "publish", InProgress, "");
    assert Open([done]) == 0 + Open([done][1..]) && Open([open]) == 1 + Open([open][1..]);
    var session := new Session(lines, true);
    session.Execute(Written(Todo([done], 2)));
    session.AgentEnd();
    session.SessionStart(Todo([open], 3), []);
    listed := session.state;
    session.BeforeAgentStart();
    left := session.state;
  }
}
