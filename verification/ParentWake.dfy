/**
 * How an idle parent session is woken. What child agents report to an idle
 * parent is stored and leaves a wake owing. Wakes are sent one at a time: after
 * one, the next has to wait for a run, for the end of its grace, or for another
 * session.
 */
module ParentWake {
  import opened Wrappers

  const RETRY_LIMIT := 3

  /** What the host reports about the parent when it is asked. */
  datatype Host = Absent | IsIdle | IsBusy

  datatype Route = ToIdle | ToRun | Hold

  // ---- History ----

  datatype Fact =
    | Stored          // content was stored in an idle parent
    | Steered         // content joined the run of a busy one
    | WakeSent        // the host accepted a wake
    | WakeRefused     // the host refused a wake
    | WakeParked      // a wake found the parent busy or gone
    | RetryArmed      // a bounded retry was scheduled
    | RunStarted
    | RunSettled
    | GraceExpired    // a prompt did not start a run in time
    | SessionReset

  /** Events after which a prompt that was starting no longer is. */
  predicate EndsPrompt(f: Fact) {
    f == RunStarted || f == RunSettled || f == GraceExpired || f == SessionReset
  }

  /** Events that take care of everything stored before them. */
  predicate Covers(f: Fact) { f == WakeSent || f == RunStarted || f == SessionReset }

  predicate IsAttempt(f: Fact) { f == WakeSent || f == WakeRefused || f == WakeParked }

  /** A sent wake whose prompt may still be starting. */
  function Outstanding(log: seq<Fact>): bool {
    if log == [] then false
    else
      var last := log[|log| - 1];
      last == WakeSent || (!EndsPrompt(last) && Outstanding(log[..|log| - 1]))
  }

  /** Content was stored that no wake, run or session change has covered. */
  function Uncovered(log: seq<Fact>): bool {
    if log == [] then false
    else
      var last := log[|log| - 1];
      last == Stored || (!Covers(last) && Uncovered(log[..|log| - 1]))
  }

  /** Retries scheduled in a row. */
  function Retries(log: seq<Fact>): nat {
    if log == [] then 0
    else
      var last := log[|log| - 1];
      if Covers(last) then 0
      else Retries(log[..|log| - 1]) + if last == RetryArmed then 1 else 0
  }

  /** The outcome of the latest attempt to wake the parent. */
  function LastAttempt(log: seq<Fact>): Option<Fact> {
    if log == [] then None
    else if IsAttempt(log[|log| - 1]) then Some(log[|log| - 1])
    else LastAttempt(log[..|log| - 1])
  }

  /** No wake was sent while an earlier one was outstanding. */
  predicate Spaced(log: seq<Fact>) {
    log == [] || (Spaced(log[..|log| - 1])
                  && (log[|log| - 1] == WakeSent ==> !Outstanding(log[..|log| - 1])))
  }

  lemma Appended(log: seq<Fact>, f: Fact)
    ensures Outstanding(log + [f]) == (f == WakeSent || (!EndsPrompt(f) && Outstanding(log)))
    ensures Uncovered(log + [f]) == (f == Stored || (!Covers(f) && Uncovered(log)))
    ensures Retries(log + [f]) == if Covers(f) then 0 else Retries(log) + if f == RetryArmed then 1 else 0
    ensures LastAttempt(log + [f]) == if IsAttempt(f) then Some(f) else LastAttempt(log)
    ensures Spaced(log + [f]) == (Spaced(log) && (f == WakeSent ==> !Outstanding(log)))
  {
    assert (log + [f])[..|log|] == log;
  }

  /** Between a wake that is no longer outstanding and the end of the log, something ended its prompt. */
  lemma {:induction false} NotOutstanding(log: seq<Fact>, i: nat)
    requires i < |log| && log[i] == WakeSent && !Outstanding(log)
    ensures exists k :: i < k < |log| && EndsPrompt(log[k])
    decreases |log|
  {
    var last := |log| - 1;
    if !EndsPrompt(log[last]) {
      NotOutstanding(log[..last], i);
      var k :| i < k < last && EndsPrompt(log[..last][k]);
      assert EndsPrompt(log[k]);
    }
  }

  lemma NoAttempt(log: seq<Fact>)
    ensures LastAttempt(log + [Stored]) == LastAttempt(log + [Steered]) == LastAttempt(log)
  {
    Appended(log, Stored);
    Appended(log, Steered);
  }

  /** Any two wakes are separated by a run starting or settling, an expired grace or a session change. */
  lemma {:induction false} WakesAreSeparated(log: seq<Fact>, i: nat, j: nat)
    requires Spaced(log) && i < j < |log| && log[i] == WakeSent && log[j] == WakeSent
    ensures exists k :: i < k < j && EndsPrompt(log[k])
    decreases |log|
  {
    var before := log[..|log| - 1];
    if j == |log| - 1 {
      NotOutstanding(before, i);
      var k :| i < k < |before| && EndsPrompt(before[k]);
      assert EndsPrompt(log[k]);
    } else {
      WakesAreSeparated(before, i, j);
      var k :| i < k < j && EndsPrompt(before[k]);
      assert EndsPrompt(log[k]);
    }
  }

  /** Unless content is left uncovered, whatever was stored was followed by a wake, a run or a session change. */
  lemma {:induction false} StoredIsCovered(log: seq<Fact>, i: nat)
    requires !Uncovered(log) && i < |log| && log[i] == Stored
    ensures exists k :: i < k < |log| && Covers(log[k])
    decreases |log|
  {
    var last := |log| - 1;
    if !Covers(log[last]) {
      StoredIsCovered(log[..last], i);
      var k :| i < k < last && Covers(log[..last][k]);
      assert Covers(log[k]);
    }
  }

  lemma OneMoreArmed(log: seq<Fact>, from: nat)
    requires from < |log|
    ensures var last := |log| - 1;
            |set k | from <= k < |log| && log[k] == RetryArmed|
            == |set k | from <= k < |log[..last]| && log[..last][k] == RetryArmed| + if log[last] == RetryArmed then 1 else 0
  {
    var last := |log| - 1;
    var armed := set k | from <= k < |log| && log[k] == RetryArmed;
    var earlier := set k | from <= k < |log[..last]| && log[..last][k] == RetryArmed;
    assert armed == earlier + if log[last] == RetryArmed then {last} else {};
  }

  /** The counter bounds how often a retry was scheduled since something covered what was stored. */
  lemma {:induction false} RetriesInARow(log: seq<Fact>, from: nat)
    requires from <= |log| && forall k :: from <= k < |log| ==> !Covers(log[k])
    ensures Retries(log) >= |set k | from <= k < |log| && log[k] == RetryArmed|
    decreases |log|
  {
    var armed := set k | from <= k < |log| && log[k] == RetryArmed;
    if from == |log| {
      assert armed == {};
    } else {
      RetriesInARow(log[..|log| - 1], from);
      OneMoreArmed(log, from);
    }
  }

  // ---- The protocol ----

  /** A message a flush tries to hand over, and whether a refusal is retried. */
  datatype Message = Message(accepted: bool, retried: bool)

  function AcceptedOf(answers: seq<bool>): nat { multiset(answers)[true] }

  function Answers(messages: seq<Message>): (r: seq<bool>)
    ensures |r| == |messages| && forall k :: 0 <= k < |r| ==> r[k] == messages[k].accepted
  {
    seq(|messages|, k requires 0 <= k < |messages| => messages[k].accepted)
  }

  /** What has happened, with `n` more of the fact `f`. */
  function WithMore(log: seq<Fact>, f: Fact, n: nat): multiset<Fact> { multiset(log)[f := multiset(log)[f] + n] }

  /** The fields of the closure that delivery uses. */
  datatype Fields = Fields(
    parentRunActive: bool,
    wakeOwed: bool,
    wakeQueued: bool,
    promptStarting: bool,
    boundaryArmed: bool,
    retryArmed: bool,
    deliveryRetries: nat,
    activeAgentRuns: nat)

  /** A refusal is retried on a timer, if one is left and none is running. */
  predicate RetriesAgain(before: Fields, host: Host, messages: seq<Message>) {
    && host == IsIdle && (exists m :: m in messages && !m.accepted && m.retried)
    && !before.retryArmed && before.deliveryRetries < RETRY_LIMIT
  }

  /** What one flush of everything makes of the fields. */
  predicate FlushTakes(before: Fields, after: Fields, host: Host, messages: seq<Message>) {
    var wakeOwed := before.wakeOwed || (host == IsIdle && exists m :: m in messages && m.accepted);
    var again := RetriesAgain(before, host, messages);
    after == before.(
      parentRunActive := before.parentRunActive && host != IsIdle,
      wakeOwed := wakeOwed,
      wakeQueued := before.wakeQueued || (wakeOwed && !before.promptStarting),
      retryArmed := before.retryArmed || again,
      deliveryRetries := before.deliveryRetries + if again then 1 else 0)
  }

  /** What it adds to the history: each accepted message once, in the form the parent can take. */
  predicate FlushAdds(before: seq<Fact>, after: seq<Fact>, fields: Fields, host: Host, messages: seq<Message>) {
    && before <= after
    && multiset(after) == match host
                          case Absent => multiset(before)
                          case IsIdle =>
                            WithMore(before, Stored, AcceptedOf(Answers(messages)))
                            + if RetriesAgain(fields, host, messages) then multiset{RetryArmed} else multiset{}
                          case IsBusy =>
                            if fields.parentRunActive then WithMore(before, Steered, AcceptedOf(Answers(messages)))
                            else multiset(before)
  }

  lemma OneAnswerMore(answers: seq<bool>, i: nat)
    requires i < |answers|
    ensures AcceptedOf(answers[..i + 1]) == AcceptedOf(answers[..i]) + if answers[i] then 1 else 0
    ensures answers[..|answers|] == answers
  {
    assert answers[..i + 1] == answers[..i] + [answers[i]];
  }

  /** Handing over one message, as it changes the fields and the history. */
  function HandedOver(f: Fields, route: Route, m: Message): Fields {
    if m.accepted then
      if route == ToIdle then f.(wakeOwed := true, wakeQueued := f.wakeQueued || !f.promptStarting) else f
    else if route == ToIdle && m.retried && !f.retryArmed && f.deliveryRetries < RETRY_LIMIT then
      f.(retryArmed := true, deliveryRetries := f.deliveryRetries + 1)
    else f
  }

  function Handed(f: Fields, route: Route, m: Message): seq<Fact> {
    if m.accepted then [if route == ToIdle then Stored else Steered]
    else if route == ToIdle && m.retried && !f.retryArmed && f.deliveryRetries < RETRY_LIMIT then [RetryArmed]
    else []
  }

  /** A flush that has handed over `done`. */
  predicate FlushProgress(before: Fields, now: Fields, host: Host, done: seq<Message>) {
    var stored := host == IsIdle && exists m :: m in done && m.accepted;
    var again := RetriesAgain(before, host, done);
    now == before.(
      parentRunActive := before.parentRunActive && host != IsIdle,
      wakeOwed := before.wakeOwed || stored,
      wakeQueued := before.wakeQueued || (stored && !before.promptStarting),
      retryArmed := before.retryArmed || again,
      deliveryRetries := before.deliveryRetries + if again then 1 else 0)
  }

  lemma FlushStep(before: Fields, now: Fields, log: seq<Fact>, log': seq<Fact>, host: Host, done: seq<Message>, m: Message)
    requires host == IsIdle || (host == IsBusy && before.parentRunActive)
    requires FlushProgress(before, now, host, done) && FlushAdds(log, log', before, host, done)
    ensures var route := if host == IsIdle then ToIdle else ToRun;
            && FlushProgress(before, HandedOver(now, route, m), host, done + [m])
            && FlushAdds(log, log' + Handed(now, route, m), before, host, done + [m])
  {
    hide FlushProgress, FlushAdds, HandedOver, Handed;
    FieldsStep(before, now, host, done, m);
    HistoryStep(before, now, log, log', host, done, m);
  }

  lemma FieldsStep(before: Fields, now: Fields, host: Host, done: seq<Message>, m: Message)
    requires host == IsIdle || (host == IsBusy && before.parentRunActive)
    requires FlushProgress(before, now, host, done)
    ensures FlushProgress(before, HandedOver(now, if host == IsIdle then ToIdle else ToRun, m), host, done + [m])
  {
    assert forall x :: x in done + [m] <==> x in done || x == m;
  }

  lemma AnswersMore(done: seq<Message>, m: Message)
    ensures AcceptedOf(Answers(done + [m])) == AcceptedOf(Answers(done)) + if m.accepted then 1 else 0
  {
    var all := Answers(done + [m]);
    OneAnswerMore(all, |done|);
    assert all[..|done|] == Answers(done) && all[..|done| + 1] == all;
  }

  lemma MoreAtTheEnd(log: seq<Fact>, f: Fact, n: nat)
    ensures WithMore(log, f, n) + multiset{f} == WithMore(log, f, n + 1)
    ensures WithMore(log, f, 0) == multiset(log)
  {
  }

  lemma HistoryStep(before: Fields, now: Fields, log: seq<Fact>, log': seq<Fact>, host: Host, done: seq<Message>, m: Message)
    requires host == IsIdle || (host == IsBusy && before.parentRunActive)
    requires FlushProgress(before, now, host, done) && FlushAdds(log, log', before, host, done)
    ensures FlushAdds(log, log' + Handed(now, if host == IsIdle then ToIdle else ToRun, m), before, host, done + [m])
  {
    hide AcceptedOf, WithMore, Answers, RetriesAgain;
    AnswersMore(done, m);
    MoreAtTheEnd(log, if host == IsIdle then Stored else Steered, AcceptedOf(Answers(done)));
    OneRetryMore(before, host, done, m);
    assert log' + [] == log';
  }

  lemma OneRetryMore(before: Fields, host: Host, done: seq<Message>, m: Message)
    ensures RetriesAgain(before, host, done + [m]) <==>
            || RetriesAgain(before, host, done)
            || (host == IsIdle && !m.accepted && m.retried && !before.retryArmed && before.deliveryRetries < RETRY_LIMIT)
  {
    assert forall x :: x in done + [m] <==> x in done || x == m;
  }

  lemma NothingFlushed(log: seq<Fact>, before: Fields, now: Fields, host: Host)
    requires now == before.(parentRunActive := before.parentRunActive && host != IsIdle)
    ensures FlushProgress(before, now, host, []) && FlushAdds(log, log, before, host, [])
  {
    NoAnswers();
  }

  lemma NothingHandedOver(log: seq<Fact>, before: Fields, now: Fields, host: Host, messages: seq<Message>)
    requires now == before.(parentRunActive := before.parentRunActive && host != IsIdle)
    ensures host != IsIdle && (host == Absent || !before.parentRunActive) ==>
              FlushProgress(before, now, host, messages) && FlushAdds(log, log, before, host, messages)
  {
  }

  /** The wake that is requested at the end of a flush. */
  lemma WhatRequestMakes(before: Fields, now: Fields, host: Host, messages: seq<Message>)
    requires FlushProgress(before, now, host, messages)
    ensures FlushTakes(before, now.(wakeQueued := now.wakeQueued || (now.wakeOwed && !now.promptStarting)), host, messages)
  {
  }

  /** The parent is there and not held. */
  predicate Reaches(host: Host, runActive: bool) { host == IsIdle || (host == IsBusy && runActive) }

  /** The answers a flush of messages gets to hear: up to the first refusal when the caller wants to know. */
  function Tried(accepted: seq<bool>, rethrow: bool): seq<bool> {
    if accepted == [] then []
    else if rethrow && !accepted[0] then [false]
    else [accepted[0]] + Tried(accepted[1..], rethrow)
  }

  /** What handing over messages alone makes of the fields: an idle parent owes its wake, and nothing is retried. */
  predicate MessagesTake(before: Fields, after: Fields, host: Host, tried: seq<bool>) {
    var stored := host == IsIdle && true in tried;
    after == before.(
      parentRunActive := before.parentRunActive && host != IsIdle,
      wakeOwed := before.wakeOwed || stored,
      wakeQueued := before.wakeQueued || (stored && !before.promptStarting))
  }

  predicate MessagesAdd(before: seq<Fact>, after: seq<Fact>, runActive: bool, host: Host, tried: seq<bool>) {
    multiset(after) == if !Reaches(host, runActive) then multiset(before)
                       else WithMore(before, if host == IsIdle then Stored else Steered, AcceptedOf(tried))
  }

  lemma NothingSent(log: seq<Fact>, before: Fields, now: Fields, host: Host, tried: seq<bool>)
    requires now == before.(parentRunActive := before.parentRunActive && host != IsIdle)
    ensures MessagesTake(before, now, host, []) && MessagesAdd(log, log, before.parentRunActive, host, [])
    ensures !Reaches(host, before.parentRunActive) ==>
              MessagesTake(before, now, host, tried) && MessagesAdd(log, log, before.parentRunActive, host, tried)
  {
    NoAnswers();
  }

  lemma MessagesStep(before: Fields, now: Fields, log: seq<Fact>, log': seq<Fact>, host: Host, accepted: seq<bool>, i: nat)
    requires i < |accepted| && Reaches(host, before.parentRunActive)
    requires MessagesTake(before, now, host, accepted[..i]) && MessagesAdd(log, log', before.parentRunActive, host, accepted[..i])
    ensures var route, m := if host == IsIdle then ToIdle else ToRun, Message(accepted[i], false);
            && MessagesTake(before, HandedOver(now, route, m), host, accepted[..i + 1])
            && MessagesAdd(log, log' + Handed(now, route, m), before.parentRunActive, host, accepted[..i + 1])
  {
    hide AcceptedOf, WithMore;
    assert forall b :: b in accepted[..i + 1] <==> b in accepted[..i] || b == accepted[i];
    OneAnswerMore(accepted, i);
    MoreAtTheEnd(log, if host == IsIdle then Stored else Steered, AcceptedOf(accepted[..i]));
    assert log' + [] == log';
  }

  lemma {:induction false} TriedAll(accepted: seq<bool>, rethrow: bool)
    ensures !rethrow || false !in accepted ==> Tried(accepted, rethrow) == accepted
  {
    if accepted != [] {
      assert accepted == [accepted[0]] + accepted[1..];
      TriedAll(accepted[1..], rethrow);
    }
  }

  lemma {:induction false} TriedUpTo(accepted: seq<bool>, i: nat)
    requires i < |accepted| && !accepted[i] && false !in accepted[..i]
    ensures Tried(accepted, true) == accepted[..i] + [false]
  {
    if i > 0 {
      assert accepted[0] == accepted[..i][0];
      assert accepted[1..][..i - 1] == accepted[..i][1..];
      TriedUpTo(accepted[1..], i - 1);
      assert accepted[..i] == [accepted[0]] + accepted[1..][..i - 1];
    }
  }

  lemma NoAnswers()
    ensures AcceptedOf([]) == 0 && Answers([]) == []
  {
  }

  class ParentDelivery {
    var parentRunActive: bool
    var wakeOwed: bool
    var wakeQueued: bool
    var promptStarting: bool
    var graceArmed: bool
    var boundaryArmed: bool
    var retryArmed: bool
    var deliveryRetries: nat
    var activeAgentRuns: nat
    ghost var log: seq<Fact>

    ghost function State(): Fields
      reads this
    {
      Fields(parentRunActive, wakeOwed, wakeQueued, promptStarting, boundaryArmed, retryArmed, deliveryRetries, activeAgentRuns)
    }

    /** Why a wake that is owed is not being sent right now. */
    ghost predicate OwedForAReason()
      reads this
    {
      || wakeQueued
      || (promptStarting && graceArmed)
      || retryArmed
      || deliveryRetries == RETRY_LIMIT
      || LastAttempt(log) == Some(WakeParked)
    }

    /** The fields agree with the history. */
    ghost predicate Consistent()
      reads this
    {
      && (promptStarting <==> graceArmed)
      && deliveryRetries == Retries(log) <= RETRY_LIMIT
      && Spaced(log)
      && (Outstanding(log) ==> promptStarting)
      && (Uncovered(log) ==> wakeOwed)
    }

    /** What every event keeps. */
    ghost predicate Valid()
      reads this
    {
      Consistent() && (wakeOwed ==> OwedForAReason())
    }

    constructor ()
      ensures Valid() && log == [] && !wakeOwed && !wakeQueued && !promptStarting && !retryArmed
    {
      parentRunActive, wakeOwed, wakeQueued, promptStarting := false, false, false, false;
      graceArmed, boundaryArmed, retryArmed := false, false, false;
      deliveryRetries, activeAgentRuns, log := 0, 0, [];
    }

    /** The three laws, over everything that has happened to this object. */
    lemma Laws(i: nat, j: nat)
      requires Valid() && i < |log|
      ensures i < j < |log| && log[i] == WakeSent && log[j] == WakeSent ==>
                exists k :: i < k < j && EndsPrompt(log[k])
      ensures log[i] == Stored ==> wakeOwed || exists k :: i < k < |log| && Covers(log[k])
      ensures wakeOwed ==> OwedForAReason()
      ensures (forall k :: i <= k < |log| ==> !Covers(log[k])) ==>
                |set k | i <= k < |log| && log[k] == RetryArmed| <= RETRY_LIMIT
    {
      if i < j < |log| && log[i] == WakeSent && log[j] == WakeSent { WakesAreSeparated(log, i, j); }
      if log[i] == Stored && !wakeOwed { StoredIsCovered(log, i); }
      if forall k :: i <= k < |log| ==> !Covers(log[k]) { RetriesInARow(log, i); }
    }

    /** Where content may go; an idle host has no run, whatever events were missed. */
    method ParentRoute(host: Host) returns (route: Option<Route>)
      modifies this`parentRunActive
      ensures route.None? <==> host == Absent
      ensures route == Some(ToIdle) <==> host == IsIdle
      ensures route == Some(ToRun) <==> host == IsBusy && old(parentRunActive)
      ensures route == Some(Hold) <==> host == IsBusy && !old(parentRunActive)
      ensures parentRunActive == (old(parentRunActive) && host != IsIdle)
    {
      match host
      case Absent => return None;
      case IsIdle =>
        parentRunActive := false;
        return Some(ToIdle);
      case IsBusy => return Some(if parentRunActive then ToRun else Hold);
    }

    method ArmDeliveryRetry()
      requires Consistent()
      modifies this`retryArmed, this`deliveryRetries, this`log
      ensures Consistent()
      ensures if old(retryArmed) || old(deliveryRetries) == RETRY_LIMIT
              then retryArmed == old(retryArmed) && deliveryRetries == old(deliveryRetries) && log == old(log)
              else retryArmed && deliveryRetries == old(deliveryRetries) + 1 && log == old(log) + [RetryArmed]
    {
      hide Outstanding, Uncovered, Retries, LastAttempt, Spaced;
      if retryArmed || deliveryRetries >= RETRY_LIMIT { return; }
      deliveryRetries := deliveryRetries + 1;
      retryArmed := true;
      Note(RetryArmed);
    }

    /** Adds one fact to the history. */
    ghost method Note(f: Fact)
      modifies this`log
      ensures log == old(log) + [f]
      ensures Outstanding(log) == (f == WakeSent || (!EndsPrompt(f) && Outstanding(old(log))))
      ensures Uncovered(log) == (f == Stored || (!Covers(f) && Uncovered(old(log))))
      ensures Retries(log) == if Covers(f) then 0 else Retries(old(log)) + if f == RetryArmed then 1 else 0
      ensures LastAttempt(log) == if IsAttempt(f) then Some(f) else LastAttempt(old(log))
      ensures Spaced(log) == (Spaced(old(log)) && (f == WakeSent ==> !Outstanding(old(log))))
    {
      Appended(log, f);
      log := log + [f];
    }

    method EndPromptStart()
      modifies this`promptStarting, this`graceArmed
      ensures !promptStarting && !graceArmed
    {
      promptStarting := false;
      graceArmed := false;
    }

    method BeginPromptStart()
      modifies this`promptStarting, this`graceArmed
      ensures promptStarting && graceArmed
    {
      EndPromptStart();
      promptStarting := true;
      graceArmed := true;
    }

    /** Wakes requested in one delivery pass share one queued dispatch. */
    method RequestWake()
      modifies this`wakeQueued
      ensures wakeQueued == (old(wakeQueued) || (wakeOwed && !promptStarting))
    {
      if !wakeOwed || wakeQueued || promptStarting { return; }
      wakeQueued := true;
    }

    /** The queued dispatch runs; `accepted` is the host's answer if it is asked. */
    method DispatchWake(host: Host, accepted: bool)
      requires Valid() && wakeQueued
      modifies this
      ensures Valid() && !wakeQueued
      ensures var attempted := old(wakeOwed) && !old(promptStarting);
              var asked := old(State()).(wakeQueued := false, parentRunActive := old(parentRunActive) && host != IsIdle);
              && (!attempted ==> log == old(log) && State() == old(State()).(wakeQueued := false))
              && (attempted && host != IsIdle ==> log == old(log) + [WakeParked] && State() == asked)
              && (attempted && host == IsIdle && accepted ==>
                    && log == old(log) + [WakeSent]
                    && State() == asked.(wakeOwed := false, promptStarting := true, retryArmed := false, deliveryRetries := 0))
              && (attempted && host == IsIdle && !accepted ==>
                    var again := old(deliveryRetries) < RETRY_LIMIT;
                    && log == old(log) + [WakeRefused] + (if again then [RetryArmed] else [])
                    && State() == asked.(retryArmed := again, deliveryRetries := old(deliveryRetries) + if again then 1 else 0))
    {
      hide Outstanding, Uncovered, Retries, LastAttempt, Spaced;
      wakeQueued := false;
      if !wakeOwed || promptStarting { return; }
      var route := ParentRoute(host);
      if route != Some(ToIdle) {
        Note(WakeParked);
        return;
      }
      SendWake(accepted);
    }

    /** The idle host is asked: a prompt is starting, unless the host refuses. */
    method SendWake(accepted: bool)
      requires Consistent() && wakeOwed && !promptStarting
      modifies this`wakeOwed, this`retryArmed, this`promptStarting, this`graceArmed, this`deliveryRetries, this`log
      ensures Valid()
      ensures accepted ==>
                && log == old(log) + [WakeSent]
                && State() == old(State()).(wakeOwed := false, promptStarting := true, retryArmed := false, deliveryRetries := 0)
      ensures !accepted ==>
                var again := old(deliveryRetries) < RETRY_LIMIT;
                && log == old(log) + [WakeRefused] + (if again then [RetryArmed] else [])
                && State() == old(State()).(retryArmed := again, deliveryRetries := old(deliveryRetries) + if again then 1 else 0)
    {
      hide Outstanding, Uncovered, Retries, LastAttempt, Spaced;
      wakeOwed := false;
      EndDeliveryRetry();
      BeginPromptStart();
      if accepted {
        Note(WakeSent);
        deliveryRetries := 0;
      } else {
        TakeBackWake();
      }
    }

    /** The host refused the wake: no prompt starts, and it is owed again and retried as far as the limit allows. */
    method TakeBackWake()
      requires (promptStarting <==> graceArmed) && deliveryRetries == Retries(log) <= RETRY_LIMIT
      requires Spaced(log) && !Outstanding(log) && !retryArmed
      modifies this`promptStarting, this`graceArmed, this`wakeOwed, this`retryArmed, this`deliveryRetries, this`log
      ensures Valid()
      ensures var again := old(deliveryRetries) < RETRY_LIMIT;
              && log == old(log) + [WakeRefused] + (if again then [RetryArmed] else [])
              && State() == old(State()).(wakeOwed := true, promptStarting := false, retryArmed := again,
                                          deliveryRetries := old(deliveryRetries) + if again then 1 else 0)
    {
      hide Outstanding, Uncovered, Retries, LastAttempt, Spaced;
      Note(WakeRefused);
      EndPromptStart();
      wakeOwed := true;
      ArmDeliveryRetry();
    }

    method EndDeliveryRetry()
      modifies this`retryArmed
      ensures !retryArmed
    {
      retryArmed := false;
    }

    /** Hands one message over; false when the host refuses it. */
    method SendToParent(route: Route, accepted: bool) returns (sent: bool)
      requires Consistent() && route != Hold
      modifies this`wakeOwed, this`wakeQueued, this`log
      ensures Consistent() && sent == accepted
      ensures log == if !accepted then old(log) else old(log) + [if route == ToIdle then Stored else Steered]
      ensures wakeOwed == (old(wakeOwed) || (accepted && route == ToIdle))
      ensures wakeQueued == (old(wakeQueued) || (accepted && route == ToIdle && !promptStarting))
    {
      hide Outstanding, Uncovered, Retries, LastAttempt, Spaced;
      if !accepted { return false; }
      if route == ToRun {
        Note(Steered);
        return true;
      }
      wakeOwed := true;
      Note(Stored);
      RequestWake();
      return true;
    }

    /** Hands over one message, and sees to it that an idle parent gets another chance to take it. */
    method HandOver(route: Route, m: Message)
      requires Consistent() && route != Hold
      modifies this`wakeOwed, this`wakeQueued, this`retryArmed, this`deliveryRetries, this`log
      ensures Consistent()
      ensures State() == HandedOver(old(State()), route, m)
      ensures log == old(log) + Handed(old(State()), route, m)
    {
      var sent := SendToParent(route, m.accepted);
      if !sent && m.retried && route == ToIdle { ArmDeliveryRetry(); }
    }

    /** Hands over everything that waits, as far as the parent can receive it. */
    method FlushAll(host: Host, messages: seq<Message>)
      requires Consistent()
      modifies this`parentRunActive, this`wakeOwed, this`wakeQueued, this`retryArmed, this`deliveryRetries, this`log
      ensures Valid()
      ensures FlushTakes(old(State()), State(), host, messages)
      ensures FlushAdds(old(log), log, old(State()), host, messages)
    {
      hide Outstanding, Uncovered, Retries, LastAttempt, Spaced, FlushAdds, FlushTakes, AcceptedOf, FlushProgress, HandedOver, Handed;
      var route := ParentRoute(host);
      ghost var routed := State();
      NothingFlushed(old(log), old(State()), routed, host);
      if route == Some(ToIdle) || route == Some(ToRun) {
        for i := 0 to |messages|
          invariant Consistent()
          invariant parentRunActive == routed.parentRunActive
          invariant FlushProgress(old(State()), State(), host, messages[..i])
          invariant FlushAdds(old(log), log, old(State()), host, messages[..i])
        {
          assert messages[..i + 1] == messages[..i] + [messages[i]];
          FlushStep(old(State()), State(), old(log), log, host, messages[..i], messages[i]);
          HandOver(route.value, messages[i]);
        }
        assert messages[..|messages|] == messages;
      }
      NothingHandedOver(old(log), old(State()), routed, host, messages);
      WhatRequestMakes(old(State()), State(), host, messages);
      RequestWake();
    }

    /** Hands over one message that is not retried. */
    method SendOne(route: Route, accepted: bool) returns (sent: bool)
      requires Valid() && route != Hold
      modifies this`wakeOwed, this`wakeQueued, this`log
      ensures Valid() && sent == accepted
      ensures State() == HandedOver(old(State()), route, Message(accepted, false))
      ensures log == old(log) + Handed(old(State()), route, Message(accepted, false))
    {
      hide Outstanding, Uncovered, Retries, LastAttempt, Spaced;
      NoAttempt(log);
      sent := SendToParent(route, accepted);
    }

    /**
     * Hands over the messages of running tasks alone. Nothing is retried; when
     * the caller wants to know (`rethrow`), the first refusal and an absent
     * parent end the flush with an error.
     */
    method FlushMessages(host: Host, accepted: seq<bool>, rethrow: bool) returns (threw: bool)
      requires Valid()
      modifies this`parentRunActive, this`wakeOwed, this`wakeQueued, this`log
      ensures Valid() && old(log) <= log
      ensures threw <==> rethrow && (host == Absent || (Reaches(host, old(parentRunActive)) && false in accepted))
      ensures MessagesTake(old(State()), State(), host, Tried(accepted, rethrow))
      ensures MessagesAdd(old(log), log, old(parentRunActive), host, Tried(accepted, rethrow))
    {
      hide Outstanding, Uncovered, Retries, LastAttempt, Spaced, Tried, MessagesTake, MessagesAdd, HandedOver, Handed;
      ghost var before := State();
      var route := ParentRoute(host);
      NothingSent(old(log), before, State(), host, Tried(accepted, rethrow));
      if route.None? { return rethrow; }
      if route == Some(Hold) { return false; }
      for i := 0 to |accepted|
        invariant Valid() && old(log) <= log
        invariant rethrow ==> false !in accepted[..i]
        invariant MessagesTake(before, State(), host, accepted[..i])
        invariant MessagesAdd(old(log), log, old(parentRunActive), host, accepted[..i])
      {
        MessagesStep(before, State(), old(log), log, host, accepted, i);
        var sent := SendOne(route.value, accepted[i]);
        if !sent && rethrow {
          TriedUpTo(accepted, i);
          assert accepted[..i + 1] == accepted[..i] + [false];
          return true;
        }
      }
      assert accepted[..|accepted|] == accepted;
      TriedAll(accepted, rethrow);
      return false;
    }

    /** A running task notifies or asks the parent: an idle one is served at once. */
    method MessageArrives(host: Host, accepted: seq<bool>, rethrow: bool) returns (threw: bool)
      requires Valid()
      modifies this`parentRunActive, this`wakeOwed, this`wakeQueued, this`log
      ensures Valid() && old(log) <= log
      ensures activeAgentRuns > 0 ==> !threw && log == old(log) && State() == old(State())
      ensures activeAgentRuns == 0 ==>
                && (threw <==> rethrow && (host == Absent || (Reaches(host, old(parentRunActive)) && false in accepted)))
                && MessagesTake(old(State()), State(), host, Tried(accepted, rethrow))
                && MessagesAdd(old(log), log, old(parentRunActive), host, Tried(accepted, rethrow))
    {
      if activeAgentRuns > 0 { return false; }
      threw := FlushMessages(host, accepted, rethrow);
    }

    // ---- Timers and host events ----

    /** A prompt that was starting did not start a run in time. */
    method GraceExpires()
      requires Valid() && graceArmed
      modifies this
      ensures Valid() && log == old(log) + [GraceExpired]
      ensures State() == old(State()).(promptStarting := false, wakeQueued := old(wakeQueued) || old(wakeOwed))
    {
      hide Outstanding, Uncovered, Retries, LastAttempt, Spaced;
      graceArmed := false;
      promptStarting := false;
      Note(GraceExpired);
      RequestWake();
    }

    method RetryFires(host: Host, messages: seq<Message>)
      requires Valid() && retryArmed
      modifies this
      ensures Valid()
      ensures FlushTakes(old(State()).(retryArmed := false), State(), host, messages)
      ensures FlushAdds(old(log), log, old(State()).(retryArmed := false), host, messages)
    {
      hide Outstanding, Uncovered, Retries, LastAttempt, Spaced, FlushTakes, FlushAdds;
      retryArmed := false;
      FlushAll(host, messages);
    }

    /** Compaction ended: one flush follows on the next tick. */
    method ScheduleBoundaryFlush()
      requires Valid()
      modifies this`boundaryArmed
      ensures Valid() && boundaryArmed
    {
      if boundaryArmed { return; }
      boundaryArmed := true;
    }

    method BoundaryFires(host: Host, messages: seq<Message>)
      requires Valid() && boundaryArmed
      modifies this
      ensures Valid()
      ensures FlushTakes(old(State()).(boundaryArmed := false), State(), host, messages)
      ensures FlushAdds(old(log), log, old(State()), host, messages)
    {
      hide Outstanding, Uncovered, Retries, LastAttempt, Spaced, FlushTakes;
      boundaryArmed := false;
      FlushAll(host, messages);
    }

    method TurnEnd(host: Host, messages: seq<Message>)
      requires Valid()
      modifies this
      ensures Valid()
      ensures FlushTakes(old(State()), State(), host, messages)
      ensures FlushAdds(old(log), log, old(State()), host, messages)
    {
      hide Outstanding, Uncovered, Retries, LastAttempt, Spaced, FlushTakes, FlushAdds;
      FlushAll(host, messages);
    }

    /** A prompt begins, and a run may follow. */
    method BeforeAgentStart()
      requires Valid()
      modifies this`promptStarting, this`graceArmed
      ensures Valid() && promptStarting == (old(promptStarting) || !parentRunActive)
    {
      if !parentRunActive { BeginPromptStart(); }
    }

    /** A run takes over: nothing stored before it needs a wake any more. */
    method AgentStart()
      requires Valid()
      modifies this
      ensures Valid() && log == old(log) + [RunStarted]
      ensures State() == old(State()).(parentRunActive := true, wakeOwed := false, promptStarting := false, retryArmed := false,
                                       deliveryRetries := 0, activeAgentRuns := old(activeAgentRuns) + 1)
    {
      hide Outstanding, Uncovered, Retries, LastAttempt, Spaced;
      activeAgentRuns := activeAgentRuns + 1;
      parentRunActive := true;
      wakeOwed := false;
      EndDeliveryRetry();
      deliveryRetries := 0;
      EndPromptStart();
      Note(RunStarted);
    }

    method AgentEnd(host: Host, messages: seq<Message>)
      requires Valid()
      modifies this
      ensures Valid()
      ensures var runs := if old(activeAgentRuns) == 0 then 0 else old(activeAgentRuns) - 1;
              FlushTakes(old(State()).(activeAgentRuns := runs), State(), host, messages)
      ensures FlushAdds(old(log), log, old(State()), host, messages)
    {
      hide Outstanding, Uncovered, Retries, LastAttempt, Spaced, FlushTakes;
      activeAgentRuns := if activeAgentRuns == 0 then 0 else activeAgentRuns - 1;
      FlushAll(host, messages);
    }

    /** The final idle boundary of a run. */
    method AgentSettled(host: Host, messages: seq<Message>)
      requires Valid()
      modifies this
      ensures Valid()
      ensures FlushTakes(old(State()).(parentRunActive := false, promptStarting := false), State(), host, messages)
      ensures FlushAdds(old(log) + [RunSettled], log, old(State()).(parentRunActive := false, promptStarting := false), host, messages)
    {
      hide Outstanding, Uncovered, Retries, LastAttempt, Spaced;
      parentRunActive := false;
      EndPromptStart();
      Note(RunSettled);
      FlushAll(host, messages);
    }

    /** A background task settled: an idle parent is served at once. */
    method Settle(host: Host, messages: seq<Message>)
      requires Valid()
      modifies this
      ensures Valid()
      ensures activeAgentRuns == 0 ==>
                && FlushTakes(old(State()), State(), host, messages)
                && FlushAdds(old(log), log, old(State()), host, messages)
      ensures activeAgentRuns > 0 ==> State() == old(State()) && log == old(log)
    {
      hide Outstanding, Uncovered, Retries, LastAttempt, Spaced, FlushTakes, FlushAdds;
      if activeAgentRuns == 0 { FlushAll(host, messages); }
    }

    /** A session change discards every pending wake; a queued dispatch still runs and finds nothing owed. */
    method ResetParentDelivery()
      requires Valid()
      modifies this
      ensures Valid() && log == old(log) + [SessionReset]
      ensures State() == old(State()).(parentRunActive := false, wakeOwed := false, promptStarting := false, boundaryArmed := false,
                                       retryArmed := false, deliveryRetries := 0)
    {
      hide Outstanding, Uncovered, Retries, LastAttempt, Spaced;
      parentRunActive := false;
      wakeOwed := false;
      EndPromptStart();
      boundaryArmed := false;
      EndDeliveryRetry();
      deliveryRetries := 0;
      Note(SessionReset);
    }
  }
}
