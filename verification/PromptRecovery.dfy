/**
 * What happens to queued messages when Esc aborts a turn. The host puts the
 * queued text and the draft back into the editor as one text; the prompt takes
 * that text apart again, keeps the draft, and holds the queued text until the
 * aborted run has settled.
 */
module PromptRecovery {
  import opened Text
  import opened Wrappers

  const SEPARATOR := "\n\n"

  /** What the host, and the failure path of the prompt, write into the editor. */
  function HostJoin(queued: string, draft: string): string {
    if IsBlank(queued) then (if IsBlank(draft) then "" else draft)
    else if IsBlank(draft) then queued
    else queued + SEPARATOR + draft
  }

  /** The queued text in what came back from the host, or nothing when it has another shape. */
  function Extract(combined: string, draft: string): Option<string> {
    if combined == draft then Some("")
    else if IsBlank(draft) then Some(combined)
    else
      var suffix := SEPARATOR + draft;
      if EndsWith(combined, suffix) then Some(combined[..|combined| - |suffix|]) else None
  }

  /** Taking apart undoes the host's join, for every queue and every draft. */
  lemma ExtractUndoesJoin(queued: string, draft: string)
    ensures Extract(HostJoin(queued, draft), draft) == Some(if IsBlank(queued) then "" else queued)
  {
    if !IsBlank(queued) && !IsBlank(draft) {
      var combined := HostJoin(queued, draft);
      assert combined == queued + (SEPARATOR + draft);
      assert combined[|queued|..] == SEPARATOR + draft && combined[..|queued|] == queued;
    }
  }

  /** Text worth a turn is recovered only from what the host would have written for it. */
  lemma RecoveredOnlyFromJoin(combined: string, draft: string, queued: string)
    requires !IsBlank(queued)
    ensures Extract(combined, draft) == Some(queued) <==> combined == HostJoin(queued, draft)
  {
    ExtractUndoesJoin(queued, draft);
    if Extract(combined, draft) == Some(queued) && !IsBlank(draft) {
      assert combined == combined[..|queued|] + combined[|queued|..];
      assert combined == queued + (SEPARATOR + draft) == queued + SEPARATOR + draft;
    }
  }

  /** A shape that no queue explains is never mistaken for an empty queue. */
  lemma UnknownShapeIsRefused(combined: string, draft: string)
    ensures Extract(combined, draft).None? <==>
            !IsBlank(draft) && combined != draft && forall queued :: combined != queued + (SEPARATOR + draft)
  {
    var suffix := SEPARATOR + draft;
    if EndsWith(combined, suffix) {
      assert combined == combined[..|combined| - |suffix|] + suffix;
    }
    if exists queued :: combined == queued + suffix {
      var queued :| combined == queued + suffix;
      assert combined[|queued|..] == suffix;
    }
  }

  /** Several recovered texts, waiting together. */
  function JoinAll(texts: seq<string>): string {
    if texts == [] then ""
    else if |texts| == 1 then texts[0]
    else JoinAll(texts[..|texts| - 1]) + SEPARATOR + texts[|texts| - 1]
  }

  predicate WorthATurn(texts: seq<string>) {
    forall t :: t in texts ==> !IsBlank(t)
  }

  lemma {:induction false} JoinedIsWorthATurn(texts: seq<string>)
    requires texts != [] && WorthATurn(texts)
    ensures !IsBlank(JoinAll(texts))
  {
    var last := texts[|texts| - 1];
    assert last in texts;
    var c :| c in last && !IsSpace(c);
    assert c in JoinAll(texts);
  }

  lemma JoinOneMore(texts: seq<string>, t: string)
    ensures JoinAll(texts + [t]) == if texts == [] then t else JoinAll(texts) + SEPARATOR + t
  {
    assert (texts + [t])[..|texts|] == texts;
  }

  /** Collected after an earlier collection, one more text at a time. */
  lemma {:induction false} JoinAfter(earlier: seq<string>, later: seq<string>)
    requires earlier != [] && later != []
    ensures JoinAll(earlier + later) == JoinAll(earlier) + (SEPARATOR + JoinAll(later))
  {
    hide JoinAll;
    var rest, last := later[..|later| - 1], later[|later| - 1];
    assert earlier + later == (earlier + rest) + [last] && later == rest + [last];
    JoinOneMore(earlier + rest, last);
    JoinOneMore(rest, last);
    if rest == [] {
      assert earlier + rest == earlier;
      assert JoinAll(earlier) + SEPARATOR + last == JoinAll(earlier) + (SEPARATOR + last);
    } else {
      JoinAfter(earlier, rest);
      Regroup(JoinAll(earlier), JoinAll(rest), last);
    }
  }

  lemma Regroup(e: string, r: string, last: string)
    ensures e + (SEPARATOR + r) + SEPARATOR + last == e + (SEPARATOR + (r + SEPARATOR + last))
  {
  }

  /** Texts collected over several aborts read as the host's join of the separate collections. */
  lemma CollectedLikeTheHost(earlier: seq<string>, later: seq<string>)
    requires WorthATurn(earlier) && WorthATurn(later)
    ensures JoinAll(earlier + later) == HostJoin(JoinAll(earlier), JoinAll(later))
  {
    NothingJoined();
    hide JoinAll, WorthATurn;
    if earlier != [] { JoinedIsWorthATurn(earlier); }
    if later != [] { JoinedIsWorthATurn(later); }
    if later == [] {
      assert earlier + later == earlier;
    } else if earlier == [] {
      assert earlier + later == later;
    } else {
      JoinAfter(earlier, later);
      assert JoinAll(earlier) + (SEPARATOR + JoinAll(later)) == JoinAll(earlier) + SEPARATOR + JoinAll(later);
    }
  }

  lemma NothingJoined()
    ensures JoinAll([]) == "" && IsBlank("")
  {
  }

  /** The host's join is that of the texts that say something. */
  lemma HostJoinsWhatSaysSomething(queued: string, draft: string)
    ensures HostJoin(queued, draft)
         == JoinAll((if IsBlank(queued) then [] else [queued]) + (if IsBlank(draft) then [] else [draft]))
    ensures IsBlank(HostJoin(queued, draft)) <==> HostJoin(queued, draft) == ""
  {
    var kept := (if IsBlank(queued) then [] else [queued]) + (if IsBlank(draft) then [] else [draft]);
    JoinOneMore(if IsBlank(queued) then [] else [queued], draft);
    if !IsBlank(queued) && !IsBlank(draft) { assert kept[..1] == [queued]; }
    if IsBlank(queued) && !IsBlank(draft) { assert kept == [draft]; }
    if kept != [] {
      assert WorthATurn(kept);
      JoinedIsWorthATurn(kept);
    }
  }

  /** Where a collection of recovered texts went; the editor's text before and after it was put back. */
  datatype Outcome = Sent | BackInTheEditor(before: string, after: string) | DroppedAtShutdown
  datatype Batch = Batch(texts: seq<string>, outcome: Outcome)

  function AllTexts(batches: seq<Batch>): seq<string> {
    if batches == [] then [] else AllTexts(batches[..|batches| - 1]) + batches[|batches| - 1].texts
  }

  function SentTexts(batches: seq<Batch>): seq<string> {
    if batches == [] then []
    else
      var last := batches[|batches| - 1];
      SentTexts(batches[..|batches| - 1]) + if last.outcome.Sent? then [JoinAll(last.texts)] else []
  }

  lemma OneMoreBatch(batches: seq<Batch>, b: Batch)
    ensures AllTexts(batches + [b]) == AllTexts(batches) + b.texts
    ensures SentTexts(batches + [b]) == SentTexts(batches) + if b.outcome.Sent? then [JoinAll(b.texts)] else []
  {
    assert (batches + [b])[..|batches|] == batches;
  }

  /** Where a batch begins among the recovered texts. */
  function StartOf(batches: seq<Batch>, k: nat): nat
    requires k <= |batches|
  {
    |AllTexts(batches[..k])|
  }

  lemma {:induction false} StartsGrow(batches: seq<Batch>, k: nat, m: nat)
    requires k <= m <= |batches|
    ensures StartOf(batches, k) <= StartOf(batches, m)
    decreases m
  {
    if k < m {
      StartsGrow(batches, k, m - 1);
      assert batches[..m][..m - 1] == batches[..m - 1];
    }
  }

  lemma {:induction false} BatchLies(batches: seq<Batch>, k: nat)
    requires k < |batches|
    ensures StartOf(batches, k) + |batches[k].texts| == StartOf(batches, k + 1) <= |AllTexts(batches)|
    ensures AllTexts(batches)[StartOf(batches, k)..StartOf(batches, k + 1)] == batches[k].texts
    decreases |batches|
  {
    var last := |batches| - 1;
    assert batches == batches[..last] + [batches[last]] && batches[..|batches|] == batches;
    assert batches[..k + 1][..k] == batches[..k];
    if k < last {
      BatchLies(batches[..last], k);
      assert batches[..last][..k] == batches[..k] && batches[..last][..k + 1] == batches[..k + 1];
      assert batches[..last][k] == batches[k];
    }
  }

  /** A recovered text is in one batch or still waits, and never in two places. */
  ghost predicate IsIn(batches: seq<Batch>, k: nat, i: nat)
    requires k < |batches|
  {
    StartOf(batches, k) <= i < StartOf(batches, k) + |batches[k].texts|
  }

  lemma {:induction false} EachIsSomewhere(batches: seq<Batch>, i: nat)
    requires i < |AllTexts(batches)|
    ensures exists k :: 0 <= k < |batches| && IsIn(batches, k, i)
    decreases |batches|
  {
    var last := |batches| - 1;
    assert batches[..last] + [batches[last]] == batches;
    if i < |AllTexts(batches[..last])| {
      EachIsSomewhere(batches[..last], i);
      var k :| 0 <= k < last && IsIn(batches[..last], k, i);
      assert batches[..last][..k] == batches[..k] && IsIn(batches, k, i);
    } else {
      assert IsIn(batches, last, i);
    }
  }

  /** Every position lies in one batch or among those waiting, and only in one. */
  lemma {:induction false} EachHasOnePlace(batches: seq<Batch>, waiting: seq<string>, i: nat)
    requires i < |AllTexts(batches) + waiting|
    ensures (exists k :: 0 <= k < |batches| && IsIn(batches, k, i)) <==> i < |AllTexts(batches)|
    ensures forall k, m :: 0 <= k < |batches| && 0 <= m < |batches| && IsIn(batches, k, i) && IsIn(batches, m, i) ==> k == m
    ensures forall k :: 0 <= k < |batches| && IsIn(batches, k, i) ==>
                          batches[k].texts[i - StartOf(batches, k)] == (AllTexts(batches) + waiting)[i]
    ensures i >= |AllTexts(batches)| ==> waiting[i - |AllTexts(batches)|] == (AllTexts(batches) + waiting)[i]
  {
    hide AllTexts;
    var all := AllTexts(batches);
    if i < |all| { EachIsSomewhere(batches, i); }
    forall k | 0 <= k < |batches| && IsIn(batches, k, i)
      ensures i < |all| && batches[k].texts[i - StartOf(batches, k)] == (all + waiting)[i]
      ensures forall m :: 0 <= m < |batches| && IsIn(batches, m, i) ==> k == m
    {
      BatchLies(batches, k);
      assert all[StartOf(batches, k)..StartOf(batches, k + 1)][i - StartOf(batches, k)] == all[i];
      forall m | 0 <= m < |batches| && IsIn(batches, m, i)
        ensures k == m
      {
        BatchLies(batches, m);
        if k < m { StartsGrow(batches, k + 1, m); }
        if m < k { StartsGrow(batches, m + 1, k); }
      }
    }
  }

  // ---- The messages ----

  /** How many messages were sent before batch `k`. */
  function SentBefore(batches: seq<Batch>, k: nat): nat
    requires k <= |batches|
  {
    |SentTexts(batches[..k])|
  }

  /** A batch that was sent is one message, and the messages keep the order of the batches. */
  lemma {:induction false} SentIsAMessage(batches: seq<Batch>, k: nat)
    requires k < |batches| && batches[k].outcome.Sent?
    ensures SentBefore(batches, k) < |SentTexts(batches)|
    ensures SentTexts(batches)[SentBefore(batches, k)] == JoinAll(batches[k].texts)
    ensures SentBefore(batches, k + 1) == SentBefore(batches, k) + 1
    decreases |batches|
  {
    hide JoinAll;
    var last := |batches| - 1;
    assert batches == batches[..last] + [batches[last]] && batches[..|batches|] == batches;
    assert batches[..k + 1][..k] == batches[..k];
    if k < last {
      SentIsAMessage(batches[..last], k);
      assert batches[..last][..k] == batches[..k] && batches[..last][..k + 1] == batches[..k + 1];
    }
  }

  /** Every message is a batch. */
  lemma {:induction false} MessageIsABatch(batches: seq<Batch>, m: nat) returns (k: nat)
    requires m < |SentTexts(batches)|
    ensures k < |batches| && batches[k].outcome.Sent? && SentBefore(batches, k) == m
    decreases |batches|
  {
    hide JoinAll;
    var last := |batches| - 1;
    if m < |SentTexts(batches[..last])| {
      k := MessageIsABatch(batches[..last], m);
      assert batches[..last][..k] == batches[..k];
    } else {
      k := last;
    }
  }

  lemma {:induction false} SentBeforeGrows(batches: seq<Batch>, k: nat, m: nat)
    requires k <= m <= |batches|
    ensures SentBefore(batches, k) <= SentBefore(batches, m)
    decreases m
  {
    hide JoinAll;
    if k < m {
      SentBeforeGrows(batches, k, m - 1);
      assert batches[..m][..m - 1] == batches[..m - 1];
    }
  }

  /** A text occurs, whole, in the message it became part of. */
  lemma {:induction false} TextOccurs(texts: seq<string>, i: nat) returns (at: nat)
    requires i < |texts|
    ensures OccursAt(JoinAll(texts), texts[i], at)
  {
    var last := |texts| - 1;
    var front := texts[..last];
    var whole := JoinAll(texts);
    if |texts| == 1 {
      at := 0;
    } else if i < last {
      at := TextOccurs(front, i);
      assert whole == JoinAll(front) + (SEPARATOR + texts[last]);
      OccursInPrefix(JoinAll(front), SEPARATOR + texts[last], texts[i], at);
    } else {
      at := |whole| - |texts[last]|;
      assert whole == JoinAll(front) + SEPARATOR + texts[last];
    }
  }

  /** The prompt, the text held for the next turn, and what the host was sent. */
  class Recovery {
    var editor: string
    var hasPrompt: bool
    var pendingQueuedText: Option<string>
    var sent: seq<string>

    ghost var recovered: seq<string>
    ghost var batches: seq<Batch>
    ghost var waiting: seq<string>

    ghost predicate Valid()
      reads this
    {
      && recovered == AllTexts(batches) + waiting
      && WorthATurn(recovered) && WorthATurn(waiting)
      && sent == SentTexts(batches)
      && pendingQueuedText == (if waiting == [] then None else Some(JoinAll(waiting)))
      && forall b :: b in batches && b.outcome.BackInTheEditor? ==>
                       b.outcome.after == HostJoin(JoinAll(b.texts), b.outcome.before)
    }

    constructor ()
      ensures Valid() && recovered == [] && sent == [] && !hasPrompt
    {
      editor, hasPrompt, pendingQueuedText, sent := "", false, None, [];
      recovered, batches, waiting := [], [], [];
    }

    method InstallPrompt(text: string)
      requires Valid()
      modifies `editor, `hasPrompt
      ensures Valid() && hasPrompt && editor == text
    {
      editor, hasPrompt := text, true;
    }

    /** Typing, or any other change of the draft. */
    method Edit(text: string)
      requires Valid() && hasPrompt
      modifies `editor
      ensures Valid() && editor == text
    {
      editor := text;
    }

    /** An Esc that aborts; `restored` is what the host leaves in the editor. */
    method AbortAndDispatchQueued(restored: string)
      requires Valid() && hasPrompt
      modifies `editor, `pendingQueuedText, `recovered, `waiting
      ensures Valid()
      ensures forall queued :: restored == HostJoin(queued, old(editor)) ==>
                                 (if IsBlank(queued) then recovered == old(recovered) && editor == restored
                                  else recovered == old(recovered) + [queued] && editor == old(editor))
      ensures Extract(restored, old(editor)).None? ==> editor == restored && recovered == old(recovered)
      ensures Extract(restored, old(editor)).Some? ==>
                editor == if Extract(restored, old(editor)).value == "" then restored else old(editor)
      ensures recovered == old(recovered) ||
              (|recovered| == |old(recovered)| + 1
               && restored == HostJoin(recovered[|recovered| - 1], old(editor))
               && waiting == old(waiting) + [recovered[|recovered| - 1]])
    {
      var draft := editor;
      editor := restored;
      forall queued ensures Extract(HostJoin(queued, draft), draft) == Some(if IsBlank(queued) then "" else queued) {
        ExtractUndoesJoin(queued, draft);
      }
      var extracted := Extract(editor, draft);
      if extracted.None? { return; }
      var queued := extracted.value;
      if queued != "" { editor := draft; }
      if IsBlank(queued) { return; }
      RecoveredOnlyFromJoin(restored, draft, queued);
      DispatchQueuedText(queued);
    }

    method DispatchQueuedText(text: string)
      requires Valid() && !IsBlank(text)
      modifies `pendingQueuedText, `recovered, `waiting
      ensures Valid() && recovered == old(recovered) + [text] && waiting == old(waiting) + [text]
    {
      JoinOneMore(waiting, text);
      pendingQueuedText := Some(if pendingQueuedText.None? then text
                                else pendingQueuedText.value + SEPARATOR + text);
      assert AllTexts(batches) + (waiting + [text]) == recovered + [text];
      recovered, waiting := recovered + [text], waiting + [text];
    }

    /** The run settled; `accepted` says whether the host takes a message now. */
    method AgentSettled(isIdle: bool, accepted: bool)
      requires Valid()
      modifies `editor, `pendingQueuedText, `sent, `batches, `waiting
      ensures Valid()
      ensures !isIdle || old(waiting) == [] ==>
                editor == old(editor) && batches == old(batches) && waiting == old(waiting)
      ensures isIdle && old(waiting) != [] && accepted ==>
                batches == old(batches) + [Batch(old(waiting), Sent)] && waiting == [] && editor == old(editor)
      ensures isIdle && old(waiting) != [] && !accepted && hasPrompt ==>
                && batches == old(batches) + [Batch(old(waiting), BackInTheEditor(old(editor), editor))] && waiting == []
                && editor == HostJoin(JoinAll(old(waiting)), old(editor))
                && Extract(editor, old(editor)) == Some(JoinAll(old(waiting)))
      ensures isIdle && !accepted && !hasPrompt ==>
                editor == old(editor) && batches == old(batches) && waiting == old(waiting)
    {
      if !isIdle || pendingQueuedText.None? { return; }
      var queued := pendingQueuedText.value;
      pendingQueuedText := None;
      JoinedIsWorthATurn(waiting);
      if accepted {
        sent := sent + [queued];
        Close(Sent);
      } else if hasPrompt {
        ExtractUndoesJoin(queued, editor);
        ghost var before := editor;
        editor := HostJoin(queued, editor);
        Close(BackInTheEditor(before, editor));
      } else {
        pendingQueuedText := Some(queued);
      }
    }

    ghost method Close(outcome: Outcome)
      requires recovered == AllTexts(batches) + waiting
      modifies `batches, `waiting
      ensures batches == old(batches) + [Batch(old(waiting), outcome)] && waiting == []
      ensures recovered == AllTexts(batches) + waiting
      ensures SentTexts(batches) ==
              SentTexts(old(batches)) + if outcome.Sent? then [JoinAll(old(waiting))] else []
    {
      OneMoreBatch(batches, Batch(waiting, outcome));
      batches, waiting := batches + [Batch(waiting, outcome)], [];
      assert AllTexts(batches) + waiting == AllTexts(batches);
    }

    /** Ending the session drops what still waits, and nothing else ever does. */
    method SessionShutdown()
      requires Valid()
      modifies `hasPrompt, `pendingQueuedText, `batches, `waiting
      ensures Valid() && !hasPrompt && waiting == []
      ensures batches == if old(waiting) == [] then old(batches)
                         else old(batches) + [Batch(old(waiting), DroppedAtShutdown)]
    {
      pendingQueuedText, hasPrompt := None, false;
      if waiting != [] { Close(DroppedAtShutdown); }
    }

    /** Text `i` is part of message `m`. */
    ghost predicate InMessage(i: nat, m: nat)
      reads this
      requires Valid()
    {
      exists k :: 0 <= k < |batches| && IsIn(batches, k, i) && batches[k].outcome.Sent? && SentBefore(batches, k) == m
    }

    /** Text `i` is held for the next turn. */
    ghost predicate IsHeld(i: nat)
      reads this
    {
      |recovered| - |waiting| <= i < |recovered|
    }

    /** Text `i` was put back before the draft, or dropped when the session ended. */
    ghost predicate IsReturned(i: nat)
      reads this
    {
      exists k :: 0 <= k < |batches| && IsIn(batches, k, i) && !batches[k].outcome.Sent?
    }

    /**
     * Where a recovered text is now. It is in exactly one message the host
     * accepted, or in the text held for the next turn, or it was put back into
     * the editor or dropped at the end; never in two of these.
     */
    lemma Conserved(i: nat)
      requires Valid() && i < |recovered|
      ensures (exists m :: InMessage(i, m)) || IsHeld(i) || IsReturned(i)
      ensures !(IsHeld(i) && IsReturned(i))
      ensures forall m :: InMessage(i, m) ==> !IsHeld(i) && !IsReturned(i)
      ensures forall m, n :: InMessage(i, m) && InMessage(i, n) ==> m == n
    {
      hide SentTexts, AllTexts, HostJoin;
      EachHasOnePlace(batches, waiting, i);
      if i < |AllTexts(batches)| {
        var k :| 0 <= k < |batches| && IsIn(batches, k, i);
        if batches[k].outcome.Sent? { assert InMessage(i, SentBefore(batches, k)); }
      }
    }

    /** A message of the host holds the texts said to be in it, whole. */
    lemma MessageHolds(i: nat, m: nat) returns (at: nat)
      requires Valid() && i < |recovered| && InMessage(i, m)
      ensures m < |sent| && OccursAt(sent[m], recovered[i], at)
    {
      hide SentTexts, AllTexts, HostJoin, JoinAll, OccursAt;
      var k :| 0 <= k < |batches| && IsIn(batches, k, i) && batches[k].outcome.Sent? && SentBefore(batches, k) == m;
      EachHasOnePlace(batches, waiting, i);
      SentIsAMessage(batches, k);
      at := TextOccurs(batches[k].texts, i - StartOf(batches, k));
    }

    /** The text held for the next turn holds the texts said to be in it, whole. */
    lemma HeldTextHolds(i: nat) returns (at: nat)
      requires Valid() && IsHeld(i)
      ensures pendingQueuedText.Some? && OccursAt(pendingQueuedText.value, recovered[i], at)
    {
      hide SentTexts, AllTexts, HostJoin, JoinAll, OccursAt;
      EachHasOnePlace(batches, waiting, i);
      at := TextOccurs(waiting, i - |AllTexts(batches)|);
    }

    /** A text put back is, whole, in what the editor was given, and the draft could be taken out of it again. */
    lemma ReturnedTextIsBack(k: nat, i: nat) returns (at: nat)
      requires Valid() && i < |recovered| && k < |batches| && IsIn(batches, k, i) && batches[k].outcome.BackInTheEditor?
      ensures var (before, after) := (batches[k].outcome.before, batches[k].outcome.after);
              OccursAt(after, recovered[i], at) && Extract(after, before) == Some(JoinAll(batches[k].texts))
    {
      hide SentTexts, AllTexts, JoinAll, OccursAt;
      var b := batches[k];
      EachHasOnePlace(batches, waiting, i);
      BatchIsWorthATurn(k);
      JoinedIsWorthATurn(b.texts);
      ExtractUndoesJoin(JoinAll(b.texts), b.outcome.before);
      at := TextOccurs(b.texts, i - StartOf(batches, k));
      var text := JoinAll(b.texts);
      if !IsBlank(b.outcome.before) {
        assert b.outcome.after == text + (SEPARATOR + b.outcome.before);
        OccursInPrefix(text, SEPARATOR + b.outcome.before, recovered[i], at);
        OccursHasRoom(text, recovered[i], at);
      }
    }

    lemma BatchIsWorthATurn(k: nat)
      requires Valid() && k < |batches|
      ensures WorthATurn(batches[k].texts)
    {
      hide SentTexts, AllTexts, HostJoin, JoinAll;
      BatchLies(batches, k);
      forall t | t in batches[k].texts
        ensures !IsBlank(t)
      {
        var n :| 0 <= n < |batches[k].texts| && batches[k].texts[n] == t;
        assert AllTexts(batches)[StartOf(batches, k)..StartOf(batches, k + 1)][n] == recovered[StartOf(batches, k) + n];
        assert t in recovered;
      }
    }

    /** Nothing else was ever sent: every message is the join of recovered texts, and each text is in one message only. */
    lemma OnlyRecoveredIsSent(m: nat) returns (k: nat)
      requires Valid() && m < |sent|
      ensures k < |batches| && sent[m] == JoinAll(batches[k].texts)
      ensures forall i: nat :: IsIn(batches, k, i) ==> i < |recovered| && InMessage(i, m)
      ensures forall i: nat :: InMessage(i, m) ==> IsIn(batches, k, i)
    {
      hide SentTexts, AllTexts, HostJoin, JoinAll;
      k := MessageIsABatch(batches, m);
      SentIsAMessage(batches, k);
      BatchLies(batches, k);
      forall i: nat | InMessage(i, m)
        ensures IsIn(batches, k, i)
      {
        var n :| 0 <= n < |batches| && IsIn(batches, n, i) && batches[n].outcome.Sent? && SentBefore(batches, n) == m;
        OneBatchAMessage(n, k);
      }
    }

    lemma OneBatchAMessage(k: nat, n: nat)
      requires Valid() && k < |batches| && n < |batches|
      requires batches[k].outcome.Sent? && batches[n].outcome.Sent? && SentBefore(batches, k) == SentBefore(batches, n)
      ensures k == n
    {
      hide SentTexts, AllTexts, HostJoin, JoinAll;
      SentIsAMessage(batches, k);
      SentIsAMessage(batches, n);
      if k < n { SentBeforeGrows(batches, k + 1, n); }
      if n < k { SentBeforeGrows(batches, n + 1, k); }
    }
  }

  lemma OccursHasRoom(s: string, pattern: string, i: nat)
    requires OccursAt(s, pattern, i)
    ensures i + |pattern| <= |s|
  {
  }
}
