/**
 * Answering a question that takes several options through a host that can only
 * offer a list and take one pick: each round toggles one option, until "Done",
 * until every option is on, or until the rounds run out.
 */
module MultiSelect {
  import opened Wrappers

  const DONE := "Done"
  const ROUND_CAP_FLOOR: nat := 32

  function RoundCap(options: nat): nat {
    if ROUND_CAP_FLOOR < options + 2 then options + 2 else ROUND_CAP_FLOOR
  }

  function Row(on: bool, text: string): string {
    (if on then "[x]" else "[ ]") + " " + text
  }

  /** What the host shows in one round. */
  function RoundOptions(labels: seq<string>, toggled: seq<bool>): (r: seq<string>)
    requires |toggled| == |labels|
    ensures |r| == |labels| + 1 && r[|labels|] == DONE
  {
    seq(|labels|, i requires 0 <= i < |labels| => Row(toggled[i], labels[i])) + [DONE]
  }

  lemma RowsDiffer(on: bool, text: string, other: bool, otherText: string)
    ensures Row(on, text) != DONE
    ensures Row(on, text) == Row(other, otherText) <==> on == other && text == otherText
  {
    assert Row(on, text)[0] == '[';
    assert Row(on, text)[1] == if on then 'x' else ' ';
    assert Row(other, otherText)[1] == if other then 'x' else ' ';
    assert Row(on, text)[4..] == text && Row(other, otherText)[4..] == otherText;
  }

  predicate DistinctLabels(labels: seq<string>) {
    forall i, j :: 0 <= i < j < |labels| ==> labels[i] != labels[j]
  }

  /** An answer names one option, whatever is toggled, and "Done" is never an option. */
  lemma OptionsAreDistinct(labels: seq<string>, toggled: seq<bool>)
    requires |toggled| == |labels| && DistinctLabels(labels)
    ensures DistinctLabels(RoundOptions(labels, toggled))
  {
    var options := RoundOptions(labels, toggled);
    forall i, j | 0 <= i < j < |options|
      ensures options[i] != options[j]
    {
      RowsDiffer(toggled[i], labels[i],
                 if j < |labels| then toggled[j] else false, if j < |labels| then labels[j] else "");
    }
  }

  /** The first place an answer occurs in a list. */
  predicate FirstAt(options: seq<string>, answer: string, i: nat) {
    i < |options| && options[i] == answer && forall j :: 0 <= j < i ==> options[j] != answer
  }

  function Find(options: seq<string>, answer: string): (r: Option<nat>)
    ensures r.None? ==> answer !in options
    ensures r.Some? ==> FirstAt(options, answer, r.value)
  {
    if options == [] then None
    else if options[0] == answer then Some(0)
    else
      match Find(options[1..], answer)
      case None => assert options == [options[0]] + options[1..]; None
      case Some(i) => assert forall j :: 0 < j <= i ==> options[j] == options[1..][j - 1]; Some(i + 1)
  }

  // ---- The reference: a conversation is its list of toggles ----

  function Times(picks: seq<nat>, i: nat): nat {
    if picks == [] then 0
    else Times(picks[..|picks| - 1], i) + if picks[|picks| - 1] == i then 1 else 0
  }

  /** An option is on when it was picked an odd number of times. */
  predicate IsOn(picks: seq<nat>, i: nat) { Times(picks, i) % 2 == 1 }

  function State(n: nat, picks: seq<nat>): (r: seq<bool>)
    ensures |r| == n
  {
    seq(n, i requires 0 <= i < n => IsOn(picks, i))
  }

  ghost predicate AllOn(n: nat, picks: seq<nat>) {
    forall i :: 0 <= i < n ==> IsOn(picks, i)
  }

  /** The labels that are on, in the question's order. */
  function Selected(labels: seq<string>, on: seq<bool>): (r: seq<string>)
    requires |on| == |labels|
  {
    if labels == [] then []
    else
      var last := |labels| - 1;
      Selected(labels[..last], on[..last]) + if on[last] then [labels[last]] else []
  }

  /** The answer of each round; what a round offers follows from the answers before it. */
  type Host = nat -> Option<string>

  /** The host picked these options, one after the other, and the question went on after each but the last. */
  ghost predicate Toggled(labels: seq<string>, host: Host, picks: seq<nat>) {
    && |picks| <= RoundCap(|labels|)
    && forall k :: 0 <= k < |picks| ==>
      (&& picks[k] < |labels|
       && host(k).Some?
       && FirstAt(RoundOptions(labels, State(|labels|, picks[..k])), host(k).value, picks[k])
       && (k > 0 ==> !AllOn(|labels|, picks[..k])))
  }

  ghost predicate Completed(labels: seq<string>, picks: seq<nat>) {
    picks != [] && AllOn(|labels|, picks)
  }

  ghost predicate SaidDone(labels: seq<string>, host: Host, picks: seq<nat>) {
    |picks| < RoundCap(|labels|) && host(|picks|) == Some(DONE)
  }

  /** The question goes on: there is a round left and its answer picks an option. */
  ghost predicate GoesOn(labels: seq<string>, host: Host, picks: seq<nat>) {
    && |picks| < RoundCap(|labels|)
    && !Completed(labels, picks)
    && host(|picks|).Some?
    && host(|picks|).value in RoundOptions(labels, State(|labels|, picks))[..|labels|]
  }

  /** How a question ends: committed by "Done" or by the last option, and otherwise not at all. */
  ghost predicate Settles(labels: seq<string>, host: Host, picks: seq<nat>, row: Option<seq<string>>) {
    && Toggled(labels, host, picks)
    && !GoesOn(labels, host, picks)
    && row == (if Completed(labels, picks) || SaidDone(labels, host, picks)
               then Some(Selected(labels, State(|labels|, picks))) else None)
  }

  lemma OneMorePick(n: nat, picks: seq<nat>, p: nat)
    requires p < n
    ensures State(n, picks + [p]) == State(n, picks)[p := !IsOn(picks, p)]
  {
    assert (picks + [p])[..|picks|] == picks;
    assert forall i: nat :: Times(picks + [p], i) == Times(picks, i) + if p == i then 1 else 0;
  }

  lemma DoneIsLast(labels: seq<string>, toggled: seq<bool>)
    requires |toggled| == |labels|
    ensures DONE !in RoundOptions(labels, toggled)[..|labels|]
    ensures FirstAt(RoundOptions(labels, toggled), DONE, |labels|)
  {
    forall i | 0 <= i < |labels|
      ensures RoundOptions(labels, toggled)[i] != DONE
    {
      RowsDiffer(toggled[i], labels[i], false, "");
    }
  }

  lemma PickIsToggled(labels: seq<string>, host: Host, picks: seq<nat>, p: nat)
    requires Toggled(labels, host, picks) && !Completed(labels, picks)
    requires p < |labels| && |picks| < RoundCap(|labels|) && host(|picks|).Some?
    requires FirstAt(RoundOptions(labels, State(|labels|, picks)), host(|picks|).value, p)
    ensures Toggled(labels, host, picks + [p])
  {
    hide RoundOptions, State, AllOn, FirstAt;
    assert (picks + [p])[..|picks|] == picks;
    assert forall k :: 0 <= k < |picks| ==> (picks + [p])[..k] == picks[..k];
  }

  /** An answer that is no option of the round ends the question. */
  lemma EndsHere(labels: seq<string>, host: Host, picks: seq<nat>)
    requires |picks| < RoundCap(|labels|) && host(|picks|).Some?
    requires var found := Find(RoundOptions(labels, State(|labels|, picks)), host(|picks|).value);
             found.None? || found.value == |labels|
    ensures !GoesOn(labels, host, picks)
    ensures SaidDone(labels, host, picks) <==>
            Find(RoundOptions(labels, State(|labels|, picks)), host(|picks|).value).Some?
  {
    hide RoundOptions, State, AllOn;
    DoneIsLast(labels, State(|labels|, picks));
  }

  lemma NothingPicked(labels: seq<string>, host: Host)
    ensures Toggled(labels, host, []) && State(|labels|, []) == seq(|labels|, _ => false)
  {
  }

  /** Every host ends the question within the cap, and in the way the reference says. */
  method AskMultiSelect(labels: seq<string>, host: Host) returns (row: Option<seq<string>>)
    ensures exists picks: seq<nat> :: Settles(labels, host, picks, row)
  {
    hide Selected, Times, RoundOptions, Toggled, Find;
    var n := |labels|;
    var toggled := seq(n, _ => false);
    ghost var picks: seq<nat> := [];
    NothingPicked(labels, host);
    var roundCap := RoundCap(n);
    var round := 0;
    while round < roundCap
      invariant 0 <= round == |picks| <= roundCap
      invariant toggled == State(n, picks)
      invariant Toggled(labels, host, picks)
      invariant !Completed(labels, picks)
    {
      var options := RoundOptions(labels, toggled);
      var picked := host(round);
      if picked.None? {
        assert Settles(labels, host, picks, None);
        return None;
      }
      var found := Find(options, picked.value);
      if found == Some(n) {
        EndsHere(labels, host, picks);
        assert Settles(labels, host, picks, Some(Selected(labels, toggled)));
        return Some(Selected(labels, toggled));
      }
      if found.None? {
        EndsHere(labels, host, picks);
        assert Settles(labels, host, picks, None);
        return None;
      }
      var index := found.value;
      PickIsToggled(labels, host, picks, index);
      OneMorePick(n, picks, index);
      picks := picks + [index];
      toggled := toggled[index := !toggled[index]];
      round := round + 1;
      assert forall i :: 0 <= i < n ==> IsOn(picks, i) == toggled[i];
      if forall i :: 0 <= i < n ==> toggled[i] {
        assert Settles(labels, host, picks, Some(Selected(labels, toggled)));
        return Some(Selected(labels, toggled));
      }
    }
    assert Settles(labels, host, picks, None);
    return None;
  }

  /** Two accounts of one host agree as far as both go. */
  lemma {:induction false} TogglesAgree(labels: seq<string>, host: Host, p: seq<nat>, q: seq<nat>, k: nat)
    requires Toggled(labels, host, p) && Toggled(labels, host, q)
    requires k <= |p| && k <= |q|
    ensures p[..k] == q[..k]
  {
    hide RoundOptions, State, AllOn;
    if k > 0 {
      TogglesAgree(labels, host, p, q, k - 1);
      assert p[..k] == p[..k - 1] + [p[k - 1]] && q[..k] == q[..k - 1] + [q[k - 1]];
    }
  }

  lemma ShorterGoesOn(labels: seq<string>, host: Host, p: seq<nat>, q: seq<nat>)
    requires Toggled(labels, host, p) && Toggled(labels, host, q) && |p| < |q|
    ensures GoesOn(labels, host, p)
  {
    hide State;
    TogglesAgree(labels, host, p, q, |p|);
    assert p[..|p|] == p == q[..|p|];
    var options := RoundOptions(labels, State(|labels|, p));
    assert options[q[|p|]] == host(|p|).value;
    assert options[q[|p|]] in options[..|labels|];
  }

  /** The reference fixes the answer: the same picks give the same row. */
  lemma OneOutcome(labels: seq<string>, host: Host, p: seq<nat>, row: Option<seq<string>>,
                   q: seq<nat>, other: Option<seq<string>>)
    ensures Settles(labels, host, p, row) && Settles(labels, host, q, other) ==> p == q && row == other
  {
    hide Toggled, GoesOn;
    if Settles(labels, host, p, row) && Settles(labels, host, q, other) {
      if |p| < |q| { ShorterGoesOn(labels, host, p, q); }
      if |q| < |p| { ShorterGoesOn(labels, host, q, p); }
      TogglesAgree(labels, host, p, q, |p|);
      assert p[..|p|] == p && q[..|p|] == q;
    }
  }

  /** Which labels a row holds: with distinct labels, those that are on and no others. */
  lemma {:induction false} RowHoldsWhatIsOn(labels: seq<string>, on: seq<bool>, i: nat)
    requires |on| == |labels| && DistinctLabels(labels) && i < |labels|
    ensures labels[i] in Selected(labels, on) <==> on[i]
  {
    var last := |labels| - 1;
    if i < last {
      RowHoldsWhatIsOn(labels[..last], on[..last], i);
    } else {
      SelectedAreLabels(labels[..last], on[..last]);
    }
  }

  lemma {:induction false} SelectedAreLabels(labels: seq<string>, on: seq<bool>)
    requires |on| == |labels|
    ensures forall s :: s in Selected(labels, on) ==> s in labels
  {
    if labels != [] {
      var last := |labels| - 1;
      SelectedAreLabels(labels[..last], on[..last]);
      assert labels == labels[..last] + [labels[last]];
    }
  }

  /** A committed row holds exactly the options picked an odd number of times. */
  lemma CommittedByParity(labels: seq<string>, host: Host, picks: seq<nat>, row: seq<string>, i: nat)
    requires Settles(labels, host, picks, Some(row)) && DistinctLabels(labels) && i < |labels|
    ensures labels[i] in row <==> Times(picks, i) % 2 == 1
    ensures picks == [] || host(|picks|) == Some(DONE) || AllOn(|labels|, picks)
  {
    RowHoldsWhatIsOn(labels, State(|labels|, picks), i);
  }

  /** A row holds the options that are on, in the question's order, even if two read alike. */
  lemma {:induction false} SelectedExactly(labels: seq<string>, on: seq<bool>) returns (at: seq<nat>)
    requires |on| == |labels|
    ensures |at| == |Selected(labels, on)|
    ensures forall k :: 0 <= k < |at| ==> at[k] < |labels| && Selected(labels, on)[k] == labels[at[k]]
    ensures forall j, k :: 0 <= j < k < |at| ==> at[j] < at[k]
    ensures forall i: nat :: i in at <==> i < |labels| && on[i]
  {
    if labels == [] { return []; }
    var last := |labels| - 1;
    at := SelectedExactly(labels[..last], on[..last]);
    if on[last] { at := at + [last]; }
  }

  /** How an option reads in a round. */
  lemma ShownAs(labels: seq<string>, picks: seq<nat>, i: nat)
    requires i < |labels|
    ensures RoundOptions(labels, State(|labels|, picks))[i]
         == (if Times(picks, i) % 2 == 1 then "[x]" else "[ ]") + " " + labels[i]
  {
    hide Times;
  }

  /** Each round toggled the option whose row the host gave back, and came after one in which something was off. */
  lemma RoundsExactly(labels: seq<string>, host: Host, picks: seq<nat>, k: nat)
    requires Toggled(labels, host, picks) && k < |picks|
    ensures |picks| <= if |labels| + 2 < 32 then 32 else |labels| + 2
    ensures picks[k] < |labels|
    ensures host(k) == Some((if Times(picks[..k], picks[k]) % 2 == 1 then "[x]" else "[ ]") + " " + labels[picks[k]])
    ensures k > 0 ==> exists i :: 0 <= i < |labels| && Times(picks[..k], i) % 2 == 0
  {
    hide RoundOptions, State, Times;
    ShownAs(labels, picks[..k], picks[k]);
    if k > 0 {
      var i :| 0 <= i < |labels| && !IsOn(picks[..k], i);
      assert Times(picks[..k], i) % 2 == 0;
    }
  }

  /** The host gave back none of the rows it was shown. */
  predicate IsUnknown(labels: seq<string>, picks: seq<nat>, answer: string) {
    forall i :: 0 <= i < |labels| ==> answer != (if Times(picks, i) % 2 == 1 then "[x]" else "[ ]") + " " + labels[i]
  }

  lemma UnknownIsNotOffered(labels: seq<string>, picks: seq<nat>, answer: string)
    ensures IsUnknown(labels, picks, answer) <==> answer !in RoundOptions(labels, State(|labels|, picks))[..|labels|]
  {
    hide RoundOptions, State, Times;
    var options := RoundOptions(labels, State(|labels|, picks));
    forall i | 0 <= i < |labels|
      ensures options[..|labels|][i] == (if Times(picks, i) % 2 == 1 then "[x]" else "[ ]") + " " + labels[i]
    {
      ShownAs(labels, picks, i);
    }
  }

  /**
   * How every question ends: it is committed exactly if every option came to be
   * on or the host said "Done" in time, and abandoned exactly if the host gave
   * no answer, gave one that was not offered, or spent the cap.
   */
  lemma EndExactly(labels: seq<string>, host: Host, picks: seq<nat>, row: Option<seq<string>>)
    requires Settles(labels, host, picks, row)
    ensures var cap := if |labels| + 2 < 32 then 32 else |labels| + 2;
            var allOn := picks != [] && forall i :: 0 <= i < |labels| ==> Times(picks, i) % 2 == 1;
            && (row.Some? <==> allOn || (|picks| < cap && host(|picks|) == Some("Done")))
            && (row.None? <==>
                  && !allOn
                  && (|| |picks| == cap || host(|picks|).None?
                      || (host(|picks|).value != "Done" && IsUnknown(labels, picks, host(|picks|).value))))
  {
    hide RoundOptions, State, Times, Selected, IsUnknown, Toggled, GoesOn, AllOn;
    OnEverywhere(|labels|, picks);
    GoesOnExactly(labels, host, picks);
    RowsSettle(labels, host, picks, row);
  }

  lemma RowsSettle(labels: seq<string>, host: Host, picks: seq<nat>, row: Option<seq<string>>)
    requires Settles(labels, host, picks, row)
    ensures |picks| <= RoundCap(|labels|) && !GoesOn(labels, host, picks)
    ensures row.Some? <==> Completed(labels, picks) || SaidDone(labels, host, picks)
  {
    hide RoundOptions, State, Times, Selected, AllOn;
  }

  lemma OnEverywhere(n: nat, picks: seq<nat>)
    ensures AllOn(n, picks) <==> forall i :: 0 <= i < n ==> Times(picks, i) % 2 == 1
  {
    hide Times;
    if AllOn(n, picks) {
      forall i | 0 <= i < n ensures Times(picks, i) % 2 == 1 { assert IsOn(picks, i); }
    } else {
      var i :| 0 <= i < n && !IsOn(picks, i);
      assert Times(picks, i) % 2 != 1;
    }
  }

  lemma GoesOnExactly(labels: seq<string>, host: Host, picks: seq<nat>)
    ensures GoesOn(labels, host, picks) <==>
            && |picks| < RoundCap(|labels|) && !Completed(labels, picks) && host(|picks|).Some?
            && !IsUnknown(labels, picks, host(|picks|).value)
    ensures IsUnknown(labels, picks, "Done")
  {
    hide RoundOptions, State, Times, IsUnknown, AllOn;
    UnknownIsNotOffered(labels, picks, "Done");
    DoneIsLast(labels, State(|labels|, picks));
    if host(|picks|).Some? { UnknownIsNotOffered(labels, picks, host(|picks|).value); }
  }

  // ---- The cap leaves room for every answer ----

  /** The options to pick, one round each, to reach a selection. */
  function PicksFor(on: seq<bool>): (r: seq<nat>)
    ensures |r| <= |on| && forall k :: 0 <= k < |r| ==> r[k] < |on|
  {
    if on == [] then []
    else
      var last := |on| - 1;
      PicksFor(on[..last]) + if on[last] then [last] else []
  }

  /** The picks go upwards, and name the options that are wanted. */
  lemma {:induction false} PicksAreOrdered(on: seq<bool>)
    ensures Increasing(PicksFor(on))
    ensures forall i: nat :: i in PicksFor(on) <==> i < |on| && on[i]
  {
    if on != [] {
      var last := |on| - 1;
      PicksAreOrdered(on[..last]);
      assert forall i: nat :: i in PicksFor(on) <==> i in PicksFor(on[..last]) || (on[last] && i == last);
    }
  }

  predicate Increasing(picks: seq<nat>) { forall m, n :: 0 <= m < n < |picks| ==> picks[m] < picks[n] }

  lemma {:induction false} TimesInIncreasing(picks: seq<nat>, i: nat)
    requires Increasing(picks)
    ensures Times(picks, i) == if i in picks then 1 else 0
  {
    if picks != [] {
      var last := |picks| - 1;
      TimesInIncreasing(picks[..last], i);
      assert picks == picks[..last] + [picks[last]];
    }
  }

  lemma TimesOf(on: seq<bool>, k: nat)
    requires k <= |PicksFor(on)|
    ensures k < |PicksFor(on)| ==> Times(PicksFor(on)[..k], PicksFor(on)[k]) == 0
    ensures k == |PicksFor(on)| ==> forall i :: 0 <= i < |on| ==> Times(PicksFor(on)[..k], i) == if on[i] then 1 else 0
  {
    hide Times, PicksFor;
    var picks := PicksFor(on);
    PicksAreOrdered(on);
    if k < |picks| {
      TimesInIncreasing(picks[..k], picks[k]);
    } else {
      assert picks[..k] == picks;
      forall i | 0 <= i < |on| ensures Times(picks, i) == if on[i] then 1 else 0 { TimesInIncreasing(picks, i); }
    }
  }

  /** What a host answers that wants a selection and then "Done". */
  function Wanting(labels: seq<string>, on: seq<bool>): Host
    requires |on| == |labels|
  {
    (k: nat) => if k < |PicksFor(on)| then Some(Row(false, labels[PicksFor(on)[k]])) else Some(DONE)
  }

  lemma WantedStep(labels: seq<string>, on: seq<bool>, k: nat)
    requires |on| == |labels| && DistinctLabels(labels) && k < |PicksFor(on)|
    ensures FirstAt(RoundOptions(labels, State(|labels|, PicksFor(on)[..k])),
                    Row(false, labels[PicksFor(on)[k]]), PicksFor(on)[k])
    ensures !AllOn(|labels|, PicksFor(on)[..k])
  {
    var p := PicksFor(on)[k];
    var state := State(|labels|, PicksFor(on)[..k]);
    TimesOf(on, k);
    assert !IsOn(PicksFor(on)[..k], p) && !state[p];
    OptionsAreDistinct(labels, state);
    var options := RoundOptions(labels, state);
    assert options[p] == Row(false, labels[p]);
    assert forall i :: 0 <= i < p ==> options[i] != options[p];
  }

  lemma WantedIsToggled(labels: seq<string>, on: seq<bool>)
    requires |on| == |labels| && DistinctLabels(labels)
    ensures Toggled(labels, Wanting(labels, on), PicksFor(on))
  {
    hide RoundOptions, State, AllOn, Row, PicksFor;
    forall k | 0 <= k < |PicksFor(on)|
      ensures FirstAt(RoundOptions(labels, State(|labels|, PicksFor(on)[..k])),
                      Wanting(labels, on)(k).value, PicksFor(on)[k])
      ensures !AllOn(|labels|, PicksFor(on)[..k])
    {
      WantedStep(labels, on, k);
    }
  }

  lemma WantedIsOn(on: seq<bool>)
    ensures State(|on|, PicksFor(on)) == on
  {
    hide PicksFor, Times;
    var picks := PicksFor(on);
    TimesOf(on, |picks|);
    assert picks[..|picks|] == picks;
    assert forall i :: 0 <= i < |on| ==> IsOn(picks, i) == on[i];
  }

  /** Any selection at all can be given within the cap, for any number of options. */
  lemma EverySelectionFits(labels: seq<string>, on: seq<bool>)
    requires |on| == |labels| && DistinctLabels(labels)
    ensures Settles(labels, Wanting(labels, on), PicksFor(on), Some(Selected(labels, on)))
  {
    hide RoundOptions, Selected, PicksFor, Row;
    WantedIsToggled(labels, on);
    var picks := PicksFor(on);
    WantedIsOn(on);
    DoneIsLast(labels, on);
    assert Wanting(labels, on)(|picks|) == Some(DONE);
  }
}
