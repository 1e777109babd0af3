/**
 * What the notice queue guarantees over whole runs of queueing and flushing:
 * when a job's order is kept, and that nothing is lost or repeated.
 */
module JobNoticeRuns {
  import opened JobNotices
  import opened Wrappers

  datatype Event = Queue(item: Item) | Flush(session: SessionId, refused: set<nat>)

  /** Everything queued, sent and discarded since the session started, and what still waits. */
  datatype Run = Run(pending: seq<Item>, queued: seq<Item>, sent: seq<Item>, foreign: seq<Item>)

  function Next(r: Run, ev: Event): Run {
    match ev
    case Queue(item) => r.(pending := Queued(r.pending, item), queued := r.queued + [item])
    case Flush(session, refused) =>
      r.(pending := KeptFrom(r.pending, session, refused, 0),
      sent := r.sent + SentFrom(r.pending, session, refused, 0),
      foreign := r.foreign + ForeignFrom(r.pending, session, 0))
  }

  function After(events: seq<Event>): Run {
    if events == [] then Run([], [], [], []) else Next(After(events[..|events| - 1]), events[|events| - 1])
  }

  /** A flush while the job's session is active that accepts none of its notices after refusing one. */
  predicate OrderlyFlush(ev: Event, pending: seq<Item>, job: Job)
    requires ev.Flush?
  {
    Mine(pending, job) == [] || (ev.session == job.owner && Orderly(pending, ev.refused, job))
  }

  predicate OrderlyRun(events: seq<Event>, job: Job) {
    forall n :: 0 <= n < |events| && events[n].Flush? ==> OrderlyFlush(events[n], After(events[..n]).pending, job)
  }

  lemma OrderlyPrefix(events: seq<Event>, job: Job)
    requires events != []
    ensures OrderlyRun(events, job) <==>
            OrderlyRun(events[..|events| - 1], job)
            && (events[|events| - 1].Flush? ==>
                  OrderlyFlush(events[|events| - 1], After(events[..|events| - 1]).pending, job))
  {
    hide OrderlyFlush, After;
    var n := |events| - 1;
    assert forall m :: 0 <= m < n ==> events[..n][..m] == events[..m];
  }

  /** The notices that were queued, as the events tell. */
  function Reported(events: seq<Event>): seq<Item> {
    if events == [] then []
    else
      var last := events[|events| - 1];
      Reported(events[..|events| - 1]) + if last.Queue? then [last.item] else []
  }

  /** What a run calls queued is all that was reported, and each flush hands over what then waits and nothing else. */
  lemma {:induction false} QueuedIsReported(events: seq<Event>)
    ensures After(events).queued == Reported(events)
    ensures events != [] && events[|events| - 1].Flush? ==>
              var last, before := events[|events| - 1], After(events[..|events| - 1]);
              && After(events).sent == before.sent + SentFrom(before.pending, last.session, last.refused, 0)
              && After(events).pending == KeptFrom(before.pending, last.session, last.refused, 0)
  {
    hide SentFrom, KeptFrom, ForeignFrom, Queued;
    if events != [] { QueuedIsReported(events[..|events| - 1]); }
  }

  /** What the job was sent, then what of it still waits. */
  function Delivered(r: Run, job: Job): seq<Token> { StreamOf(r.sent, job) + StreamOf(r.pending, job) }

  /** In an orderly run, what was sent followed by what waits is what the job reported, in order. */
  lemma {:induction false} OrderKept(events: seq<Event>, job: Job)
    requires OrderlyRun(events, job)
    ensures Delivered(After(events), job) == StreamOf(After(events).queued, job)
  {
    if events != [] {
      hide StreamOf, SentFrom, KeptFrom, ForeignFrom, Queued, Tokens, OrderlyRun;
      var n := |events| - 1;
      var before := After(events[..n]);
      OrderlyPrefix(events, job);
      OrderKept(events[..n], job);
      match events[n]
      case Queue(item) => QueueExtends(before, item, job);
      case Flush(session, refused) => OrderlyFlushKeeps(before, events[n], job);
    }
  }

  /** Queueing adds the same tokens to what is delivered and to what was reported. */
  lemma QueueExtends(before: Run, item: Item, job: Job)
    ensures var r, tokens := Next(before, Queue(item)), if item.job == job then Tokens(item.report) else [];
            && StreamOf(r.queued, job) == StreamOf(before.queued, job) + tokens
            && StreamOf(r.pending, job) == StreamOf(before.pending, job) + tokens
            && Delivered(r, job) == Delivered(before, job) + tokens
  {
    hide StreamOf, Queued, Tokens;
    QueuedExtendsStream(before.pending, item, job);
    StreamConcat(before.queued, [item], job);
    StreamOfOne(item, job);
    var sent, pending, tokens := StreamOf(before.sent, job), StreamOf(before.pending, job), StreamOf([item], job);
    assert sent + (pending + tokens) == (sent + pending) + tokens;
  }

  lemma {:induction false} NothingOfMine(items: seq<Item>, session: SessionId, refused: set<nat>, i: nat, job: Job)
    requires i <= |items| && forall k :: i <= k < |items| ==> items[k].job != job
    ensures StreamOf(SentFrom(items, session, refused, i), job) == []
    ensures StreamOf(KeptFrom(items, session, refused, i), job) == []
    decreases |items| - i
  {
    if i < |items| {
      hide StreamOf, SentFrom, KeptFrom;
      NothingOfMine(items, session, refused, i + 1, job);
      FlushStep(items, session, refused, i, job);
    }
  }

  /** What a flush does to the delivered stream. */
  lemma FlushAppends(before: Run, ev: Event, job: Job)
    requires ev.Flush?
    ensures var r := Next(before, ev);
            var now, kept := SentFrom(before.pending, ev.session, ev.refused, 0), KeptFrom(before.pending, ev.session, ev.refused, 0);
            && StreamOf(r.queued, job) == StreamOf(before.queued, job)
            && Delivered(r, job) == StreamOf(before.sent, job) + (StreamOf(now, job) + StreamOf(kept, job))
  {
    hide StreamOf, SentFrom, KeptFrom, ForeignFrom;
    var now, kept := SentFrom(before.pending, ev.session, ev.refused, 0), KeptFrom(before.pending, ev.session, ev.refused, 0);
    StreamConcat(before.sent, now, job);
    var sent := StreamOf(before.sent, job);
    assert sent + StreamOf(now, job) + StreamOf(kept, job) == sent + (StreamOf(now, job) + StreamOf(kept, job));
  }

  lemma OrderlyFlushKeeps(before: Run, ev: Event, job: Job)
    requires ev.Flush? && OrderlyFlush(ev, before.pending, job)
    ensures Delivered(Next(before, ev), job) == Delivered(before, job)
    ensures StreamOf(Next(before, ev).queued, job) == StreamOf(before.queued, job)
  {
    hide StreamOf, SentFrom, KeptFrom, ForeignFrom, Tokens, Orderly, Mine;
    FlushAppends(before, ev, job);
    assert before.pending[0..] == before.pending;
    NoneMine(before.pending, job);
    if Mine(before.pending, job) == [] {
      NothingOfMine(before.pending, ev.session, ev.refused, 0, job);
      SilentStream(before.pending, job);
    } else {
      FlushSplitsStream(before.pending, ev.session, ev.refused, 0, job);
    }
  }

  /** In an orderly run no two pending line notices of the job are neighbours. */
  lemma {:induction false} PendingIsCoalesced(events: seq<Event>, job: Job)
    requires OrderlyRun(events, job)
    ensures Coalesced(After(events).pending, job)
  {
    if events != [] {
      hide OrderlyRun, Mine, KeptFrom, SentFrom, ForeignFrom, Queued, Orderly;
      var n := |events| - 1;
      var pending := After(events[..n]).pending;
      OrderlyPrefix(events, job);
      PendingIsCoalesced(events[..n], job);
      match events[n]
      case Queue(item) => QueuedStaysCoalesced(pending, item, job);
      case Flush(session, refused) =>
        assert pending[0..] == pending;
        if Mine(pending, job) == [] {
          NoneMine(pending, job);
          NoneKept(pending, session, refused, 0, job);
        } else {
          KeptIsTheEnd(pending, session, refused, 0, job);
          EndHasNoNeighbours(Mine(pending, job), Mine(KeptFrom(pending, session, refused, 0), job));
        }
    } else {
      assert Mine([], job) == [];
    }
  }

  lemma {:induction false} NoneKept(items: seq<Item>, session: SessionId, refused: set<nat>, i: nat, job: Job)
    requires i <= |items| && forall k :: i <= k < |items| ==> items[k].job != job
    ensures Mine(KeptFrom(items, session, refused, i), job) == []
    decreases |items| - i
  {
    if i < |items| {
      NoneKept(items, session, refused, i + 1, job);
      var next := KeptFrom(items, session, refused, i + 1);
      MineConcat([items[i]], next, job);
      assert [] + next == next;
    }
  }

  /**
   * Over every run, whatever the host refuses, each thing a job reported was
   * sent once, still waits once, or was discarded with another session's job.
   */
  lemma {:induction false} NothingLostOrRepeated(events: seq<Event>, job: Job)
    ensures Conserved(After(events), job)
  {
    if events != [] {
      var n := |events| - 1;
      NothingLostOrRepeated(events[..n], job);
      ConservedByStep(After(events[..n]), events[n], job);
    }
  }

  ghost predicate Conserved(r: Run, job: Job) {
    multiset(StreamOf(r.queued, job)) == multiset(StreamOf(r.sent, job))
                                       + multiset(StreamOf(r.pending, job))
                                       + multiset(StreamOf(r.foreign, job))
  }

  lemma ConservedByStep(before: Run, ev: Event, job: Job)
    requires Conserved(before, job)
    ensures Conserved(Next(before, ev), job)
  {
    hide StreamOf, SentFrom, KeptFrom, ForeignFrom, Queued, Tokens;
    match ev
    case Queue(item) =>
      QueueExtends(before, item, job);
    case Flush(session, refused) =>
      FlushConserves(before.pending, session, refused, 0, job);
      assert before.pending[0..] == before.pending;
      StreamConcat(before.sent, SentFrom(before.pending, session, refused, 0), job);
      StreamConcat(before.foreign, ForeignFrom(before.pending, session, 0), job);
  }

  // ---- The converse: a flush that is not orderly loses the order for good ----

  predicate Distinct(s: seq<Token>) { forall i, j :: 0 <= i < j < |s| ==> s[i] != s[j] }

  /** Lines carry numbers, and a job stops and ends once: no two of its tokens are equal, and no notice is empty. */
  predicate Recognisable(events: seq<Event>, job: Job) {
    && Distinct(StreamOf(After(events).queued, job))
    && forall n :: 0 <= n < |events| && events[n].Queue? && events[n].item.job == job ==> Tokens(events[n].item.report) != []
  }

  /** `p` lists things of `q`, and in the order of `q`. */
  ghost predicate InOrderOf(p: seq<Token>, q: seq<Token>) {
    && (forall x :: x in p ==> x in q)
    && forall i, j, a, b :: 0 <= i < j < |p| && 0 <= a < |q| && 0 <= b < |q| && q[a] == p[i] && q[b] == p[j] ==> a < b
  }

  /** Of two lists in the order of a third, each with the other's head, the heads agree. */
  lemma HeadsAgree(p: seq<Token>, s: seq<Token>, q: seq<Token>)
    requires InOrderOf(p, q) && InOrderOf(s, q) && p != [] && s != [] && p[0] in s && s[0] in p
    ensures p[0] == s[0]
  {
    assert p[0] in p && s[0] in s;
    var a :| 0 <= a < |q| && q[a] == p[0];
    var b :| 0 <= b < |q| && q[b] == s[0];
    var j :| 0 <= j < |p| && p[j] == s[0];
    var i :| 0 <= i < |s| && s[i] == p[0];
    assert j > 0 ==> a < b;
    assert i > 0 ==> b < a;
  }

  lemma TailCounts(p: seq<Token>)
    requires p != []
    ensures multiset(p[1..]) == multiset(p) - multiset{p[0]}
  {
    assert p == [p[0]] + p[1..];
  }

  /** Two lists of the same things in the order of a third are equal. */
  lemma {:induction false} OneOrder(p: seq<Token>, s: seq<Token>, q: seq<Token>)
    requires InOrderOf(p, q) && InOrderOf(s, q) && multiset(p) == multiset(s)
    ensures p == s
  {
    hide InOrderOf;
    assert |multiset(p)| == |p| && |multiset(s)| == |s|;
    if p != [] {
      assert p[0] in multiset(p) && s[0] in multiset(s);
      HeadsAgree(p, s, q);
      TailCounts(p);
      TailCounts(s);
      TailInOrder(p, q);
      TailInOrder(s, q);
      OneOrder(p[1..], s[1..], q);
      assert p == [p[0]] + p[1..] && s == [s[0]] + s[1..];
    }
  }

  lemma TailInOrder(p: seq<Token>, q: seq<Token>)
    requires p != [] && InOrderOf(p, q)
    ensures InOrderOf(p[1..], q)
  {
    forall i, j, a, b | 0 <= i < j < |p[1..]| && 0 <= a < |q| && 0 <= b < |q| && q[a] == p[1..][i] && q[b] == p[1..][j]
      ensures a < b
    {
      assert q[a] == p[i + 1] && q[b] == p[j + 1];
    }
  }

  lemma GrowsInOrder(p: seq<Token>, q: seq<Token>, t: seq<Token>)
    requires InOrderOf(p, q) && Distinct(q + t)
    ensures InOrderOf(p + t, q + t)
  {
    var pp, qq := p + t, q + t;
    forall i, j, a, b | 0 <= i < j < |pp| && 0 <= a < |qq| && 0 <= b < |qq| && qq[a] == pp[i] && qq[b] == pp[j]
      ensures a < b
    {
      if j < |p| {
        assert p[i] in q && p[j] in q;
        var a', b' :| 0 <= a' < |q| && 0 <= b' < |q| && q[a'] == p[i] && q[b'] == p[j];
        assert qq[a'] == qq[a] && qq[b'] == qq[b];
      } else {
        assert qq[|q| + j - |p|] == qq[b];
        if i < |p| {
          assert p[i] in q;
          var a' :| 0 <= a' < |q| && q[a'] == p[i];
          assert qq[a'] == qq[a];
        } else {
          assert qq[|q| + i - |p|] == qq[a];
        }
      }
    }
  }

  lemma HeadInOrder(head: seq<Token>, rest: seq<Token>, kept: seq<Token>, q: seq<Token>)
    requires InOrderOf(head + rest, q) && InOrderOf(kept, q) && forall x :: x in kept ==> x in rest
    ensures InOrderOf(head + kept, q)
  {
    var all, some := head + rest, head + kept;
    forall i, j, a, b | 0 <= i < j < |some| && 0 <= a < |q| && 0 <= b < |q| && q[a] == some[i] && q[b] == some[j]
      ensures a < b
    {
      if i >= |head| {
        assert kept[i - |head|] == q[a] && kept[j - |head|] == q[b];
      } else if j < |head| {
        assert all[i] == q[a] && all[j] == q[b];
      } else {
        assert kept[j - |head|] in rest;
        var m :| 0 <= m < |rest| && rest[m] == kept[j - |head|];
        assert all[i] == q[a] && all[|head| + m] == q[b];
      }
    }
  }

  lemma {:induction false} KeptInOrder(items: seq<Item>, session: SessionId, refused: set<nat>, i: nat, job: Job, q: seq<Token>)
    requires i <= |items| && InOrderOf(StreamOf(items[i..], job), q)
    ensures InOrderOf(StreamOf(KeptFrom(items, session, refused, i), job), q)
    ensures forall x :: x in StreamOf(KeptFrom(items, session, refused, i), job) ==> x in StreamOf(items[i..], job)
    decreases |items| - i
  {
    if i < |items| {
      hide StreamOf, KeptFrom, SentFrom, ForeignFrom, InOrderOf;
      FlushStep(items, session, refused, i, job);
      var head := if items[i].job == job then Tokens(items[i].report) else [];
      var rest, kept := StreamOf(items[i + 1..], job), StreamOf(KeptFrom(items, session, refused, i + 1), job);
      RestInOrder(head, rest, q);
      KeptInOrder(items, session, refused, i + 1, job, q);
      HeadInOrder(head, rest, kept, q);
      assert [] + kept == kept;
    }
  }

  lemma RestInOrder(head: seq<Token>, rest: seq<Token>, q: seq<Token>)
    requires InOrderOf(head + rest, q)
    ensures InOrderOf(rest, q)
  {
    assert forall m :: 0 <= m < |rest| ==> rest[m] == (head + rest)[|head| + m];
  }

  lemma RecognisablePrefix(events: seq<Event>, job: Job)
    requires events != [] && Recognisable(events, job)
    ensures Recognisable(events[..|events| - 1], job)
  {
    hide StreamOf, Tokens, Queued, KeptFrom, SentFrom, ForeignFrom;
    var n := |events| - 1;
    var before := After(events[..n]);
    match events[n]
    case Queue(item) =>
      QueueExtends(before, item, job);
      var q, all := StreamOf(before.queued, job), StreamOf(After(events).queued, job);
      assert forall k :: 0 <= k < |q| ==> q[k] == all[k];
    case Flush(_, _) =>
  }

  /** What waits is always in the order in which it was reported. */
  lemma {:induction false} PendingInOrder(events: seq<Event>, job: Job)
    requires Recognisable(events, job)
    ensures InOrderOf(StreamOf(After(events).pending, job), StreamOf(After(events).queued, job))
  {
    if events != [] {
      hide StreamOf, Tokens, Queued, KeptFrom, SentFrom, ForeignFrom, InOrderOf;
      var n := |events| - 1;
      var before := After(events[..n]);
      var q, p := StreamOf(before.queued, job), StreamOf(before.pending, job);
      RecognisablePrefix(events, job);
      PendingInOrder(events[..n], job);
      match events[n]
      case Queue(item) =>
        QueueExtends(before, item, job);
        GrowsInOrder(p, q, if item.job == job then Tokens(item.report) else []);
      case Flush(session, refused) =>
        assert before.pending[0..] == before.pending;
        KeptInOrder(before.pending, session, refused, 0, job, q);
    }
  }

  /** No pending notice of the job is empty. */
  predicate NoneEmpty(items: seq<Item>, job: Job) {
    forall k :: 0 <= k < |items| && items[k].job == job ==> Tokens(items[k].report) != []
  }

  lemma {:induction false} KeptMembers(items: seq<Item>, session: SessionId, refused: set<nat>, i: nat)
    ensures forall x :: x in KeptFrom(items, session, refused, i) ==> x in items
    decreases |items| - i
  {
    if i < |items| { KeptMembers(items, session, refused, i + 1); }
  }

  lemma {:induction false} PendingNotEmpty(events: seq<Event>, job: Job)
    requires Recognisable(events, job)
    ensures NoneEmpty(After(events).pending, job)
  {
    if events != [] {
      hide StreamOf, KeptFrom, SentFrom, ForeignFrom, Queued, Tokens;
      var n := |events| - 1;
      RecognisablePrefix(events, job);
      PendingNotEmpty(events[..n], job);
      var pending := After(events[..n]).pending;
      match events[n]
      case Queue(item) => QueuedNotEmpty(pending, item, job);
      case Flush(session, refused) =>
        KeptMembers(pending, session, refused, 0);
        var kept := KeptFrom(pending, session, refused, 0);
        forall k | 0 <= k < |kept| && kept[k].job == job
          ensures Tokens(kept[k].report) != []
        {
          assert kept[k] in pending;
        }
    }
  }

  lemma QueuedNotEmpty(pending: seq<Item>, item: Item, job: Job)
    requires NoneEmpty(pending, job) && (item.job == job ==> Tokens(item.report) != [])
    ensures NoneEmpty(Queued(pending, item), job)
  {
    var after := Queued(pending, item);
    var latest := LatestOf(pending, item.job);
    forall k | 0 <= k < |after| && after[k].job == job
      ensures Tokens(after[k].report) != []
    {
      if k < |pending| {
        assert after[k] == pending[k] || latest == Some(k);
        assert pending[k].job == job ==> Tokens(pending[k].report) != [];
      }
    }
  }

  // ---- One flush ----

  /** If the delivered stream is right after a flush, it was right before, and the flush split what waited. */
  lemma FlushDecides(before: Run, ev: Event, job: Job)
    requires ev.Flush? && Conserved(before, job)
    requires Distinct(StreamOf(before.queued, job))
    requires InOrderOf(StreamOf(before.pending, job), StreamOf(before.queued, job))
    requires Delivered(Next(before, ev), job) == StreamOf(before.queued, job)
    ensures Delivered(before, job) == StreamOf(before.queued, job)
    ensures StreamOf(SentFrom(before.pending, ev.session, ev.refused, 0), job)
            + StreamOf(KeptFrom(before.pending, ev.session, ev.refused, 0), job) == StreamOf(before.pending, job)
    ensures StreamOf(ForeignFrom(before.pending, ev.session, 0), job) == []
  {
    hide StreamOf, SentFrom, KeptFrom, ForeignFrom, InOrderOf, Distinct;
    assert before.pending[0..] == before.pending;
    FlushAppends(before, ev, job);
    FlushConserves(before.pending, ev.session, ev.refused, 0, job);
    var now := StreamOf(SentFrom(before.pending, ev.session, ev.refused, 0), job);
    var kept := StreamOf(KeptFrom(before.pending, ev.session, ev.refused, 0), job);
    var gone := StreamOf(ForeignFrom(before.pending, ev.session, 0), job);
    var sent, p, f, q := StreamOf(before.sent, job), StreamOf(before.pending, job), StreamOf(before.foreign, job), StreamOf(before.queued, job);
    NothingForeign(sent, p, f, now, kept, gone, q);
    EndInOrder(sent, now + kept, q);
    OneOrder(p, now + kept, q);
  }

  lemma NothingForeign(sent: seq<Token>, p: seq<Token>, f: seq<Token>, now: seq<Token>, kept: seq<Token>, gone: seq<Token>, q: seq<Token>)
    requires multiset(q) == multiset(sent) + multiset(p) + multiset(f)
    requires multiset(p) == multiset(now) + multiset(kept) + multiset(gone)
    requires q == sent + (now + kept)
    ensures multiset(p) == multiset(now + kept) && gone == []
  {
    assert |multiset(q)| == |q| && |multiset(p)| == |p|;
    assert |q| == |sent| + |p| + |multiset(f)| && |p| == |now| + |kept| + |multiset(gone)|;
    assert |multiset(gone)| == 0 == |gone|;
  }

  lemma EndInOrder(front: seq<Token>, back: seq<Token>, q: seq<Token>)
    requires q == front + back && Distinct(q)
    ensures InOrderOf(back, q)
  {
    forall i, j, a, b | 0 <= i < j < |back| && 0 <= a < |q| && 0 <= b < |q| && q[a] == back[i] && q[b] == back[j]
      ensures a < b
    {
      assert q[|front| + i] == q[a] && q[|front| + j] == q[b];
    }
  }

  lemma {:induction false} RefusedIsKept(items: seq<Item>, session: SessionId, refused: set<nat>, i: nat, k: nat, job: Job, x: Token)
    requires i <= k < |items| && items[k].job == job && x in Tokens(items[k].report)
    ensures job.owner == session && k in refused ==> x in StreamOf(KeptFrom(items, session, refused, i), job)
    ensures job.owner == session && k !in refused ==> x in StreamOf(SentFrom(items, session, refused, i), job)
    ensures job.owner != session ==> x in StreamOf(ForeignFrom(items, session, i), job)
    decreases |items| - i
  {
    hide StreamOf, KeptFrom, SentFrom, ForeignFrom, Tokens;
    FlushStep(items, session, refused, i, job);
    if i < k { RefusedIsKept(items, session, refused, i + 1, k, job, x); }
  }

  /** A token of an earlier notice stands before one of a later notice. */
  lemma EarlierStandsBefore(items: seq<Item>, i: nat, k: nat, job: Job, x: Token, y: Token)
    requires i < k < |items| && items[i].job == items[k].job == job
    requires x in Tokens(items[i].report) && y in Tokens(items[k].report)
    ensures exists a, b :: 0 <= a < b < |StreamOf(items, job)| && StreamOf(items, job)[a] == x && StreamOf(items, job)[b] == y
  {
    hide StreamOf, Tokens;
    var front, back := items[..k], items[k..];
    assert items == front + back;
    StreamConcat(front, back, job);
    InStream(front, i, job, x);
    InStream(back, 0, job, y);
    var a :| 0 <= a < |StreamOf(front, job)| && StreamOf(front, job)[a] == x;
    var b :| 0 <= b < |StreamOf(back, job)| && StreamOf(back, job)[b] == y;
    assert StreamOf(items, job)[a] == x && StreamOf(items, job)[|StreamOf(front, job)| + b] == y;
  }

  lemma {:induction false} InStream(items: seq<Item>, k: nat, job: Job, x: Token)
    requires k < |items| && items[k].job == job && x in Tokens(items[k].report)
    ensures x in StreamOf(items, job)
  {
    if k > 0 { InStream(items[1..], k - 1, job, x); }
  }

  lemma NotBoth(p: seq<Token>, now: seq<Token>, kept: seq<Token>, x: Token, y: Token)
    requires Distinct(p) && p == now + kept && x in kept && y in now
    ensures !exists a, b :: 0 <= a < b < |p| && p[a] == x && p[b] == y
  {
    var i :| 0 <= i < |now| && now[i] == y;
    var j :| 0 <= j < |kept| && kept[j] == x;
    assert p[i] == y && p[|now| + j] == x;
  }

  /** A flush that splits what waited into sent and kept was orderly. */
  lemma SplitIsOrderly(items: seq<Item>, ev: Event, job: Job)
    requires ev.Flush? && Distinct(StreamOf(items, job)) && NoneEmpty(items, job)
    requires StreamOf(SentFrom(items, ev.session, ev.refused, 0), job)
             + StreamOf(KeptFrom(items, ev.session, ev.refused, 0), job) == StreamOf(items, job)
    requires StreamOf(ForeignFrom(items, ev.session, 0), job) == []
    ensures OrderlyFlush(ev, items, job)
  {
    hide StreamOf, SentFrom, KeptFrom, ForeignFrom, Tokens, Distinct, Mine;
    NoneMine(items, job);
    if Mine(items, job) != [] {
      var k :| 0 <= k < |items| && items[k].job == job;
      var z := Tokens(items[k].report)[0];
      RefusedIsKept(items, ev.session, ev.refused, 0, k, job, z);
      forall i, m | 0 <= i < m < |items| && items[i].job == items[m].job == job && i in ev.refused
        ensures m in ev.refused
      {
        if m !in ev.refused {
          var x, y := Tokens(items[i].report)[0], Tokens(items[m].report)[0];
          RefusedIsKept(items, ev.session, ev.refused, 0, i, job, x);
          RefusedIsKept(items, ev.session, ev.refused, 0, m, job, y);
          EarlierStandsBefore(items, i, m, job, x, y);
          NotBoth(StreamOf(items, job), StreamOf(SentFrom(items, ev.session, ev.refused, 0), job),
                  StreamOf(KeptFrom(items, ev.session, ev.refused, 0), job), x, y);
        }
      }
    }
  }

  lemma SubDistinct(p: seq<Token>, q: seq<Token>)
    requires InOrderOf(p, q)
    ensures Distinct(p)
  {
    forall i, j | 0 <= i < j < |p|
      ensures p[i] != p[j]
    {
      assert p[i] in q && p[j] in q;
      var a, b :| 0 <= a < |q| && 0 <= b < |q| && q[a] == p[i] && q[b] == p[j];
      assert a < b;
      assert q[a] == p[i] && q[b] == p[j];
    }
  }

  /**
   * The order of a job is kept exactly by the orderly runs: what it was sent
   * followed by what waits is what it reported if and only if every flush with
   * notices of the job waiting was for its session and refused a tail of them.
   */
  lemma {:induction false} OrderIsKeptExactly(events: seq<Event>, job: Job)
    requires Recognisable(events, job)
    ensures OrderlyRun(events, job) <==> Delivered(After(events), job) == StreamOf(After(events).queued, job)
  {
    if OrderlyRun(events, job) {
      OrderKept(events, job);
    } else if Delivered(After(events), job) == StreamOf(After(events).queued, job) {
      OrderShows(events, job);
    }
  }

  lemma {:induction false} OrderShows(events: seq<Event>, job: Job)
    requires Recognisable(events, job) && Delivered(After(events), job) == StreamOf(After(events).queued, job)
    ensures OrderlyRun(events, job)
  {
    if events != [] {
      hide StreamOf, SentFrom, KeptFrom, ForeignFrom, Queued, Tokens, OrderlyRun, Distinct, InOrderOf, OrderlyFlush, Delivered;
      var n := |events| - 1;
      var before := After(events[..n]);
      RecognisablePrefix(events, job);
      match events[n] {
      case Queue(item) =>
        QueueExtends(before, item, job);
        var tokens := if item.job == job then Tokens(item.report) else [];
        SameBefore(Delivered(before, job), StreamOf(before.queued, job), tokens);
      case Flush(session, refused) =>
        FlushAppends(before, events[n], job);
        NothingLostOrRepeated(events[..n], job);
        PendingInOrder(events[..n], job);
        PendingNotEmpty(events[..n], job);
        FlushDecides(before, events[n], job);
        SubDistinct(StreamOf(before.pending, job), StreamOf(before.queued, job));
        SplitIsOrderly(before.pending, events[n], job);
      }
      OrderShows(events[..n], job);
      OrderlyPrefix(events, job);
    }
  }

  lemma SameBefore(a: seq<Token>, b: seq<Token>, tail: seq<Token>)
    requires a + tail == b + tail
    ensures a == b
  {
    assert |a| == |b|;
    assert a == (a + tail)[..|a|] && b == (b + tail)[..|b|];
  }

  /** Once a later notice is accepted after a refusal, order is lost. */
  lemma RefusalReorders(job: Job)
    ensures var events := [Queue(Item(job, Lines([Line(0, "x")]))), Queue(Item(job, End)), Flush(job.owner, {0})];
            Delivered(After(events), job) != StreamOf(After(events).queued, job)
  {
    hide StreamOf;
    var first, last := Item(job, Lines([Line(0, "x")])), Item(job, End);
    var items := [first, last];
    FlushStep(items, job.owner, {0}, 0, job);
    FlushStep(items, job.owner, {0}, 1, job);
    SilentStream(items[2..], job);
    SilentStream(SentFrom(items, job.owner, {0}, 2), job);
    SilentStream(KeptFrom(items, job.owner, {0}, 2), job);
    assert Tokens(first.report) == [Said(Line(0, "x"))] && Tokens(End) == [Ended];
    assert items[0..] == items && StreamOf(items, job)[0] == Said(Line(0, "x"));
    assert StreamOf(SentFrom(items, job.owner, {0}, 0), job)[0] == Ended;
    ExampleRun(job, first, last);
  }

  lemma ExampleRun(job: Job, first: Item, last: Item)
    requires first.job == last.job == job && first.report.Lines? && last.report == End
    ensures var r := After([Queue(first), Queue(last), Flush(job.owner, {0})]);
            && r.queued == [first, last]
            && r.sent == SentFrom([first, last], job.owner, {0}, 0) && r.pending == KeptFrom([first, last], job.owner, {0}, 0)
  {
    hide StreamOf, SentFrom, KeptFrom, ForeignFrom;
    var events := [Queue(first), Queue(last), Flush(job.owner, {0})];
    assert events[..2] == [Queue(first), Queue(last)] && events[..2][..1] == [Queue(first)] && events[..2][..1][..0] == [];
    assert After([]) == Run([], [], [], []);
    assert After(events[..2][..1]).queued == [first] && After(events[..2][..1]).pending == [first];
    assert After(events[..2]).queued == [first, last] && After(events[..2]).pending == [first, last];
    assert [] + SentFrom([first, last], job.owner, {0}, 0) == SentFrom([first, last], job.owner, {0}, 0);
  }
}
