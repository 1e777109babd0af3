/**
 * Delivery of background completions to the parent session: each settled task
 * is forwarded at most once, never after the parent consumed its result, and
 * never lost when forwarding fails.
 */
module CompletionQueue {
  import opened Seqs

  type TaskId(==) = string
  type SessionId(==) = string

  const STALE_COMPLETION_MS := 90_000

  datatype Entry = Entry(id: TaskId, owner: SessionId, settledAt: int)

  datatype Deliverable = Deliverable(entry: Entry, stale: bool)

  // ---- The queue as a value ----

  datatype Queue = Queue(pending: seq<Entry>, consumed: set<TaskId>, delivered: set<TaskId>)

  function Ids(entries: seq<Entry>): set<TaskId> { set e | e in entries :: e.id }

  predicate DistinctIds(entries: seq<Entry>) {
    forall i, j :: 0 <= i < j < |entries| ==> entries[i].id != entries[j].id
  }

  function Enqueued(q: Queue, e: Entry): Queue {
    if e.id in q.consumed || e.id in q.delivered || e.id in Ids(q.pending) then q
    else q.(pending := q.pending + [e])
  }

  /** The completions a flush takes: all pending ones the parent has not consumed. */
  function Live(q: Queue): seq<Entry> {
    Filter(q.pending, (e: Entry) => e.id !in q.consumed)
  }

  function Taken(q: Queue): Queue {
    Queue([], q.consumed, q.delivered + Ids(Live(q)))
  }

  function Requeued(q: Queue, e: Entry): Queue {
    var q' := q.(delivered := q.delivered - {e.id});
    if e.id in q.consumed || e.id in Ids(q.pending) then q' else q'.(pending := q.pending + [e])
  }

  /** A taken completion of this session whose forwarding throws. */
  predicate Fails(e: Entry, session: SessionId, failing: set<TaskId>) {
    e.owner == session && e.id in failing
  }

  /** One whole flush: what fails waits again, everything else has left the queue. */
  function Flushed(q: Queue, session: SessionId, failing: set<TaskId>): Queue {
    var failed := Filter(Live(q), (e: Entry) => Fails(e, session, failing));
    Queue(failed, q.consumed, q.delivered + Ids(Live(q)) - Ids(failed))
  }

  // ---- The queue as the object the extension holds ----

  class CompletionQueue {
    var pending: seq<Entry>
    var consumed: set<TaskId>
    var delivered: set<TaskId>

    function Value(): Queue
      reads this
    {
      Queue(pending, consumed, delivered)
    }

    constructor ()
      ensures Value() == Queue([], {}, {})
    {
      pending, consumed, delivered := [], {}, {};
    }

    method PendingHas(id: TaskId) returns (found: bool)
      ensures found == (id in Ids(pending))
    {
      for i := 0 to |pending|
        invariant id !in Ids(pending[..i])
      {
        if pending[i].id == id { assert pending[i] in pending; return true; }
        assert pending[..i + 1] == pending[..i] + [pending[i]];
      }
      assert pending[..|pending|] == pending;
      return false;
    }

    method Enqueue(e: Entry)
      modifies this
      ensures Value() == Enqueued(old(Value()), e)
      ensures consumed == old(consumed) && delivered == old(delivered)
      ensures pending == if e.id in consumed || e.id in delivered || exists p :: p in old(pending) && p.id == e.id
                         then old(pending) else old(pending) + [e]
    {
      var found := PendingHas(e.id);
      if e.id in consumed || e.id in delivered || found { return; }
      pending := pending + [e];
    }

    method Consume(id: TaskId)
      modifies this
      ensures Value() == old(Value()).(consumed := old(consumed) + {id})
    {
      consumed := consumed + {id};
    }

    method TakeDeliverable(now: int) returns (deliverable: seq<Deliverable>)
      modifies this
      ensures Value() == Taken(old(Value()))
      ensures pending == [] && consumed == old(consumed)
      ensures forall id :: id in delivered <==> id in old(delivered) || exists d :: d in deliverable && d.entry.id == id
      ensures |deliverable| == |Live(old(Value()))|
      ensures forall i :: 0 <= i < |deliverable| ==>
                deliverable[i].entry == Live(old(Value()))[i]
                && (deliverable[i].stale <==> now - deliverable[i].entry.settledAt >= STALE_COMPLETION_MS)
    {
      hide Filter, Ids;
      var taken := pending;
      pending := [];
      deliverable := [];
      ghost var keep := (e: Entry) => e.id !in old(consumed);
      NothingTaken(taken, keep);
      for i := 0 to |taken|
        invariant pending == [] && consumed == old(consumed)
        invariant |deliverable| == |Filter(taken[..i], keep)|
        invariant delivered == old(delivered) + Ids(Filter(taken[..i], keep))
        invariant forall j :: 0 <= j < |deliverable| ==>
                    deliverable[j].entry == Filter(taken[..i], keep)[j]
                    && deliverable[j].stale == (now - deliverable[j].entry.settledAt >= STALE_COMPLETION_MS)
      {
        OneMoreTaken(taken, i, keep);
        if taken[i].id in consumed { continue; }
        delivered := delivered + {taken[i].id};
        deliverable := deliverable + [Deliverable(taken[i], now - taken[i].settledAt >= STALE_COMPLETION_MS)];
      }
      assert taken[..|taken|] == taken;
      assert Live(old(Value())) == Filter(taken, keep) by {
        FilterSame(taken, keep, (e: Entry) => e.id !in old(Value()).consumed);
      }
      TheirIds(deliverable, Live(old(Value())));
    }

    method Requeue(e: Entry)
      modifies this
      ensures Value() == Requeued(old(Value()), e)
      ensures consumed == old(consumed) && delivered == old(delivered) - {e.id}
      ensures pending == if e.id in consumed || exists p :: p in old(pending) && p.id == e.id
                         then old(pending) else old(pending) + [e]
    {
      delivered := delivered - {e.id};
      var found := PendingHas(e.id);
      if e.id in consumed || found { return; }
      pending := pending + [e];
    }

    method DropAll()
      modifies this
      ensures Value() == Queue([], {}, {})
    {
      pending, consumed, delivered := [], {}, {};
    }

    /**
     * The flush loop of the extension. `failing` are the tasks whose message
     * the host refuses; `sent` is what it accepted, in order.
     */
    method Flush(now: int, session: SessionId, failing: set<TaskId>) returns (sent: seq<Deliverable>)
      requires DistinctIds(pending)
      modifies this
      ensures Value() == Flushed(old(Value()), session, failing)
      ensures |sent| == |Forwards(old(Value()), session, failing)|
      ensures forall i :: 0 <= i < |sent| ==>
                sent[i].entry == Forwards(old(Value()), session, failing)[i]
                && (sent[i].stale <==> now - sent[i].entry.settledAt >= STALE_COMPLETION_MS)
    {
      hide Filter;
      ghost var live := Live(Value());
      LiveIsDistinct(Value());
      ghost var fails := (e: Entry) => Fails(e, session, failing);
      ghost var passes := (e: Entry) => Passes(e, session, failing);
      ghost var all := delivered + Ids(live);
      var entries := TakeDeliverable(now);
      sent := [];
      NothingTaken(live, fails);
      NothingTaken(live, passes);
      for i := 0 to |entries|
        invariant consumed == old(consumed)
        invariant pending == Filter(live[..i], fails)
        invariant delivered == all - Ids(Filter(live[..i], fails))
        invariant |sent| == |Filter(live[..i], passes)|
        invariant forall j :: 0 <= j < |sent| ==>
                    sent[j].entry == Filter(live[..i], passes)[j]
                    && sent[j].stale == (now - sent[j].entry.settledAt >= STALE_COMPLETION_MS)
      {
        var entry := entries[i].entry;
        OneMoreTaken(live, i, fails);
        OneMoreTaken(live, i, passes);
        if entry.owner != session { continue; }
        if entry.id in failing {
          NotFailedTwice(old(Value()), live, i, fails);
          Requeue(entry);
        } else {
          sent := sent + [entries[i]];
        }
      }
      assert live[..|live|] == live;
    }
  }

  lemma TheirIds(deliverable: seq<Deliverable>, entries: seq<Entry>)
    requires |deliverable| == |entries| && forall i :: 0 <= i < |entries| ==> deliverable[i].entry == entries[i]
    ensures forall id :: id in Ids(entries) <==> exists d :: d in deliverable && d.entry.id == id
  {
    forall id | id in Ids(entries)
      ensures exists d :: d in deliverable && d.entry.id == id
    {
      var i :| 0 <= i < |entries| && entries[i].id == id;
      assert deliverable[i] in deliverable;
    }
    forall d | d in deliverable
      ensures d.entry.id in Ids(entries)
    {
      var i :| 0 <= i < |deliverable| && deliverable[i] == d;
      assert entries[i] in entries;
    }
  }

  predicate Passes(e: Entry, session: SessionId, failing: set<TaskId>) {
    e.owner == session && e.id !in failing
  }

  /** The completions a flush forwards. */
  function Forwards(q: Queue, session: SessionId, failing: set<TaskId>): seq<Entry> {
    Filter(Live(q), (e: Entry) => Passes(e, session, failing))
  }

  lemma NothingTaken(entries: seq<Entry>, keep: Entry -> bool)
    ensures Filter(entries[..0], keep) == [] && Ids([]) == {}
  {
  }

  lemma OneMoreTaken(entries: seq<Entry>, i: nat, keep: Entry -> bool)
    requires i < |entries|
    ensures Filter(entries[..i + 1], keep) == Filter(entries[..i], keep) + if keep(entries[i]) then [entries[i]] else []
    ensures Ids(Filter(entries[..i + 1], keep)) == Ids(Filter(entries[..i], keep)) + if keep(entries[i]) then {entries[i].id} else {}
  {
    assert entries[..i + 1] == entries[..i] + [entries[i]];
    FilterConcat(entries[..i], [entries[i]], keep);
    FilterSmall(entries[i], keep);
    IdsOfMore(Filter(entries[..i], keep), entries[i]);
  }

  lemma IdsOfMore(entries: seq<Entry>, e: Entry)
    ensures Ids(entries + [e]) == Ids(entries) + {e.id}
  {
    assert forall x :: x in entries + [e] <==> x in entries || x == e;
  }

  lemma FilterIsDistinct(entries: seq<Entry>, keep: Entry -> bool)
    requires DistinctIds(entries)
    ensures DistinctIds(Filter(entries, keep))
  {
    var r := Filter(entries, keep);
    forall i, j | 0 <= i < j < |r| ensures r[i].id != r[j].id {
      FilterKeepsOrder(entries, keep, i, j);
    }
  }

  lemma LiveIsDistinct(q: Queue)
    requires DistinctIds(q.pending)
    ensures DistinctIds(Live(q))
    ensures forall e :: e in Live(q) ==> e in q.pending && e.id !in q.consumed
  {
    var keep := (e: Entry) => e.id !in q.consumed;
    FilterIsDistinct(q.pending, keep);
    FilterMembers(q.pending, keep);
  }

  /** While a flush runs, the entry at hand is neither consumed nor already waiting again. */
  lemma NotFailedTwice(q: Queue, live: seq<Entry>, i: nat, fails: Entry -> bool)
    requires live == Live(q) && DistinctIds(q.pending) && i < |live|
    ensures live[i].id !in q.consumed && live[i].id !in Ids(Filter(live[..i], fails))
  {
    LiveIsDistinct(q);
    FilterMembers(live[..i], fails);
    assert live[i] in live;
  }

  // ---- Whole runs ----

  datatype Event =
    | Enqueue(entry: Entry)
    | Consume(id: TaskId)
    | Flush(session: SessionId, failing: set<TaskId>)
    | DropAll

  /** What happened to a task, in order, since everything was last dropped. */
  datatype Fact =
    | Accepted(id: TaskId)
    | Consumed(id: TaskId)
    | Forwarded(id: TaskId)
    | Foreign(id: TaskId)

  datatype Run = Run(queue: Queue, accepted: seq<Entry>, facts: seq<Fact>)

  const START := Run(Queue([], {}, {}), [], [])

  function Outcome(e: Entry, session: SessionId, failing: set<TaskId>): seq<Fact> {
    if e.owner != session then [Foreign(e.id)]
    else if e.id in failing then []
    else [Forwarded(e.id)]
  }

  function Outcomes(entries: seq<Entry>, session: SessionId, failing: set<TaskId>): seq<Fact> {
    if entries == [] then []
    else Outcome(entries[0], session, failing) + Outcomes(entries[1..], session, failing)
  }

  function Next(r: Run, ev: Event): Run {
    match ev
    case Enqueue(e) =>
      var q := Enqueued(r.queue, e);
      if q == r.queue then r else Run(q, r.accepted + [e], r.facts + [Accepted(e.id)])
    case Consume(id) =>
      Run(r.queue.(consumed := r.queue.consumed + {id}), r.accepted, r.facts + [Consumed(id)])
    case Flush(session, failing) =>
      Run(Flushed(r.queue, session, failing), r.accepted, r.facts + Outcomes(Live(r.queue), session, failing))
    case DropAll => START
  }

  function After(events: seq<Event>): Run {
    if events == [] then START else Next(After(events[..|events| - 1]), events[|events| - 1])
  }

  /** Forwarding is final, and consuming a result forecloses it. */
  predicate ForwardedOnce(facts: seq<Fact>) {
    forall i, j :: 0 <= i < j < |facts| && facts[j].Forwarded? ==>
                     facts[i] != facts[j] && facts[i] != Consumed(facts[j].id)
  }

  /** Where an accepted completion can be. */
  predicate Accounted(r: Run, id: TaskId) {
    || id in Ids(r.queue.pending)
    || id in r.queue.consumed
    || Forwarded(id) in r.facts
    || Foreign(id) in r.facts
  }

  ghost predicate Inv(r: Run) {
    && ForwardedOnce(r.facts)
    && DistinctIds(r.accepted)
    && (forall e :: e in r.accepted ==> Accounted(r, e.id))
    && Ids(r.queue.pending) !! r.queue.delivered
    && r.queue.pending == Filter(r.accepted, (e: Entry) => e.id in Ids(r.queue.pending))
    && (forall id :: id in r.queue.consumed <==> Consumed(id) in r.facts)
    && (forall id :: id in r.queue.delivered <==> Forwarded(id) in r.facts || Foreign(id) in r.facts)
  }

  lemma {:induction false} OutcomeFacts(entries: seq<Entry>, session: SessionId, failing: set<TaskId>)
    requires DistinctIds(entries)
    ensures var facts := Outcomes(entries, session, failing);
            && (forall id :: Forwarded(id) in facts <==> exists e :: e in entries && e.id == id && Passes(e, session, failing))
            && (forall id :: Foreign(id) in facts <==> exists e :: e in entries && e.id == id && e.owner != session)
            && (forall f :: f in facts ==> f.Forwarded? || f.Foreign?)
            && (forall i, j :: 0 <= i < j < |facts| ==> facts[i] != facts[j])
  {
    if entries != [] {
      var tail := entries[1..];
      OutcomeFacts(tail, session, failing);
      var first, rest := Outcome(entries[0], session, failing), Outcomes(tail, session, failing);
      assert forall e :: e in entries <==> e == entries[0] || e in tail;
      assert forall e :: e in tail ==> e.id != entries[0].id;
      assert |first| <= 1 && forall f :: f in first ==> (f.Forwarded? || f.Foreign?) && f.id == entries[0].id && f !in rest;
      OneFactMore(first, rest);
    }
  }

  lemma OneFactMore(first: seq<Fact>, rest: seq<Fact>)
    requires |first| <= 1 && forall f :: f in first ==> f !in rest
    requires forall i, j :: 0 <= i < j < |rest| ==> rest[i] != rest[j]
    ensures forall f :: f in first + rest <==> f in first || f in rest
    ensures forall i, j :: 0 <= i < j < |first + rest| ==> (first + rest)[i] != (first + rest)[j]
  {
    var facts := first + rest;
    forall i, j | 0 <= i < j < |facts|
      ensures facts[i] != facts[j]
    {
      assert facts[j] == rest[j - |first|];
      if i < |first| { assert facts[i] == first[i] && first[i] in first; } else { assert facts[i] == rest[i - |first|]; }
    }
  }

  lemma InvEnqueue(r: Run, e: Entry)
    requires Inv(r)
    ensures Inv(Next(r, Enqueue(e)))
  {
    hide Filter, ForwardedOnce;
    var q := Enqueued(r.queue, e);
    if q != r.queue {
      var r' := Next(r, Enqueue(e));
      IdsOfMore(r.queue.pending, e);
      forall x | x in r.accepted ensures x.id != e.id && Accounted(r', x.id) { assert Accounted(r, x.id); }
      EnqueueKeepsOrder(r, e);
      assert e in q.pending;
      AcceptedKeepsFacts(r.facts, e.id);
    }
  }

  lemma AcceptedKeepsFacts(facts: seq<Fact>, id: TaskId)
    requires ForwardedOnce(facts)
    ensures ForwardedOnce(facts + [Accepted(id)])
    ensures forall f :: f in facts + [Accepted(id)] <==> f in facts || f == Accepted(id)
  {
    var all := facts + [Accepted(id)];
    forall i, j | 0 <= i < j < |all| && all[j].Forwarded?
      ensures all[i] != all[j] && all[i] != Consumed(all[j].id)
    {
      assert j < |facts| && all[i] == facts[i] && all[j] == facts[j];
    }
  }

  lemma EnqueueKeepsOrder(r: Run, e: Entry)
    requires r.queue.pending == Filter(r.accepted, (x: Entry) => x.id in Ids(r.queue.pending))
    requires forall x :: x in r.accepted ==> x.id != e.id
    ensures var pending := r.queue.pending + [e];
            pending == Filter(r.accepted + [e], (x: Entry) => x.id in Ids(pending))
  {
    hide Filter;
    var before := (x: Entry) => x.id in Ids(r.queue.pending);
    var pending := r.queue.pending + [e];
    var after := (x: Entry) => x.id in Ids(pending);
    IdsOfMore(r.queue.pending, e);
    FilterConcat(r.accepted, [e], after);
    FilterSame(r.accepted, before, after);
    FilterSmall(e, after);
  }

  lemma InvConsume(r: Run, id: TaskId)
    requires Inv(r)
    ensures Inv(Next(r, Consume(id)))
  {
    var r' := Next(r, Consume(id));
    assert forall f :: f in r'.facts <==> f in r.facts || f == Consumed(id);
    forall e | e in r'.accepted ensures Accounted(r', e.id) { assert Accounted(r, e.id); }
  }

  /** What a flush does to an accepted completion that was pending. */
  lemma InvFlush(r: Run, session: SessionId, failing: set<TaskId>)
    requires Inv(r)
    ensures Inv(Next(r, Flush(session, failing)))
  {
    hide Filter, Outcomes, ForwardedOnce;
    var q := r.queue;
    var r' := Next(r, Flush(session, failing));
    var q' := r'.queue;
    PendingIsDistinct(r);
    LiveIsDistinct(q);
    var live := Live(q);
    var fails := (e: Entry) => Fails(e, session, failing);
    var facts := Outcomes(live, session, failing);
    OutcomeFacts(live, session, failing);
    FilterMembers(live, fails);
    FlushKeepsFacts(r, session, failing);
    assert forall f :: f in r'.facts <==> f in r.facts || f in facts;
    forall e | e in r'.accepted ensures Accounted(r', e.id) {
      assert Accounted(r, e.id);
      if e.id in Ids(q.pending) && e.id !in q.consumed {
        var x :| x in q.pending && x.id == e.id;
        FilterMembers(q.pending, (y: Entry) => y.id !in q.consumed);
        assert x in live;
        if fails(x) { assert x in q'.pending; }
      }
    }
    FlushKeepsOrder(r, session, failing);
    DeliveredIsExact(r, session, failing, "");
    forall id ensures id in q'.delivered <==> Forwarded(id) in r'.facts || Foreign(id) in r'.facts {
      DeliveredIsExact(r, session, failing, id);
    }
  }

  lemma PendingIsDistinct(r: Run)
    requires Inv(r)
    ensures DistinctIds(r.queue.pending)
    ensures forall e :: e in r.queue.pending ==> e in r.accepted
  {
    var keep := (e: Entry) => e.id in Ids(r.queue.pending);
    FilterIsDistinct(r.accepted, keep);
    FilterMembers(r.accepted, keep);
  }

  lemma FlushKeepsFacts(r: Run, session: SessionId, failing: set<TaskId>)
    requires Inv(r)
    ensures ForwardedOnce(Next(r, Flush(session, failing)).facts)
  {
    hide Filter, Outcomes, Flushed;
    var facts := Outcomes(Live(r.queue), session, failing);
    PendingIsDistinct(r);
    LiveIsDistinct(r.queue);
    OutcomeFacts(Live(r.queue), session, failing);
    var all := r.facts + facts;
    forall i, j | 0 <= i < j < |all| && all[j].Forwarded?
      ensures all[i] != all[j] && all[i] != Consumed(all[j].id)
    {
      if j >= |r.facts| {
        assert all[j] == facts[j - |r.facts|] && all[j] in facts;
        if i < |r.facts| { assert all[i] == r.facts[i] && all[i] in r.facts; }
        else { assert all[i] == facts[i - |r.facts|] && all[i] in facts; }
      } else {
        assert all[i] == r.facts[i] && all[j] == r.facts[j];
      }
    }
  }

  lemma FlushKeepsOrder(r: Run, session: SessionId, failing: set<TaskId>)
    requires Inv(r)
    ensures var q' := Flushed(r.queue, session, failing);
            q'.pending == Filter(r.accepted, (e: Entry) => e.id in Ids(q'.pending))
  {
    var q := r.queue;
    var q' := Flushed(q, session, failing);
    var wasPending := (e: Entry) => e.id in Ids(q.pending);
    var isLive := (e: Entry) => e.id !in q.consumed;
    var fails := (e: Entry) => Fails(e, session, failing);
    var stays := (e: Entry) => isLive(e) && fails(e);
    var kept := (e: Entry) => wasPending(e) && stays(e);
    FilterTwice(q.pending, isLive, fails, stays);
    FilterTwice(r.accepted, wasPending, stays, kept);
    assert q'.pending == Filter(r.accepted, kept);
    FilterMembers(r.accepted, kept);
    FilterSame(r.accepted, kept, (e: Entry) => e.id in Ids(q'.pending)) by {
      forall e | e in r.accepted ensures kept(e) <==> e.id in Ids(q'.pending) {
        if e.id in Ids(q'.pending) {
          var x :| x in q'.pending && x.id == e.id;
          assert x in r.accepted && x == e;
        }
      }
    }
  }

  lemma DeliveredIsExact(r: Run, session: SessionId, failing: set<TaskId>, id: TaskId)
    requires Inv(r)
    ensures var r' := Next(r, Flush(session, failing));
            && (id in r'.queue.delivered <==> Forwarded(id) in r'.facts || Foreign(id) in r'.facts)
            && Ids(r'.queue.pending) !! r'.queue.delivered
  {
    var r' := Next(r, Flush(session, failing));
    var live := Live(r.queue);
    PendingIsDistinct(r);
    LiveIsDistinct(r.queue);
    OutcomeFacts(live, session, failing);
    var fails := (e: Entry) => Fails(e, session, failing);
    FilterMembers(live, fails);
    assert forall f :: f in r'.facts <==> f in r.facts || f in Outcomes(live, session, failing);
    if id in Ids(live) {
      var e :| e in live && e.id == id;
      assert e.id in Ids(r.queue.pending);
      assert forall x :: x in live && x.id == id ==> x == e;
      if fails(e) { assert e in r'.queue.pending && id in Ids(r'.queue.pending); }
      if id in Ids(r'.queue.pending) {
        var x :| x in r'.queue.pending && x.id == id;
        assert x == e;
      }
    } else {
      assert id !in Ids(r'.queue.pending);
    }
  }

  lemma {:induction false} RunKeepsInv(events: seq<Event>)
    ensures Inv(After(events))
  {
    if events != [] {
      var r := After(events[..|events| - 1]);
      RunKeepsInv(events[..|events| - 1]);
      match events[|events| - 1]
      case Enqueue(e) => InvEnqueue(r, e);
      case Consume(id) => InvConsume(r, id);
      case Flush(session, failing) => InvFlush(r, session, failing);
      case DropAll =>
    }
  }

  /** Over every run, a completion is forwarded at most once and never after it was consumed. */
  lemma DeliveredAtMostOnce(events: seq<Event>)
    ensures ForwardedOnce(After(events).facts)
  {
    RunKeepsInv(events);
  }

  lemma PendingIsAccepted(events: seq<Event>, i: nat, j: nat)
    requires i < j < |After(events).queue.pending|
    ensures var r := After(events);
            exists a: nat, b: nat :: a < b < |r.accepted|
              && r.accepted[a] == r.queue.pending[i] && r.accepted[b] == r.queue.pending[j]
  {
    RunKeepsInv(events);
    var r := After(events);
    FilterKeepsOrder(r.accepted, (e: Entry) => e.id in Ids(r.queue.pending), i, j);
  }

  // ---- What the events alone decide ----

  predicate NoDropSince(events: seq<Event>, i: nat) { forall k :: i <= k < |events| ==> !events[k].DropAll? }

  /** The tasks that were settled or consumed since everything was last dropped. */
  function Mentioned(events: seq<Event>): set<TaskId> {
    if events == [] then {}
    else
      var before := Mentioned(events[..|events| - 1]);
      match events[|events| - 1]
      case Enqueue(e) => before + {e.id}
      case Consume(id) => before + {id}
      case Flush(_, _) => before
      case DropAll => {}
  }

  lemma OneEventMore(events: seq<Event>, ev: Event)
    ensures After(events + [ev]) == Next(After(events), ev)
  {
    assert (events + [ev])[..|events|] == events;
  }

  /** A settled completion joins the end of the queue unless its task is already accounted for, and then nothing changes. */
  lemma SettledJoinsTheEnd(events: seq<Event>, e: Entry)
    ensures var before, after := After(events), After(events + [Enqueue(e)]);
            && after.queue.pending == before.queue.pending + (if Accounted(before, e.id) then [] else [e])
            && after.queue.consumed == before.queue.consumed
            && (forall f :: f in before.facts ==> f in after.facts)
  {
    RunKeepsInv(events);
    OneEventMore(events, Enqueue(e));
  }

  lemma {:induction false} AccountedIsMentioned(events: seq<Event>, id: TaskId)
    ensures Accounted(After(events), id) ==> id in Mentioned(events)
    ensures forall e :: e in After(events).accepted ==> e.id in Mentioned(events)
  {
    if events != [] {
      hide Flushed, Live;
      var n := |events| - 1;
      var before := After(events[..n]);
      RunKeepsInv(events[..n]);
      RunKeepsInv(events);
      AccountedIsMentioned(events[..n], id);
      PendingIsDistinct(After(events));
      if events[n].Flush? { FlushedWasPending(before, events[n], id); }
    }
  }

  lemma FlushedWasPending(r: Run, ev: Event, id: TaskId)
    requires Inv(r) && ev.Flush?
    ensures Accounted(Next(r, ev), id) ==> Accounted(r, id)
  {
    var r' := Next(r, ev);
    var fails := (e: Entry) => Fails(e, ev.session, ev.failing);
    PendingIsDistinct(r);
    LiveIsDistinct(r.queue);
    FilterMembers(Live(r.queue), fails);
    OutcomeFacts(Live(r.queue), ev.session, ev.failing);
    assert forall f :: f in r'.facts <==> f in r.facts || f in Outcomes(Live(r.queue), ev.session, ev.failing);
    forall e | e in Live(r.queue) ensures e.id in Ids(r.queue.pending) { assert e in r.queue.pending; }
  }

  /** So a task that was neither settled nor consumed before is queued, behind all others. */
  lemma NewIsAppended(events: seq<Event>, e: Entry)
    requires e.id !in Mentioned(events)
    ensures After(events + [Enqueue(e)]).queue.pending == After(events).queue.pending + [e]
  {
    AccountedIsMentioned(events, e.id);
    SettledJoinsTheEnd(events, e);
  }

  lemma {:induction false} StaysAccounted(events: seq<Event>, i: nat, id: TaskId)
    requires i <= |events| && NoDropSince(events, i) && Accounted(After(events[..i]), id)
    ensures Accounted(After(events), id)
    decreases |events|
  {
    hide Accounted, Inv, Next;
    if i == |events| {
      assert events[..i] == events;
    } else {
      var n := |events| - 1;
      assert events[..n][..i] == events[..i];
      StaysAccounted(events[..n], i, id);
      RunKeepsInv(events[..n]);
      OneStepAccounted(After(events[..n]), events[n], id);
    }
  }

  lemma OneStepAccounted(r: Run, ev: Event, id: TaskId)
    requires Inv(r) && Accounted(r, id) && !ev.DropAll?
    ensures Accounted(Next(r, ev), id)
  {
    hide Flushed, Live;
    match ev
    case Enqueue(e) =>
      assert forall f :: f in r.facts ==> f in Next(r, ev).facts;
      assert forall x :: x in r.queue.pending ==> x in Next(r, ev).queue.pending;
    case Consume(x) => assert forall f :: f in r.facts ==> f in Next(r, ev).facts;
    case Flush(session, failing) =>
      PendingIsDistinct(r);
      InvFlush(r, session, failing);
      if id in Ids(r.queue.pending) {
        var e :| e in r.queue.pending && e.id == id;
        assert e in r.accepted && e in Next(r, ev).accepted;
      } else {
        assert forall f :: f in r.facts ==> f in Next(r, ev).facts;
      }
  }

  /**
   * Over every run, a completion that settled is pending, was consumed, was
   * forwarded, or belonged to another session when it was flushed, for as long
   * as the session does not change.
   */
  lemma NothingIsLost(events: seq<Event>, i: nat)
    requires i < |events| && events[i].Enqueue? && NoDropSince(events, i)
    ensures Accounted(After(events), events[i].entry.id)
  {
    var e := events[i].entry;
    assert events[..i + 1] == events[..i] + [events[i]];
    SettledJoinsTheEnd(events[..i], e);
    var before, after := After(events[..i]), After(events[..i + 1]);
    if !Accounted(before, e.id) {
      assert after.queue.pending[|before.queue.pending|] == e && e in after.queue.pending;
    } else {
      assert forall x :: x in before.queue.pending ==> x in after.queue.pending;
    }
    StaysAccounted(events, i + 1, e.id);
  }

  /** Every completion a flush meets goes its way, and those that wait or are forwarded keep their order. */
  lemma FlushSortsOut(events: seq<Event>, session: SessionId, failing: set<TaskId>)
    ensures var before, after := After(events), After(events + [Flush(session, failing)]);
            var q := before.queue;
            && after.queue.pending == Filter(q.pending, (e: Entry) => e.id !in q.consumed && e.owner == session && e.id in failing)
            && Forwards(q, session, failing)
               == Filter(q.pending, (e: Entry) => e.id !in q.consumed && e.owner == session && e.id !in failing)
            && (forall id :: Forwarded(id) in after.facts <==>
                  Forwarded(id) in before.facts || exists e :: e in Forwards(q, session, failing) && e.id == id)
            && (forall id :: Foreign(id) in after.facts <==>
                  Foreign(id) in before.facts
                  || exists e :: e in q.pending && e.id !in q.consumed && e.owner != session && e.id == id)
  {
    RunKeepsInv(events);
    OneEventMore(events, Flush(session, failing));
    var r := After(events);
    var q := r.queue;
    var isLive := (e: Entry) => e.id !in q.consumed;
    PendingIsDistinct(r);
    LiveIsDistinct(q);
    FilterTwice(q.pending, isLive, (e: Entry) => Fails(e, session, failing),
                (e: Entry) => e.id !in q.consumed && e.owner == session && e.id in failing);
    FilterTwice(q.pending, isLive, (e: Entry) => Passes(e, session, failing),
                (e: Entry) => e.id !in q.consumed && e.owner == session && e.id !in failing);
    FilterMembers(q.pending, isLive);
    FilterMembers(Live(q), (e: Entry) => Passes(e, session, failing));
    OutcomeFacts(Live(q), session, failing);
    var facts := Outcomes(Live(q), session, failing);
    assert forall f :: f in After(events + [Flush(session, failing)]).facts <==> f in r.facts || f in facts;
  }

  /** Once a result was consumed, its task is not forwarded any more. */
  lemma {:induction false} ConsumedStaysBack(events: seq<Event>, i: nat)
    requires i < |events| && events[i].Consume? && NoDropSince(events, i)
    ensures events[i].id in After(events).queue.consumed
    ensures Forwarded(events[i].id) in After(events).facts ==> Forwarded(events[i].id) in After(events[..i]).facts
    decreases |events|
  {
    var n := |events| - 1;
    var id := events[i].id;
    assert events == events[..n] + [events[n]];
    if i == n {
      OneEventMore(events[..n], events[n]);
    } else {
      assert events[..n][..i] == events[..i];
      ConsumedStaysBack(events[..n], i);
      OneEventMore(events[..n], events[n]);
      if events[n].Flush? {
        FlushSortsOut(events[..n], events[n].session, events[n].failing);
        FilterMembers(Live(After(events[..n]).queue), (e: Entry) => Passes(e, events[n].session, events[n].failing));
        RunKeepsInv(events[..n]);
        PendingIsDistinct(After(events[..n]));
        LiveIsDistinct(After(events[..n]).queue);
      }
    }
  }

  lemma AcceptedOneMore(events: seq<Event>)
    requires events != []
    ensures var before, after, last := After(events[..|events| - 1]), After(events), events[|events| - 1];
            || after.accepted == (if last.DropAll? then [] else before.accepted)
            || (last.Enqueue? && after.accepted == before.accepted + [last.entry])
  {
    hide Flushed, Live;
  }

  /** What was accepted settled, in that order. */
  lemma {:induction false} AcceptedSettled(events: seq<Event>, i: nat) returns (a: nat)
    requires i < |After(events).accepted|
    ensures a < |events| && events[a] == Enqueue(After(events).accepted[i]) && NoDropSince(events, a)
    ensures |After(events[..a]).accepted| == i
    decreases |events|
  {
    hide Next;
    var n := |events| - 1;
    var before := After(events[..n]);
    AcceptedOneMore(events);
    if i < |before.accepted| {
      a := AcceptedSettled(events[..n], i);
      assert events[..n][..a] == events[..a];
    } else {
      a := n;
    }
  }

  lemma {:induction false} AcceptedGrows(events: seq<Event>, a: nat)
    requires a <= |events| && NoDropSince(events, a)
    ensures After(events[..a]).accepted <= After(events).accepted
    decreases |events|
  {
    if a == |events| {
      assert events[..a] == events;
    } else {
      assert events[..|events| - 1][..a] == events[..a];
      AcceptedGrows(events[..|events| - 1], a);
      AcceptedOneMore(events);
    }
  }

  /** Over every run, completions wait in the order in which they settled. */
  lemma PendingInSettleOrder(events: seq<Event>, i: nat, j: nat)
    requires i < j < |After(events).queue.pending|
    ensures var pending := After(events).queue.pending;
            exists a: nat, b: nat :: a < b < |events| && NoDropSince(events, a)
              && events[a] == Enqueue(pending[i]) && events[b] == Enqueue(pending[j])
  {
    PendingIsAccepted(events, i, j);
    var r := After(events);
    var k: nat, m: nat :| k < m < |r.accepted| && r.accepted[k] == r.queue.pending[i] && r.accepted[m] == r.queue.pending[j];
    var a := AcceptedSettled(events, k);
    var b := AcceptedSettled(events, m);
    if b < a {
      assert events[..a][..b] == events[..b];
      AcceptedGrows(events[..a], b);
    }
  }
}
