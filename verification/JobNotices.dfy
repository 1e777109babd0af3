/**
 * The queue of background-job notices for the parent session. A monitor's line
 * notice joins its previous one when nothing else of the job waits in between;
 * a flush hands everything over and keeps what the host refuses.
 */
module JobNotices {
  import opened Wrappers

  type SessionId(==) = string

  /** A job belongs to the session that started it. */
  datatype Job = Job(id: string, owner: SessionId)

  datatype StopReason = Timeout | Flood

  // ---- Event batches ----

  const LINES_PER_NOTICE := 20

  /** A line of output; its number among the monitor's lines tells it from equal ones. */
  datatype Line = Line(number: nat, text: string)

  /** The lines a notice shows, and how many more there were. */
  datatype Batch = Batch(lines: seq<Line>, omitted: nat)

  /** The batch that stands for `lines`. */
  function Summary(lines: seq<Line>): Batch {
    if |lines| <= LINES_PER_NOTICE then Batch(lines, 0)
    else Batch(lines[..LINES_PER_NOTICE], |lines| - LINES_PER_NOTICE)
  }

  /** One more stdout line of the batch being collected. */
  function WithLine(b: Batch, line: Line): Batch {
    if |b.lines| < LINES_PER_NOTICE then b.(lines := b.lines + [line]) else b.(omitted := b.omitted + 1)
  }

  /** `mergeMonitorBatches` */
  function Merge(first: Batch, second: Batch): Batch {
    var room := if |first.lines| < LINES_PER_NOTICE then LINES_PER_NOTICE - |first.lines| else 0;
    var shown := if |second.lines| <= room then second.lines else second.lines[..room];
    Batch(first.lines + shown, first.omitted + second.omitted + (|second.lines| - |shown|))
  }

  /** Collecting line by line gives the summary of all lines, and merging two summaries that of both. */
  lemma BatchesAreSummaries(a: seq<Line>, b: seq<Line>, line: Line)
    ensures WithLine(Summary(a), line) == Summary(a + [line])
    ensures Merge(Summary(a), Summary(b)) == Summary(a + b)
  {
    assert |a| >= LINES_PER_NOTICE ==> (a + [line])[..LINES_PER_NOTICE] == a[..LINES_PER_NOTICE];
    var m, s := Merge(Summary(a), Summary(b)), Summary(a + b);
    assert m.lines == s.lines && m.omitted == s.omitted;
  }

  /** Of any two batches, merging shows the first whole and as much of the second as fits, and counts all the rest. */
  lemma MergeLosesNothing(first: Batch, second: Batch, line: Line)
    ensures var m := Merge(first, second);
            && |m.lines| + m.omitted == |first.lines| + first.omitted + |second.lines| + second.omitted
            && first.lines <= m.lines && m.lines[|first.lines|..] <= second.lines
            && (m.lines == first.lines + second.lines || |m.lines| == if |first.lines| < LINES_PER_NOTICE then LINES_PER_NOTICE else |first.lines|)
    ensures var m := WithLine(first, line);
            && |m.lines| + m.omitted == |first.lines| + first.omitted + 1
            && m.lines == if |first.lines| < LINES_PER_NOTICE then first.lines + [line] else first.lines
  {
  }

  // ---- Notices and what they stand for ----

  datatype Kind = Events(batch: Batch) | Stopped(reason: StopReason) | Exit

  datatype Notice = Notice(job: Job, kind: Kind)

  /** What a notice reports, with every line of it. */
  datatype Report = Lines(lines: seq<Line>) | Halt(reason: StopReason) | End

  datatype Item = Item(job: Job, report: Report)

  function Shown(item: Item): Notice {
    match item.report
    case Lines(lines) => Notice(item.job, Events(Summary(lines)))
    case Halt(reason) => Notice(item.job, Stopped(reason))
    case End => Notice(item.job, Exit)
  }

  /** A notice tells its job and what it is: a stop with its reason, an end, or the bounded summary of its lines. */
  lemma ShownTells(item: Item)
    ensures Shown(item).job == item.job
    ensures Shown(item).kind.Events? <==> item.report.Lines?
    ensures Shown(item).kind.Stopped? <==> item.report.Halt?
    ensures item.report.Halt? ==> Shown(item).kind.reason == item.report.reason
    ensures item.report.Lines? ==>
              var batch, lines := Shown(item).kind.batch, item.report.lines;
              && batch.lines <= lines && |batch.lines| + batch.omitted == |lines|
              && (batch.omitted > 0 ==> |batch.lines| == LINES_PER_NOTICE) && |batch.lines| <= LINES_PER_NOTICE
  {
  }

  function AllShown(items: seq<Item>): (r: seq<Notice>)
    ensures |r| == |items| && forall k :: 0 <= k < |items| ==> r[k] == Shown(items[k])
  {
    seq(|items|, k requires 0 <= k < |items| => Shown(items[k]))
  }

  /** The smallest pieces a job reports, in the order in which it reports them. */
  datatype Token = Said(line: Line) | Halted(reason: StopReason) | Ended

  function Tokens(report: Report): seq<Token> {
    match report
    case Lines(lines) => seq(|lines|, k requires 0 <= k < |lines| => Said(lines[k]))
    case Halt(reason) => [Halted(reason)]
    case End => [Ended]
  }

  /** Reports that differ read differently. */
  lemma TokensTell(a: Report, b: Report)
    ensures Tokens(a) == Tokens(b) <==> a == b
  {
    if a.Lines? && b.Lines? {
      if Tokens(a) == Tokens(b) {
        assert |a.lines| == |Tokens(a)| == |Tokens(b)| == |b.lines|;
        forall k | 0 <= k < |a.lines| ensures a.lines[k] == b.lines[k] { assert Tokens(a)[k] == Tokens(b)[k]; }
        assert a.lines == b.lines;
      }
    } else if a != b && |Tokens(a)| == |Tokens(b)| {
      assert Tokens(a)[0] != Tokens(b)[0];
    }
  }

  function StreamOf(items: seq<Item>, job: Job): seq<Token> {
    if items == [] then []
    else (if items[0].job == job then Tokens(items[0].report) else []) + StreamOf(items[1..], job)
  }

  lemma {:induction false} StreamConcat(a: seq<Item>, b: seq<Item>, job: Job)
    ensures StreamOf(a + b, job) == StreamOf(a, job) + StreamOf(b, job)
  {
    if a == [] {
      assert a + b == b;
    } else {
      assert (a + b)[0] == a[0] && (a + b)[1..] == a[1..] + b;
      StreamConcat(a[1..], b, job);
    }
  }

  lemma {:induction false} SilentStream(items: seq<Item>, job: Job)
    requires forall k :: 0 <= k < |items| ==> items[k].job != job
    ensures StreamOf(items, job) == []
  {
    if items != [] { SilentStream(items[1..], job); }
  }

  // ---- Queueing ----

  /** The job's latest pending notice. */
  function LatestOf(items: seq<Item>, job: Job): (r: Option<nat>)
    ensures r.Some? ==> r.value < |items| && items[r.value].job == job
    ensures r.Some? ==> forall k :: r.value < k < |items| ==> items[k].job != job
    ensures r.None? ==> forall k :: 0 <= k < |items| ==> items[k].job != job
  {
    if items == [] then None
    else if items[|items| - 1].job == job then Some(|items| - 1)
    else LatestOf(items[..|items| - 1], job)
  }

  function Queued(items: seq<Item>, item: Item): seq<Item> {
    var latest := LatestOf(items, item.job);
    if latest.Some? && items[latest.value].report.Lines? && item.report.Lines? then
      items[latest.value := Item(item.job, Lines(items[latest.value].report.lines + item.report.lines))]
    else items + [item]
  }

  /** The notice at `k` is the job's last, and lines join it. */
  predicate Joins(items: seq<Item>, item: Item, k: nat) {
    && k < |items| && items[k].job == item.job && (forall m :: k < m < |items| ==> items[m].job != item.job)
    && items[k].report.Lines? && item.report.Lines?
  }

  /**
   * Queueing touches one place: lines join the job's last pending notice, where
   * it stands, exactly if that is a notice of lines; anything else waits behind
   * the notices of all jobs.
   */
  lemma QueuedExactly(items: seq<Item>, item: Item)
    ensures forall k: nat :: Joins(items, item, k) ==>
              Queued(items, item) == items[k := Item(item.job, Lines(items[k].report.lines + item.report.lines))]
    ensures (forall k: nat :: !Joins(items, item, k)) ==> Queued(items, item) == items + [item]
  {
    hide LatestOf;
    var latest := LatestOf(items, item.job);
    forall k: nat | Joins(items, item, k) ensures latest == Some(k) {}
    if forall k: nat :: !Joins(items, item, k) {
      assert latest.Some? ==> !Joins(items, item, latest.value);
    }
  }

  /** The job's own notices, in order. */
  function Mine(items: seq<Item>, job: Job): seq<Report> {
    if items == [] then []
    else (if items[0].job == job then [items[0].report] else []) + Mine(items[1..], job)
  }

  /** No two line notices are neighbours among the job's own. */
  predicate Coalesced(items: seq<Item>, job: Job) {
    NoNeighbours(Mine(items, job))
  }

  predicate NoNeighbours(reports: seq<Report>) {
    forall k :: 0 < k < |reports| ==> !(reports[k - 1].Lines? && reports[k].Lines?)
  }

  lemma MergedExtendsStream(items: seq<Item>, k: nat, more: seq<Line>, job: Job)
    requires k < |items| && items[k].report.Lines?
    requires forall m :: k < m < |items| ==> items[m].job != items[k].job
    ensures var merged := Item(items[k].job, Lines(items[k].report.lines + more));
            StreamOf(items[k := merged], job)
            == StreamOf(items, job) + if items[k].job == job then Tokens(Lines(more)) else []
  {
    hide StreamOf;
    var merged := Item(items[k].job, Lines(items[k].report.lines + more));
    var front, back := items[..k], items[k + 1..];
    assert items == front + ([items[k]] + back) && items[k := merged] == front + ([merged] + back);
    StreamConcat(front, [items[k]] + back, job);
    StreamConcat(front, [merged] + back, job);
    StreamConcat([items[k]], back, job);
    StreamConcat([merged], back, job);
    StreamOfOne(items[k], job);
    StreamOfOne(merged, job);
    if items[k].job == job {
      SilentStream(back, job);
      assert Tokens(merged.report) == Tokens(items[k].report) + Tokens(Lines(more));
    }
  }

  /** A queued notice extends its own job's stream at the end and no other's. */
  lemma QueuedExtendsStream(items: seq<Item>, item: Item, job: Job)
    ensures StreamOf(Queued(items, item), job)
         == StreamOf(items, job) + if item.job == job then Tokens(item.report) else []
  {
    hide StreamOf, Tokens, LatestOf;
    var latest := LatestOf(items, item.job);
    if latest.Some? && items[latest.value].report.Lines? && item.report.Lines? {
      MergedExtendsStream(items, latest.value, item.report.lines, job);
    } else {
      StreamConcat(items, [item], job);
      StreamOfOne(item, job);
    }
  }

  lemma {:induction false} MineConcat(a: seq<Item>, b: seq<Item>, job: Job)
    ensures Mine(a + b, job) == Mine(a, job) + Mine(b, job)
  {
    if a == [] {
      assert a + b == b;
    } else {
      assert (a + b)[0] == a[0] && (a + b)[1..] == a[1..] + b;
      MineConcat(a[1..], b, job);
    }
  }

  lemma {:induction false} NoneMine(items: seq<Item>, job: Job)
    ensures Mine(items, job) == [] <==> forall k :: 0 <= k < |items| ==> items[k].job != job
  {
    if items != [] {
      NoneMine(items[1..], job);
      assert forall k :: 0 < k < |items| ==> items[k] == items[1..][k - 1];
    }
  }

  /** The latest notice is the last of the job's own. */
  lemma LatestIsLast(items: seq<Item>, k: nat, job: Job)
    requires k < |items| && items[k].job == job
    requires forall m :: k < m < |items| ==> items[m].job != job
    ensures Mine(items, job) == Mine(items[..k], job) + [items[k].report]
  {
    var one, back := [items[k]], items[k + 1..];
    assert items == items[..k] + (one + back);
    MineConcat(items[..k], one + back, job);
    MineConcat(one, back, job);
    NoneMine(back, job);
    assert Mine(one, job) == [items[k].report] by { assert one[1..] == []; }
  }

  lemma QueuedStaysCoalesced(items: seq<Item>, item: Item, job: Job)
    requires Coalesced(items, job)
    ensures Coalesced(Queued(items, item), job)
  {
    hide Mine;
    var latest := LatestOf(items, item.job);
    if latest.Some? && items[latest.value].report.Lines? && item.report.Lines? {
      var k := latest.value;
      var merged := Item(item.job, Lines(items[k].report.lines + item.report.lines));
      var after := items[k := merged];
      if item.job == job {
        LatestIsLast(items, k, job);
        LatestIsLast(after, k, job);
        assert after[..k] == items[..k];
        LinesForLines(Mine(items[..k], job), items[k].report, merged.report);
      } else {
        OthersAreNotMine(items, k, merged, job);
      }
    } else {
      MineConcat(items, [item], job);
      MineOfOne(item, job);
      if latest.Some? { LatestIsLast(items, latest.value, item.job); } else { NoneMine(items, item.job); }
    }
  }

  lemma LinesForLines(front: seq<Report>, last: Report, other: Report)
    requires NoNeighbours(front + [last]) && last.Lines? && other.Lines?
    ensures NoNeighbours(front + [other])
  {
    var before, after := front + [last], front + [other];
    assert forall k :: 0 <= k < |after| ==> (before[k].Lines? <==> after[k].Lines?);
  }

  lemma MineOfOne(item: Item, job: Job)
    ensures Mine([item], job) == if item.job == job then [item.report] else []
  {
  }

  lemma OthersAreNotMine(items: seq<Item>, k: nat, other: Item, job: Job)
    requires k < |items| && items[k].job != job && other.job != job
    ensures Mine(items[k := other], job) == Mine(items, job)
  {
    hide Mine;
    var front, back := items[..k], items[k + 1..];
    assert items == front + ([items[k]] + back) && items[k := other] == front + ([other] + back);
    MineConcat(front, [items[k]] + back, job);
    MineConcat(front, [other] + back, job);
    MineConcat([items[k]], back, job);
    MineConcat([other], back, job);
    MineOfOne(items[k], job);
    MineOfOne(other, job);
  }

  // ---- Flushing ----

  /** One flush: the notices at the positions `refused` are the ones the host does not accept. */
  function KeptFrom(items: seq<Item>, session: SessionId, refused: set<nat>, i: nat): seq<Item>
    decreases |items| - i
  {
    if i >= |items| then []
    else (if items[i].job.owner == session && i in refused then [items[i]] else [])
         + KeptFrom(items, session, refused, i + 1)
  }

  function SentFrom(items: seq<Item>, session: SessionId, refused: set<nat>, i: nat): seq<Item>
    decreases |items| - i
  {
    if i >= |items| then []
    else (if items[i].job.owner == session && i !in refused then [items[i]] else [])
         + SentFrom(items, session, refused, i + 1)
  }

  /** Notices of other sessions' jobs, which a flush discards. */
  function ForeignFrom(items: seq<Item>, session: SessionId, i: nat): seq<Item>
    decreases |items| - i
  {
    if i >= |items| then []
    else (if items[i].job.owner != session then [items[i]] else []) + ForeignFrom(items, session, i + 1)
  }

  datatype Place = ToHost | Back | Away

  /** Where a flush puts the notice at `k`. */
  function PlaceOf(items: seq<Item>, session: SessionId, refused: set<nat>, k: nat): Place
    requires k < |items|
  {
    if items[k].job.owner != session then Away else if k in refused then Back else ToHost
  }

  /** These are the items of one place, in the order of the queue. */
  predicate AreItemsAt(items: seq<Item>, session: SessionId, refused: set<nat>, i: nat, place: Place, at: seq<nat>, part: seq<Item>) {
    && |at| == |part|
    && (forall n :: 0 <= n < |at| ==> i <= at[n] < |items| && PlaceOf(items, session, refused, at[n]) == place && part[n] == items[at[n]])
    && (forall m, n :: 0 <= m < n < |at| ==> at[m] < at[n])
  }

  /** And from `i` on there are no others. */
  predicate AreAll(items: seq<Item>, session: SessionId, refused: set<nat>, i: nat, place: Place, at: seq<nat>) {
    forall k: nat :: i <= k < |items| && PlaceOf(items, session, refused, k) == place ==> k in at
  }

  predicate ArePositions(items: seq<Item>, session: SessionId, refused: set<nat>, i: nat, place: Place, at: seq<nat>, part: seq<Item>) {
    AreItemsAt(items, session, refused, i, place, at, part) && AreAll(items, session, refused, i, place, at)
  }

  lemma PositionsGrow(items: seq<Item>, session: SessionId, refused: set<nat>, i: nat, place: Place, at: seq<nat>, part: seq<Item>)
    requires i < |items| && ArePositions(items, session, refused, i + 1, place, at, part)
    ensures PlaceOf(items, session, refused, i) == place ==>
              ArePositions(items, session, refused, i, place, [i] + at, [items[i]] + part)
    ensures PlaceOf(items, session, refused, i) != place ==> ArePositions(items, session, refused, i, place, at, part)
  {
    hide PlaceOf, AreItemsAt;
    if PlaceOf(items, session, refused, i) == place {
      ItemAdded(items, session, refused, i, place, at, part);
      assert forall k :: k in [i] + at <==> k == i || k in at;
    } else {
      ItemsStay(items, session, refused, i, place, at, part);
    }
  }

  lemma ItemsStay(items: seq<Item>, session: SessionId, refused: set<nat>, i: nat, place: Place, at: seq<nat>, part: seq<Item>)
    requires AreItemsAt(items, session, refused, i + 1, place, at, part)
    ensures AreItemsAt(items, session, refused, i, place, at, part)
  {
    hide PlaceOf;
  }

  lemma ItemAdded(items: seq<Item>, session: SessionId, refused: set<nat>, i: nat, place: Place, at: seq<nat>, part: seq<Item>)
    requires i < |items| && AreItemsAt(items, session, refused, i + 1, place, at, part) && PlaceOf(items, session, refused, i) == place
    ensures AreItemsAt(items, session, refused, i, place, [i] + at, [items[i]] + part)
  {
    hide PlaceOf;
    var all, whole := [i] + at, [items[i]] + part;
    forall n | 0 <= n < |all|
      ensures i <= all[n] < |items| && PlaceOf(items, session, refused, all[n]) == place && whole[n] == items[all[n]]
    {
      if n > 0 { assert all[n] == at[n - 1] && whole[n] == part[n - 1]; }
    }
    forall m, n | 0 <= m < n < |all|
      ensures all[m] < all[n]
    {
      if m > 0 { assert all[m] == at[m - 1]; }
      assert all[n] == at[n - 1];
    }
  }

  /**
   * A flush sorts the whole queue, over all jobs, without moving anything: sent
   * are the notices of the session that the host accepts, kept those it
   * refuses, and discarded those of other sessions.
   */
  lemma {:induction false} FlushSortsOut(items: seq<Item>, session: SessionId, refused: set<nat>, i: nat)
      returns (sent: seq<nat>, kept: seq<nat>, away: seq<nat>)
    requires i <= |items|
    ensures ArePositions(items, session, refused, i, ToHost, sent, SentFrom(items, session, refused, i))
    ensures ArePositions(items, session, refused, i, Back, kept, KeptFrom(items, session, refused, i))
    ensures ArePositions(items, session, refused, i, Away, away, ForeignFrom(items, session, i))
    decreases |items| - i
  {
    if i == |items| { return [], [], []; }
    hide ArePositions;
    sent, kept, away := FlushSortsOut(items, session, refused, i + 1);
    var toHost, back, gone := SentFrom(items, session, refused, i + 1), KeptFrom(items, session, refused, i + 1), ForeignFrom(items, session, i + 1);
    PositionsGrow(items, session, refused, i, ToHost, sent, toHost);
    PositionsGrow(items, session, refused, i, Back, kept, back);
    PositionsGrow(items, session, refused, i, Away, away, gone);
    assert [] + toHost == toHost && [] + back == back && [] + gone == gone;
    match PlaceOf(items, session, refused, i)
    case ToHost => sent := [i] + sent;
    case Back => kept := [i] + kept;
    case Away => away := [i] + away;
  }

  /** No notice of the job is accepted after one of it was refused. */
  predicate Orderly(items: seq<Item>, refused: set<nat>, job: Job) {
    forall i, k :: 0 <= i < k < |items| && items[i].job == items[k].job == job && i in refused ==> k in refused
  }

  /** Where the tokens of the notice at `i` go. */
  lemma FlushStep(items: seq<Item>, session: SessionId, refused: set<nat>, i: nat, job: Job)
    requires i < |items|
    ensures var tokens := if items[i].job == job then Tokens(items[i].report) else [];
            var mine := items[i].job.owner == session;
            && StreamOf(items[i..], job) == tokens + StreamOf(items[i + 1..], job)
            && StreamOf(SentFrom(items, session, refused, i), job)
               == (if mine && i !in refused then tokens else []) + StreamOf(SentFrom(items, session, refused, i + 1), job)
            && StreamOf(KeptFrom(items, session, refused, i), job)
               == (if mine && i in refused then tokens else []) + StreamOf(KeptFrom(items, session, refused, i + 1), job)
            && StreamOf(ForeignFrom(items, session, i), job)
               == (if mine then [] else tokens) + StreamOf(ForeignFrom(items, session, i + 1), job)
  {
    var one := [items[i]];
    var mine := items[i].job.owner == session;
    assert items[i..] == one + items[i + 1..];
    StreamConcat(one, items[i + 1..], job);
    StreamConcat(if mine && i !in refused then one else [], SentFrom(items, session, refused, i + 1), job);
    StreamConcat(if mine && i in refused then one else [], KeptFrom(items, session, refused, i + 1), job);
    StreamConcat(if mine then [] else one, ForeignFrom(items, session, i + 1), job);
    StreamOfOne(items[i], job);
  }

  lemma StreamOfOne(item: Item, job: Job)
    ensures StreamOf([item], job) == if item.job == job then Tokens(item.report) else []
  {
  }

  lemma {:induction false} NothingSent(items: seq<Item>, session: SessionId, refused: set<nat>, i: nat, job: Job)
    requires i <= |items|
    requires forall k :: i <= k < |items| && items[k].job == job ==> k in refused
    ensures StreamOf(SentFrom(items, session, refused, i), job) == []
    decreases |items| - i
  {
    if i < |items| {
      hide StreamOf, SentFrom;
      NothingSent(items, session, refused, i + 1, job);
      FlushStep(items, session, refused, i, job);
    }
  }

  /** An orderly flush splits the job's stream: first what was sent, then what still waits. */
  lemma {:induction false} FlushSplitsStream(items: seq<Item>, session: SessionId, refused: set<nat>, i: nat, job: Job)
    requires i <= |items| && job.owner == session && Orderly(items, refused, job)
    ensures StreamOf(SentFrom(items, session, refused, i), job) + StreamOf(KeptFrom(items, session, refused, i), job)
         == StreamOf(items[i..], job)
    decreases |items| - i
  {
    if i < |items| {
      FlushSplitsStream(items, session, refused, i + 1, job);
      if items[i].job == job && i in refused {
        RefusalIsFinal(items, refused, i, job);
        NothingSent(items, session, refused, i + 1, job);
      }
      FlushSplitsStep(items, session, refused, i, job);
    }
  }

  lemma FlushSplitsStep(items: seq<Item>, session: SessionId, refused: set<nat>, i: nat, job: Job)
    requires i < |items| && job.owner == session
    requires items[i].job == job && i in refused ==> StreamOf(SentFrom(items, session, refused, i + 1), job) == []
    requires StreamOf(SentFrom(items, session, refused, i + 1), job)
             + StreamOf(KeptFrom(items, session, refused, i + 1), job) == StreamOf(items[i + 1..], job)
    ensures StreamOf(SentFrom(items, session, refused, i), job) + StreamOf(KeptFrom(items, session, refused, i), job)
         == StreamOf(items[i..], job)
  {
    hide StreamOf, SentFrom, KeptFrom, ForeignFrom, Tokens;
    FlushStep(items, session, refused, i, job);
    var tokens := Tokens(items[i].report);
    var sent := StreamOf(SentFrom(items, session, refused, i + 1), job);
    var kept := StreamOf(KeptFrom(items, session, refused, i + 1), job);
    if items[i].job != job {
    } else if i in refused {
      assert [] + sent + (tokens + kept) == tokens + (sent + kept);
    } else {
      assert tokens + sent + ([] + kept) == tokens + (sent + kept);
    }
  }

  lemma RefusalIsFinal(items: seq<Item>, refused: set<nat>, i: nat, job: Job)
    requires Orderly(items, refused, job) && i < |items| && items[i].job == job && i in refused
    ensures forall k :: i < k < |items| && items[k].job == job ==> k in refused
  {
  }

  // ---- Order, notice by notice ----

  /** The positions of the job's notices, from `i` on. */
  function Positions(items: seq<Item>, job: Job, i: nat): seq<nat>
    decreases |items| - i
  {
    if i >= |items| then [] else (if items[i].job == job then [i] else []) + Positions(items, job, i + 1)
  }

  function Accepted(items: seq<Item>, refused: set<nat>, job: Job, i: nat): seq<nat>
    decreases |items| - i
  {
    if i >= |items| then []
    else (if items[i].job == job && i !in refused then [i] else []) + Accepted(items, refused, job, i + 1)
  }

  function Refusals(items: seq<Item>, refused: set<nat>, job: Job, i: nat): seq<nat>
    decreases |items| - i
  {
    if i >= |items| then []
    else (if items[i].job == job && i in refused then [i] else []) + Refusals(items, refused, job, i + 1)
  }

  lemma {:induction false} PositionsIncrease(items: seq<Item>, job: Job, i: nat)
    ensures forall n :: 0 <= n < |Positions(items, job, i)| ==> i <= Positions(items, job, i)[n]
    ensures forall m, n :: 0 <= m < n < |Positions(items, job, i)| ==> Positions(items, job, i)[m] < Positions(items, job, i)[n]
    decreases |items| - i
  {
    if i < |items| { PositionsIncrease(items, job, i + 1); }
  }

  lemma {:induction false} WhereItIs(items: seq<Item>, refused: set<nat>, job: Job, i: nat, k: nat)
    requires i <= k < |items| && items[k].job == job
    ensures if k in refused then k in Refusals(items, refused, job, i) else k in Accepted(items, refused, job, i)
    decreases |items| - i
  {
    if i < k { WhereItIs(items, refused, job, i + 1, k); }
  }

  lemma {:induction false} AcceptedThenRefused(items: seq<Item>, refused: set<nat>, job: Job, i: nat)
    requires Orderly(items, refused, job)
    ensures Accepted(items, refused, job, i) + Refusals(items, refused, job, i) == Positions(items, job, i)
    decreases |items| - i
  {
    if i < |items| {
      AcceptedThenRefused(items, refused, job, i + 1);
      if items[i].job == job && i in refused { NoneAccepted(items, refused, job, i + 1); }
    }
  }

  lemma {:induction false} NoneAccepted(items: seq<Item>, refused: set<nat>, job: Job, i: nat)
    requires forall k :: i <= k < |items| && items[k].job == job ==> k in refused
    ensures Accepted(items, refused, job, i) == []
    decreases |items| - i
  {
    if i < |items| { NoneAccepted(items, refused, job, i + 1); }
  }

  /** A flush keeps a job's order exactly when it accepts none of its notices after refusing one. */
  lemma OrderlyMeansInOrder(items: seq<Item>, refused: set<nat>, job: Job)
    ensures Accepted(items, refused, job, 0) + Refusals(items, refused, job, 0) == Positions(items, job, 0)
       <==> Orderly(items, refused, job)
  {
    hide Positions, Accepted, Refusals;
    if Orderly(items, refused, job) {
      AcceptedThenRefused(items, refused, job, 0);
    } else {
      var i: nat, k: nat :| i < k < |items| && items[i].job == items[k].job == job && i in refused && k !in refused;
      WhereItIs(items, refused, job, 0, i);
      WhereItIs(items, refused, job, 0, k);
      PositionsIncrease(items, job, 0);
      var a, r := Accepted(items, refused, job, 0), Refusals(items, refused, job, 0);
      var n :| 0 <= n < |a| && a[n] == k;
      var m :| 0 <= m < |r| && r[m] == i;
      assert (a + r)[n] == k && (a + r)[|a| + m] == i;
    }
  }

  /** What the notice at `i` adds to the job's own. */
  lemma MineStep(items: seq<Item>, session: SessionId, refused: set<nat>, i: nat, job: Job)
    requires i < |items| && job.owner == session
    ensures var head := if items[i].job == job then [items[i].report] else [];
            && Mine(items[i..], job) == head + Mine(items[i + 1..], job)
            && Mine(KeptFrom(items, session, refused, i), job)
               == (if i in refused then head else []) + Mine(KeptFrom(items, session, refused, i + 1), job)
  {
    hide Mine;
    var one, next := [items[i]], KeptFrom(items, session, refused, i + 1);
    assert items[i..] == one + items[i + 1..];
    MineConcat(one, items[i + 1..], job);
    MineOfOne(items[i], job);
    if items[i].job.owner == session && i in refused {
      MineConcat(one, next, job);
    } else {
      assert [] + next == next && [] + Mine(next, job) == Mine(next, job);
    }
  }

  lemma {:induction false} AllRefusedStay(items: seq<Item>, session: SessionId, refused: set<nat>, i: nat, job: Job)
    requires i <= |items| && job.owner == session
    requires forall k :: i <= k < |items| && items[k].job == job ==> k in refused
    ensures Mine(KeptFrom(items, session, refused, i), job) == Mine(items[i..], job)
    decreases |items| - i
  {
    if i < |items| {
      hide Mine, KeptFrom;
      AllRefusedStay(items, session, refused, i + 1, job);
      MineStep(items, session, refused, i, job);
    }
  }

  predicate IsEndOf(kept: seq<Report>, all: seq<Report>) {
    |kept| <= |all| && kept == all[|all| - |kept|..]
  }

  /** What an orderly flush keeps of a job is the end of what waited. */
  lemma {:induction false} KeptIsTheEnd(items: seq<Item>, session: SessionId, refused: set<nat>, i: nat, job: Job)
    requires i <= |items| && job.owner == session && Orderly(items, refused, job)
    ensures IsEndOf(Mine(KeptFrom(items, session, refused, i), job), Mine(items[i..], job))
    decreases |items| - i
  {
    if i < |items| {
      hide Mine, KeptFrom, Orderly;
      if items[i].job == job && i in refused {
        RefusalIsFinal(items, refused, i, job);
        AllRefusedStay(items, session, refused, i, job);
      } else {
        KeptIsTheEnd(items, session, refused, i + 1, job);
        MineStep(items, session, refused, i, job);
        var kept := Mine(KeptFrom(items, session, refused, i + 1), job);
        assert [] + kept == kept;
      }
    } else {
      assert items[i..] == [];
    }
  }

  lemma EndHasNoNeighbours(all: seq<Report>, kept: seq<Report>)
    requires NoNeighbours(all) && IsEndOf(kept, all)
    ensures NoNeighbours(kept)
  {
    var d := |all| - |kept|;
    assert forall k :: 0 <= k < |kept| ==> kept[k] == all[d + k];
  }

  /** Whatever the host refuses, a flush neither loses nor repeats what a job reported. */
  lemma {:induction false} FlushConserves(items: seq<Item>, session: SessionId, refused: set<nat>, i: nat, job: Job)
    requires i <= |items|
    ensures multiset(StreamOf(items[i..], job)) == multiset(StreamOf(SentFrom(items, session, refused, i), job))
                                                 + multiset(StreamOf(KeptFrom(items, session, refused, i), job))
                                                 + multiset(StreamOf(ForeignFrom(items, session, i), job))
    decreases |items| - i
  {
    if i < |items| {
      hide StreamOf, SentFrom, KeptFrom, ForeignFrom, Tokens;
      FlushConserves(items, session, refused, i + 1, job);
      FlushStep(items, session, refused, i, job);
      var tokens := if items[i].job == job then Tokens(items[i].report) else [];
      var mine := items[i].job.owner == session;
      OnePartGrows(tokens, StreamOf(SentFrom(items, session, refused, i + 1), job),
                   StreamOf(KeptFrom(items, session, refused, i + 1), job),
                   StreamOf(ForeignFrom(items, session, i + 1), job), mine && i !in refused, mine && i in refused);
    } else {
      assert items[i..] == [];
    }
  }

  lemma OnePartGrows(tokens: seq<Token>, a: seq<Token>, b: seq<Token>, c: seq<Token>, toA: bool, toB: bool)
    requires !(toA && toB)
    ensures multiset((if toA then tokens else []) + a) + multiset((if toB then tokens else []) + b)
            + multiset((if toA || toB then [] else tokens) + c)
         == multiset(tokens) + (multiset(a) + multiset(b) + multiset(c))
  {
    assert [] + a == a && [] + b == b && [] + c == c;
  }

  // ---- The queue as the extension holds it ----

  lemma ShownAppend(items: seq<Item>, item: Item)
    ensures AllShown(items + [item]) == AllShown(items) + [Shown(item)]
    ensures AllShown([]) == []
  {
  }

  lemma NothingLeft(items: seq<Item>, session: SessionId, refused: set<nat>)
    ensures SentFrom(items, session, refused, |items|) == [] && KeptFrom(items, session, refused, |items|) == []
    ensures AllShown([]) == []
  {
  }

  lemma FlushUnfolds(all: seq<Item>, session: SessionId, refused: set<nat>, i: nat, sent: seq<Item>, kept: seq<Item>)
    requires i < |all|
    ensures var one, mine := [all[i]], Shown(all[i]).job.owner == session;
            && sent + SentFrom(all, session, refused, i)
               == (if mine && i !in refused then sent + one else sent) + SentFrom(all, session, refused, i + 1)
            && kept + KeptFrom(all, session, refused, i)
               == (if mine && i in refused then kept + one else kept) + KeptFrom(all, session, refused, i + 1)
  {
    var one, sentNext, keptNext := [all[i]], SentFrom(all, session, refused, i + 1), KeptFrom(all, session, refused, i + 1);
    assert sent + one + sentNext == sent + (one + sentNext) && kept + one + keptNext == kept + (one + keptNext);
    assert [] + sentNext == sentNext && [] + keptNext == keptNext;
  }

  class NoticeQueue {
    var jobNotices: seq<Notice>
    ghost var items: seq<Item>

    ghost predicate Valid()
      reads this
    {
      jobNotices == AllShown(items)
    }

    constructor ()
      ensures Valid() && items == []
    {
      jobNotices, items := [], [];
    }

    /** Searches from the end for the job; two line notices become one, anything else is appended. */
    method QueueJobNotice(notice: Notice, ghost item: Item)
      requires Valid() && notice == Shown(item)
      modifies this
      ensures Valid() && items == Queued(old(items), item)
    {
      var index := |jobNotices|;
      while index > 0 && jobNotices[index - 1].job != notice.job
        invariant 0 <= index <= |jobNotices| == |items|
        invariant forall k :: index <= k < |items| ==> items[k].job != notice.job
      {
        index := index - 1;
      }
      ghost var latest := LatestOf(items, item.job);
      if index > 0 {
        assert items[index - 1].job == item.job;
        assert latest == Some(index - 1);
        var pending := jobNotices[index - 1];
        if notice.kind.Events? && pending.kind.Events? {
          BatchesAreSummaries(items[index - 1].report.lines, item.report.lines, Line(0, ""));
          jobNotices := jobNotices[index - 1 := pending.(kind := Events(Merge(pending.kind.batch, notice.kind.batch)))];
          items := Queued(items, item);
          return;
        }
      }
      jobNotices := jobNotices + [notice];
      items := items + [item];
    }

    /** Hands every pending notice of the session to the host; refused ones wait at the front. */
    method Flush(session: SessionId, refused: set<nat>) returns (sent: seq<Notice>)
      requires Valid()
      modifies this
      ensures Valid() && items == KeptFrom(old(items), session, refused, 0)
      ensures sent == AllShown(SentFrom(old(items), session, refused, 0))
    {
      hide SentFrom, KeptFrom, AllShown;
      NothingLeft(items, session, refused);
      var taken := jobNotices;
      ghost var all := items;
      jobNotices, sent := [], [];
      var failed: seq<Notice> := [];
      ghost var sentItems: seq<Item>, keptItems: seq<Item> := [], [];
      for i := 0 to |taken|
        invariant jobNotices == [] && taken == AllShown(all)
        invariant sent == AllShown(sentItems) && failed == AllShown(keptItems)
        invariant sentItems + SentFrom(all, session, refused, i) == SentFrom(all, session, refused, 0)
        invariant keptItems + KeptFrom(all, session, refused, i) == KeptFrom(all, session, refused, 0)
      {
        assert taken[i] == Shown(all[i]);
        FlushUnfolds(all, session, refused, i, sentItems, keptItems);
        if taken[i].job.owner != session { continue; }
        if i in refused {
          failed := failed + [taken[i]];
          ShownAppend(keptItems, all[i]);
          keptItems := keptItems + [all[i]];
        } else {
          sent := sent + [taken[i]];
          ShownAppend(sentItems, all[i]);
          sentItems := sentItems + [all[i]];
        }
      }
      jobNotices := failed + jobNotices;
      items := keptItems;
    }

    /** A session change forgets every pending notice. */
    method Clear()
      modifies this
      ensures Valid() && items == []
    {
      jobNotices, items := [], [];
    }
  }
}
