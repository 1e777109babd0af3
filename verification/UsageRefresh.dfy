/**
 * Refreshing the usage of model providers. Refreshes of one provider overlap;
 * each takes the provider's next generation when it is dispatched, and when it
 * settles it may change the provider only if it is still the newest.
 */
module UsageRefresh {
  import opened Wrappers

  type Provider(==) = string
  type Snapshot(==) = string

  /** A registered source is an object: registering again replaces it. */
  type Source(==) = nat

  const REFRESH_MS := 5 * 60_000
  const CODEX: Provider := "openai-codex"
  const NAN: Provider := "nan"

  /** A refresh between its dispatch and its settling. */
  datatype Refresh = Refresh(provider: Provider, generation: nat, source: Option<Source>)

  /** Everything that changes what is known of a provider. */
  datatype Fact =
    | Refreshed(provider: Provider, generation: nat, result: Option<Snapshot>)
    | Answered(provider: Provider, snapshot: Snapshot)

  /** The last thing that changed the provider. */
  function LastOf(log: seq<Fact>, p: Provider): (r: Option<Fact>)
    ensures r.Some? ==> r.value in log && r.value.provider == p
    ensures r.None? ==> forall f :: f in log ==> f.provider != p
  {
    if log == [] then None
    else if log[|log| - 1].provider == p then Some(log[|log| - 1])
    else
      var r := LastOf(log[..|log| - 1], p);
      assert log == log[..|log| - 1] + [log[|log| - 1]];
      r
  }

  predicate IsFailure(f: Fact) { f.Refreshed? && f.result.None? }

  /** The last snapshot recorded for the provider. */
  function LastSnapshot(log: seq<Fact>, p: Provider): Option<Snapshot> {
    if log == [] then None
    else
      match log[|log| - 1]
      case Refreshed(q, _, Some(snapshot)) => if q == p then Some(snapshot) else LastSnapshot(log[..|log| - 1], p)
      case Answered(q, snapshot) => if q == p then Some(snapshot) else LastSnapshot(log[..|log| - 1], p)
      case Refreshed(_, _, None) => LastSnapshot(log[..|log| - 1], p)
  }

  lemma Appended(log: seq<Fact>, f: Fact, p: Provider)
    ensures LastOf(log + [f], p) == if f.provider == p then Some(f) else LastOf(log, p)
    ensures LastSnapshot(log + [f], p) ==
              if f.provider != p || IsFailure(f) then LastSnapshot(log, p)
              else Some(if f.Answered? then f.snapshot else f.result.value)
  {
    assert (log + [f])[..|log|] == log;
  }

  /** For one provider, the generations that changed it strictly increase. */
  predicate Increasing(log: seq<Fact>) {
    forall i, j | 0 <= i < j < |log| && log[i].Refreshed? && log[j].Refreshed? && log[i].provider == log[j].provider ::
      log[i].generation < log[j].generation
  }

  function Lookup<V>(m: map<Provider, V>, p: Provider): Option<V> {
    if p in m then Some(m[p]) else None
  }

  function CurrentGeneration(m: map<Provider, nat>, p: Provider): nat { if p in m then m[p] else 0 }

  /** Generations identify refreshes, and a refresh in flight has changed nothing yet. */
  ghost predicate Numbered(inFlight: set<Refresh>, generations: map<Provider, nat>, log: seq<Fact>) {
    && (forall r, q :: r in inFlight && q in inFlight && r.provider == q.provider && r.generation == q.generation ==> r == q)
    && (forall r :: r in inFlight ==> 0 < r.generation <= CurrentGeneration(generations, r.provider))
    && (forall f :: f in log && f.Refreshed? ==> 0 < f.generation <= CurrentGeneration(generations, f.provider))
    && (forall f, r :: f in log && f.Refreshed? && r in inFlight && f.provider == r.provider ==> f.generation != r.generation)
    && Increasing(log)
  }

  /** A provider is marked failed exactly when the last thing that changed it was a failure. */
  ghost predicate Marked(failures: set<Provider>, usages: map<Provider, Snapshot>, log: seq<Fact>) {
    && (forall p :: p in failures <==> LastOf(log, p).Some? && IsFailure(LastOf(log, p).value))
    && (forall p :: Lookup(usages, p) == LastSnapshot(log, p))
  }

  lemma NumberedAfterSettling(inFlight: set<Refresh>, generations: map<Provider, nat>, log: seq<Fact>, r: Refresh, result: Option<Snapshot>)
    requires Numbered(inFlight, generations, log) && r in inFlight
    ensures Numbered(inFlight - {r}, generations, log)
    ensures CurrentGeneration(generations, r.provider) == r.generation ==>
              Numbered(inFlight - {r}, generations, log + [Refreshed(r.provider, r.generation, result)])
  {
    var all := log + [Refreshed(r.provider, r.generation, result)];
    assert forall f :: f in all <==> f in log || f == Refreshed(r.provider, r.generation, result);
    if CurrentGeneration(generations, r.provider) == r.generation {
      forall i, j | 0 <= i < j < |all| && all[i].Refreshed? && all[j].Refreshed? && all[i].provider == all[j].provider
        ensures all[i].generation < all[j].generation
      {
        assert all[i] == log[i] && log[i] in log;
      }
    }
  }

  lemma NumberedAfterDispatch(inFlight: set<Refresh>, generations: map<Provider, nat>, log: seq<Fact>, p: Provider, source: Option<Source>)
    requires Numbered(inFlight, generations, log)
    ensures var next := CurrentGeneration(generations, p) + 1;
            Numbered(inFlight + {Refresh(p, next, source)}, generations[p := next], log)
  {
    hide Increasing;
  }

  lemma NumberedAfterAnswer(inFlight: set<Refresh>, generations: map<Provider, nat>, log: seq<Fact>, p: Provider, snapshot: Snapshot)
    requires Numbered(inFlight, generations, log)
    ensures Numbered(inFlight, generations, log + [Answered(p, snapshot)])
  {
    assert forall f :: f in log + [Answered(p, snapshot)] <==> f in log || f == Answered(p, snapshot);
  }

  lemma MarkedAfter(failures: set<Provider>, usages: map<Provider, Snapshot>, log: seq<Fact>, f: Fact)
    requires Marked(failures, usages, log)
    ensures IsFailure(f) ==> Marked(failures + {f.provider}, usages, log + [f])
    ensures !IsFailure(f) ==>
              Marked(failures - {f.provider}, usages[f.provider := if f.Answered? then f.snapshot else f.result.value], log + [f])
  {
    hide LastOf, LastSnapshot;
    forall p { Appended(log, f, p); }
  }

  class Usage {
    var fetchedAt: map<Provider, int>
    var generations: map<Provider, nat>
    var sources: map<Provider, Source>
    var failures: set<Provider>
    var usages: map<Provider, Snapshot>
    ghost var inFlight: set<Refresh>
    ghost var log: seq<Fact>

    ghost predicate Valid()
      reads this
    {
      Numbered(inFlight, generations, log) && Marked(failures, usages, log)
    }

    constructor ()
      ensures Valid() && log == [] && inFlight == {}
    {
      fetchedAt, generations, sources, failures, usages := map[], map[], map[], {}, map[];
      inFlight, log := {}, [];
    }

    /** Takes the next generation, unless the provider was refreshed recently or has no source at all. */
    method Dispatch(provider: Provider, force: bool, now: int) returns (refresh: Option<Refresh>)
      requires Valid()
      modifies this`fetchedAt, this`generations, this`inFlight
      ensures Valid()
      ensures refresh.Some? <==>
                && (provider in sources || provider == CODEX || provider == NAN)
                && (force || now - (if provider in old(fetchedAt) then old(fetchedAt)[provider] else 0) >= REFRESH_MS)
      ensures refresh.None? ==> fetchedAt == old(fetchedAt) && generations == old(generations) && inFlight == old(inFlight)
      ensures refresh.Some? ==>
                && refresh.value == Refresh(provider, CurrentGeneration(old(generations), provider) + 1, Lookup(sources, provider))
                && generations == old(generations)[provider := refresh.value.generation]
                && fetchedAt == old(fetchedAt)[provider := now]
                && inFlight == old(inFlight) + {refresh.value}
    {
      hide Numbered, Marked;
      NumberedAfterDispatch(inFlight, generations, log, provider, Lookup(sources, provider));
      var source := Lookup(sources, provider);
      if source.None? && provider != CODEX && provider != NAN { return None; }
      var last := if provider in fetchedAt then fetchedAt[provider] else 0;
      if !force && now - last < REFRESH_MS { return None; }
      fetchedAt := fetchedAt[provider := now];
      var generation := CurrentGeneration(generations, provider) + 1;
      generations := generations[provider := generation];
      refresh := Some(Refresh(provider, generation, source));
      inFlight := inFlight + {refresh.value};
    }

    /** The refresh answers, fails or runs out of time; `None` stands for both of the latter. */
    method Settle(r: Refresh, result: Option<Snapshot>) returns (changed: bool)
      requires Valid() && r in inFlight
      modifies this`failures, this`usages, this`inFlight, this`log
      ensures Valid() && inFlight == old(inFlight) - {r}
      ensures var newest := r.provider in generations && generations[r.provider] == r.generation;
              var replaced := r.source.Some? && (r.provider !in sources || sources[r.provider] != r.source.value);
              if newest && !replaced then
                && log == old(log) + [Refreshed(r.provider, r.generation, result)]
                && changed == result.Some?
                && failures == (if result.Some? then old(failures) - {r.provider} else old(failures) + {r.provider})
                && usages == (if result.Some? then old(usages)[r.provider := result.value] else old(usages))
              else !changed && log == old(log) && failures == old(failures) && usages == old(usages)
    {
      hide Numbered, Marked, LastOf, LastSnapshot;
      ghost var fact := Refreshed(r.provider, r.generation, result);
      NumberedAfterSettling(inFlight, generations, log, r, result);
      inFlight := inFlight - {r};
      if CurrentGeneration(generations, r.provider) != r.generation { return false; }
      if r.source.Some? && Lookup(sources, r.provider) != r.source { return false; }
      MarkedAfter(failures, usages, log, fact);
      log := log + [fact];
      if result.None? {
        failures := failures + {r.provider};
        return false;
      }
      usages := usages[r.provider := result.value];
      failures := failures - {r.provider};
      return true;
    }

    method RegisterSource(provider: Provider, source: Source)
      requires Valid()
      modifies this`sources
      ensures Valid() && sources == old(sources)[provider := source]
    {
      sources := sources[provider := source];
    }

    /** A provider response carried usage headers: evidence that it answers. */
    method AfterProviderResponse(provider: Provider, snapshot: Snapshot)
      requires Valid()
      modifies this`failures, this`usages, this`log
      ensures Valid() && log == old(log) + [Answered(provider, snapshot)]
      ensures failures == old(failures) - {provider} && usages == old(usages)[provider := snapshot]
    {
      hide Numbered, Marked, LastOf, LastSnapshot;
      NumberedAfterAnswer(inFlight, generations, log, provider, snapshot);
      MarkedAfter(failures, usages, log, Answered(provider, snapshot));
      log := log + [Answered(provider, snapshot)];
      usages := usages[provider := snapshot];
      failures := failures - {provider};
    }

    /**
     * Newest wins: once the provider's newest refresh has changed it, no refresh
     * has changed it since, so it is marked failed exactly when that refresh
     * failed and no response has answered since.
     */
    lemma NewestWins(p: Provider, i: nat)
      requires Valid() && i < |log|
      requires log[i].Refreshed? && log[i].provider == p && log[i].generation == CurrentGeneration(generations, p)
      ensures forall j :: i < j < |log| && log[j].provider == p ==> log[j].Answered?
      ensures p in failures <==> log[i].result.None? && forall j :: i < j < |log| ==> log[j].provider != p
    {
      forall j | i < j < |log| && log[j].provider == p ensures log[j].Answered? {
        assert log[j] in log;
      }
      var last := LastOf(log, p).value;
      LastIsLatest(log, p);
    }

    /** What is shown of a provider is what the last refresh or response brought, failures aside. */
    lemma LatestIsShown(p: Provider, j: nat)
      requires Valid() && j < |log| && log[j].provider == p && !IsFailure(log[j])
      requires forall k :: j < k < |log| ==> log[k].provider != p || IsFailure(log[k])
      ensures p in usages && usages[p] == if log[j].Answered? then log[j].snapshot else log[j].result.value
    {
      SnapshotStays(log, p, j);
      assert log[..j + 1] == log[..j] + [log[j]];
      Appended(log[..j], log[j], p);
      assert Lookup(usages, p) == LastSnapshot(log, p);
    }
  }

  lemma {:induction false} SnapshotStays(log: seq<Fact>, p: Provider, j: nat)
    requires j < |log| && forall k :: j < k < |log| ==> log[k].provider != p || IsFailure(log[k])
    ensures LastSnapshot(log, p) == LastSnapshot(log[..j + 1], p)
    decreases |log|
  {
    if j == |log| - 1 {
      assert log[..j + 1] == log;
    } else {
      var before := log[..|log| - 1];
      assert before[..j + 1] == log[..j + 1];
      SnapshotStays(before, p, j);
      assert log == before + [log[|log| - 1]];
      Appended(before, log[|log| - 1], p);
    }
  }

  /** `LastOf` is the occurrence nothing of the provider follows. */
  lemma {:induction false} LastIsLatest(log: seq<Fact>, p: Provider)
    ensures LastOf(log, p).Some? ==>
              exists k :: 0 <= k < |log| && log[k] == LastOf(log, p).value
                          && forall j :: k < j < |log| ==> log[j].provider != p
  {
    if log != [] {
      var n := |log| - 1;
      var before := log[..n];
      if log[n].provider == p {
        assert log[n] == LastOf(log, p).value;
      } else if LastOf(before, p).Some? {
        LastIsLatest(before, p);
        var k :| 0 <= k < n && before[k] == LastOf(before, p).value && forall j :: k < j < n ==> before[j].provider != p;
        assert log[k] == LastOf(log, p).value;
        forall j | k < j < |log| ensures log[j].provider != p { assert j < n ==> log[j] == before[j]; }
      }
    }
  }
}
