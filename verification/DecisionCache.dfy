/** The decision cache object: Sync writes it, requests read it concurrently. */
module DecisionCache {
  import opened Wrappers
  import opened NetAddr
  import opened KeyedCache
  import opened Decisions
  import opened DecisionStream
  import opened Counting
  import opened Text
  import UsageMetrics

  /** Every map a concurrent reader can observe while `log` is being applied to `before`, in order. */
  ghost predicate Observed(seen: seq<map<string, Decision>>, before: map<string, Decision>, log: seq<Mention>) {
    |seen| == |log| + 1 && forall k :: 0 <= k <= |log| ==> seen[k] == Apply(before, log[..k])
  }

  lemma ObservedStep(seen: seq<map<string, Decision>>, before: map<string, Decision>, log: seq<Mention>,
                     now: map<string, Decision>, m: Mention)
    requires Observed(seen, before, log) && now == Apply(before, log + [m])
    ensures Observed(seen + [now], before, log + [m])
  {
    var longer := log + [m];
    assert longer[..|longer|] == longer;
    assert forall k :: 0 <= k <= |log| ==> longer[..k] == log[..k];
  }

  lemma ObservedJoin(a: seq<map<string, Decision>>, b: seq<map<string, Decision>>, before: map<string, Decision>,
                     first: seq<Mention>, second: seq<Mention>)
    requires Observed(a, before, first) && Observed(b, Apply(before, first), second)
    ensures Observed(a + b[1..], before, first + second)
  {
    var both := first + second;
    forall k | 0 <= k <= |both|
      ensures (a + b[1..])[k] == Apply(before, both[..k])
    {
      if k <= |first| {
        assert both[..k] == first[..k];
      } else {
        assert both[..k] == first + second[..k - |first|];
        ApplyAppend(before, first, second[..k - |first|]);
      }
    }
  }

  /** The deletes and adds of a message are done, and its index is not published. */
  ghost predicate MentionsApplied(s: Snapshot, b: Batch, s': Snapshot) {
    s' == s.(entries := Apply(s.entries, BatchLog(b)), origins := s.origins + OriginsAdded(BatchLog(b)))
  }

  class Cache {
    const net: Parsers
    const decisions: KeyedCache.Cache<string, Decision>
    const knownOrigins: KeyedCache.Cache<string, ()>
    var cidrs: Option<Table<Decision>>
    var syncComplete: bool
    const usage: UsageMetrics.MetricsService?
    /** Per-origin counters and gauge kept for Prometheus. */
    var addedTotal: map<string, int>
    var deletedTotal: map<string, int>
    var cacheSize: map<string, int>

    ghost predicate Valid() {
      && (decisions as object) != knownOrigins
      && (usage != null ==> (usage.metrics as object) != decisions && (usage.metrics as object) != knownOrigins)
    }

    ghost function Owned(): set<object> {
      if usage == null then {} else {usage.metrics}
    }

    ghost function State(): Snapshot
      reads this`cidrs, this`syncComplete, decisions, knownOrigins
    {
      Snapshot(decisions.entries, knownOrigins.entries.Keys, cidrs, syncComplete)
    }

    constructor (net: Parsers, usage: UsageMetrics.MetricsService?)
      ensures Valid() && fresh(decisions) && fresh(knownOrigins)
      ensures State() == FRESH && this.net == net && this.usage == usage
      ensures addedTotal == deletedTotal == cacheSize == map[]
    {
      this.net, this.usage := net, usage;
      var d := new KeyedCache.Cache<string, Decision>();
      var o := new KeyedCache.Cache<string, ()>();
      decisions := d;
      knownOrigins := o;
      cidrs := None;
      syncComplete := false;
      addedTotal, deletedTotal, cacheSize := map[], map[], map[];
    }

    method GetDecision(ip: string) returns (r: Result<Option<Decision>, string>)
      ensures r == Answer(net, decisions.entries, cidrs, ip)
    {
      if ip == "" {
        return Failure(NO_IP);
      }
      var decision := decisions.Get(ip);
      if decision.Some? {
        return Success(decision);
      }
      if cidrs.Some? {
        var addr := net.addr(ip);
        if addr.None? {
          return Success(None);
        }
        var hit := Lookup(cidrs.value, Unmap(addr.value));
        if hit.Some? {
          return Success(Some(hit.value.value));
        }
      }
      return Success(None);
    }

    method BuildIndex() returns (t: Table<Decision>)
      ensures BuiltFrom(net, t, decisions.entries)
    {
      t := map[];
      var keys := decisions.Keys();
      for i := 0 to |keys|
        invariant t == BuildFrom(KeyOf(net), decisions.entries, keys[..i])
      {
        assert keys[..i + 1][..i] == keys[..i];
        var d := decisions.Get(keys[i]);
        if d.None? || d.value.value.None? {
          continue;
        }
        var value := TrimSpace(d.value.value.value);
        if value == "" || !IsScope(d.value, "Range") {
          continue;
        }
        var parsed := net.prefix(value);
        if parsed.None? {
          continue;
        }
        var prefix := Masked(parsed.value);
        if prefix.addr.Is4In6() {
          if prefix.bits < 96 {
            continue;
          }
          prefix := Prefix(Unmap(prefix.addr), prefix.bits - 96);
        }
        if prefix.bits == prefix.addr.BitLen() {
          continue;
        }
        t := Insert(t, prefix, d.value);
      }
      assert keys[..|keys|] == keys;
    }

    method GetOriginCounts() returns (counts: map<string, int>)
      ensures IsOriginCount(counts, decisions.entries, knownOrigins.entries.Keys)
    {
      counts := map[];
      var origins := knownOrigins.Keys();
      for i := 0 to |origins|
        invariant counts.Keys == set o | o in origins[..i]
        invariant forall o :: o in counts ==> counts[o] == 0
      {
        counts := counts[origins[i] := 0];
      }
      assert origins[..|origins|] == origins;
      assert counts.Keys == knownOrigins.entries.Keys;
      var keys := decisions.Keys();
      for i := 0 to |keys|
        invariant CountedSoFar(counts, decisions.entries, knownOrigins.entries.Keys, keys[..i])
      {
        CountNext(counts, decisions.entries, knownOrigins.entries.Keys, keys, i);
        var d := decisions.Get(keys[i]);
        if d.Some? && d.value.origin.Some? {
          counts := Bump(counts, d.value.origin.value);
        }
      }
      assert keys[..|keys|] == keys;
      CountedAll(counts, decisions.entries, knownOrigins.entries.Keys, keys);
    }

    method ApplyDeleted(deleted: seq<Option<Decision>>) returns (rangeSeen: bool, ghost seen: seq<map<string, Decision>>)
      requires Valid()
      modifies decisions, this`deletedTotal
      ensures decisions.entries == Apply(old(decisions.entries), Mentions(deleted, false))
      ensures deletedTotal == ByOrigin(old(deletedTotal), Mentions(deleted, false))
      ensures rangeSeen == RangeMentioned(Mentions(deleted, false))
      ensures Observed(seen, old(decisions.entries), Mentions(deleted, false))
    {
      rangeSeen, seen := false, [decisions.entries];
      for i := 0 to |deleted|
        invariant decisions.entries == Apply(old(decisions.entries), Mentions(deleted[..i], false))
        invariant deletedTotal == ByOrigin(old(deletedTotal), Mentions(deleted[..i], false))
        invariant rangeSeen == RangeMentioned(Mentions(deleted[..i], false))
        invariant Observed(seen, old(decisions.entries), Mentions(deleted[..i], false))
      {
        MentionsSnoc(deleted, i, false);
        if Skipped(deleted[i]) {
          continue;
        }
        var d := deleted[i].value;
        ghost var log := Mentions(deleted[..i], false);
        ApplySnoc(old(decisions.entries), log, Deleted(d));
        ByOriginSnoc(old(deletedTotal), log, Deleted(d));
        RangeSnoc(log, Deleted(d));
        decisions.Delete(d.value.value);
        ObservedStep(seen, old(decisions.entries), log, decisions.entries, Deleted(d));
        seen := seen + [decisions.entries];
        if d.origin.Some? {
          deletedTotal := Bump(deletedTotal, d.origin.value);
        }
        if IsScope(d, "Range") {
          rangeSeen := true;
        }
      }
      assert deleted[..|deleted|] == deleted;
    }

    method ApplyAdded(added: seq<Option<Decision>>) returns (rangeSeen: bool, ghost seen: seq<map<string, Decision>>)
      requires Valid()
      modifies decisions, knownOrigins, this`addedTotal
      ensures decisions.entries == Apply(old(decisions.entries), Mentions(added, true))
      ensures addedTotal == ByOrigin(old(addedTotal), Mentions(added, true))
      ensures rangeSeen == RangeMentioned(Mentions(added, true))
      ensures Observed(seen, old(decisions.entries), Mentions(added, true))
      ensures knownOrigins.entries.Keys == old(knownOrigins.entries.Keys) + OriginsAdded(Mentions(added, true))
    {
      rangeSeen, seen := false, [decisions.entries];
      for i := 0 to |added|
        invariant decisions.entries == Apply(old(decisions.entries), Mentions(added[..i], true))
        invariant addedTotal == ByOrigin(old(addedTotal), Mentions(added[..i], true))
        invariant rangeSeen == RangeMentioned(Mentions(added[..i], true))
        invariant Observed(seen, old(decisions.entries), Mentions(added[..i], true))
        invariant knownOrigins.entries.Keys == old(knownOrigins.entries.Keys) + OriginsAdded(Mentions(added[..i], true))
      {
        MentionsSnoc(added, i, true);
        if Skipped(added[i]) {
          continue;
        }
        var d := added[i].value;
        ghost var log := Mentions(added[..i], true);
        ApplySnoc(old(decisions.entries), log, Added(d));
        ByOriginSnoc(old(addedTotal), log, Added(d));
        RangeSnoc(log, Added(d));
        OriginsSnoc(log, Added(d));
        decisions.Set(d.value.value, d);
        ObservedStep(seen, old(decisions.entries), log, decisions.entries, Added(d));
        seen := seen + [decisions.entries];
        if d.origin.Some? {
          knownOrigins.Set(d.origin.value, ());
          addedTotal := Bump(addedTotal, d.origin.value);
        }
        if IsScope(d, "Range") {
          rangeSeen := true;
        }
      }
      assert added[..|added|] == added;
    }

    /** The usage gauge of each origin, set to its count. */
    method SetGauges(counts: map<string, int>)
      requires usage != null
      modifies Owned()
      ensures GaugesSet(old(usage.metrics.entries), counts, counts.Keys, usage.metrics.entries)
    {
      var rest := counts.Keys;
      while rest != {}
        invariant rest <= counts.Keys
        invariant GaugesSet(old(usage.metrics.entries), counts, counts.Keys - rest, usage.metrics.entries)
        decreases rest
      {
        var o :| o in rest;
        GaugeNext(old(usage.metrics.entries), counts, counts.Keys - rest, usage.metrics.entries, o);
        usage.Set(GaugeKey(o), "active_decisions", "ip", counts[o], map["origin" := o]);
        assert counts.Keys - (rest - {o}) == counts.Keys - rest + {o};
        rest := rest - {o};
      }
      assert counts.Keys - rest == counts.Keys;
    }

    /** Count the stored decisions by origin and set both gauges to the counts. */
    method PublishCounts() returns (counts: map<string, int>)
      requires Valid()
      modifies this`cacheSize, Owned()
      ensures IsOriginCount(counts, decisions.entries, knownOrigins.entries.Keys)
      ensures cacheSize == old(cacheSize) + counts
      ensures usage != null ==> GaugesSet(old(usage.metrics.entries), counts, counts.Keys, usage.metrics.entries)
    {
      counts := GetOriginCounts();
      cacheSize := cacheSize + counts;
      if usage != null {
        SetGauges(counts);
      }
    }

    /** Rebuild the index if a Range decision was mentioned, and become ready: the end of one message. */
    method PublishIndex(ghost s: Snapshot, ghost b: Batch, changed: bool)
      requires MentionsApplied(s, b, State()) && changed == RangeMentioned(BatchLog(b))
      modifies this`cidrs, this`syncComplete
      ensures BatchStep(net, s, Some(b), State())
    {
      if changed {
        var t := BuildIndex();
        cidrs := Some(t);
      }
      syncComplete := true;
    }

    /** What follows the deletes and adds of one message: the gauges, then the index. */
    method Publish(ghost s: Snapshot, ghost b: Batch, changed: bool) returns (counts: map<string, int>)
      requires Valid() && MentionsApplied(s, b, State()) && changed == RangeMentioned(BatchLog(b))
      modifies this`cacheSize, this`cidrs, this`syncComplete, Owned()
      ensures BatchStep(net, s, Some(b), State())
      ensures IsOriginCount(counts, decisions.entries, knownOrigins.entries.Keys)
      ensures cacheSize == old(cacheSize) + counts
      ensures usage != null ==> GaugesSet(old(usage.metrics.entries), counts, counts.Keys, usage.metrics.entries)
    {
      label Applied:
      counts := PublishCounts();
      assert unchanged@Applied(decisions, knownOrigins, this`cidrs, this`syncComplete);
      PublishIndex(s, b, changed);
    }

    /** The deletes and adds of one message. */
    method ApplyMentions(b: Batch) returns (rangeSeen: bool, ghost seen: seq<map<string, Decision>>)
      requires Valid()
      modifies decisions, knownOrigins, this`addedTotal, this`deletedTotal
      ensures MentionsApplied(old(State()), b, State())
      ensures rangeSeen == RangeMentioned(BatchLog(b))
      ensures Observed(seen, old(decisions.entries), BatchLog(b))
      ensures Counted(old(addedTotal), old(deletedTotal), b, addedTotal, deletedTotal)
    {
      var removedRange, addedRange;
      ghost var during;
      removedRange, seen := ApplyDeleted(b.deleted);
      addedRange, during := ApplyAdded(b.added);
      BothHalves(old(decisions.entries), b, seen, during);
      rangeSeen, seen := removedRange || addedRange, seen + during[1..];
    }

    /**
     One message of Sync's loop.  `seen` is every map a reader can observe before the message completes; the
     index it observes with each of them is the one published before this message.
     */
    method ApplyBatch(event: Option<Batch>) returns (counts: map<string, int>, ghost seen: seq<map<string, Decision>>)
      requires Valid()
      modifies this, decisions, knownOrigins, Owned()
      ensures BatchStep(net, old(State()), event, State())
      ensures event.Some? ==> Observed(seen, old(decisions.entries), BatchLog(event.value))
      ensures event.Some? ==> Counted(old(addedTotal), old(deletedTotal), event.value, addedTotal, deletedTotal)
      ensures event.Some? ==> IsOriginCount(counts, decisions.entries, knownOrigins.entries.Keys)
      ensures event.Some? ==> cacheSize == old(cacheSize) + counts
      ensures event.Some? && usage != null ==> GaugesSet(old(usage.metrics.entries), counts, counts.Keys, usage.metrics.entries)
      ensures event.None? ==> counts == map[] && unchanged(this, decisions, knownOrigins, Owned())
    {
      if event.None? {
        return map[], [decisions.entries];
      }
      ghost var before := State();
      var rangeSeen;
      rangeSeen, seen := ApplyMentions(event.value);
      counts := Publish(before, event.value, rangeSeen);
    }

    /** Sync over a stream that delivers `events` and closes. */
    method Sync(events: seq<Option<Batch>>) returns (ghost trace: seq<Snapshot>)
      requires Valid() && State() == FRESH
      modifies this, decisions, knownOrigins, Owned()
      ensures IsRun(net, trace, events) && trace[|events|] == State()
    {
      trace := [State()];
      for i := 0 to |events|
        invariant |trace| == i + 1 && trace[0] == FRESH && trace[i] == State()
        invariant forall j :: 0 <= j < i ==> BatchStep(net, trace[j], events[j], trace[j + 1])
      {
        var _, _ := ApplyBatch(events[i]);
        trace := trace + [State()];
      }
    }
  }

  // ----- counters and gauges -----

  /** A counter by origin after these mentions. */
  function ByOrigin(totals: map<string, int>, log: seq<Mention>): map<string, int> {
    if log == [] then totals
    else
      var before, origin := ByOrigin(totals, log[..|log| - 1]), log[|log| - 1].decision.origin;
      if origin.Some? then Bump(before, origin.value) else before
  }

  /** The two counters by origin before and after a message. */
  ghost predicate Counted(added: map<string, int>, deleted: map<string, int>, b: Batch,
                          added': map<string, int>, deleted': map<string, int>) {
    added' == ByOrigin(added, Mentions(b.added, true)) && deleted' == ByOrigin(deleted, Mentions(b.deleted, false))
  }

  function IsFrom(origin: string): Mention -> bool {
    (m: Mention) => m.decision.origin == Some(origin)
  }

  /** The counter of an origin grows by the number of its mentions. */
  lemma {:induction false} ByOriginCounts(totals: map<string, int>, log: seq<Mention>, origin: string)
    ensures Count(ByOrigin(totals, log), origin) == Count(totals, origin) + Tally(log, IsFrom(origin))
  {
    if log != [] {
      ByOriginCounts(totals, log[..|log| - 1], origin);
    }
  }

  lemma ByOriginSnoc(totals: map<string, int>, log: seq<Mention>, m: Mention)
    ensures ByOrigin(totals, log + [m])
         == if m.decision.origin.Some? then Bump(ByOrigin(totals, log), m.decision.origin.value) else ByOrigin(totals, log)
  {
  }

  function GaugeKey(origin: string): string {
    "active_decisions:" + origin
  }

  lemma GaugeKeysDiffer(a: string, b: string)
    ensures GaugeKey(a) == GaugeKey(b) ==> a == b
  {
    assert GaugeKey(a)[|"active_decisions:"|..] == a && GaugeKey(b)[|"active_decisions:"|..] == b;
  }

  /** The gauges of these origins hold their counts, and every other metric is as it was. */
  ghost predicate GaugesSet(before: map<string, UsageMetrics.Metric>, counts: map<string, int>, origins: set<string>,
                            after: map<string, UsageMetrics.Metric>)
    requires origins <= counts.Keys
  {
    var keys := set o | o in origins :: GaugeKey(o);
    && after.Keys == before.Keys + keys
    && (forall o :: o in origins ==>
          after[GaugeKey(o)] == UsageMetrics.Metric("active_decisions", "ip", counts[o], map["origin" := o]))
    && (forall key :: key in before && key !in keys ==> after[key] == before[key])
  }

  /** In the metric's own fields: each origin's gauge is at "active_decisions:" and the origin, with its count. */
  lemma GaugesMeaning(before: map<string, UsageMetrics.Metric>, counts: map<string, int>, after: map<string, UsageMetrics.Metric>,
                      o: string)
    requires GaugesSet(before, counts, counts.Keys, after) && o in counts
    ensures "active_decisions:" + o in after
    ensures after["active_decisions:" + o] == UsageMetrics.Metric("active_decisions", "ip", counts[o], map["origin" := o])
  {
    assert GaugeKey(o) in set p | p in counts.Keys :: GaugeKey(p);
  }

  lemma GaugeNext(before: map<string, UsageMetrics.Metric>, counts: map<string, int>, origins: set<string>,
                  now: map<string, UsageMetrics.Metric>, o: string)
    requires origins <= counts.Keys && o in counts && o !in origins && GaugesSet(before, counts, origins, now)
    ensures GaugesSet(before, counts, origins + {o},
                      now[GaugeKey(o) := UsageMetrics.Metric("active_decisions", "ip", counts[o], map["origin" := o])])
  {
    forall p | p in origins
      ensures GaugeKey(p) != GaugeKey(o)
    {
      GaugeKeysDiffer(p, o);
    }
    var keys, more := set p | p in origins :: GaugeKey(p), set p | p in origins + {o} :: GaugeKey(p);
    assert more == keys + {GaugeKey(o)};
  }

  // ----- loop facts -----

  lemma RangeSnoc(log: seq<Mention>, m: Mention)
    ensures RangeMentioned(log + [m]) == (RangeMentioned(log) || IsScope(m.decision, "Range"))
  {
    var longer := log + [m];
    assert longer[|log|] == m;
    assert forall i :: 0 <= i < |log| ==> longer[i] == log[i];
  }

  lemma OriginsSnoc(log: seq<Mention>, m: Mention)
    ensures OriginsAdded(log + [m])
         == OriginsAdded(log) + if m.Added? && m.decision.origin.Some? then {m.decision.origin.value} else {}
  {
    OriginsOfBoth(log, [m]);
    if m.Added? && m.decision.origin.Some? {
      assert [m][0] == m;
    }
  }

  lemma {:induction false} DeletingAddsNoOrigin(ds: seq<Option<Decision>>)
    ensures OriginsAdded(Mentions(ds, false)) == {}
  {
    if ds != [] {
      DeletingAddsNoOrigin(ds[..|ds| - 1]);
      if ds[|ds| - 1].Some? && ds[|ds| - 1].value.value.Some? {
        OriginsSnoc(Mentions(ds[..|ds| - 1], false), Deleted(ds[|ds| - 1].value));
      }
    }
  }

  lemma BothHalves(before: map<string, Decision>, b: Batch, seen: seq<map<string, Decision>>, during: seq<map<string, Decision>>)
    requires Observed(seen, before, Mentions(b.deleted, false))
    requires Observed(during, Apply(before, Mentions(b.deleted, false)), Mentions(b.added, true))
    ensures Apply(before, BatchLog(b)) == Apply(Apply(before, Mentions(b.deleted, false)), Mentions(b.added, true))
    ensures Observed(seen + during[1..], before, BatchLog(b))
    ensures RangeMentioned(BatchLog(b)) == (RangeMentioned(Mentions(b.deleted, false)) || RangeMentioned(Mentions(b.added, true)))
    ensures OriginsAdded(BatchLog(b)) == OriginsAdded(Mentions(b.added, true))
  {
    var removing, adding := Mentions(b.deleted, false), Mentions(b.added, true);
    ApplyAppend(before, removing, adding);
    ObservedJoin(seen, during, before, removing, adding);
    EitherRange(removing, adding);
    OriginsOfBoth(removing, adding);
    DeletingAddsNoOrigin(b.deleted);
  }

  function OriginAmong(entries: map<string, Decision>, visited: seq<string>, origin: string): set<string> {
    set k | k in visited && k in entries && entries[k].origin == Some(origin)
  }

  ghost predicate CountedSoFar(counts: map<string, int>, entries: map<string, Decision>, known: set<string>, visited: seq<string>) {
    && counts.Keys == known + (set k | k in visited && k in WithOrigin(entries) :: entries[k].origin.value)
    && forall o :: o in counts ==> counts[o] == |OriginAmong(entries, visited, o)|
  }

  lemma CountNext(counts: map<string, int>, entries: map<string, Decision>, known: set<string>, keys: seq<string>, i: nat)
    requires i < |keys| && IsOrderOf(keys, entries.Keys)
    requires CountedSoFar(counts, entries, known, keys[..i])
    ensures var d := entries[keys[i]];
      CountedSoFar(if d.origin.Some? then Bump(counts, d.origin.value) else counts, entries, known, keys[..i + 1])
  {
    var k := keys[i];
    assert keys[..i + 1] == keys[..i] + [k];
    assert k !in keys[..i];
    if entries[k].origin.Some? {
      CountOriginated(counts, entries, known, keys[..i], k);
    } else {
      assert forall o :: OriginAmong(entries, keys[..i] + [k], o) == OriginAmong(entries, keys[..i], o);
    }
  }

  lemma CountOriginated(counts: map<string, int>, entries: map<string, Decision>, known: set<string>,
                        visited: seq<string>, k: string)
    requires CountedSoFar(counts, entries, known, visited)
    requires k !in visited && k in entries && entries[k].origin.Some?
    ensures CountedSoFar(Bump(counts, entries[k].origin.value), entries, known, visited + [k])
  {
    var o := entries[k].origin.value;
    assert OriginAmong(entries, visited + [k], o) == OriginAmong(entries, visited, o) + {k};
    assert forall o' :: o' != o ==> OriginAmong(entries, visited + [k], o') == OriginAmong(entries, visited, o');
    if o !in counts {
      assert OriginAmong(entries, visited, o) == {};
    }
    assert Bump(counts, o).Keys == counts.Keys + {o};
  }

  lemma CountedAll(counts: map<string, int>, entries: map<string, Decision>, known: set<string>, keys: seq<string>)
    requires IsOrderOf(keys, entries.Keys) && CountedSoFar(counts, entries, known, keys)
    ensures IsOriginCount(counts, entries, known)
  {
    assert (set k | k in keys && k in WithOrigin(entries) :: entries[k].origin.value)
        == (set k | k in WithOrigin(entries) :: entries[k].origin.value);
    forall o
      ensures OriginAmong(entries, keys, o) == OfOrigin(entries, o)
    {
    }
  }
}
