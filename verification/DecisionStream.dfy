/**
 Sync: applying an unbounded stream of delete/add batches to the decision map and republishing the
 prefix index only when a batch mentions a Range decision.
 */
module DecisionStream {
  import opened Wrappers
  import opened NetAddr
  import opened KeyedCache
  import opened Decisions
  import opened Counting
  import opened Text

  /** One stream message; nil pointers are None. */
  datatype Batch = Batch(deleted: seq<Option<Decision>>, added: seq<Option<Decision>>)

  datatype RawMention = Deleted(decision: Decision) | Added(decision: Decision)

  /** A delete or add that Sync acts on: it names a value. */
  type Mention = m: RawMention | m.decision.value.Some? witness Deleted(Decision(Some(""), None, None, None, None))

  function Value(m: Mention): string {
    m.decision.value.value
  }

  function Mentions(ds: seq<Option<Decision>>, adding: bool): seq<Mention> {
    if ds == [] then []
    else
      var rest := Mentions(ds[..|ds| - 1], adding);
      var d := ds[|ds| - 1];
      if d.None? || d.value.value.None? then rest
      else rest + [if adding then Added(d.value) else Deleted(d.value)]
  }

  /** Within a batch, deletes come before adds. */
  function BatchLog(b: Batch): seq<Mention> {
    Mentions(b.deleted, false) + Mentions(b.added, true)
  }

  function ApplyOne(entries: map<string, Decision>, m: Mention): map<string, Decision> {
    if m.Added? then entries[Value(m) := m.decision] else entries - {Value(m)}
  }

  function Apply(entries: map<string, Decision>, log: seq<Mention>): map<string, Decision> {
    if log == [] then entries else ApplyOne(Apply(entries, log[..|log| - 1]), log[|log| - 1])
  }

  predicate RangeMentioned(log: seq<Mention>) {
    exists i :: 0 <= i < |log| && IsScope(log[i].decision, "Range")
  }

  function OriginsAdded(log: seq<Mention>): set<string> {
    set i | 0 <= i < |log| && log[i].Added? && log[i].decision.origin.Some? :: log[i].decision.origin.value
  }

  // ----- runs -----

  /** What a concurrent reader can see of the cache. */
  datatype Snapshot = Snapshot(entries: map<string, Decision>, origins: set<string>, index: Option<Table<Decision>>, ready: bool)

  const FRESH := Snapshot(map[], {}, None, false)

  ghost predicate BuiltFrom(net: Parsers, t: Table<Decision>, entries: map<string, Decision>) {
    exists order :: IsOrderOf(order, entries.Keys) && t == BuildFrom(KeyOf(net), entries, order)
  }

  /** The effect of one whole stream message; a nil message changes nothing. */
  ghost predicate BatchStep(net: Parsers, s: Snapshot, event: Option<Batch>, s': Snapshot) {
    if event.None? then s' == s
    else
      var log := BatchLog(event.value);
      && s'.entries == Apply(s.entries, log)
      && s'.origins == s.origins + OriginsAdded(log)
      && s'.ready
      && if RangeMentioned(log) then s'.index.Some? && BuiltFrom(net, s'.index.value, s'.entries) else s'.index == s.index
  }

  ghost predicate IsRun(net: Parsers, trace: seq<Snapshot>, events: seq<Option<Batch>>) {
    && |trace| == |events| + 1
    && trace[0] == FRESH
    && forall i :: 0 <= i < |events| ==> BatchStep(net, trace[i], events[i], trace[i + 1])
  }

  function FlatLog(events: seq<Option<Batch>>): seq<Mention> {
    if events == [] then []
    else
      var e := events[|events| - 1];
      FlatLog(events[..|events| - 1]) + if e.None? then [] else BatchLog(e.value)
  }

  lemma StepExists(net: Parsers, s: Snapshot, event: Option<Batch>) returns (s': Snapshot)
    ensures BatchStep(net, s, event, s')
  {
    s' := s;
    if event.Some? {
      var log := BatchLog(event.value);
      var entries := Apply(s.entries, log);
      var order := OrderExists(entries.Keys);
      var index := if RangeMentioned(log) then Some(BuildFrom(KeyOf(net), entries, order)) else s.index;
      s' := Snapshot(entries, s.origins + OriginsAdded(log), index, true);
    }
  }

  /** Every stream has a run. */
  lemma {:induction false} RunExists(net: Parsers, events: seq<Option<Batch>>) returns (trace: seq<Snapshot>)
    ensures IsRun(net, trace, events)
  {
    if events == [] {
      trace := [FRESH];
    } else {
      var n := |events| - 1;
      trace := RunExists(net, events[..n]);
      var last := StepExists(net, trace[n], events[n]);
      var longer := trace + [last];
      forall i | 0 <= i < |events|
        ensures BatchStep(net, longer[i], events[i], longer[i + 1])
      {
        if i < n {
          assert BatchStep(net, trace[i], events[..n][i], trace[i + 1]);
        }
      }
      trace := longer;
    }
  }

  // ----- what one message does, entry by entry -----

  /** Some decision of the list has this value. */
  predicate Names(ds: seq<Option<Decision>>, v: string) {
    exists i :: 0 <= i < |ds| && ds[i].Some? && ds[i].value.value == Some(v)
  }

  /** `d` is the last decision of the list with this value. */
  predicate NamedLast(ds: seq<Option<Decision>>, v: string, d: Decision) {
    exists i :: 0 <= i < |ds| && ds[i] == Some(d) && d.value == Some(v)
      && forall j :: i < j < |ds| && ds[j].Some? ==> ds[j].value.value != Some(v)
  }

  predicate NamesRange(ds: seq<Option<Decision>>) {
    exists i :: 0 <= i < |ds| && ds[i].Some? && ds[i].value.value.Some? && ds[i].value.scope == Some("Range")
  }

  predicate NamesOrigin(ds: seq<Option<Decision>>, origin: string) {
    exists i :: 0 <= i < |ds| && ds[i].Some? && ds[i].value.value.Some? && ds[i].value.origin == Some(origin)
  }

  /** The value's decision after the message, whose deletes come before its adds. */
  predicate LeftBy(s: Snapshot, b: Batch, v: string, d: Decision) {
    NamedLast(b.added, v, d) || (!Names(b.added, v) && !Names(b.deleted, v) && v in s.entries && s.entries[v] == d)
  }

  lemma {:induction false} OriginsMeaning(ds: seq<Option<Decision>>, adding: bool, origin: string)
    ensures origin in OriginsAdded(Mentions(ds, adding)) <==> adding && NamesOrigin(ds, origin)
  {
    if ds != [] {
      var n := |ds| - 1;
      OriginsMeaning(ds[..n], adding, origin);
      var log, longer := Mentions(ds[..n], adding), Mentions(ds, adding);
      assert forall i :: 0 <= i < n ==> ds[..n][i] == ds[i];
      assert forall i :: 0 <= i < |log| ==> longer[i] == log[i];
      if |longer| > |log| {
        OriginsOfBoth(log, [longer[|log|]]);
        assert longer == log + [longer[|log|]];
      }
    }
  }

  lemma ApplySnoc(before: map<string, Decision>, log: seq<Mention>, m: Mention)
    ensures Apply(before, log + [m]) == ApplyOne(Apply(before, log), m)
  {
  }

  predicate Skipped(d: Option<Decision>) {
    d.None? || d.value.value.None?
  }

  lemma MentionsSnoc(ds: seq<Option<Decision>>, i: nat, adding: bool)
    requires i < |ds|
    ensures Skipped(ds[i]) ==> Mentions(ds[..i + 1], adding) == Mentions(ds[..i], adding)
    ensures !Skipped(ds[i])
      ==> Mentions(ds[..i + 1], adding) == Mentions(ds[..i], adding) + [if adding then Added(ds[i].value) else Deleted(ds[i].value)]
  {
    assert ds[..i + 1][..i] == ds[..i];
  }

  lemma NamesSnoc(ds: seq<Option<Decision>>, last: Option<Decision>, v: string)
    ensures Names(ds + [last], v) <==> Names(ds, v) || (last.Some? && last.value.value == Some(v))
  {
    var longer := ds + [last];
    assert longer[|ds|] == last && forall i :: 0 <= i < |ds| ==> longer[i] == ds[i];
  }

  lemma NamedLastSnoc(ds: seq<Option<Decision>>, last: Option<Decision>, v: string, d: Decision)
    ensures NamedLast(ds + [last], v, d)
       <==> if last.Some? && last.value.value == Some(v) then last == Some(d) else NamedLast(ds, v, d)
  {
    var longer := ds + [last];
    assert longer[|ds|] == last && forall i :: 0 <= i < |ds| ==> longer[i] == ds[i];
  }

  lemma {:induction false} DeletesMeaning(entries: map<string, Decision>, ds: seq<Option<Decision>>, v: string)
    ensures v in Apply(entries, Mentions(ds, false)) <==> v in entries && !Names(ds, v)
    ensures v in Apply(entries, Mentions(ds, false)) ==> Apply(entries, Mentions(ds, false))[v] == entries[v]
  {
    if ds != [] {
      var n := |ds| - 1;
      DeletesMeaning(entries, ds[..n], v);
      LastMention(entries, ds, false);
      NamesSnoc(ds[..n], ds[n], v);
    }
  }

  /** What the last element of a list adds to its effect. */
  lemma LastMention(entries: map<string, Decision>, ds: seq<Option<Decision>>, adding: bool)
    requires ds != []
    ensures var last, before := ds[|ds| - 1], Apply(entries, Mentions(ds[..|ds| - 1], adding));
      Apply(entries, Mentions(ds, adding)) ==
        if Skipped(last) then before
        else if adding then before[last.value.value.value := last.value] else before - {last.value.value.value}
    ensures ds == ds[..|ds| - 1] + [ds[|ds| - 1]]
  {
    var n := |ds| - 1;
    assert ds[..n + 1] == ds;
    MentionsSnoc(ds, n, adding);
    if !Skipped(ds[n]) {
      ApplySnoc(entries, Mentions(ds[..n], adding), if adding then Added(ds[n].value) else Deleted(ds[n].value));
    }
  }

  lemma {:induction false} AddsMeaning(entries: map<string, Decision>, ds: seq<Option<Decision>>, v: string, d: Decision)
    ensures v in Apply(entries, Mentions(ds, true)) && Apply(entries, Mentions(ds, true))[v] == d
       <==> NamedLast(ds, v, d) || (!Names(ds, v) && v in entries && entries[v] == d)
  {
    if ds != [] {
      var n := |ds| - 1;
      AddsMeaning(entries, ds[..n], v, d);
      LastMention(entries, ds, true);
      NamesSnoc(ds[..n], ds[n], v);
      NamedLastSnoc(ds[..n], ds[n], v, d);
    }
  }

  lemma {:induction false} RangeMeaning(ds: seq<Option<Decision>>, adding: bool)
    ensures RangeMentioned(Mentions(ds, adding)) <==> NamesRange(ds)
  {
    if ds != [] {
      var n := |ds| - 1;
      RangeMeaning(ds[..n], adding);
      var log, longer := Mentions(ds[..n], adding), Mentions(ds, adding);
      assert forall i :: 0 <= i < n ==> ds[..n][i] == ds[i];
      assert forall i :: 0 <= i < |log| ==> longer[i] == log[i];
      if |longer| > |log| {
        assert longer[|log|].decision == ds[n].value;
      }
    }
  }

  /**
   A message in the terms of its own lists.  Under each value stands afterwards the last decision added with it,
   else nothing if it was deleted, else what was there; and the index is built anew exactly if the message has a
   decision of scope "Range" with a value.
   */
  lemma MessageMeaning(net: Parsers, s: Snapshot, b: Batch, s': Snapshot)
    requires BatchStep(net, s, Some(b), s')
    ensures forall v, d ::
      (v in s'.entries && s'.entries[v] == d) <==> LeftBy(s, b, v, d)
    ensures forall o :: o in s'.origins <==> o in s.origins || NamesOrigin(b.added, o)
    ensures if NamesRange(b.deleted) || NamesRange(b.added) then s'.index.Some? && BuiltFrom(net, s'.index.value, s'.entries)
      else s'.index == s.index
    ensures s'.ready
  {
    var removing, adding := Mentions(b.deleted, false), Mentions(b.added, true);
    ApplyAppend(s.entries, removing, adding);
    forall v, d
      ensures (v in s'.entries && s'.entries[v] == d) <==> LeftBy(s, b, v, d)
    {
      DeletesMeaning(s.entries, b.deleted, v);
      AddsMeaning(Apply(s.entries, removing), b.added, v, d);
    }
    RangeMeaning(b.deleted, false);
    RangeMeaning(b.added, true);
    EitherRange(removing, adding);
    forall o
      ensures o in s'.origins <==> o in s.origins || NamesOrigin(b.added, o)
    {
      OriginsMeaning(b.deleted, false, o);
      OriginsMeaning(b.added, true, o);
      OriginsOfBoth(removing, adding);
    }
  }

  lemma OriginsOfBoth(a: seq<Mention>, b: seq<Mention>)
    ensures OriginsAdded(a + b) == OriginsAdded(a) + OriginsAdded(b)
  {
    assert forall i :: 0 <= i < |a| ==> (a + b)[i] == a[i];
    assert forall i :: 0 <= i < |b| ==> (a + b)[|a| + i] == b[i];
  }

  lemma EitherRange(a: seq<Mention>, b: seq<Mention>)
    ensures RangeMentioned(a + b) <==> RangeMentioned(a) || RangeMentioned(b)
  {
    assert forall i :: 0 <= i < |a| ==> (a + b)[i] == a[i];
    assert forall i :: 0 <= i < |b| ==> (a + b)[|a| + i] == b[i];
  }

  /** The cache is ready from the first message that is not nil, and stays so. */
  lemma {:induction false} ReadyIff(net: Parsers, trace: seq<Snapshot>, events: seq<Option<Batch>>, i: nat)
    requires IsRun(net, trace, events) && i <= |events|
    ensures trace[i].ready <==> exists j :: 0 <= j < i && events[j].Some?
  {
    if i > 0 {
      ReadyIff(net, trace, events, i - 1);
      assert BatchStep(net, trace[i - 1], events[i - 1], trace[i]);
    }
  }

  // ----- the map is the log's last word -----

  lemma {:induction false} ApplyAppend(entries: map<string, Decision>, a: seq<Mention>, b: seq<Mention>)
    ensures Apply(entries, a + b) == Apply(Apply(entries, a), b)
  {
    if b == [] {
      assert a + b == a;
    } else {
      ApplyAppend(entries, a, b[..|b| - 1]);
      assert (a + b)[..|a + b| - 1] == a + b[..|b| - 1];
    }
  }

  /** `d` was added under `v` and nothing later in the log mentions `v`. */
  ghost predicate LastAdded(log: seq<Mention>, v: string, d: Decision) {
    exists i :: 0 <= i < |log| && log[i] == Added(d) && Value(log[i]) == v && forall j :: i < j < |log| ==> Value(log[j]) != v
  }

  /** The map after a log holds exactly the decisions that the log's last mention of their value added. */
  lemma {:induction false} ApplyIsLastWord(log: seq<Mention>, v: string, d: Decision)
    ensures v in Apply(map[], log) && Apply(map[], log)[v] == d <==> LastAdded(log, v, d)
  {
    if log != [] {
      var n := |log| - 1;
      ApplyIsLastWord(log[..n], v, d);
      if Value(log[n]) == v {
        if log[n] == Added(d) {
          assert LastAdded(log, v, d);
        }
      } else {
        LastAddedElsewhere(log, v, d);
      }
    }
  }

  lemma LastAddedElsewhere(log: seq<Mention>, v: string, d: Decision)
    requires log != [] && Value(log[|log| - 1]) != v
    ensures LastAdded(log, v, d) <==> LastAdded(log[..|log| - 1], v, d)
  {
  }

  lemma {:induction false} ApplyKeyed(entries: map<string, Decision>, log: seq<Mention>)
    requires Keyed(entries)
    ensures Keyed(Apply(entries, log))
  {
    if log != [] {
      ApplyKeyed(entries, log[..|log| - 1]);
    }
  }

  lemma {:induction false} RunFollowsLog(net: Parsers, trace: seq<Snapshot>, events: seq<Option<Batch>>, i: nat)
    requires IsRun(net, trace, events) && i <= |events|
    ensures trace[i].entries == Apply(map[], FlatLog(events[..i])) && Keyed(trace[i].entries)
  {
    if i > 0 {
      RunFollowsLog(net, trace, events, i - 1);
      assert events[..i][..i - 1] == events[..i - 1];
      assert BatchStep(net, trace[i - 1], events[i - 1], trace[i]);
      if events[i - 1].None? {
        assert FlatLog(events[..i]) == FlatLog(events[..i - 1]);
      } else {
        ApplyAppend(map[], FlatLog(events[..i - 1]), BatchLog(events[i - 1].value));
        ApplyKeyed(trace[i - 1].entries, BatchLog(events[i - 1].value));
      }
    }
  }

  // ----- when the lazily rebuilt index stays coherent -----

  ghost predicate IndexOk(net: Parsers, s: Snapshot) {
    Coherent(KeyOf(net), IndexOrEmpty(s.index), s.entries)
  }

  predicate Mentioned(log: seq<Mention>, v: string) {
    exists i :: 0 <= i < |log| && Value(log[i]) == v
  }

  /**
   What has to hold of a message before it is applied: it mentions a Range decision, or it names no value
   whose decision the published index holds.
   */
  ghost predicate Guard(s: Snapshot, event: Option<Batch>) {
    event.Some? ==>
      || RangeMentioned(BatchLog(event.value))
      || forall v :: v in Chosen(IndexOrEmpty(s.index)) ==> !Mentioned(BatchLog(event.value), v)
  }

  lemma {:induction false} UnmentionedKept(entries: map<string, Decision>, log: seq<Mention>, v: string)
    requires !Mentioned(log, v)
    ensures v in Apply(entries, log) <==> v in entries
    ensures v in entries ==> Apply(entries, log)[v] == entries[v]
  {
    if log != [] {
      var n := |log| - 1;
      assert Value(log[n]) != v;
      assert forall i :: 0 <= i < n ==> log[..n][i] == log[i];
      UnmentionedKept(entries, log[..n], v);
    }
  }

  lemma {:induction false} MentionedNotRange(entries: map<string, Decision>, log: seq<Mention>, v: string)
    requires Mentioned(log, v) && !RangeMentioned(log)
    ensures v in Apply(entries, log) ==> !IsScope(Apply(entries, log)[v], "Range")
  {
    var n := |log| - 1;
    if Value(log[n]) != v {
      var i :| 0 <= i < |log| && Value(log[i]) == v;
      assert log[..n][i] == log[i];
      assert forall j :: 0 <= j < n ==> log[..n][j] == log[j];
      MentionedNotRange(entries, log[..n], v);
    }
  }

  lemma IndexedIsRange(net: Parsers, d: Decision)
    ensures KeyOf(net)(d).Some? ==> IsScope(d, "Range")
  {
  }

  /** One message preserves coherence exactly when its guard holds. */
  lemma BatchCoherentIff(net: Parsers, s: Snapshot, event: Option<Batch>, s': Snapshot)
    requires BatchStep(net, s, event, s') && Keyed(s.entries) && IndexOk(net, s)
    ensures IndexOk(net, s') <==> Guard(s, event)
  {
    if event.Some? {
      var log := BatchLog(event.value);
      if RangeMentioned(log) {
        ApplyKeyed(s.entries, log);
        KeysAreMasked(net);
        var order :| IsOrderOf(order, s'.entries.Keys) && s'.index.value == BuildFrom(KeyOf(net), s'.entries, order);
        BuildIsCoherent(KeyOf(net), s'.entries, order);
      } else if Guard(s, event) {
        UntouchedIndexOk(net, IndexOrEmpty(s.index), s.entries, log);
      } else {
        TouchedIndexStale(net, IndexOrEmpty(s.index), s.entries, log);
      }
    }
  }

  lemma UntouchedIndexOk(net: Parsers, t: Table<Decision>, entries: map<string, Decision>, log: seq<Mention>)
    requires Coherent(KeyOf(net), t, entries) && !RangeMentioned(log)
    requires forall v :: v in Chosen(t) ==> !Mentioned(log, v)
    ensures Coherent(KeyOf(net), t, Apply(entries, log))
  {
    var after := Apply(entries, log);
    forall p | p in t
      ensures IsStored(t[p], after) && KeyOf(net)(t[p]) == Some(p)
    {
      assert IsStored(t[p], entries) && t[p].value.value in Chosen(t);
      UnmentionedKept(entries, log, t[p].value.value);
    }
    forall k | k in after && KeyOf(net)(after[k]).Some?
      ensures KeyOf(net)(after[k]).value in t
    {
      IndexedIsRange(net, after[k]);
      if Mentioned(log, k) {
        MentionedNotRange(entries, log, k);
      } else {
        UnmentionedKept(entries, log, k);
      }
    }
  }

  lemma TouchedIndexStale(net: Parsers, t: Table<Decision>, entries: map<string, Decision>, log: seq<Mention>)
    requires Coherent(KeyOf(net), t, entries) && !RangeMentioned(log)
    requires exists v :: v in Chosen(t) && Mentioned(log, v)
    ensures !Coherent(KeyOf(net), t, Apply(entries, log))
  {
    var v :| v in Chosen(t) && Mentioned(log, v);
    var p :| p in t && t[p].value == Some(v);
    MentionedNotRange(entries, log, v);
    IndexedIsRange(net, t[p]);
    assert KeyOf(net)(t[p]) == Some(p);
    assert !IsStored(t[p], Apply(entries, log));
  }

  /** Over a whole run: the index is coherent after every message exactly when every message met its guard. */
  lemma RunCoherentIff(net: Parsers, trace: seq<Snapshot>, events: seq<Option<Batch>>)
    requires IsRun(net, trace, events)
    ensures (forall i :: 0 <= i < |trace| ==> IndexOk(net, trace[i]))
       <==> (forall i :: 0 <= i < |events| ==> Guard(trace[i], events[i]))
  {
    if forall i :: 0 <= i < |events| ==> Guard(trace[i], events[i]) {
      forall i | 0 <= i < |trace|
        ensures IndexOk(net, trace[i])
      {
        GuardedRunOk(net, trace, events, i);
      }
    } else {
      var i :| 0 <= i < |events| && !Guard(trace[i], events[i]);
      if IndexOk(net, trace[i]) {
        RunFollowsLog(net, trace, events, i);
        BatchCoherentIff(net, trace[i], events[i], trace[i + 1]);
        assert !IndexOk(net, trace[i + 1]);
      }
    }
  }

  lemma {:induction false} GuardedRunOk(net: Parsers, trace: seq<Snapshot>, events: seq<Option<Batch>>, i: nat)
    requires IsRun(net, trace, events) && i <= |events|
    requires forall j :: 0 <= j < i ==> Guard(trace[j], events[j])
    ensures IndexOk(net, trace[i])
  {
    if i > 0 {
      GuardedRunOk(net, trace, events, i - 1);
      RunFollowsLog(net, trace, events, i - 1);
      BatchCoherentIff(net, trace[i - 1], events[i - 1], trace[i]);
    }
  }

  // ----- which answers are right when the index is stale -----

  /** The mentions since the last message that mentioned a Range decision, which is when the index was last built. */
  function SinceRebuild(events: seq<Option<Batch>>): seq<Mention> {
    if events == [] then []
    else
      var e := events[|events| - 1];
      if e.None? then SinceRebuild(events[..|events| - 1])
      else if RangeMentioned(BatchLog(e.value)) then []
      else SinceRebuild(events[..|events| - 1]) + BatchLog(e.value)
  }

  /** The map the index was last built from. */
  lemma {:induction false} LastRebuild(net: Parsers, trace: seq<Snapshot>, events: seq<Option<Batch>>, i: nat)
    returns (built: map<string, Decision>)
    requires IsRun(net, trace, events) && i <= |events|
    ensures Keyed(built) && Coherent(KeyOf(net), IndexOrEmpty(trace[i].index), built)
    ensures trace[i].entries == Apply(built, SinceRebuild(events[..i])) && !RangeMentioned(SinceRebuild(events[..i]))
  {
    if i == 0 {
      built := map[];
    } else {
      var e := events[i - 1];
      assert events[..i][..i - 1] == events[..i - 1];
      assert BatchStep(net, trace[i - 1], e, trace[i]);
      if e.Some? && RangeMentioned(BatchLog(e.value)) {
        built := trace[i].entries;
        RebuiltOk(net, trace, events, i);
      } else {
        built := LastRebuild(net, trace, events, i - 1);
        if e.Some? {
          ApplyAppend(built, SinceRebuild(events[..i - 1]), BatchLog(e.value));
          EitherRange(SinceRebuild(events[..i - 1]), BatchLog(e.value));
        }
      }
    }
  }

  lemma RebuiltOk(net: Parsers, trace: seq<Snapshot>, events: seq<Option<Batch>>, i: nat)
    requires IsRun(net, trace, events) && 0 < i <= |events|
    requires events[i - 1].Some? && RangeMentioned(BatchLog(events[i - 1].value))
    ensures Keyed(trace[i].entries) && IndexOk(net, trace[i])
  {
    RunFollowsLog(net, trace, events, i);
    assert BatchStep(net, trace[i - 1], events[i - 1], trace[i]);
    KeysAreMasked(net);
    var order :| IsOrderOf(order, trace[i].entries.Keys) && trace[i].index.value == BuildFrom(KeyOf(net), trace[i].entries, order);
    BuildIsCoherent(KeyOf(net), trace[i].entries, order);
  }

  /** The decision the index finds is named in the log. */
  predicate Touches(log: seq<Mention>, found: Option<Match<Decision>>) {
    found.Some? && found.value.value.value.Some? && Mentioned(log, found.value.value.value.value)
  }

  lemma RangeKept(net: Parsers, built: map<string, Decision>, log: seq<Mention>, k: string, a: Addr)
    requires !RangeMentioned(log) && !a.Is4In6() && k in Apply(built, log) && LiveRangeCovers(net, Apply(built, log)[k], a)
    ensures k in built && built[k] == Apply(built, log)[k]
  {
    if Mentioned(log, k) {
      MentionedNotRange(built, log, k);
    } else {
      UnmentionedKept(built, log, k);
    }
  }

  lemma UntouchedIsRight(net: Parsers, built: map<string, Decision>, log: seq<Mention>, a: Addr, d: Option<Decision>)
    requires !RangeMentioned(log) && !a.Is4In6() && MostSpecific(net, built, a, d)
    requires d.Some? ==> IsStored(d.value, Apply(built, log))
    ensures MostSpecific(net, Apply(built, log), a, d)
  {
    var after := Apply(built, log);
    forall k | k in after && LiveRangeCovers(net, after[k], a)
      ensures k in built && built[k] == after[k]
    {
      RangeKept(net, built, log, k, a);
    }
  }

  /** Of a map changed without mention of a Range decision, the index answers rightly unless what it finds was mentioned. */
  lemma StaleAnswerIff(net: Parsers, t: Table<Decision>, built: map<string, Decision>, log: seq<Mention>, a: Addr)
    requires Keyed(built) && Coherent(KeyOf(net), t, built) && !RangeMentioned(log) && !a.Is4In6()
    ensures MostSpecific(net, Apply(built, log), a, ValueOf(Lookup(t, a))) <==> !Touches(log, Lookup(t, a))
  {
    var found := Lookup(t, a);
    LookupRefinesScan(net, t, built, a);
    if found.Some? {
      FoundIsRange(net, t, built, a);
      var d := found.value.value;
      if Mentioned(log, d.value.value) {
        MentionedNotRange(built, log, d.value.value);
        assert !IsStored(d, Apply(built, log));
      } else {
        UnmentionedKept(built, log, d.value.value);
        UntouchedIsRight(net, built, log, a, Some(d));
      }
    } else {
      UntouchedIsRight(net, built, log, a, None);
    }
  }

  lemma FoundIsRange(net: Parsers, t: Table<Decision>, built: map<string, Decision>, a: Addr)
    requires Coherent(KeyOf(net), t, built) && Lookup(t, a).Some?
    ensures var d := Lookup(t, a).value.value;
      IsStored(d, built) && IsScope(d, "Range")
  {
    KeysAreMasked(net);
    CoherentIsMasked(KeyOf(net), t, built);
    LookupIsLongest(t, a);
    IndexedIsRange(net, Lookup(t, a).value.value);
  }

  /**
   Range answers over any run, well-formed or not: after any message and for every address, what the index
   finds is the most specific range live then, exactly unless it finds a decision whose value was mentioned
   since the index was last built.
   */
  lemma RangeAnswerIff(net: Parsers, trace: seq<Snapshot>, events: seq<Option<Batch>>, i: nat, a: Addr)
    requires IsRun(net, trace, events) && i <= |events| && !a.Is4In6()
    ensures var found := Lookup(IndexOrEmpty(trace[i].index), a);
      MostSpecific(net, Apply(map[], FlatLog(events[..i])), a, ValueOf(found)) <==> !Touches(SinceRebuild(events[..i]), found)
  {
    RunFollowsLog(net, trace, events, i);
    var built := LastRebuild(net, trace, events, i);
    StaleAnswerIff(net, IndexOrEmpty(trace[i].index), built, SinceRebuild(events[..i]), a);
  }

  // ----- well-formed streams -----

  /** Mentions of one value agree on whether its scope is Range. */
  ghost predicate WellFormed(log: seq<Mention>) {
    forall i, j :: 0 <= i < |log| && 0 <= j < |log| && Value(log[i]) == Value(log[j])
      ==> IsScope(log[i].decision, "Range") == IsScope(log[j].decision, "Range")
  }

  lemma {:induction false} FlatLogPrefix(events: seq<Option<Batch>>, i: nat)
    requires i <= |events|
    ensures FlatLog(events[..i]) <= FlatLog(events)
  {
    if i < |events| {
      var n := |events| - 1;
      FlatLogPrefix(events[..n], i);
      assert events[..n][..i] == events[..i];
    } else {
      assert events[..i] == events;
    }
  }

  lemma FlatLogStep(events: seq<Option<Batch>>, i: nat)
    requires i < |events| && events[i].Some?
    ensures FlatLog(events[..i]) + BatchLog(events[i].value) <= FlatLog(events)
  {
    assert events[..i + 1][..i] == events[..i];
    FlatLogPrefix(events, i + 1);
  }

  lemma WellFormedGuard(net: Parsers, trace: seq<Snapshot>, events: seq<Option<Batch>>, i: nat)
    requires IsRun(net, trace, events) && WellFormed(FlatLog(events)) && i < |events| && IndexOk(net, trace[i])
    ensures Guard(trace[i], events[i])
  {
    if events[i].Some? && !RangeMentioned(BatchLog(events[i].value)) {
      var before, log, all := FlatLog(events[..i]), BatchLog(events[i].value), FlatLog(events);
      var t := IndexOrEmpty(trace[i].index);
      RunFollowsLog(net, trace, events, i);
      FlatLogStep(events, i);
      forall v | v in Chosen(t)
        ensures !Mentioned(log, v)
      {
        var p :| p in t && t[p].value == Some(v);
        assert KeyOf(net)(t[p]) == Some(p) && IsStored(t[p], trace[i].entries);
        IndexedIsRange(net, t[p]);
        RangeNotMentioned(before, log, all, v, t[p]);
      }
    }
  }

  lemma RangeNotMentioned(before: seq<Mention>, log: seq<Mention>, all: seq<Mention>, v: string, d: Decision)
    requires before + log <= all && WellFormed(all) && !RangeMentioned(log)
    requires v in Apply(map[], before) && Apply(map[], before)[v] == d && IsScope(d, "Range")
    ensures !Mentioned(log, v)
  {
    ApplyIsLastWord(before, v, d);
    var j :| 0 <= j < |before| && before[j] == Added(d) && Value(before[j]) == v;
    assert all[j] == (before + log)[j] == before[j];
    forall k | 0 <= k < |log|
      ensures Value(log[k]) != v
    {
      assert all[|before| + k] == (before + log)[|before| + k] == log[k];
    }
  }

  lemma WellFormedStep(net: Parsers, trace: seq<Snapshot>, events: seq<Option<Batch>>, i: nat)
    requires IsRun(net, trace, events) && WellFormed(FlatLog(events)) && i < |events| && IndexOk(net, trace[i])
    ensures IndexOk(net, trace[i + 1])
  {
    WellFormedGuard(net, trace, events, i);
    RunFollowsLog(net, trace, events, i);
    assert BatchStep(net, trace[i], events[i], trace[i + 1]);
    BatchCoherentIff(net, trace[i], events[i], trace[i + 1]);
  }

  /** On a well-formed stream the published index is coherent at the end of every batch. */
  lemma {:induction false} WellFormedRunOk(net: Parsers, trace: seq<Snapshot>, events: seq<Option<Batch>>, i: nat)
    requires IsRun(net, trace, events) && WellFormed(FlatLog(events)) && i <= |events|
    ensures IndexOk(net, trace[i])
  {
    if i > 0 {
      WellFormedRunOk(net, trace, events, i - 1);
      WellFormedStep(net, trace, events, i - 1);
    }
  }

  /** The log a reader's exact-match lookup reflects, `k` mentions into message `i`. */
  function MomentLog(events: seq<Option<Batch>>, i: nat, k: nat): seq<Mention>
    requires i <= |events|
    requires k > 0 ==> i < |events| && events[i].Some? && k <= |BatchLog(events[i].value)|
  {
    FlatLog(events[..i]) + if k > 0 then BatchLog(events[i].value)[..k] else []
  }

  /**
   GetDecision at any moment of a well-formed run, including in the middle of a batch: it reads the map `k`
   mentions into message `i` and, not earlier, the index published by the first `j` messages.  The answer is
   the exact match that the log up to the first read leaves, else the most specific range that the log up to
   the last completed message leaves.
   */
  lemma AnswerFollowsLog(net: Parsers, trace: seq<Snapshot>, events: seq<Option<Batch>>, i: nat, k: nat, j: nat, ip: string)
    requires IsRun(net, trace, events) && WellFormed(FlatLog(events)) && i <= j <= |events|
    requires k > 0 ==> i < |events| && events[i].Some? && k <= |BatchLog(events[i].value)|
    ensures var seen := Apply(trace[i].entries, if k > 0 then BatchLog(events[i].value)[..k] else []);
      Correct(net, Apply(map[], MomentLog(events, i, k)), Apply(map[], FlatLog(events[..j])), ip,
              Answer(net, seen, trace[j].index, ip))
  {
    RunFollowsLog(net, trace, events, i);
    RunFollowsLog(net, trace, events, j);
    ApplyAppend(map[], FlatLog(events[..i]), if k > 0 then BatchLog(events[i].value)[..k] else []);
    WellFormedRunOk(net, trace, events, j);
    AnswerIsCorrect(net, Apply(map[], MomentLog(events, i, k)), trace[j].entries, trace[j].index, ip);
  }

  /**
   At any moment of any run, two spellings of one address get the same answer exactly when no decision is live
   under either text: ranges are matched by address, exact matches by text.
   */
  lemma SpellingsAgreeIff(net: Parsers, trace: seq<Snapshot>, events: seq<Option<Batch>>, i: nat, k: nat, j: nat,
                          ip: string, other: string)
    requires IsRun(net, trace, events) && i <= j <= |events| && AddressesAreNoRanges(net) && SameAddress(net, ip, other)
    requires k > 0 ==> i < |events| && events[i].Some? && k <= |BatchLog(events[i].value)|
    ensures var seen := Apply(map[], MomentLog(events, i, k));
      Answer(net, seen, trace[j].index, ip) == Answer(net, seen, trace[j].index, other) <==> ip !in seen && other !in seen
  {
    var built := LastRebuild(net, trace, events, j);
    ApplyKeyed(map[], MomentLog(events, i, k));
    SpellingsAgree(net, Apply(map[], MomentLog(events, i, k)), trace[j].index, ip, other);
  }

  /** After a whole well-formed run, the answer is the one the decisions live at its end call for. */
  lemma LiveAnswer(net: Parsers, trace: seq<Snapshot>, events: seq<Option<Batch>>, ip: string)
    requires IsRun(net, trace, events) && WellFormed(FlatLog(events))
    ensures var live := Apply(map[], FlatLog(events));
      Correct(net, live, live, ip, Answer(net, trace[|events|].entries, trace[|events|].index, ip))
  {
    AnswerFollowsLog(net, trace, events, |events|, 0, |events|, ip);
    assert events[..|events|] == events;
    assert MomentLog(events, |events|, 0) == FlatLog(events);
  }

  /** A live decision kept under the client's own address text is the answer, after any run. */
  lemma OwnDecisionIsAnswered(net: Parsers, trace: seq<Snapshot>, events: seq<Option<Batch>>, ip: string, d: Decision)
    requires IsRun(net, trace, events) && LastAdded(FlatLog(events), ip, d) && ip != ""
    ensures Answer(net, trace[|events|].entries, trace[|events|].index, ip) == Success(Some(d))
  {
    RunFollowsLog(net, trace, events, |events|);
    assert events[..|events|] == events;
    ApplyIsLastWord(FlatLog(events), ip, d);
  }

  /** The range a decision of scope "Range" states; None of any other decision. */
  function StatedRange(net: Parsers, d: Decision): Option<Prefix> {
    if d.scope == Some("Range") && d.value.Some? && TrimSpace(d.value.value) != "" then net.prefix(TrimSpace(d.value.value)) else None
  }

  /**
   After a well-formed run, a client in a range last added to the stream, with no live decision of its own, is
   answered with a decision whose stated range it is in and which lies inside the first.
   */
  lemma RangeIsAnswered(net: Parsers, trace: seq<Snapshot>, events: seq<Option<Batch>>, d: Decision, p: Prefix, ip: string, a: Addr)
    returns (e: Decision, q: Prefix)
    requires IsRun(net, trace, events) && WellFormed(FlatLog(events))
    requires d.value.Some? && LastAdded(FlatLog(events), d.value.value, d)
    requires StatedRange(net, d) == Some(p) && p.bits != p.addr.BitLen()
    requires ip != "" && net.addr(ip) == Some(a) && RangeCovers(p, Unmap(a)) && ip !in Apply(map[], FlatLog(events))
    ensures Answer(net, trace[|events|].entries, trace[|events|].index, ip) == Success(Some(e))
    ensures StatedRange(net, e) == Some(q) && RangeCovers(q, Unmap(a))
    ensures forall x: Addr :: !x.Is4In6() && RangeCovers(q, x) ==> RangeCovers(p, x)
  {
    var live := Apply(map[], FlatLog(events));
    LiveAnswer(net, trace, events, ip);
    ApplyIsLastWord(FlatLog(events), d.value.value, d);
    StatedIsLive(net, d, p, Unmap(a));
    e := Answer(net, trace[|events|].entries, trace[|events|].index, ip).value.value;
    RangeDecisionMeaning(net, e, Unmap(a));
    q := StatedRange(net, e).value;
    forall x: Addr | !x.Is4In6() && RangeCovers(q, x)
      ensures RangeCovers(p, x)
    {
      StatedIsLive(net, e, q, x);
      StatedIsLive(net, d, p, x);
    }
  }

  lemma StatedIsLive(net: Parsers, d: Decision, p: Prefix, x: Addr)
    requires !x.Is4In6() && StatedRange(net, d) == Some(p)
    ensures LiveRangeCovers(net, d, x) <==> p.bits != p.addr.BitLen() && RangeCovers(p, x)
  {
    RangeDecisionMeaning(net, d, x);
  }

  /** And a client that no live decision names and no live range holds is answered with none. */
  lemma NobodyIsAnswered(net: Parsers, trace: seq<Snapshot>, events: seq<Option<Batch>>, ip: string)
    requires IsRun(net, trace, events) && WellFormed(FlatLog(events)) && ip != ""
    requires var live := Apply(map[], FlatLog(events));
      && ip !in live
      && forall k :: k in live && StatedRange(net, live[k]).Some? && net.addr(ip).Some?
           ==> var p := StatedRange(net, live[k]).value;
             p.bits == p.addr.BitLen() || !RangeCovers(p, Unmap(net.addr(ip).value))
    ensures Answer(net, trace[|events|].entries, trace[|events|].index, ip) == Success(None)
  {
    LiveAnswer(net, trace, events, ip);
    var r := Answer(net, trace[|events|].entries, trace[|events|].index, ip);
    if net.addr(ip).Some? && r.value.Some? {
      RangeDecisionMeaning(net, r.value.value, Unmap(net.addr(ip).value));
    }
  }

  /** Without well-formedness the answer can be stale: a Range decision deleted under another scope lives on. */
  lemma StaleRangeExample(net: Parsers, d: Decision, ip: string, a: Addr) returns (trace: seq<Snapshot>)
    requires d.value.Some? && LiveRangeCovers(net, d, Unmap(a))
    requires net.addr(ip) == Some(a) && ip != "" && ip != d.value.value
    ensures IsRun(net, trace, [Some(Batch([], [Some(d)])), Some(Batch([Some(d.(scope := None))], []))])
    ensures trace[2].entries == map[]
    ensures Answer(net, trace[2].entries, trace[2].index, ip) == Success(Some(d))
  {
    var gone := d.(scope := None);
    var events := [Some(Batch([], [Some(d)])), Some(Batch([Some(gone)], []))];
    trace := RunExists(net, events);
    LoneMention(d);
    LoneMention(gone);
    assert BatchStep(net, trace[0], events[0], trace[1]);
    assert BatchStep(net, trace[1], events[1], trace[2]);
    RangeIndexed(net, d, trace[0], trace[1]);
    AnswerIsCorrect(net, map[], trace[1].entries, trace[1].index, ip);
  }

  lemma RangeIndexed(net: Parsers, d: Decision, s: Snapshot, s': Snapshot)
    requires d.value.Some? && IsScope(d, "Range") && s == FRESH && BatchStep(net, s, Some(Batch([], [Some(d)])), s')
    ensures s'.entries == map[d.value.value := d] && IndexOk(net, s')
  {
    var event := Some(Batch([], [Some(d)]));
    LoneMention(d);
    assert RangeMentioned(BatchLog(event.value)) by {
      assert IsScope(BatchLog(event.value)[0].decision, "Range");
    }
    BatchCoherentIff(net, s, event, s');
  }

  lemma LoneMention(d: Decision)
    requires d.value.Some?
    ensures BatchLog(Batch([], [Some(d)])) == [Added(d)] && BatchLog(Batch([Some(d)], [])) == [Deleted(d)]
    ensures Apply(map[], [Added(d)]) == map[d.value.value := d]
    ensures Apply(map[d.value.value := d], [Deleted(d)]) == map[]
  {
  }

  // ----- origins -----

  ghost predicate OriginsKnown(s: Snapshot) {
    forall k :: k in s.entries && s.entries[k].origin.Some? ==> s.entries[k].origin.value in s.origins
  }

  lemma {:induction false} ApplyOrigins(entries: map<string, Decision>, log: seq<Mention>, known: set<string>)
    requires forall k :: k in entries && entries[k].origin.Some? ==> entries[k].origin.value in known
    ensures forall k :: k in Apply(entries, log) && Apply(entries, log)[k].origin.Some?
              ==> Apply(entries, log)[k].origin.value in known + OriginsAdded(log)
  {
    if log != [] {
      var n := |log| - 1;
      ApplyOrigins(entries, log[..n], known);
      assert OriginsAdded(log[..n]) <= OriginsAdded(log) by {
        assert forall i :: 0 <= i < n ==> log[..n][i] == log[i];
      }
      if log[n].Added? && log[n].decision.origin.Some? {
        assert log[n].decision.origin.value in OriginsAdded(log);
      }
    }
  }

  /** In every reachable state the stored origins are known, and known origins never shrink. */
  lemma {:induction false} OriginsOverRun(net: Parsers, trace: seq<Snapshot>, events: seq<Option<Batch>>, i: nat, j: nat)
    requires IsRun(net, trace, events) && i <= j <= |events|
    ensures OriginsKnown(trace[j]) && trace[i].origins <= trace[j].origins
    decreases j
  {
    if j > 0 {
      OriginsOverRun(net, trace, events, if i < j then i else j - 1, j - 1);
      assert BatchStep(net, trace[j - 1], events[j - 1], trace[j]);
      if events[j - 1].Some? {
        ApplyOrigins(trace[j - 1].entries, BatchLog(events[j - 1].value), trace[j - 1].origins);
      }
    }
  }

  function OfOrigin(entries: map<string, Decision>, origin: string): set<string> {
    set k | k in entries && entries[k].origin == Some(origin)
  }

  function WithOrigin(entries: map<string, Decision>): set<string> {
    set k | k in entries && entries[k].origin.Some?
  }

  /** GetOriginCounts' result: an entry for every known or stored origin, counting its stored decisions. */
  ghost predicate IsOriginCount(counts: map<string, int>, entries: map<string, Decision>, known: set<string>) {
    && counts.Keys == known + (set k | k in WithOrigin(entries) :: entries[k].origin.value)
    && forall o :: o in counts ==> counts[o] == |OfOrigin(entries, o)|
  }

  lemma DropOrigin(entries: map<string, Decision>, o: string) returns (rest: map<string, Decision>)
    ensures |WithOrigin(entries)| == |OfOrigin(entries, o)| + |WithOrigin(rest)|
    ensures forall k :: k in WithOrigin(rest) ==> k in WithOrigin(entries) && rest[k] == entries[k] && rest[k].origin != Some(o)
    ensures forall o' :: o' != o ==> OfOrigin(rest, o') == OfOrigin(entries, o')
  {
    rest := entries - OfOrigin(entries, o);
    var a, b := OfOrigin(entries, o), WithOrigin(rest);
    assert WithOrigin(entries) == a + b && a !! b;
    forall o' | o' != o
      ensures OfOrigin(rest, o') == OfOrigin(entries, o')
    {
    }
  }

  ghost predicate CountsOrigins(counts: map<string, int>, entries: map<string, Decision>) {
    && (forall o :: o in counts ==> counts[o] == |OfOrigin(entries, o)|)
    && (forall k :: k in WithOrigin(entries) ==> entries[k].origin.value in counts)
  }

  /** The per-origin counts add up to the number of stored decisions that carry an origin. */
  lemma {:induction false} OriginCountsSum(counts: map<string, int>, entries: map<string, Decision>)
    requires CountsOrigins(counts, entries)
    ensures Sum(counts) == |WithOrigin(entries)|
    decreases |counts|
  {
    if counts == map[] {
      assert WithOrigin(entries) == {};
    } else {
      var o :| o in counts;
      SumSplit(counts, o);
      var rest := DropOrigin(entries, o);
      assert CountsOrigins(counts - {o}, rest);
      OriginCountsSum(counts - {o}, rest);
    }
  }

  /** In a reachable state, the origins reported are exactly the known ones and the counts cover every originated decision. */
  lemma ReachableOriginCounts(net: Parsers, trace: seq<Snapshot>, events: seq<Option<Batch>>, i: nat, counts: map<string, int>)
    requires IsRun(net, trace, events) && i <= |events| && IsOriginCount(counts, trace[i].entries, trace[i].origins)
    ensures counts.Keys == trace[i].origins
    ensures Sum(counts) == |WithOrigin(trace[i].entries)|
  {
    OriginsOverRun(net, trace, events, i, i);
    OriginCountsSum(counts, trace[i].entries);
  }
}
