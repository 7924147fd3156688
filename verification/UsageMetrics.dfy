/** Usage counters reported to CrowdSec: the service object, and its reporter running beside concurrent increments. */
module UsageMetrics {
  import opened KeyedCache
  import opened Counting

  datatype Metric = Metric(name: string, unit: string, value: int, labels: map<string, string>)

  function Amount(metrics: map<string, Metric>, key: string): int {
    if key in metrics then metrics[key].value else 0
  }

  /** `metrics` with the value at `key` set, keeping the metadata of an existing metric. */
  function WithAmount(metrics: map<string, Metric>, key: string, initial: Metric, value: int): map<string, Metric> {
    metrics[key := (if key in metrics then metrics[key] else initial).(value := value)]
  }

  class MetricsService {
    const metrics: Cache<string, Metric>

    constructor ()
      ensures fresh(metrics) && metrics.entries == map[]
    {
      metrics := new Cache<string, Metric>();
    }

    method Inc(key: string, name: string, unit: string, labels: map<string, string>)
      modifies metrics
      ensures metrics.entries
        == WithAmount(old(metrics.entries), key, Metric(name, unit, 0, labels), Amount(old(metrics.entries), key) + 1)
    {
      var found := metrics.Get(key);
      var m := if found.Some? then found.value else Metric(name, unit, 0, labels);
      metrics.Set(key, m.(value := m.value + 1));
    }

    /** Never goes below zero. */
    method Dec(key: string, name: string, unit: string, labels: map<string, string>)
      modifies metrics
      ensures var before := Amount(old(metrics.entries), key);
        metrics.entries
        == WithAmount(old(metrics.entries), key, Metric(name, unit, 0, labels), if before < 1 then 0 else before - 1)
    {
      var found := metrics.Get(key);
      var m := if found.Some? then found.value else Metric(name, unit, 0, labels);
      m := m.(value := m.value - 1);
      if m.value < 0 {
        m := m.(value := 0);
      }
      metrics.Set(key, m);
    }

    method Set(key: string, name: string, unit: string, value: int, labels: map<string, string>)
      modifies metrics
      ensures metrics.entries == old(metrics.entries)[key := Metric(name, unit, value, labels)]
    {
      metrics.Set(key, Metric(name, unit, value, labels));
    }

    method Reset()
      modifies metrics
      ensures metrics.entries == map[]
    {
      var keys := metrics.Keys();
      for i := 0 to |keys|
        invariant metrics.entries == old(metrics.entries) - (set k | k in keys[..i])
      {
        metrics.Delete(keys[i]);
      }
      assert keys[..|keys|] == keys;
    }

    method GetSnapshot() returns (snapshot: map<string, Metric>)
      ensures snapshot == metrics.entries
    {
      snapshot := map[];
      var keys := metrics.Keys();
      for i := 0 to |keys|
        invariant snapshot == map k | k in metrics.entries && k in keys[..i] :: metrics.entries[k]
      {
        var found := metrics.Get(keys[i]);
        if found.Some? {
          snapshot := snapshot[keys[i] := found.value];
        }
      }
      assert keys[..|keys|] == keys;
    }

    /** One tick of Run without concurrent updates: report, and clear only if the report was sent. */
    method Report(sent: bool) returns (report: map<string, Metric>)
      modifies metrics
      ensures report == old(metrics.entries)
      ensures metrics.entries == if sent then map[] else old(metrics.entries)
    {
      report := GetSnapshot();
      if sent {
        Reset();
      }
    }
  }

  // ----- the reporter beside concurrent increments -----

  /** Where Run's loop is; the snapshot and the reset visit one key at a time. */
  datatype Phase =
    | Idle
    | Snapping(rest: set<string>, snap: map<string, int>)
    | Sent(snap: map<string, int>)
    | Clearing(rest: set<string>, snap: map<string, int>)

  datatype Pending = Pending(key: string, read: int)

  /** An increment reads the counter and later writes it back; `inFlight` holds the increments in between. */
  datatype Counters = Counters(values: map<string, int>, phase: Phase, inFlight: map<nat, Pending>)

  datatype Label =
    | Read(tid: nat, key: string)
    | Write(tid: nat)
    | ListKeys
    | Copy(key: string)
    | Deliver(ok: bool)
    | ListAgain
    | Drop(key: string)
    | Done

  predicate Enabled(s: Counters, l: Label) {
    match l
    case Read(tid, _) => tid !in s.inFlight
    case Write(tid) => tid in s.inFlight
    case ListKeys => s.phase.Idle?
    case Copy(key) => s.phase.Snapping? && key in s.phase.rest
    case Deliver(_) => s.phase.Snapping? && s.phase.rest == {}
    case ListAgain => s.phase.Sent?
    case Drop(key) => s.phase.Clearing? && key in s.phase.rest
    case Done => s.phase.Clearing? && s.phase.rest == {}
  }

  function Step(s: Counters, l: Label): Counters
    requires Enabled(s, l)
  {
    match l
    case Read(tid, key) => s.(inFlight := s.inFlight[tid := Pending(key, Count(s.values, key))])
    case Write(tid) => s.(values := s.values[s.inFlight[tid].key := s.inFlight[tid].read + 1], inFlight := s.inFlight - {tid})
    case ListKeys => s.(phase := Snapping(s.values.Keys, map[]))
    case Copy(key) => s.(phase := Snapping(s.phase.rest - {key}, s.phase.snap[key := Count(s.values, key)]))
    case Deliver(ok) => s.(phase := if ok then Sent(s.phase.snap) else Idle)
    case ListAgain => s.(phase := Clearing(s.values.Keys, s.phase.snap))
    case Drop(key) => s.(values := s.values - {key}, phase := Clearing(s.phase.rest - {key}, s.phase.snap))
    case Done => s.(phase := Idle)
  }

  /**
   History of one counter: completed increments; how far their reads were off when written; amounts sent;
   amounts cleared beyond what was sent; and the increments that landed since the counter's last snapshot,
   now and summed over all clears.
   */
  datatype History = History(incs: nat, drift: int, sent: int, cleared: int, since: nat, landed: nat)

  function Record(s: Counters, l: Label, h: History, key: string): History
    requires Enabled(s, l)
  {
    match l
    case Write(tid) =>
      if s.inFlight[tid].key == key then
        h.(incs := h.incs + 1, since := h.since + 1, drift := h.drift + s.inFlight[tid].read - Count(s.values, key))
      else h
    case ListKeys => h.(since := 0)
    case Copy(k) => if k == key then h.(since := 0) else h
    case Deliver(ok) => if ok then h.(sent := h.sent + Count(s.phase.snap, key)) else h
    case Drop(k) =>
      if k == key then h.(cleared := h.cleared + Count(s.values, key) - Count(s.phase.snap, key), landed := h.landed + h.since) else h
    case _ => h
  }

  /** What has been sent of the counter but not yet cleared. */
  function Uncleared(s: Counters, key: string): int {
    match s.phase
    case Sent(snap) => Count(snap, key)
    case Clearing(rest, snap) => if key in rest then Count(snap, key) else 0
    case _ => 0
  }

  predicate Sane(s: Counters) {
    match s.phase
    case Idle => true
    case Snapping(rest, snap) => rest <= s.values.Keys && snap.Keys <= s.values.Keys && rest !! snap.Keys
    case Sent(snap) => snap.Keys <= s.values.Keys
    case Clearing(rest, snap) => rest <= s.values.Keys
  }

  /** Nothing is counted twice or dropped, up to the drift of racing increments. */
  predicate Balanced(s: Counters, h: History, key: string) {
    h.incs + h.drift == h.sent + Count(s.values, key) + h.cleared - Uncleared(s, key)
  }

  lemma StepSane(s: Counters, l: Label)
    requires Sane(s) && Enabled(s, l)
    ensures Sane(Step(s, l))
  {
  }

  lemma StepBalanced(s: Counters, l: Label, h: History, key: string)
    requires Sane(s) && Enabled(s, l) && Balanced(s, h, key)
    ensures Balanced(Step(s, l), Record(s, l, h, key), key)
  {
  }

  /** While increments of the counter do not race, a clear drops exactly the increments that landed since the snapshot. */
  predicate Exact(s: Counters, h: History, key: string) {
    && h.drift == 0 && h.cleared == h.landed
    && match s.phase
       case Idle => true
       case Snapping(rest, snap) => key !in rest ==> Count(s.values, key) == Count(snap, key) + h.since
       case Sent(snap) => Count(s.values, key) == Count(snap, key) + h.since
       case Clearing(rest, snap) => key in rest ==> Count(s.values, key) == Count(snap, key) + h.since
  }

  /** If this step is an increment's write of `key`, the counter still holds what the increment read. */
  predicate UnracedOn(s: Counters, l: Label, key: string) {
    l.Write? && l.tid in s.inFlight && s.inFlight[l.tid].key == key ==> s.inFlight[l.tid].read == Count(s.values, key)
  }

  lemma StepExact(s: Counters, l: Label, h: History, key: string)
    requires Sane(s) && Enabled(s, l) && UnracedOn(s, l, key) && Exact(s, h, key)
    ensures Exact(Step(s, l), Record(s, l, h, key), key)
  {
  }

  /** A racing write moves the drift and nothing that would make up for it. */
  lemma RaceUnbalances(s: Counters, l: Label, h: History, key: string)
    requires Enabled(s, l) && Exact(s, h, key) && !UnracedOn(s, l, key)
    ensures Record(s, l, h, key).drift != 0 && Record(s, l, h, key).cleared == Record(s, l, h, key).landed
  {
  }

  // ----- whole runs -----

  const EMPTY := Counters(map[], Idle, map[])
  const NOTHING := History(0, 0, 0, 0, 0, 0)

  predicate Legal(run: seq<Label>)
    decreases |run|, 0
  {
    run == [] || (Legal(run[..|run| - 1]) && Enabled(After(run[..|run| - 1]), run[|run| - 1]))
  }

  function After(run: seq<Label>): Counters
    requires Legal(run)
    decreases |run|, 1
  {
    if run == [] then EMPTY else Step(After(run[..|run| - 1]), run[|run| - 1])
  }

  function HistoryOf(run: seq<Label>, key: string): History
    requires Legal(run)
  {
    if run == [] then NOTHING
    else Record(After(run[..|run| - 1]), run[|run| - 1], HistoryOf(run[..|run| - 1], key), key)
  }

  /** Every write of `key` in the run finds the counter as it read it; other counters may race. */
  predicate NoRacesOn(run: seq<Label>, key: string)
    requires Legal(run)
  {
    run == [] || (NoRacesOn(run[..|run| - 1], key) && UnracedOn(After(run[..|run| - 1]), run[|run| - 1], key))
  }

  lemma {:induction false} RunBalanced(run: seq<Label>, key: string)
    requires Legal(run)
    ensures Sane(After(run)) && Balanced(After(run), HistoryOf(run, key), key)
  {
    if run != [] {
      var init := run[..|run| - 1];
      RunBalanced(init, key);
      StepSane(After(init), run[|run| - 1]);
      StepBalanced(After(init), run[|run| - 1], HistoryOf(init, key), key);
    }
  }

  lemma {:induction false} RunExact(run: seq<Label>, key: string)
    requires Legal(run) && NoRacesOn(run, key)
    ensures Exact(After(run), HistoryOf(run, key), key)
  {
    if run != [] {
      var init := run[..|run| - 1];
      RunExact(init, key);
      RunBalanced(init, key);
      StepExact(After(init), run[|run| - 1], HistoryOf(init, key), key);
    }
  }

  /**
   The books of one counter: the increments made are those in sent reports, plus the current value, plus those
   that landed between a sent report's snapshot of the counter and its clear (less, in the middle of a reset,
   what is sent but not yet cleared).
   */
  predicate BooksBalance(run: seq<Label>, key: string)
    requires Legal(run)
  {
    var h := HistoryOf(run, key);
    h.incs == h.sent + Count(After(run).values, key) + h.landed - Uncleared(After(run), key)
  }

  /** In every run, whatever the reporter and the other counters do, if no increment of this counter races. */
  lemma IncrementsConserved(run: seq<Label>, key: string)
    requires Legal(run) && NoRacesOn(run, key)
    ensures BooksBalance(run, key)
  {
    RunBalanced(run, key);
    RunExact(run, key);
  }

  lemma {:induction false} NoRacesPrefix(run: seq<Label>, key: string, n: nat)
    requires Legal(run) && NoRacesOn(run, key) && n <= |run|
    ensures Legal(run[..n]) && NoRacesOn(run[..n], key)
  {
    if n == |run| {
      assert run[..n] == run;
    } else {
      NoRacesPrefix(run[..|run| - 1], key, n);
      assert run[..|run| - 1][..n] == run[..n];
    }
  }

  /** A run in which the counter races: the books are out right after the first racing write. */
  lemma {:induction false} FirstRace(run: seq<Label>, key: string) returns (n: nat)
    requires Legal(run) && !NoRacesOn(run, key)
    ensures n <= |run| && Legal(run[..n]) && !BooksBalance(run[..n], key)
  {
    var init := run[..|run| - 1];
    if NoRacesOn(init, key) {
      n := |run|;
      assert run[..n] == run;
      RunExact(init, key);
      RunBalanced(run, key);
      RaceUnbalances(After(init), run[|run| - 1], HistoryOf(init, key), key);
    } else {
      n := FirstRace(init, key);
      assert init[..n] == run[..n];
    }
  }

  /** The books of a counter balance at every moment of a run exactly when none of its increments races. */
  lemma AlwaysConservedIff(run: seq<Label>, key: string)
    requires Legal(run)
    ensures (forall n :: 0 <= n <= |run| ==> Legal(run[..n]) && BooksBalance(run[..n], key)) <==> NoRacesOn(run, key)
  {
    if NoRacesOn(run, key) {
      forall n | 0 <= n <= |run|
        ensures Legal(run[..n]) && BooksBalance(run[..n], key)
      {
        NoRacesPrefix(run, key, n);
        IncrementsConserved(run[..n], key);
      }
    } else {
      var n := FirstRace(run, key);
    }
  }

  /** An increment adds exactly one to its counter if and only if the counter still holds what it read. */
  lemma WriteAddsOneIff(s: Counters, tid: nat)
    requires tid in s.inFlight
    ensures var key := s.inFlight[tid].key;
      Count(Step(s, Write(tid)).values, key) == Count(s.values, key) + 1 <==> UnracedOn(s, Write(tid), key)
  {
  }

  // ----- the object's methods are the uninterrupted cases -----

  function ValuesOf(metrics: map<string, Metric>): map<string, int> {
    map key | key in metrics :: metrics[key].value
  }

  /** Inc is a read and a write with nothing between them. */
  lemma IncIsSerial(s: Counters, tid: nat, metrics: map<string, Metric>, key: string, initial: Metric)
    requires tid !in s.inFlight && s.values == ValuesOf(metrics)
    ensures var s' := Step(Step(s, Read(tid, key)), Write(tid));
      s' == s.(values := ValuesOf(WithAmount(metrics, key, initial, Amount(metrics, key) + 1)))
  {
    var s' := Step(Step(s, Read(tid, key)), Write(tid));
    assert s'.inFlight == s.inFlight;
    assert s'.values == ValuesOf(WithAmount(metrics, key, initial, Amount(metrics, key) + 1));
  }

  predicate LegalFrom(s: Counters, run: seq<Label>)
    decreases |run|
  {
    run == [] || (Enabled(s, run[0]) && LegalFrom(Step(s, run[0]), run[1..]))
  }

  function AfterFrom(s: Counters, run: seq<Label>): Counters
    requires LegalFrom(s, run)
    decreases |run|
  {
    if run == [] then s else AfterFrom(Step(s, run[0]), run[1..])
  }

  lemma Prepend(s: Counters, l: Label, run: seq<Label>)
    requires Enabled(s, l) && LegalFrom(Step(s, l), run)
    ensures LegalFrom(s, [l] + run) && AfterFrom(s, [l] + run) == AfterFrom(Step(s, l), run)
  {
  }

  /** Without increments beside it the snapshot copies every counter that is left to copy. */
  lemma {:induction false} CopyRest(s: Counters) returns (run: seq<Label>)
    requires s.phase.Snapping? && s.phase.rest <= s.values.Keys
    ensures LegalFrom(s, run)
    ensures AfterFrom(s, run) == s.(phase := Snapping({}, s.phase.snap + map key | key in s.phase.rest :: s.values[key]))
    decreases s.phase.rest
  {
    if s.phase.rest == {} {
      run := [];
      assert s.phase.snap + (map key | key in s.phase.rest :: s.values[key]) == s.phase.snap;
    } else {
      var k :| k in s.phase.rest;
      var s' := Step(s, Copy(k));
      var more := CopyRest(s');
      Prepend(s, Copy(k), more);
      run := [Copy(k)] + more;
      assert s'.phase.snap + (map key | key in s'.phase.rest :: s.values[key])
        == s.phase.snap + (map key | key in s.phase.rest :: s.values[key]);
    }
  }

  /** And the reset clears every counter that is left to clear. */
  lemma {:induction false} DropRest(s: Counters) returns (run: seq<Label>)
    requires s.phase.Clearing? && s.phase.rest <= s.values.Keys
    ensures LegalFrom(s, run)
    ensures AfterFrom(s, run) == s.(phase := Clearing({}, s.phase.snap), values := s.values - s.phase.rest)
    decreases s.phase.rest
  {
    if s.phase.rest == {} {
      run := [];
      assert s.values - s.phase.rest == s.values;
    } else {
      var k :| k in s.phase.rest;
      var s' := Step(s, Drop(k));
      var more := DropRest(s');
      Prepend(s, Drop(k), more);
      run := [Drop(k)] + more;
      assert s'.values - s'.phase.rest == s.values - s.phase.rest;
    }
  }

  /** Report is a round of the reporter with no increment beside it: all is in the snapshot, and cleared if it was sent. */
  lemma ReportIsSerial(s: Counters, sent: bool) returns (copying: seq<Label>, clearing: seq<Label>)
    requires s.phase.Idle?
    ensures LegalFrom(s, [ListKeys] + copying)
    ensures AfterFrom(s, [ListKeys] + copying) == s.(phase := Snapping({}, s.values))
    ensures LegalFrom(AfterFrom(s, [ListKeys] + copying), [Deliver(sent)] + clearing)
    ensures AfterFrom(AfterFrom(s, [ListKeys] + copying), [Deliver(sent)] + clearing) == if sent then s.(values := map[]) else s
  {
    var listed := Step(s, ListKeys);
    copying := CopyRest(listed);
    Prepend(s, ListKeys, copying);
    assert map[] + (map key | key in s.values.Keys :: s.values[key]) == s.values;
    var ready := s.(phase := Snapping({}, s.values));
    if sent {
      var delivered := Step(ready, Deliver(true));
      var listing := Step(delivered, ListAgain);
      var drops := DropRest(listing);
      clearing := EndRound(listing, drops);
      Prepend(delivered, ListAgain, clearing);
      Prepend(ready, Deliver(true), [ListAgain] + clearing);
      clearing := [ListAgain] + clearing;
      assert s.values - s.values.Keys == map[];
    } else {
      clearing := [];
      Prepend(ready, Deliver(false), []);
    }
  }

  lemma {:induction false} EndRound(s: Counters, run: seq<Label>) returns (longer: seq<Label>)
    requires LegalFrom(s, run) && Enabled(AfterFrom(s, run), Done)
    ensures LegalFrom(s, longer) && AfterFrom(s, longer) == Step(AfterFrom(s, run), Done)
    decreases |run|
  {
    if run == [] {
      longer := [Done] + [];
      Prepend(s, Done, []);
    } else {
      var more := EndRound(Step(s, run[0]), run[1..]);
      Prepend(s, run[0], more);
      longer := [run[0]] + more;
    }
  }

  /** Two increments that both read before either writes count once. */
  lemma RacingIncrementsExample(key: string)
    ensures var run := [Read(0, key), Read(1, key), Write(0), Write(1)];
      Legal(run) && HistoryOf(run, key).incs == 2 && After(run).values == map[key := 1]
  {
    var r1, r2, r3 := [Read(0, key)], [Read(0, key), Read(1, key)], [Read(0, key), Read(1, key), Write(0)];
    assert [] + r1 == r1 && r1 + [Read(1, key)] == r2 && r2 + [Write(0)] == r3;
    Extend([], Read(0, key), key);
    Extend(r1, Read(1, key), key);
    Extend(r2, Write(0), key);
    Extend(r3, Write(1), key);
    assert r3 + [Write(1)] == [Read(0, key), Read(1, key), Write(0), Write(1)];
    assert After([Read(0, key), Read(1, key)]) == Counters(map[], Idle, map[0 := Pending(key, 0), 1 := Pending(key, 0)]);
    assert After([Read(0, key), Read(1, key), Write(0)]) == Counters(map[key := 1], Idle, map[1 := Pending(key, 0)]);
  }

  lemma Extend(run: seq<Label>, l: Label, key: string)
    requires Legal(run) && Enabled(After(run), l)
    ensures Legal(run + [l]) && After(run + [l]) == Step(After(run), l)
    ensures HistoryOf(run + [l], key) == Record(After(run), l, HistoryOf(run, key), key)
  {
  }
}
