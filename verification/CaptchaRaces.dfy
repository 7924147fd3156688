/**
 Concurrent captcha requests under replay protection.  VerifyResponse is not atomic: other requests run
 between its token check, its cache check, the provider's reply, the delete, the gauge update and the session
 token; and CreateSession updates the gauge after the cache.
 */
module CaptchaRaces {
  import opened Captcha
  import opened Counting

  /** Missed: the cache check failed.  Refused: the provider or the signature did. */
  datatype Phase = Admitted | Missed | Checked | Solved | Deleted | Settled | Granted | Refused

  /** A verification whose token and IP were accepted. */
  datatype Visit = Visit(claims: Claims, phase: Phase)

  /** `consumed` and `surplus` are history: IDs some verification deleted, and deletes that found nothing. */
  datatype Race = Race(
    cfg: Config, now: int, signed: set<Claims>, cache: map<string, Claims>, pending: int,
    visits: map<nat, Visit>, creating: set<nat>, consumed: set<string>, surplus: nat)

  /** Tokens are signed by the service itself, with its configuration and at the moment of the step. */
  datatype Label =
    | Issue(tid: nat, ip: string, url: string, id: string)
    | CountIssue(tid: nat)
    | Admit(tid: nat, ip: string, token: Token)
    | Check(tid: nat)
    | Reply(tid: nat, yes: bool)
    | Delete(tid: nat)
    | Uncount(tid: nat)
    | Finish(tid: nat, sid: string, signs: bool)
    | Cleanup(gone: set<string>, lag: nat)
    | Tick(d: nat)

  predicate At(s: Race, tid: nat, phase: Phase) {
    tid in s.visits && s.visits[tid].phase == phase
  }

  /** The token and IP checks of VerifyResponse. */
  predicate Admits(s: Race, ip: string, token: Token) {
    Accepted(s.signed, token, s.now) && token.claims.ipHash == HashOf(ip)
  }

  predicate Minted(s: Race, id: string) {
    exists c :: c in s.signed && c.id == id
  }

  /**
   A cleanup pass takes `lag` and reads the clock anew for each entry: it removes all that had expired when it
   began and may remove what expires while it runs.
   */
  predicate Sweeps(s: Race, gone: set<string>, lag: nat) {
    && (forall id :: id in s.cache && s.cache[id].expires < s.now ==> id in gone)
    && (forall id :: id in gone ==> id in s.cache && s.cache[id].expires < s.now + lag)
  }

  predicate Enabled(s: Race, l: Label) {
    match l
    case Issue(tid, _, url, id) => tid !in s.creating && ValidRedirect(s.cfg, url) && id != "" && !Minted(s, id)
    case CountIssue(tid) => tid in s.creating
    case Admit(tid, _, _) => tid !in s.visits
    case Check(tid) => At(s, tid, Admitted)
    case Reply(tid, _) => At(s, tid, Checked)
    case Delete(tid) => At(s, tid, Solved)
    case Uncount(tid) => At(s, tid, Deleted)
    case Finish(tid, _, _) => At(s, tid, Settled)
    case Cleanup(gone, lag) => Sweeps(s, gone, lag)
    case Tick(_) => true
  }

  function Move(s: Race, tid: nat, phase: Phase): Race
    requires tid in s.visits
  {
    s.(visits := s.visits[tid := s.visits[tid].(phase := phase)])
  }

  function Step(s: Race, l: Label): Race
    requires Enabled(s, l)
  {
    match l
    case Issue(tid, ip, url, id) =>
      var c := ChallengeFor(s.cfg, ip, url, id, s.now);
      s.(signed := s.signed + {c}, cache := s.cache[id := c], creating := s.creating + {tid})
    case CountIssue(tid) => s.(pending := s.pending + 1, creating := s.creating - {tid})
    case Admit(tid, ip, token) =>
      if Admits(s, ip, token) then s.(visits := s.visits[tid := Visit(token.claims, Admitted)]) else s
    case Check(tid) => Move(s, tid, if s.visits[tid].claims.id in s.cache then Checked else Missed)
    case Reply(tid, yes) => Move(s, tid, if yes then Solved else Refused)
    case Delete(tid) =>
      var id := s.visits[tid].claims.id;
      Move(s, tid, Deleted).(
        cache := s.cache - {id}, consumed := s.consumed + {id}, surplus := if id in s.cache then s.surplus else s.surplus + 1)
    case Uncount(tid) => Move(s, tid, Settled).(pending := s.pending - 1)
    case Finish(tid, sid, signs) =>
      if signs then Move(s, tid, Granted).(signed := s.signed + {SessionFor(s.cfg, sid, s.now)}) else Move(s, tid, Refused)
    case Cleanup(gone, lag) => s.(cache := s.cache - gone, pending := s.pending - |gone|, now := s.now + lag)
    case Tick(d) => s.(now := s.now + d)
  }

  predicate Legal(s: Race, run: seq<Label>)
    decreases |run|
  {
    run == [] || (Enabled(s, run[0]) && Legal(Step(s, run[0]), run[1..]))
  }

  function After(s: Race, run: seq<Label>): Race
    requires Legal(s, run)
    decreases |run|
  {
    if run == [] then s else After(Step(s, run[0]), run[1..])
  }

  function Start(cfg: Config, now: int): Race {
    Race(cfg, now, {}, map[], 0, map[], {}, {}, 0)
  }

  lemma {:induction false} RunAppend(s: Race, a: seq<Label>, b: seq<Label>)
    requires Legal(s, a) && Legal(After(s, a), b)
    ensures Legal(s, a + b) && After(s, a + b) == After(After(s, a), b)
    decreases |a|
  {
    if a == [] {
      assert a + b == b;
    } else {
      RunAppend(Step(s, a[0]), a[1..], b);
      assert (a + b)[1..] == a[1..] + b;
    }
  }

  // ----- who passed, who is in flight, who was granted -----

  /** Past the cache check and not yet at an end. */
  predicate Active(phase: Phase) {
    phase in {Checked, Solved, Deleted, Settled}
  }

  /** Verifications that passed the cache check. */
  function Passed(s: Race, id: string): set<nat> {
    set t | t in s.visits && s.visits[t].claims.id == id && s.visits[t].phase !in {Admitted, Missed}
  }

  function InFlight(s: Race, id: string): set<nat> {
    set t | t in s.visits && s.visits[t].claims.id == id && Active(s.visits[t].phase)
  }

  function GrantedOf(s: Race, id: string): set<nat> {
    set t | t in s.visits && s.visits[t].claims.id == id && s.visits[t].phase == Granted
  }

  /** Verifications whose cache check is still to come and would pass now. */
  function Waiting(s: Race, id: string): set<nat> {
    set t | t in s.visits && s.visits[t].claims.id == id && s.visits[t].phase == Admitted && id in s.cache
  }

  function Deleting(s: Race): set<nat> {
    set t | t in s.visits && s.visits[t].phase == Deleted
  }

  // ----- invariants -----

  ghost predicate Spent(s: Race, id: string) {
    id !in s.cache && Minted(s, id)
  }

  /** A cached challenge is the one signed token of its ID. */
  ghost predicate CacheSigned(s: Race) {
    && (forall id :: id in s.cache ==> id != "" && s.cache[id] in s.signed && s.cache[id].id == id && s.cache[id].ipHash.HashOf?)
    && (forall c :: c in s.signed && c.id in s.cache ==> s.cache[c.id] == c)
  }

  /** A visit that has reached its delete has a consumed ID. */
  ghost predicate DeletesRecorded(s: Race) {
    forall t :: t in s.visits && s.visits[t].phase in {Deleted, Settled, Granted} ==> s.visits[t].claims.id in s.consumed
  }

  ghost predicate Consistent(s: Race) {
    && CacheSigned(s)
    && (forall t :: t in s.visits ==> s.visits[t].claims in s.signed)
    && (forall id :: id in s.consumed ==> Spent(s, id))
    && DeletesRecorded(s)
  }

  predicate GaugeAccurate(s: Race) {
    s.pending == |s.cache| - s.surplus + |Deleting(s)| - |s.creating|
  }

  lemma StepConsistent(s: Race, l: Label)
    requires Consistent(s) && Enabled(s, l)
    ensures Consistent(Step(s, l))
  {
    StepCacheSigned(s, l);
    ConsumedStaySpent(s, l);
    StepDeletesRecorded(s, l);
    StepVisitsSigned(s, l);
  }

  lemma StepCacheSigned(s: Race, l: Label)
    requires CacheSigned(s) && Enabled(s, l)
    ensures CacheSigned(Step(s, l))
  {
  }

  lemma StepVisitsSigned(s: Race, l: Label)
    requires (forall t :: t in s.visits ==> s.visits[t].claims in s.signed) && Enabled(s, l)
    ensures forall t :: t in Step(s, l).visits ==> Step(s, l).visits[t].claims in Step(s, l).signed
  {
  }

  lemma StepDeletesRecorded(s: Race, l: Label)
    requires DeletesRecorded(s) && Enabled(s, l)
    ensures DeletesRecorded(Step(s, l))
  {
  }

  lemma ConsumedStaySpent(s: Race, l: Label)
    requires Consistent(s) && Enabled(s, l)
    ensures forall id :: id in Step(s, l).consumed ==> Spent(Step(s, l), id)
  {
  }

  lemma DeletingMoves(s: Race, tid: nat, phase: Phase)
    requires tid in s.visits
    ensures Deleting(Move(s, tid, phase)) == if phase == Deleted then Deleting(s) + {tid} else Deleting(s) - {tid}
  {
  }

  lemma DeleteKeepsGauge(s: Race, tid: nat)
    requires GaugeAccurate(s) && At(s, tid, Solved)
    ensures GaugeAccurate(Step(s, Delete(tid)))
  {
    DropSize(s.cache, s.visits[tid].claims.id);
    DeletingMoves(s, tid, Deleted);
    DeletingOnly(Step(s, Delete(tid)), Move(s, tid, Deleted));
    assert tid !in Deleting(s);
  }

  lemma DeletingOnly(s: Race, t: Race)
    requires s.visits == t.visits
    ensures Deleting(s) == Deleting(t)
  {
  }

  lemma UncountKeepsGauge(s: Race, tid: nat)
    requires GaugeAccurate(s) && At(s, tid, Deleted)
    ensures GaugeAccurate(Step(s, Uncount(tid)))
  {
    DeletingMoves(s, tid, Settled);
    DeletingOnly(Step(s, Uncount(tid)), Move(s, tid, Settled));
    assert tid in Deleting(s);
  }

  /** The other steps neither enter nor leave the window between delete and gauge update. */
  lemma DeletingUnmoved(s: Race, l: Label)
    requires Enabled(s, l) && !l.Delete? && !l.Uncount?
    ensures Deleting(Step(s, l)) == Deleting(s)
  {
  }

  lemma StepKeepsGauge(s: Race, l: Label)
    requires Consistent(s) && GaugeAccurate(s) && Enabled(s, l)
    ensures GaugeAccurate(Step(s, l))
  {
    match l
    case Delete(tid) => DeleteKeepsGauge(s, tid);
    case Uncount(tid) => UncountKeepsGauge(s, tid);
    case Issue(_, _, _, _) => IssueKeepsGauge(s, l);
    case Cleanup(_, _) => SweepKeepsGauge(s, l);
    case _ => DeletingUnmoved(s, l);
  }

  lemma IssueKeepsGauge(s: Race, l: Label)
    requires Consistent(s) && GaugeAccurate(s) && l.Issue? && Enabled(s, l)
    ensures GaugeAccurate(Step(s, l))
  {
    DeletingUnmoved(s, l);
    assert l.id !in s.cache;
  }

  lemma SweepKeepsGauge(s: Race, l: Label)
    requires GaugeAccurate(s) && l.Cleanup? && Enabled(s, l)
    ensures GaugeAccurate(Step(s, l))
  {
    DeletingUnmoved(s, l);
    assert l.gone <= s.cache.Keys;
    RemoveSize(s.cache, l.gone);
  }

  lemma {:induction false} RunConsistent(s: Race, run: seq<Label>)
    requires Consistent(s) && GaugeAccurate(s) && Legal(s, run)
    ensures Consistent(After(s, run)) && GaugeAccurate(After(s, run))
    decreases |run|
  {
    if run != [] {
      StepConsistent(s, run[0]);
      StepKeepsGauge(s, run[0]);
      RunConsistent(Step(s, run[0]), run[1..]);
    }
  }

  /** Between requests the gauge is the cache size less the deletes that found nothing. */
  lemma QuiescentGauge(cfg: Config, now: int, run: seq<Label>)
    requires Legal(Start(cfg, now), run)
    ensures var s := After(Start(cfg, now), run);
      Deleting(s) == {} && s.creating == {} ==> s.pending == |s.cache| - s.surplus
  {
    assert Deleting(Start(cfg, now)) == {};
    RunConsistent(Start(cfg, now), run);
  }

  // ----- once no further verification can be admitted -----

  /** A new verification of this challenge would be admitted and pass its cache check. */
  predicate Open(s: Race, id: string) {
    id in s.cache && s.now < s.cache[id].expires
  }

  /** The verifications that have been granted a session or may yet be. */
  function Hopeful(s: Race, id: string): set<nat> {
    GrantedOf(s, id) + InFlight(s, id) + Waiting(s, id)
  }

  /** No cache check after the first consume of an ID passes for it. */
  lemma LateCheckFails(s: Race, tid: nat)
    requires Consistent(s) && Enabled(s, Check(tid)) && s.visits[tid].claims.id in s.consumed
    ensures At(Step(s, Check(tid)), tid, Missed)
  {
  }

  lemma AdmitSets(s: Race, l: Label, id: string)
    requires Consistent(s) && l.Admit? && Enabled(s, l) && !Open(s, id)
    ensures var s' := Step(s, l);
      && Passed(s', id) == Passed(s, id) && InFlight(s', id) == InFlight(s, id)
      && GrantedOf(s', id) == GrantedOf(s, id) && Waiting(s', id) == Waiting(s, id)
  {
  }

  /** What moving a visit of another challenge, or of none, does to the sets of `id`: nothing. */
  lemma OtherSets(s: Race, s': Race, id: string)
    requires s'.visits.Keys == s.visits.Keys
    requires forall t :: t in s.visits && s.visits[t].claims.id == id ==> s'.visits[t] == s.visits[t]
    requires forall t :: t in s.visits && s.visits[t].claims.id != id ==> s'.visits[t].claims.id != id
    ensures Passed(s', id) == Passed(s, id) && InFlight(s', id) == InFlight(s, id) && GrantedOf(s', id) == GrantedOf(s, id)
    ensures (id in s'.cache ==> id in s.cache) ==> Waiting(s', id) <= Waiting(s, id)
  {
  }

  /** The steps of an admitted verification. */
  predicate Moves(l: Label) {
    l.Check? || l.Reply? || l.Delete? || l.Uncount? || l.Finish?
  }

  lemma OwnCheck(s: Race, tid: nat)
    requires Enabled(s, Check(tid))
    ensures var s', id := Step(s, Check(tid)), s.visits[tid].claims.id;
      && (id !in s.cache ==> Passed(s', id) == Passed(s, id))
      && GrantedOf(s', id) == GrantedOf(s, id) && Hopeful(s', id) <= Hopeful(s, id)
  {
  }

  lemma OwnMove(s: Race, s': Race, tid: nat)
    requires tid in s.visits && Active(s.visits[tid].phase)
    requires exists phase :: phase !in {Admitted, Missed} && s'.visits == Move(s, tid, phase).visits
    requires s.visits[tid].claims.id in s'.cache ==> s.visits[tid].claims.id in s.cache
    ensures var id := s.visits[tid].claims.id;
      && Passed(s', id) == Passed(s, id)
      && GrantedOf(s, id) <= GrantedOf(s', id) && Hopeful(s', id) <= Hopeful(s, id)
  {
  }

  lemma OwnStep(s: Race, l: Label)
    requires Enabled(s, l) && Moves(l)
    ensures var s', id := Step(s, l), s.visits[l.tid].claims.id;
      && (id !in s.cache ==> Passed(s', id) == Passed(s, id))
      && GrantedOf(s, id) <= GrantedOf(s', id) && Hopeful(s', id) <= Hopeful(s, id)
  {
    if l.Check? {
      OwnCheck(s, l.tid);
    } else {
      var phase := Step(s, l).visits[l.tid].phase;
      assert Step(s, l).visits == Move(s, l.tid, phase).visits;
      OwnMove(s, Step(s, l), l.tid);
    }
  }

  lemma StepCloses(s: Race, l: Label, id: string)
    requires Consistent(s) && Enabled(s, l) && Minted(s, id) && !Open(s, id)
    ensures !Open(Step(s, l), id) && Minted(Step(s, l), id)
    ensures id in Step(s, l).cache ==> id in s.cache
  {
  }

  /** From then on nothing joins those who may be granted. */
  lemma StepHopeful(s: Race, l: Label, id: string)
    requires Consistent(s) && Enabled(s, l) && Minted(s, id) && !Open(s, id)
    ensures var s' := Step(s, l);
      && GrantedOf(s, id) <= GrantedOf(s', id) && Hopeful(s', id) <= Hopeful(s, id)
      && (id !in s.cache ==> Passed(s', id) == Passed(s, id))
  {
    StepCloses(s, l, id);
    if l.Admit? {
      AdmitSets(s, l, id);
    } else if Moves(l) && s.visits[l.tid].claims.id == id {
      OwnStep(s, l);
    } else {
      OtherSets(s, Step(s, l), id);
    }
  }

  lemma {:induction false} RunHopeful(s: Race, run: seq<Label>, id: string)
    requires Consistent(s) && Legal(s, run) && Minted(s, id) && !Open(s, id)
    ensures var s' := After(s, run);
      && GrantedOf(s, id) <= GrantedOf(s', id) <= Hopeful(s, id)
      && (id !in s.cache ==> GrantedOf(s', id) <= Passed(s', id) == Passed(s, id))
    decreases |run|
  {
    if run != [] {
      StepHopeful(s, run[0], id);
      StepCloses(s, run[0], id);
      StepConsistent(s, run[0]);
      RunHopeful(Step(s, run[0]), run[1..], id);
    }
  }

  /**
   Sessions granted for an ID are bounded by the cache checks it passed before its first consume: `first`
   is the run up to and including that delete, `rest` whatever follows.
   */
  lemma GrantsBounded(cfg: Config, now: int, first: seq<Label>, rest: seq<Label>, id: string)
    requires Legal(Start(cfg, now), first) && Legal(After(Start(cfg, now), first), rest)
    requires id in After(Start(cfg, now), first).consumed
    ensures Legal(Start(cfg, now), first + rest)
    ensures |GrantedOf(After(Start(cfg, now), first + rest), id)| <= |Passed(After(Start(cfg, now), first), id)|
  {
    assert Deleting(Start(cfg, now)) == {};
    RunConsistent(Start(cfg, now), first);
    RunAppend(Start(cfg, now), first, rest);
    var s := After(Start(cfg, now), first);
    RunHopeful(s, rest, id);
    Smaller(GrantedOf(After(s, rest), id), Passed(s, id));
  }

  lemma Smaller<T>(a: set<T>, b: set<T>)
    requires a <= b
    ensures |a| <= |b|
  {
    assert b == a + (b - a);
  }

  // ----- everyone who may be granted can be -----

  function StepsLeft(phase: Phase): nat {
    match phase
    case Checked => 3
    case Solved => 2
    case Deleted => 1
    case _ => 0
  }

  /** The steps that take a verification past its cache check to a granted session. */
  function Completion(phase: Phase, tid: nat, sid: string): seq<Label>
    decreases StepsLeft(phase)
  {
    match phase
    case Checked => [Reply(tid, true)] + Completion(Solved, tid, sid)
    case Solved => [Delete(tid)] + Completion(Deleted, tid, sid)
    case Deleted => [Uncount(tid)] + Completion(Settled, tid, sid)
    case Settled => [Finish(tid, sid, true)]
    case _ => []
  }

  /** Any in-flight verification can still be granted, whatever became of its challenge, without touching the others. */
  lemma {:induction false} CanComplete(s: Race, tid: nat, sid: string)
    requires tid in s.visits && Active(s.visits[tid].phase)
    ensures Legal(s, Completion(s.visits[tid].phase, tid, sid))
    ensures After(s, Completion(s.visits[tid].phase, tid, sid)).visits == s.visits[tid := Visit(s.visits[tid].claims, Granted)]
    decreases StepsLeft(s.visits[tid].phase)
  {
    var phase := s.visits[tid].phase;
    var run := Completion(phase, tid, sid);
    var s' := Step(s, run[0]);
    if phase == Settled {
      assert run[1..] == [];
    } else {
      assert s'.visits == s.visits[tid := s'.visits[tid]] && s'.visits[tid].claims == s.visits[tid].claims;
      assert run[1..] == Completion(s'.visits[tid].phase, tid, sid);
      CanComplete(s', tid, sid);
    }
  }

  lemma CompleteNext(s: Race, run: seq<Label>, tid: nat, sid: string) returns (longer: seq<Label>)
    requires Legal(s, run) && tid in After(s, run).visits && Active(After(s, run).visits[tid].phase)
    ensures Legal(s, longer)
    ensures After(s, longer).visits == After(s, run).visits[tid := Visit(After(s, run).visits[tid].claims, Granted)]
  {
    var mid := After(s, run);
    var more := Completion(mid.visits[tid].phase, tid, sid);
    CanComplete(mid, tid, sid);
    RunAppend(s, run, more);
    longer := run + more;
  }

  lemma GrantOne(s: Race, tid: nat, id: string)
    requires tid in InFlight(s, id)
    ensures var s' := s.(visits := s.visits[tid := Visit(s.visits[tid].claims, Granted)]);
      InFlight(s', id) == InFlight(s, id) - {tid} && GrantedOf(s', id) == GrantedOf(s, id) + {tid}
  {
  }

  lemma SameVisits(s: Race, t: Race, id: string)
    requires s.visits == t.visits
    ensures InFlight(s, id) == InFlight(t, id) && GrantedOf(s, id) == GrantedOf(t, id)
  {
  }

  /** Some continuation of `run` grants every verification still in flight for `id`, with session IDs of any choice. */
  lemma {:induction false} AllCanBeGranted(s: Race, run: seq<Label>, id: string, sid: string) returns (longer: seq<Label>)
    requires Legal(s, run)
    ensures Legal(s, longer)
    ensures GrantedOf(After(s, longer), id) == GrantedOf(After(s, run), id) + InFlight(After(s, run), id)
    decreases InFlight(After(s, run), id)
  {
    var mid := After(s, run);
    if InFlight(mid, id) == {} {
      longer := run;
    } else {
      var t :| t in InFlight(mid, id);
      var next := CompleteNext(s, run, t, sid);
      GrantOne(mid, t, id);
      SameVisits(After(s, next), mid.(visits := mid.visits[t := Visit(mid.visits[t].claims, Granted)]), id);
      longer := AllCanBeGranted(s, next, id, sid);
    }
  }

  lemma Extend(s: Race, run: seq<Label>, l: Label)
    requires Legal(s, run) && Enabled(After(s, run), l)
    ensures Legal(s, run + [l]) && After(s, run + [l]) == Step(After(s, run), l)
  {
    assert [l][1..] == [];
    RunAppend(s, run, [l]);
  }

  lemma Cons(s: Race, l: Label, run: seq<Label>)
    requires Enabled(s, l) && Legal(Step(s, l), run)
    ensures Legal(s, [l] + run) && After(s, [l] + run) == After(Step(s, l), run)
  {
  }

  lemma CheckSets(s: Race, tid: nat, id: string)
    requires tid in Waiting(s, id)
    ensures Enabled(s, Check(tid))
    ensures var s' := Step(s, Check(tid));
      && Waiting(s', id) == Waiting(s, id) - {tid} && InFlight(s', id) == InFlight(s, id) + {tid}
      && GrantedOf(s', id) == GrantedOf(s, id)
  {
  }

  /** All who wait for their cache check can pass it before anyone deletes the challenge. */
  lemma {:induction false} AllCanPass(s: Race, run: seq<Label>, id: string) returns (longer: seq<Label>)
    requires Legal(s, run)
    ensures Legal(s, longer) && Waiting(After(s, longer), id) == {}
    ensures GrantedOf(After(s, longer), id) == GrantedOf(After(s, run), id)
    ensures InFlight(After(s, longer), id) == InFlight(After(s, run), id) + Waiting(After(s, run), id)
    decreases Waiting(After(s, run), id)
  {
    var mid := After(s, run);
    if Waiting(mid, id) == {} {
      longer := run;
    } else {
      var t :| t in Waiting(mid, id);
      CheckSets(mid, t, id);
      Extend(s, run, Check(t));
      longer := AllCanPass(s, run + [Check(t)], id);
    }
  }

  /** Some continuation of `run` grants everyone who may be. */
  lemma HopefulCanBeGranted(s: Race, run: seq<Label>, id: string, sid: string) returns (longer: seq<Label>)
    requires Legal(s, run)
    ensures Legal(s, longer) && GrantedOf(After(s, longer), id) == Hopeful(After(s, run), id)
  {
    var passed := AllCanPass(s, run, id);
    longer := AllCanBeGranted(s, passed, id, sid);
  }

  // ----- while a challenge is open, any number can be admitted -----

  lemma {:induction false} Unused(tids: set<nat>) returns (t: nat)
    ensures forall u :: u in tids ==> u < t
  {
    if tids == {} {
      t := 0;
    } else {
      var u :| u in tids;
      var bound := Unused(tids - {u});
      t := if bound <= u then u + 1 else bound;
      assert forall v :: v in tids ==> v == u || v in tids - {u};
    }
  }

  lemma Joins(s: Race, tid: nat, c: Claims)
    requires tid !in s.visits && c.id in s.cache
    ensures var s' := s.(visits := s.visits[tid := Visit(c, Admitted)]);
      && Waiting(s', c.id) == Waiting(s, c.id) + {tid} && tid !in Hopeful(s, c.id)
      && GrantedOf(s', c.id) == GrantedOf(s, c.id) && InFlight(s', c.id) == InFlight(s, c.id)
  {
  }

  lemma OneMore(s: Race, id: string) returns (l: Label)
    requires Consistent(s) && Open(s, id)
    ensures Enabled(s, l) && Consistent(Step(s, l)) && Open(Step(s, l), id)
    ensures |Hopeful(Step(s, l), id)| == |Hopeful(s, id)| + 1
  {
    var c := s.cache[id];
    var tid := Unused(s.visits.Keys);
    l := Admit(tid, c.ipHash.ip, Jwt(c));
    StepConsistent(s, l);
    Joins(s, tid, c);
    JoinSize(GrantedOf(s, id) + InFlight(s, id), Waiting(s, id), tid);
  }

  lemma JoinSize<T>(a: set<T>, b: set<T>, x: T)
    requires x !in a + b
    ensures |a + (b + {x})| == |a + b| + 1
  {
    assert a + (b + {x}) == (a + b) + {x};
  }

  lemma {:induction false} Crowd(s: Race, id: string, n: nat) returns (run: seq<Label>)
    requires Consistent(s) && Open(s, id)
    ensures Legal(s, run) && Consistent(After(s, run)) && Open(After(s, run), id)
    ensures |Hopeful(After(s, run), id)| == |Hopeful(s, id)| + n
  {
    if n == 0 {
      run := [];
    } else {
      var shorter := Crowd(s, id, n - 1);
      var l := OneMore(After(s, shorter), id);
      Extend(s, shorter, l);
      run := shorter + [l];
    }
  }

  /** For every n, a freshly issued challenge can be granted n sessions, unless it is born expired. */
  lemma AnyNumberOfGrants(cfg: Config, t: int, ip: string, url: string, id: string, sid: string, n: nat) returns (run: seq<Label>)
    requires ValidRedirect(cfg, url) && id != "" && t < Floor(t + cfg.challengeDuration)
    ensures Legal(Start(cfg, t), [Issue(0, ip, url, id)] + run)
    ensures |GrantedOf(After(Start(cfg, t), [Issue(0, ip, url, id)] + run), id)| == n
  {
    var s0, l := Start(cfg, t), Issue(0, ip, url, id);
    var s := Step(s0, l);
    StepConsistent(s0, l);
    assert Hopeful(s, id) == {};
    var admitted := Crowd(s, id, n);
    run := HopefulCanBeGranted(s, admitted, id, sid);
    Cons(s0, l, run);
  }

  // ----- when single use holds -----

  /** Some continuation grants a further session for `id`. */
  ghost predicate CanGrantAnother(s: Race, id: string) {
    exists run :: Legal(s, run) && GrantedOf(s, id) < GrantedOf(After(s, run), id)
  }

  lemma MoreGranted(s: Race, id: string)
    requires Consistent(s) && Open(s, id)
    ensures CanGrantAnother(s, id)
  {
    var crowd := Crowd(s, id, 1);
    var run := HopefulCanBeGranted(s, crowd, id, "");
    RunGranted(s, run, id);
    assert |GrantedOf(After(s, run), id)| > |GrantedOf(s, id)| by {
      Smaller(GrantedOf(s, id), Hopeful(s, id));
    }
  }

  /** A granted session is never taken back. */
  lemma {:induction false} RunGranted(s: Race, run: seq<Label>, id: string)
    requires Legal(s, run)
    ensures GrantedOf(s, id) <= GrantedOf(After(s, run), id)
    decreases |run|
  {
    if run != [] {
      RunGranted(Step(s, run[0]), run[1..], id);
    }
  }

  /** That is so exactly while the challenge is open or some verification for it is waiting or in flight. */
  lemma AnotherGrantIff(s: Race, id: string)
    requires Consistent(s) && Minted(s, id)
    ensures CanGrantAnother(s, id) <==> Open(s, id) || InFlight(s, id) + Waiting(s, id) != {}
  {
    assert GrantedOf(s, id) !! InFlight(s, id) && GrantedOf(s, id) !! Waiting(s, id);
    if Open(s, id) {
      MoreGranted(s, id);
    } else if InFlight(s, id) + Waiting(s, id) != {} {
      var run := HopefulCanBeGranted(s, [], id, "");
      assert GrantedOf(s, id) < Hopeful(s, id);
    } else {
      assert Hopeful(s, id) == GrantedOf(s, id);
      forall run | Legal(s, run)
        ensures !(GrantedOf(s, id) < GrantedOf(After(s, run), id))
      {
        RunHopeful(s, run, id);
      }
    }
  }

  /** At most one session is granted for `id`, now and in every continuation. */
  ghost predicate SingleUse(s: Race, id: string) {
    forall run :: Legal(s, run) ==> |GrantedOf(After(s, run), id)| <= 1
  }

  /**
   Single use of a minted challenge holds from some moment on exactly when no further verification can be
   admitted and at most one has been granted, is in flight, or waits for a cache check it would pass.
   */
  lemma SingleUseIff(s: Race, id: string)
    requires Consistent(s) && Minted(s, id)
    ensures SingleUse(s, id) <==> !Open(s, id) && |Hopeful(s, id)| <= 1
  {
    if !Open(s, id) && |Hopeful(s, id)| <= 1 {
      forall run | Legal(s, run)
        ensures |GrantedOf(After(s, run), id)| <= 1
      {
        RunHopeful(s, run, id);
        Smaller(GrantedOf(After(s, run), id), Hopeful(s, id));
      }
    } else {
      var crowd := [];
      if Open(s, id) {
        crowd := Crowd(s, id, 2);
      }
      var run := HopefulCanBeGranted(s, crowd, id, "");
      assert Legal(s, run) && |GrantedOf(After(s, run), id)| > 1;
    }
  }

  /**
   At the first consume of an ID, single use is settled: it holds from then on exactly when no verification
   other than the one consuming is past its cache check for that ID.
   */
  lemma SingleUseSettledAtConsume(s: Race, tid: nat)
    requires Consistent(s) && At(s, tid, Solved) && s.visits[tid].claims.id !in s.consumed
    ensures var id := s.visits[tid].claims.id;
      SingleUse(Step(s, Delete(tid)), id) <==> InFlight(s, id) == {tid}
  {
    var id := s.visits[tid].claims.id;
    StepConsistent(s, Delete(tid));
    FirstConsume(s, tid, id);
    SingleUseIff(Step(s, Delete(tid)), id);
    AtMostOne(InFlight(s, id), tid);
  }

  lemma FirstConsume(s: Race, tid: nat, id: string)
    requires Consistent(s) && At(s, tid, Solved) && s.visits[tid].claims.id == id && id !in s.consumed
    ensures Hopeful(Step(s, Delete(tid)), id) == InFlight(s, id)
    ensures tid in InFlight(s, id)
  {
    SameVisits(Step(s, Delete(tid)), Move(s, tid, Deleted), id);
  }

  lemma AtMostOne<T>(a: set<T>, x: T)
    requires x in a
    ensures |a| <= 1 <==> a == {x}
  {
    assert a == {x} + (a - {x});
  }

  // ----- the serial service is the uninterrupted case -----

  function Serial(s: Race, expiredTotal: nat): State {
    State(s.signed, s.cache, s.pending, expiredTotal)
  }

  /** CreateSession is its two steps with nothing between them. */
  lemma IssueIsSerial(s: Race, tid: nat, ip: string, url: string, session: Token, id: string, e: nat)
    requires s.cfg.replayProtection && !SessionAccepted(s.signed, session, s.now, s.now)
    requires Enabled(s, Issue(tid, ip, url, id))
    ensures var run := [Issue(tid, ip, url, id)] + ([CountIssue(tid)] + []);
      && Legal(s, run) && After(s, run).creating == s.creating
      && Serial(After(s, run), e) == Create(s.cfg, Serial(s, e), ip, url, session, s.now, s.now, id, true).0
  {
    var s1 := Step(s, Issue(tid, ip, url, id));
    Cons(s1, CountIssue(tid), []);
    Cons(s, Issue(tid, ip, url, id), [CountIssue(tid)] + []);
  }

  /** A cleanup pass is one Cleanup step, whatever clock readings it takes while it runs. */
  lemma SweepIsSerial(s: Race, readings: string -> int, lag: nat, e: nat)
    requires forall id :: s.now <= readings(id) <= s.now + lag
    ensures var gone := ExpiredAt(Serial(s, e), readings);
      Enabled(s, Cleanup(gone, lag)) && Serial(Step(s, Cleanup(gone, lag)), e + |gone|) == Clean(Serial(s, e), readings)
  {
  }

  /** The steps of a verification whose provider answers after `lag`, from its token check to its end. */
  function Uninterrupted(s: Race, tid: nat, ip: string, token: Token, reply: ProviderReply, lag: nat, sid: string, signs: bool)
    : seq<Label>
  {
    [Admit(tid, ip, token)] + if Admits(s, ip, token) then AfterAdmission(s, tid, token, reply, lag, sid, signs) else []
  }

  function AfterAdmission(s: Race, tid: nat, token: Token, reply: ProviderReply, lag: nat, sid: string, signs: bool): seq<Label>
    requires token.Jwt?
  {
    [Check(tid)] + if token.claims.id in s.cache then Rest(tid, reply, lag, sid, signs) else []
  }

  /** The end of a solved verification: delete, gauge, session token. */
  function Ending(tid: nat, sid: string, signs: bool): seq<Label> {
    [Delete(tid)] + ([Uncount(tid)] + ([Finish(tid, sid, signs)] + []))
  }

  function Rest(tid: nat, reply: ProviderReply, lag: nat, sid: string, signs: bool): seq<Label> {
    [Tick(lag)] + if reply == ProviderYes
      then [Reply(tid, true)] + Ending(tid, sid, signs)
      else [Reply(tid, false)] + []
  }

  lemma EndingLeaves(s: Race, tid: nat, sid: string, signs: bool)
    requires At(s, tid, Solved) && s.visits[tid].claims.id in s.cache
    ensures var run := Ending(tid, sid, signs);
      && Legal(s, run) && At(After(s, run), tid, if signs then Granted else Refused)
      && After(s, run).signed == s.signed + (if signs then {SessionFor(s.cfg, sid, s.now)} else {})
      && After(s, run).cache == s.cache - {s.visits[tid].claims.id}
      && After(s, run).pending == s.pending - 1
  {
    var s1 := Step(s, Delete(tid));
    var s2 := Step(s1, Uncount(tid));
    Cons(s2, Finish(tid, sid, signs), []);
    Cons(s1, Uncount(tid), [Finish(tid, sid, signs)] + []);
    Cons(s, Delete(tid), [Uncount(tid)] + ([Finish(tid, sid, signs)] + []));
  }

  lemma RestYes(s: Race, tid: nat, lag: nat, sid: string, signs: bool)
    requires At(s, tid, Checked) && s.visits[tid].claims.id in s.cache
    ensures var run := Rest(tid, ProviderYes, lag, sid, signs);
      && Legal(s, run) && At(After(s, run), tid, if signs then Granted else Refused)
      && After(s, run).signed == s.signed + (if signs then {SessionFor(s.cfg, sid, s.now + lag)} else {})
      && After(s, run).cache == s.cache - {s.visits[tid].claims.id}
      && After(s, run).pending == s.pending - 1
  {
    var s1 := Step(s, Tick(lag));
    EndingLeaves(Step(s1, Reply(tid, true)), tid, sid, signs);
    Cons(s1, Reply(tid, true), Ending(tid, sid, signs));
    Cons(s, Tick(lag), [Reply(tid, true)] + Ending(tid, sid, signs));
  }

  lemma RestNo(s: Race, tid: nat, lag: nat, reply: ProviderReply, sid: string, signs: bool)
    requires At(s, tid, Checked) && reply != ProviderYes
    ensures var run := Rest(tid, reply, lag, sid, signs);
      Legal(s, run) && At(After(s, run), tid, Refused) && Serial(After(s, run), 0) == Serial(s, 0)
  {
    Cons(Step(s, Tick(lag)), Reply(tid, false), []);
    Cons(s, Tick(lag), [Reply(tid, false)] + []);
  }

  /** Where a verification ends, by its verdict; one whose token or IP is not accepted leaves no visit. */
  function EndOf(verdict: VerifyResult): Phase {
    match verdict
    case Verified(_) => Granted
    case AlreadyUsed => Missed
    case _ => Refused
  }

  lemma RestIsSerial(s: Race, tid: nat, ip: string, token: Token, reply: ProviderReply, lag: nat,
                     sid: string, signs: bool, e: nat)
    requires s.cfg.replayProtection && Admits(s, ip, token) && token.claims.id in s.cache
    requires At(s, tid, Checked) && s.visits[tid].claims == token.claims
    ensures var (after, verdict) := Verify(s.cfg, Serial(s, e), ip, token, reply, s.now, s.now + lag, sid, signs);
      var run := Rest(tid, reply, lag, sid, signs);
      && Legal(s, run) && Serial(After(s, run), e) == after && At(After(s, run), tid, EndOf(verdict))
      && !verdict.BadToken? && !verdict.WrongIP?
  {
    if reply == ProviderYes {
      RestYes(s, tid, lag, sid, signs);
    } else {
      RestNo(s, tid, lag, reply, sid, signs);
    }
  }

  lemma AdmittedIsSerial(s: Race, s1: Race, tid: nat, ip: string, token: Token, reply: ProviderReply, lag: nat,
                         sid: string, signs: bool, e: nat)
    requires s.cfg.replayProtection && Admits(s, ip, token)
    requires s1 == s.(visits := s.visits[tid := Visit(token.claims, Admitted)])
    ensures var (after, verdict) := Verify(s.cfg, Serial(s, e), ip, token, reply, s.now, s.now + lag, sid, signs);
      var run := AfterAdmission(s, tid, token, reply, lag, sid, signs);
      && Legal(s1, run) && Serial(After(s1, run), e) == after && At(After(s1, run), tid, EndOf(verdict))
      && !verdict.BadToken? && !verdict.WrongIP?
  {
    if token.claims.id in s.cache {
      RestIsSerial(Step(s1, Check(tid)), tid, ip, token, reply, lag, sid, signs, e);
      Cons(s1, Check(tid), Rest(tid, reply, lag, sid, signs));
    } else {
      Cons(s1, Check(tid), []);
    }
  }

  /**
   A verification no other request interrupts does what VerifyResponse does as one step, for every token, IP,
   provider reply and signing outcome: it leaves the same state and ends as the verdict says.
   */
  lemma UninterruptedIsSerial(s: Race, tid: nat, ip: string, token: Token, reply: ProviderReply, lag: nat,
                              sid: string, signs: bool, e: nat)
    requires s.cfg.replayProtection && tid !in s.visits
    ensures var (after, verdict) := Verify(s.cfg, Serial(s, e), ip, token, reply, s.now, s.now + lag, sid, signs);
      var run := Uninterrupted(s, tid, ip, token, reply, lag, sid, signs);
      && Legal(s, run) && Serial(After(s, run), e) == after
      && if verdict.BadToken? || verdict.WrongIP? then After(s, run) == s else At(After(s, run), tid, EndOf(verdict))
  {
    var l := Admit(tid, ip, token);
    if Admits(s, ip, token) {
      AdmittedIsSerial(s, Step(s, l), tid, ip, token, reply, lag, sid, signs, e);
      Cons(s, l, AfterAdmission(s, tid, token, reply, lag, sid, signs));
    } else {
      Cons(s, l, []);
    }
  }
}
