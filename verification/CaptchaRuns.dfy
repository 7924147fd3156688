/** Serial runs of the captcha service: every operation is one atomic step on a monotone clock. */
module CaptchaRuns {
  import opened Wrappers
  import opened Captcha
  import opened Counting

  datatype Op =
    | Issue(ip: string, url: string, session: Token, lag: nat, id: string, signs: bool)
    | Answer(ip: string, token: Token, reply: ProviderReply, lag: nat, sid: string, signs: bool)
    | Look(token: Token)
    | Cleanup(offsets: map<string, nat>, lag: nat)
    | Wait(lag: nat)

  datatype Out = Issued(r: CreateResult) | Answered(v: VerifyResult) | Looked(s: Option<Session>) | Nothing

  /** The service at a moment of the clock. */
  datatype World = World(s: State, now: int)

  const FRESH_STATE := State({}, map[], 0, 0)

  /** The clock reading a cleanup pass takes for `id`, some way into the pass. */
  function ReadingAt(now: int, offsets: map<string, nat>, id: string): int {
    now + if id in offsets then offsets[id] else 0
  }

  /** Challenge IDs are fresh UUIDs, and a cleanup pass reads the clock within its duration. */
  predicate Enabled(w: World, op: Op) {
    match op
    case Issue(_, _, _, _, id, _) => id != "" && forall c :: c in w.s.signed ==> c.id != id
    case Cleanup(offsets, lag) => forall id :: id in offsets ==> offsets[id] <= lag
    case _ => true
  }

  function Step(cfg: Config, w: World, op: Op): (World, Out) {
    match op
    case Issue(ip, url, session, lag, id, signs) =>
      var (s, r) := Create(cfg, w.s, ip, url, session, w.now, w.now + lag, id, signs);
      (World(s, w.now + lag), Issued(r))
    case Answer(ip, token, reply, lag, sid, signs) =>
      var (s, v) := Verify(cfg, w.s, ip, token, reply, w.now, w.now + lag, sid, signs);
      (World(s, w.now + lag), Answered(v))
    case Look(token) => (w, Looked(GetSession(cfg, w.s, token, w.now)))
    case Cleanup(offsets, lag) => (World(Clean(w.s, id => ReadingAt(w.now, offsets, id)), w.now + lag), Nothing)
    case Wait(lag) => (w.(now := w.now + lag), Nothing)
  }

  /** The state and outputs of a run from a fresh service whose clock reads `start`. */
  function Run(cfg: Config, start: int, ops: seq<Op>): (r: (World, seq<Out>))
    ensures |r.1| == |ops|
  {
    if ops == [] then (World(FRESH_STATE, start), [])
    else
      var (w, outs) := Run(cfg, start, ops[..|ops| - 1]);
      var (w', out) := Step(cfg, w, ops[|ops| - 1]);
      (w', outs + [out])
  }

  predicate Legal(cfg: Config, start: int, ops: seq<Op>) {
    ops == [] || (Legal(cfg, start, ops[..|ops| - 1]) && Enabled(Run(cfg, start, ops[..|ops| - 1]).0, ops[|ops| - 1]))
  }

  // ----- what every step keeps -----

  ghost predicate Invariant(cfg: Config, s: State) {
    && (forall c :: c in s.signed && c.id in s.cache ==> s.cache[c.id] == c)
    && (forall id :: id in s.cache ==> id != "" && s.cache[id].id == id && s.cache[id] in s.signed)
    && (!cfg.replayProtection ==> s.cache == map[])
    && s.pending == |s.cache|
  }

  lemma MintKeeps(cfg: Config, s: State, c: Claims)
    requires Invariant(cfg, s) && c.id != "" && forall d :: d in s.signed ==> d.id != c.id
    ensures Invariant(cfg, Mint(cfg, s, c)) && (cfg.replayProtection ==> c.id !in s.cache)
  {
  }

  lemma SpendKeeps(cfg: Config, s: State, id: string)
    requires Invariant(cfg, s) && (cfg.replayProtection ==> id in s.cache)
    ensures Invariant(cfg, Spend(cfg, s, id))
    ensures cfg.replayProtection ==> |Spend(cfg, s, id).cache| == |s.cache| - 1
  {
  }

  lemma CleanKeeps(cfg: Config, s: State, readings: string -> int)
    requires Invariant(cfg, s)
    ensures Invariant(cfg, Clean(s, readings))
    ensures |Clean(s, readings).cache| == |s.cache| - |ExpiredAt(s, readings)|
  {
  }

  lemma IssueKeeps(cfg: Config, w: World, op: Op)
    requires op.Issue? && Invariant(cfg, w.s) && Enabled(w, op)
    ensures Invariant(cfg, Step(cfg, w, op).0.s)
  {
    var c := ChallengeFor(cfg, op.ip, op.url, op.id, w.now + op.lag);
    MintKeeps(cfg, w.s, c);
    assert Step(cfg, w, op).0.s == w.s || Step(cfg, w, op).0.s == Mint(cfg, w.s, c);
  }

  /** How a verification leaves the service, by its outcome. */
  function AfterAnswer(cfg: Config, s: State, token: Token, session: Claims, v: VerifyResult): State
    requires v.Verified? || v.UnsignedSession? ==> token.Jwt?
  {
    match v
    case Verified(_) => Sign(Spend(cfg, s, token.claims.id), session)
    case UnsignedSession => Spend(cfg, s, token.claims.id)
    case _ => s
  }

  lemma AnswerShape(cfg: Config, w: World, op: Op)
    requires op.Answer?
    ensures var (w', out) := Step(cfg, w, op);
      && out.Answered? && w'.now == w.now + op.lag
      && (out.v.Verified? || out.v.UnsignedSession? ==> op.token.Jwt? && (cfg.replayProtection ==> op.token.claims.id in w.s.cache))
      && w'.s == AfterAnswer(cfg, w.s, op.token, SessionFor(cfg, op.sid, w.now + op.lag), out.v)
  {
  }

  lemma AnswerKeeps(cfg: Config, w: World, op: Op)
    requires op.Answer? && Invariant(cfg, w.s)
    ensures Invariant(cfg, Step(cfg, w, op).0.s)
  {
  }

  lemma StepKeepsInvariant(cfg: Config, w: World, op: Op)
    requires Invariant(cfg, w.s) && Enabled(w, op)
    ensures Invariant(cfg, Step(cfg, w, op).0.s)
  {
    match op
    case Issue(_, _, _, _, _, _) => IssueKeeps(cfg, w, op);
    case Answer(_, _, _, _, _, _) => AnswerKeeps(cfg, w, op);
    case Cleanup(offsets, lag) => CleanKeeps(cfg, w.s, id => ReadingAt(w.now, offsets, id));
    case _ =>
  }

  lemma {:induction false} RunKeepsInvariant(cfg: Config, start: int, ops: seq<Op>)
    requires Legal(cfg, start, ops)
    ensures Invariant(cfg, Run(cfg, start, ops).0.s)
  {
    if ops != [] {
      RunKeepsInvariant(cfg, start, ops[..|ops| - 1]);
      StepKeepsInvariant(cfg, Run(cfg, start, ops[..|ops| - 1]).0, ops[|ops| - 1]);
    }
  }

  // ----- single use -----

  predicate Solves(op: Op, out: Out, id: string) {
    op.Answer? && out.Answered? && out.v.Verified? && op.token.Jwt? && op.token.claims.id == id
  }

  /** Once minted and no longer cached, an ID can never be cached again. */
  ghost predicate Spent(s: State, id: string) {
    id !in s.cache && exists c :: c in s.signed && c.id == id
  }

  lemma SpentStays(cfg: Config, w: World, op: Op, id: string)
    requires cfg.replayProtection && Invariant(cfg, w.s) && Enabled(w, op) && Spent(w.s, id)
    ensures Spent(Step(cfg, w, op).0.s, id) && !Solves(op, Step(cfg, w, op).1, id)
  {
  }

  lemma {:induction false} SolvedIsSpent(cfg: Config, start: int, ops: seq<Op>, i: nat, id: string)
    requires cfg.replayProtection && Legal(cfg, start, ops) && i < |ops|
    requires Solves(ops[i], Run(cfg, start, ops).1[i], id)
    ensures Spent(Run(cfg, start, ops).0.s, id)
    ensures forall j :: i < j < |ops| ==> !Solves(ops[j], Run(cfg, start, ops).1[j], id)
  {
    var n := |ops| - 1;
    var w := Run(cfg, start, ops[..n]).0;
    RunKeepsInvariant(cfg, start, ops[..n]);
    if i < n {
      SolvedIsSpent(cfg, start, ops[..n], i, id);
      SpentStays(cfg, w, ops[n], id);
    } else {
      assert ops[n].token.claims in Step(cfg, w, ops[n]).0.s.signed;
    }
  }

  /** With replay protection on, each challenge ID is solved at most once in a serial run. */
  lemma SingleUse(cfg: Config, start: int, ops: seq<Op>, i: nat, j: nat, id: string)
    requires cfg.replayProtection && Legal(cfg, start, ops) && i < |ops| && j < |ops|
    requires Solves(ops[i], Run(cfg, start, ops).1[i], id) && Solves(ops[j], Run(cfg, start, ops).1[j], id)
    ensures i == j
  {
    SolvedIsSpent(cfg, start, ops, i, id);
    SolvedIsSpent(cfg, start, ops, j, id);
  }

  /** With it off, a solved challenge can be solved again as long as its token lives. */
  lemma ReusableWithoutProtection(cfg: Config, w: World, op: Op, again: Op)
    requires !cfg.replayProtection && op.Answer? && again.Answer?
    requires Step(cfg, w, op).1.Answered? && Step(cfg, w, op).1.v.Verified?
    requires again.ip == op.ip && again.token == op.token && again.reply == ProviderYes && again.signs
    ensures Step(cfg, Step(cfg, w, op).0, again).1.v.Verified? <==> w.now + op.lag < op.token.claims.expires
  {
  }

  // ----- conservation -----

  const WasIssued := (o: Out) => o.Issued? && o.r.Created?
  const WasSolved := (o: Out) => o.Answered? && o.v.Verified?
  /** The challenge was consumed but the session token could not be signed. */
  const WasLost := (o: Out) => o.Answered? && o.v.UnsignedSession?

  ghost predicate Conserved(cfg: Config, s: State, outs: seq<Out>) {
    && s.pending == |s.cache|
    && if cfg.replayProtection then
         Tally(outs, WasIssued) == |s.cache| + Tally(outs, WasSolved) + Tally(outs, WasLost) + s.expiredTotal
       else
         s.cache == map[] && s.expiredTotal == 0
  }

  lemma StepConserves(cfg: Config, w: World, outs: seq<Out>, op: Op)
    requires Invariant(cfg, w.s) && Enabled(w, op) && Conserved(cfg, w.s, outs)
    ensures Conserved(cfg, Step(cfg, w, op).0.s, outs + [Step(cfg, w, op).1])
  {
    var out := Step(cfg, w, op).1;
    TallySnoc(outs, out, WasIssued);
    TallySnoc(outs, out, WasSolved);
    TallySnoc(outs, out, WasLost);
    StepKeepsInvariant(cfg, w, op);
    StepBalances(cfg, w, op);
  }

  function One(b: bool): int {
    if b then 1 else 0
  }

  /** One step's change of the cache size and the expired total, in terms of its output. */
  lemma StepBalances(cfg: Config, w: World, op: Op)
    requires Invariant(cfg, w.s) && Enabled(w, op)
    ensures var (w', out) := Step(cfg, w, op);
      if cfg.replayProtection then
        |w'.s.cache| + w'.s.expiredTotal
          == |w.s.cache| + w.s.expiredTotal + One(WasIssued(out)) - One(WasSolved(out)) - One(WasLost(out))
      else w'.s.expiredTotal == w.s.expiredTotal
  {
    match op
    case Issue(_, _, _, _, _, _) => IssueBalances(cfg, w, op);
    case Answer(_, _, _, _, _, _) => AnswerBalances(cfg, w, op);
    case Cleanup(offsets, lag) => CleanKeeps(cfg, w.s, id => ReadingAt(w.now, offsets, id));
    case _ =>
  }

  lemma IssueBalances(cfg: Config, w: World, op: Op)
    requires op.Issue? && Invariant(cfg, w.s) && Enabled(w, op)
    ensures var (w', out) := Step(cfg, w, op);
      && |w'.s.cache| == |w.s.cache| + (if cfg.replayProtection then One(WasIssued(out)) else 0)
      && w'.s.expiredTotal == w.s.expiredTotal && !WasSolved(out) && !WasLost(out)
  {
  }

  lemma AnswerBalances(cfg: Config, w: World, op: Op)
    requires op.Answer? && Invariant(cfg, w.s)
    ensures var (w', out) := Step(cfg, w, op);
      && |w'.s.cache| == |w.s.cache| - (if cfg.replayProtection then One(WasSolved(out)) + One(WasLost(out)) else 0)
      && w'.s.expiredTotal == w.s.expiredTotal && !WasIssued(out)
  {
    AnswerShape(cfg, w, op);
    var out := Step(cfg, w, op).1.v;
    if out.Verified? || out.UnsignedSession? {
      SpendKeeps(cfg, w.s, op.token.claims.id);
    }
  }

  /**
   Every issued challenge is cached, solved, lost to a signing failure, or expired, and the gauge is the cache
   size; with replay protection off the cache stays empty and the gauge 0.
   */
  lemma {:induction false} ChallengesConserved(cfg: Config, start: int, ops: seq<Op>)
    requires Legal(cfg, start, ops)
    ensures Conserved(cfg, Run(cfg, start, ops).0.s, Run(cfg, start, ops).1)
  {
    if ops != [] {
      var init := ops[..|ops| - 1];
      ChallengesConserved(cfg, start, init);
      RunKeepsInvariant(cfg, start, init);
      StepConserves(cfg, Run(cfg, start, init).0, Run(cfg, start, init).1, ops[|ops| - 1]);
    }
  }

  // ----- cleanup is unobservable -----

  /** The same run without its cleanup passes; the time they took passes all the same. */
  function Strip(ops: seq<Op>): (r: seq<Op>)
    ensures |r| == |ops|
  {
    if ops == [] then []
    else
      var op := ops[|ops| - 1];
      Strip(ops[..|ops| - 1]) + [if op.Cleanup? then Wait(op.lag) else op]
  }

  /** `w` has lost only entries that have expired. */
  ghost predicate Cleaned(w: World, full: World) {
    && w.now == full.now && w.s.signed == full.s.signed
    && w.s.cache.Keys <= full.s.cache.Keys
    && forall id :: id in full.s.cache ==>
         if id in w.s.cache then w.s.cache[id] == full.s.cache[id] else full.s.cache[id].expires < w.now
  }

  lemma StepUnobservable(cfg: Config, w: World, full: World, op: Op)
    requires Invariant(cfg, full.s) && Cleaned(w, full) && Enabled(w, op)
    ensures var strip := if op.Cleanup? then Wait(op.lag) else op;
      && Enabled(full, strip)
      && Cleaned(Step(cfg, w, op).0, Step(cfg, full, strip).0)
      && Step(cfg, w, op).1 == Step(cfg, full, strip).1
  {
    match op
    case Issue(_, _, _, _, _, _) => IssueUnobservable(cfg, w, full, op);
    case Answer(_, _, _, _, _, _) => AnswerUnobservable(cfg, w, full, op);
    case Cleanup(offsets, lag) => CleanUnobservable(w, full, offsets, lag);
    case _ =>
  }

  lemma IssueUnobservable(cfg: Config, w: World, full: World, op: Op)
    requires op.Issue? && Cleaned(w, full) && Enabled(w, op)
    ensures Cleaned(Step(cfg, w, op).0, Step(cfg, full, op).0)
    ensures Step(cfg, w, op).1 == Step(cfg, full, op).1
  {
  }

  lemma AnswerUnobservable(cfg: Config, w: World, full: World, op: Op)
    requires op.Answer? && Invariant(cfg, full.s) && Cleaned(w, full)
    ensures Cleaned(Step(cfg, w, op).0, Step(cfg, full, op).0)
    ensures Step(cfg, w, op).1 == Step(cfg, full, op).1
  {
    SameVerdict(cfg, w, full, op);
    AnswerShape(cfg, w, op);
    AnswerShape(cfg, full, op);
  }

  lemma SameVerdict(cfg: Config, w: World, full: World, op: Op)
    requires op.Answer? && Invariant(cfg, full.s) && Cleaned(w, full)
    ensures Step(cfg, w, op).1 == Step(cfg, full, op).1
  {
    if Accepted(full.s.signed, op.token, w.now) {
      LiveChallengeKept(cfg, w, full, op.token.claims);
    }
  }

  /** A live token's challenge is cached in the one world exactly when it is in the other. */
  lemma LiveChallengeKept(cfg: Config, w: World, full: World, c: Claims)
    requires Invariant(cfg, full.s) && Cleaned(w, full) && c in full.s.signed && w.now < c.expires
    ensures c.id in w.s.cache <==> c.id in full.s.cache
  {
  }

  lemma CleanUnobservable(w: World, full: World, offsets: map<string, nat>, lag: nat)
    requires Cleaned(w, full) && forall id :: id in offsets ==> offsets[id] <= lag
    ensures Cleaned(World(Clean(w.s, id => ReadingAt(w.now, offsets, id)), w.now + lag), full.(now := full.now + lag))
  {
  }

  /** Removing all cleanup passes from a run changes no output. */
  lemma {:induction false} StripKeepsOutputs(cfg: Config, start: int, ops: seq<Op>)
    requires Legal(cfg, start, ops)
    ensures Legal(cfg, start, Strip(ops))
    ensures Run(cfg, start, ops).1 == Run(cfg, start, Strip(ops)).1
    ensures Cleaned(Run(cfg, start, ops).0, Run(cfg, start, Strip(ops)).0)
  {
    if ops != [] {
      var init := ops[..|ops| - 1];
      StripKeepsOutputs(cfg, start, init);
      RunKeepsInvariant(cfg, start, Strip(init));
      assert Strip(ops)[..|ops| - 1] == Strip(init);
      StepUnobservable(cfg, Run(cfg, start, init).0, Run(cfg, start, Strip(init)).0, ops[|ops| - 1]);
    }
  }

  /** Two runs that differ only in where cleanup passes stand in for waiting give the same outputs. */
  lemma CleanupUnobservable(cfg: Config, start: int, ops: seq<Op>, others: seq<Op>)
    requires Legal(cfg, start, ops) && Legal(cfg, start, others) && Strip(ops) == Strip(others)
    ensures Run(cfg, start, ops).1 == Run(cfg, start, others).1
  {
    StripKeepsOutputs(cfg, start, ops);
    StripKeepsOutputs(cfg, start, others);
  }

  /** A cleanup pass leaves no challenge that had expired when it began, and takes none that is still live when it ends. */
  lemma CleanupComplete(cfg: Config, w: World, op: Op)
    requires op.Cleanup? && Enabled(w, op)
    ensures var after := Step(cfg, w, op).0;
      && (forall id :: id in after.s.cache ==> id in w.s.cache && w.s.cache[id] == after.s.cache[id] && w.now <= after.s.cache[id].expires)
      && (forall id :: id in w.s.cache && after.now <= w.s.cache[id].expires ==> id in after.s.cache)
  {
    var readings := id => ReadingAt(w.now, op.offsets, id);
    assert Step(cfg, w, op).0.s.cache == w.s.cache - ExpiredAt(w.s, readings);
    assert forall id :: w.now <= readings(id) <= w.now + op.lag;
  }

  // ----- provenance -----

  /** Some operation before position `n` created a session for this IP and URL, and the URL was acceptable. */
  ghost predicate CreatedBefore(cfg: Config, ops: seq<Op>, outs: seq<Out>, ip: string, url: string) {
    exists i :: 0 <= i < |ops| && i < |outs| && ops[i].Issue? && ops[i].ip == ip && ops[i].url == url
      && outs[i].Issued? && outs[i].r.Created? && ValidRedirect(cfg, url)
  }

  lemma CreatedStays(cfg: Config, ops: seq<Op>, outs: seq<Out>, ip: string, url: string)
    requires ops != [] && |ops| == |outs|
    requires CreatedBefore(cfg, ops[..|ops| - 1], outs[..|outs| - 1], ip, url)
    ensures CreatedBefore(cfg, ops, outs, ip, url)
  {
  }

  /** Every signed challenge payload comes from an earlier successful CreateSession. */
  lemma {:induction false} Provenance(cfg: Config, start: int, ops: seq<Op>, c: Claims)
    requires c in Run(cfg, start, ops).0.s.signed && c.ipHash.HashOf?
    ensures CreatedBefore(cfg, ops, Run(cfg, start, ops).1, c.ipHash.ip, c.url)
  {
    if ops != [] {
      var n := |ops| - 1;
      var (w, outs) := Run(cfg, start, ops[..n]);
      var op := ops[n];
      if c in w.s.signed {
        Provenance(cfg, start, ops[..n], c);
        assert Run(cfg, start, ops).1[..n] == outs;
        CreatedStays(cfg, ops, Run(cfg, start, ops).1, c.ipHash.ip, c.url);
      } else {
        assert ops[n].Issue?;
      }
    }
  }

  // ----- what a token admits, and for how long -----

  /** An output is that of its operation in the world the earlier ones left, and tokens once signed stay signed. */
  lemma {:induction false} OutputAt(cfg: Config, start: int, ops: seq<Op>, i: nat)
    requires i < |ops|
    ensures Run(cfg, start, ops).1[i] == Step(cfg, Run(cfg, start, ops[..i]).0, ops[i]).1
    ensures Step(cfg, Run(cfg, start, ops[..i]).0, ops[i]).0.s.signed <= Run(cfg, start, ops).0.s.signed
  {
    var n := |ops| - 1;
    if i < n {
      OutputAt(cfg, start, ops[..n], i);
      assert ops[..n][..i] == ops[..i];
    }
  }

  /** The clock when the operation at `i` signs its token. */
  function SignedAt(cfg: Config, start: int, ops: seq<Op>, i: nat): int
    requires i < |ops| && (ops[i].Issue? || ops[i].Answer?)
  {
    Run(cfg, start, ops[..i]).0.now + ops[i].lag
  }

  /** What the service has signed for a session it created at `i`, at any later position. */
  lemma IssuedSession(cfg: Config, start: int, ops: seq<Op>, i: nat, created: Session)
    requires i < |ops| && Run(cfg, start, ops).1[i] == Issued(Created(created))
    ensures ops[i].Issue?
    ensures var t := SignedAt(cfg, start, ops, i);
      && created == SessionOf(cfg, ChallengeFor(cfg, ops[i].ip, ops[i].url, ops[i].id, t), t)
      && created.token.claims in Run(cfg, start, ops).0.s.signed
  {
    OutputAt(cfg, start, ops, i);
    assert ops[i].Issue?;
  }

  /** Likewise for a session token granted at `i`. */
  lemma GrantedToken(cfg: Config, start: int, ops: seq<Op>, i: nat, token: Token)
    requires i < |ops| && Run(cfg, start, ops).1[i] == Answered(Verified(token))
    ensures ops[i].Answer?
    ensures token == Jwt(SessionFor(cfg, ops[i].sid, SignedAt(cfg, start, ops, i)))
    ensures token.claims in Run(cfg, start, ops).0.s.signed
  {
    OutputAt(cfg, start, ops, i);
    assert ops[i].Answer?;
    AnswerShape(cfg, Run(cfg, start, ops[..i]).0, ops[i]);
  }

  /** Every session created in a run: its links, its token, and the request it was made for. */
  lemma CreatedMeaning(cfg: Config, start: int, ops: seq<Op>, i: nat, created: Session)
    requires i < |ops| && Run(cfg, start, ops).1[i] == Issued(Created(created))
    ensures ops[i].Issue? && Presents(cfg, created)
    ensures created.originalURL == created.redirectURL == ops[i].url && ValidRedirect(cfg, ops[i].url)
    ensures created.token.claims.id == ops[i].id && created.token.claims.ipHash == HashOf(ops[i].ip)
  {
    OutputAt(cfg, start, ops, i);
    var w, op := Run(cfg, start, ops[..i]).0, ops[i];
    assert op.Issue?;
    CreateMeaning(cfg, w.s, op.ip, op.url, op.session, w.now, w.now + op.lag, op.id, op.signs);
  }

  /** Every session read back in a run is presented likewise, for the token asked about. */
  lemma LookedMeaning(cfg: Config, start: int, ops: seq<Op>, i: nat, seen: Session)
    requires i < |ops| && Run(cfg, start, ops).1[i] == Looked(Some(seen))
    ensures ops[i].Look? && Presents(cfg, seen) && seen.token == ops[i].token && seen.createdAt == seen.token.claims.issued
  {
    OutputAt(cfg, start, ops, i);
    assert ops[i].Look?;
  }

  /**
   After any run in which the challenge was issued, its token is accepted exactly before the moment recorded in
   it, which is less than a second short of the configured duration; until then GetSession returns what
   CreateSession produced but for the rounded creation time, and nothing from then on.
   */
  lemma ChallengeWindow(cfg: Config, start: int, ops: seq<Op>, i: nat, created: Session, at: int)
    requires i < |ops| && Run(cfg, start, ops).1[i] == Issued(Created(created))
    ensures ops[i].Issue?
    ensures var t := SignedAt(cfg, start, ops, i);
      && t + cfg.challengeDuration - SECOND < created.expiresAt == Floor(t + cfg.challengeDuration) <= t + cfg.challengeDuration
      && GetSession(cfg, Run(cfg, start, ops).0.s, created.token, at)
        == if at < created.expiresAt then Some(created.(createdAt := Floor(t))) else None
    ensures Accepted(Run(cfg, start, ops).0.s.signed, created.token, at) <==> at < created.expiresAt
  {
    IssuedSession(cfg, start, ops, i, created);
  }

  /**
   After any run in which a verification granted it, a session token spares every client further captchas,
   whatever its IP, until the token expires and no longer.
   */
  lemma SessionWindow(cfg: Config, start: int, ops: seq<Op>, i: nat, token: Token,
                      ip: string, url: string, now: int, later: int, id: string, signs: bool)
    requires i < |ops| && Run(cfg, start, ops).1[i] == Answered(Verified(token))
    ensures token.Jwt? && ops[i].Answer?
    ensures var t := SignedAt(cfg, start, ops, i);
      t + cfg.sessionDuration - SECOND < token.claims.expires == Floor(t + cfg.sessionDuration) <= t + cfg.sessionDuration
    ensures Create(cfg, Run(cfg, start, ops).0.s, ip, url, token, now, later, id, signs).1 == NotRequired
       <==> now < token.claims.expires && later <= token.claims.expires
  {
    GrantedToken(cfg, start, ops, i, token);
  }

  /**
   So does the token of a challenge, which is signed with the same key and handed out before anything is solved:
   presented as a session token it is accepted, from any IP, until the challenge expires.
   */
  lemma ChallengeServesAsSession(cfg: Config, start: int, ops: seq<Op>, i: nat, created: Session,
                                 ip: string, url: string, now: int, later: int, id: string, signs: bool)
    requires i < |ops| && Run(cfg, start, ops).1[i] == Issued(Created(created))
    ensures Create(cfg, Run(cfg, start, ops).0.s, ip, url, created.token, now, later, id, signs).1 == NotRequired
       <==> now < created.expiresAt && later <= created.expiresAt
  {
    IssuedSession(cfg, start, ops, i, created);
  }

  /** In particular a client spared by a session token need never have solved a captcha. */
  lemma UnsolvedChallengeAdmits(cfg: Config, start: int, ip: string, url: string, id: string, now: int, later: int)
    requires ValidRedirect(cfg, url) && id != ""
    ensures var ops := [Issue(ip, url, Malformed(""), 0, id, true)];
      && Legal(cfg, start, ops)
      && (SessionAccepted(Run(cfg, start, ops).0.s.signed, Jwt(ChallengeFor(cfg, ip, url, id, start)), now, later)
          <==> now < Floor(start + cfg.challengeDuration) && later <= Floor(start + cfg.challengeDuration))
  {
    var ops := [Issue(ip, url, Malformed(""), 0, id, true)];
    assert ops[..|ops| - 1] == [];
    assert Run(cfg, start, ops[..|ops| - 1]) == (World(FRESH_STATE, start), []) && Legal(cfg, start, ops[..|ops| - 1]);
  }

  /** A session granted for a solved captcha, at some position. */
  ghost predicate GrantedIn(cfg: Config, start: int, ops: seq<Op>, c: Claims) {
    exists i :: 0 <= i < |ops| && Run(cfg, start, ops).1[i] == Answered(Verified(Jwt(c)))
  }

  /** Of the tokens the service accepts as sessions, exactly those without a challenge ID were granted for a solved captcha. */
  lemma SolvedSessionIff(cfg: Config, start: int, ops: seq<Op>, c: Claims)
    requires Legal(cfg, start, ops) && c in Run(cfg, start, ops).0.s.signed
    ensures GrantedIn(cfg, start, ops, c) <==> c.id == ""
  {
    if c.id == "" {
      var at := GrantOf(cfg, start, ops, c);
    }
    if GrantedIn(cfg, start, ops, c) {
      var i :| 0 <= i < |ops| && Run(cfg, start, ops).1[i] == Answered(Verified(Jwt(c)));
      GrantedToken(cfg, start, ops, i, Jwt(c));
    }
  }

  lemma {:induction false} GrantOf(cfg: Config, start: int, ops: seq<Op>, c: Claims) returns (at: nat)
    requires Legal(cfg, start, ops) && c in Run(cfg, start, ops).0.s.signed && c.id == ""
    ensures at < |ops| && Run(cfg, start, ops).1[at] == Answered(Verified(Jwt(c)))
  {
    var n := |ops| - 1;
    var w := Run(cfg, start, ops[..n]).0;
    if c in w.s.signed {
      at := GrantOf(cfg, start, ops[..n], c);
    } else {
      at := n;
      assert ops[n].Answer?;
      AnswerShape(cfg, w, ops[n]);
    }
  }
}
