/**
 Deciding a request: exemption, decision cache, captcha and WAF in turn, one final metric per request, and
 the answer given to the proxy.
 */
module Pipeline {
  import opened Wrappers
  import opened Text
  import opened NetAddr
  import opened Decisions
  import opened DecisionStream
  import opened Counting
  import Captcha
  import RealIP
  import HostRouting
  import UsageMetrics

  const STATUS_OK := 200
  const STATUS_FOUND := 302
  const STATUS_FORBIDDEN := 403
  const STATUS_ERROR := 500

  const CHALLENGE_PATH := "/crowdsec-internal/challenge/"

  datatype Config = Config(banStatus: int, wafEnabled: bool, failOpen: bool, captchaEnabled: bool)

  /** A parsed request: its client address as text and parsed, its path. */
  datatype Request = Request(ip: string, addr: Option<Addr>, path: string)

  datatype WAFReply = WAFReply(action: string, status: int, body: string, headers: map<string, seq<string>>, cookies: seq<string>)

  /** What the components would say about a request. */
  datatype Outcomes = Outcomes(
    decision: Result<Option<Decision>, string>, session: Captcha.CreateResult, waf: Result<WAFReply, string>)

  datatype Checked = Checked(
    ip: string, action: Action, reason: string, status: int, redirect: string,
    decision: Option<Decision>, body: string, headers: map<string, seq<string>>)

  /** A result with no redirect, decision, body or headers. */
  function Bare(ip: string, action: Action, reason: string, status: int): Checked {
    Checked(ip, action, reason, status, "", None, "", map[])
  }

  function BanStatus(cfg: Config): int {
    if cfg.banStatus != 0 then cfg.banStatus else STATUS_FORBIDDEN
  }

  predicate IsChallengePath(path: string) {
    HasPrefix(path, CHALLENGE_PATH)
  }

  /** Decision types, WAF actions and results share one vocabulary of names. */
  datatype Action = Allow | Ban | Solve | Challenge | Error | Other(name: string)

  function ActionOf(name: string): (a: Action)
    ensures a == Allow <==> name == "allow"
    ensures a == Ban <==> name == "ban"
    ensures a == Solve <==> name == "captcha"
    ensures a == Challenge <==> name == "challenge"
    ensures a == Error <==> name == "error"
    ensures a.Other? ==> a.name == name
  {
    match name
    case "allow" => Allow
    case "ban" => Ban
    case "captcha" => Solve
    case "challenge" => Challenge
    case "error" => Error
    case _ => Other(name)
  }

  // ----- the stages -----

  function CheckDecision(cfg: Config, req: Request, decision: Result<Option<Decision>, string>): Checked {
    match decision
    case Failure(_) => Bare(req.ip, Error, "decision cache error", STATUS_ERROR)
    case Success(None) => Bare(req.ip, Allow, "no decision", STATUS_OK)
    case Success(Some(d)) =>
      if d.kind.None? then Bare(req.ip, Allow, "no decision type", STATUS_OK)
      else
        var kind := ActionOf(Lower(d.kind.value));
        if kind == Ban then
          var reason := if d.scenario.Some? && d.scenario.value != "" then d.scenario.value else "crowdsec ban";
          Bare(req.ip, Ban, reason, BanStatus(cfg)).(decision := Some(d))
        else if kind == Solve then Bare(req.ip, Solve, "crowdsec captcha", STATUS_FOUND).(decision := Some(d))
        else Bare(req.ip, Allow, "decision allows", STATUS_OK)
  }

  function CheckCaptcha(cfg: Config, req: Request, session: Captcha.CreateResult, decision: Option<Decision>): Checked {
    if !cfg.captchaEnabled then Bare(req.ip, Allow, "captcha disabled", STATUS_OK)
    else
      match session
      case Created(s) => Checked(req.ip, Solve, "captcha required", STATUS_FOUND, s.challengeURL, decision, "", map[])
      case NotRequired => Bare(req.ip, Allow, "captcha not required", STATUS_OK)
      case _ => Bare(req.ip, Error, "captcha error", STATUS_ERROR)
  }

  function ResponseHeaders(r: WAFReply): map<string, seq<string>> {
    if r.cookies == [] then r.headers else r.headers["Set-Cookie" := r.cookies]
  }

  function WAFFailure(cfg: Config, req: Request): Checked {
    if IsChallengePath(req.path) then Bare(req.ip, Ban, "appsec challenge path waf error", BanStatus(cfg))
    else if cfg.failOpen then Bare(req.ip, Allow, "waf-unavailable", STATUS_OK)
    else Bare(req.ip, Error, "error", STATUS_ERROR)
  }

  function CheckWAF(cfg: Config, req: Request, reply: Result<WAFReply, string>): Checked {
    if !cfg.wafEnabled then
      if IsChallengePath(req.path) then Bare(req.ip, Ban, "appsec challenge path requires waf", BanStatus(cfg))
      else Bare(req.ip, Allow, "ok", STATUS_OK)
    else if reply.Failure? then WAFFailure(cfg, req)
    else
      var r, action := reply.value, ActionOf(Lower(reply.value.action));
      if action == Error then WAFFailure(cfg, req)
      else if action == Challenge then
        Checked(req.ip, Challenge, "crowdsec challenge", if r.status == 0 then BanStatus(cfg) else r.status,
                "", None, r.body, ResponseHeaders(r))
      else if action != Allow then Bare(req.ip, action, "ban", BanStatus(cfg))
      else Bare(req.ip, Allow, "ok", STATUS_OK).(headers := ResponseHeaders(r))
  }

  /** Bouncer.Check without its metrics. */
  function Decide(cfg: Config, exempt: bool, req: Request, o: Outcomes): Checked {
    if exempt then Bare(req.ip, Allow, "ip is in exempt list", STATUS_OK)
    else
      var first := CheckDecision(cfg, req, o.decision);
      if first.action == Solve then CheckCaptcha(cfg, req, o.session, first.decision)
      else if first.action == Ban then first
      else if first.action == Error then Bare(req.ip, Error, first.reason, STATUS_ERROR)
      else DecideByWAF(cfg, req, o, first.decision)
  }

  /** The rest of Bouncer.Check once the decision cache lets the request pass. */
  function DecideByWAF(cfg: Config, req: Request, o: Outcomes, decision: Option<Decision>): Checked {
    var waf := CheckWAF(cfg, req, o.waf);
    if waf.action == Solve then CheckCaptcha(cfg, req, o.session, decision)
    else if !waf.action.Other? then waf
    else Bare(req.ip, waf.action, "unknown action", STATUS_ERROR)
  }

  /** The CrowdSec usage counter an action is reported under. */
  datatype Remediation = Remediation(key: string, name: string, remediation: string)

  function UsageOf(action: Action): Option<Remediation> {
    match action
    case Allow => Some(Remediation("CAPI:bypass", "processed", "bypass"))
    case Ban => Some(Remediation("CAPI:ban", "dropped", "ban"))
    case Solve => Some(Remediation("CAPI:captcha", "dropped", "captcha"))
    case Challenge => Some(Remediation("CAPI:challenge", "dropped", "challenge"))
    case _ => None
  }

  function UsageLabels(m: Remediation): map<string, string> {
    map["origin" := "CAPI", "remediation" := m.remediation]
  }

  function UsageAfter(usage: map<string, UsageMetrics.Metric>, action: Action): map<string, UsageMetrics.Metric> {
    match UsageOf(action)
    case None => usage
    case Some(m) =>
      UsageMetrics.WithAmount(usage, m.key, UsageMetrics.Metric(m.name, "request", 0, UsageLabels(m)), UsageMetrics.Amount(usage, m.key) + 1)
  }

  // ----- what a request comes to -----

  predicate HasKind(decision: Result<Option<Decision>, string>, kind: Action) {
    match decision
    case Success(Some(d)) => d.kind.Some? && ActionOf(Lower(d.kind.value)) == kind
    case _ => false
  }

  /** The action AppSec replied with, if it is consulted and does reply. */
  function WAFAction(cfg: Config, o: Outcomes): Option<Action> {
    if cfg.wafEnabled && o.waf.Success? then Some(ActionOf(Lower(o.waf.value.action))) else None
  }

  /** The WAF was consulted but gave no verdict. */
  predicate WAFFailed(cfg: Config, o: Outcomes) {
    cfg.wafEnabled && (o.waf.Failure? || ActionOf(Lower(o.waf.value.action)) == Error)
  }

  /** The decision cache lets the request pass. */
  predicate NoVerdict(o: Outcomes) {
    o.decision.Success? && !HasKind(o.decision, Ban) && !HasKind(o.decision, Solve)
  }

  /** A captcha is called for, by the decision cache or by the WAF. */
  predicate CaptchaCalled(cfg: Config, o: Outcomes) {
    HasKind(o.decision, Solve) || (NoVerdict(o) && WAFAction(cfg, o) == Some(Solve))
  }

  lemma Verdicts(cfg: Config, req: Request, o: Outcomes)
    ensures var action := CheckDecision(cfg, req, o.decision).action;
      && (action == Allow <==> NoVerdict(o)) && (action == Solve <==> HasKind(o.decision, Solve))
      && (action == Ban <==> HasKind(o.decision, Ban)) && (action == Error <==> o.decision.Failure?)
  {
  }

  /** A session was wanted and could not be made. */
  predicate SessionFails(cfg: Config, o: Outcomes) {
    cfg.captchaEnabled && !o.session.NotRequired? && !o.session.Created?
  }

  /** A request as it arrives, with what the components would say about it. */
  datatype Arrival = Arrival(req: Request, o: Outcomes)

  predicate Exempted(exempt: seq<Prefix>, req: Request) {
    req.addr.Some? && RealIP.InRanges(req.addr.value, exempt)
  }

  lemma ExemptedIff(exempt: seq<Prefix>, req: Request)
    ensures Exempted(exempt, req)
       <==> req.addr.Some? && exists i :: 0 <= i < |exempt| && RealIP.LiesIn(Unmap(req.addr.value), exempt[i])
  {
    if req.addr.Some? {
      RealIP.InRangesMeaning(req.addr.value, exempt);
    }
  }

  function ResultOf(cfg: Config, exempt: seq<Prefix>, a: Arrival): Checked {
    Decide(cfg, Exempted(exempt, a.req), a.req, a.o)
  }

  predicate Inspected(cfg: Config, exempt: seq<Prefix>, a: Arrival) {
    !Exempted(exempt, a.req) && cfg.wafEnabled && NoVerdict(a.o)
  }

  /** The counters kept for Prometheus; each is incremented atomically. */
  datatype Tallies = Tallies(requests: map<Action, int>, wafRequests: map<Action, int>, wafErrors: int, captchaErrors: int)

  function Bumped(t: Tallies, ended: Action): Tallies {
    t.(requests := Bump(t.requests, ended))
  }

  /** What a request that ends in an action adds to the counters. */
  function Recorded(cfg: Config, free: bool, t: Tallies, o: Outcomes, ended: Action): Tallies {
    var replied := if !free && NoVerdict(o) then WAFAction(cfg, o) else None;
    Tallies(
      Bump(t.requests, ended),
      if replied.Some? then Bump(t.wafRequests, replied.value) else t.wafRequests,
      t.wafErrors + (if !free && NoVerdict(o) && WAFFailed(cfg, o) then 1 else 0),
      t.captchaErrors + (if !free && CaptchaCalled(cfg, o) && SessionFails(cfg, o) then 1 else 0))
  }

  function RecordedAll(cfg: Config, exempt: seq<Prefix>, t: Tallies, arrivals: seq<Arrival>): Tallies {
    if arrivals == [] then t
    else
      var last := arrivals[|arrivals| - 1];
      var before := RecordedAll(cfg, exempt, t, arrivals[..|arrivals| - 1]);
      Recorded(cfg, Exempted(exempt, last.req), before, last.o, ResultOf(cfg, exempt, last).action)
  }

  function UsageAll(cfg: Config, exempt: seq<Prefix>, usage: map<string, UsageMetrics.Metric>, arrivals: seq<Arrival>)
    : map<string, UsageMetrics.Metric>
  {
    if arrivals == [] then usage
    else
      UsageAfter(UsageAll(cfg, exempt, usage, arrivals[..|arrivals| - 1]), ResultOf(cfg, exempt, arrivals[|arrivals| - 1]).action)
  }

  // ----- the object and its metrics -----

  class Bouncer {
    const cfg: Config
    const exempt: seq<Prefix>
    const usage: UsageMetrics.MetricsService?
    var requests: map<Action, int>
    var wafRequests: map<Action, int>
    var wafErrors: int
    var captchaErrors: int

    constructor (cfg: Config, exempt: seq<Prefix>, usage: UsageMetrics.MetricsService?)
      ensures this.cfg == cfg && this.exempt == exempt && this.usage == usage
      ensures requests == wafRequests == map[] && wafErrors == captchaErrors == 0
    {
      this.cfg, this.exempt, this.usage := cfg, exempt, usage;
      requests, wafRequests, wafErrors, captchaErrors := map[], map[], 0, 0;
    }

    ghost function Counters(): Tallies
      reads this
    {
      Tallies(requests, wafRequests, wafErrors, captchaErrors)
    }

    ghost function Owned(): set<object> {
      if usage == null then {} else {usage.metrics}
    }

    method RecordFinalMetric(action: Action)
      modifies this`requests, Owned()
      ensures requests == Bump(old(requests), action)
      ensures usage != null ==> usage.metrics.entries == UsageAfter(old(usage.metrics.entries), action)
    {
      requests := Bump(requests, action);
      if usage == null {
        return;
      }
      var m := UsageOf(action);
      if m.Some? {
        usage.Inc(m.value.key, m.value.name, "request", UsageLabels(m.value));
      }
    }

    method RunCaptcha(req: Request, session: Captcha.CreateResult, decision: Option<Decision>) returns (r: Checked)
      modifies this`captchaErrors
      ensures r == CheckCaptcha(cfg, req, session, decision)
      ensures captchaErrors == old(captchaErrors) + if r.action == Error then 1 else 0
    {
      r := CheckCaptcha(cfg, req, session, decision);
      if r.action == Error {
        captchaErrors := captchaErrors + 1;
      }
    }

    /** A reply is counted under its action; a transport error or an error action counts as a WAF error. */
    method RunWAF(req: Request, reply: Result<WAFReply, string>) returns (r: Checked)
      modifies this`wafRequests, this`wafErrors
      ensures r == CheckWAF(cfg, req, reply)
      ensures wafRequests
        == if cfg.wafEnabled && reply.Success? then Bump(old(wafRequests), ActionOf(Lower(reply.value.action))) else old(wafRequests)
      ensures wafErrors
        == old(wafErrors) + if cfg.wafEnabled && (reply.Failure? || ActionOf(Lower(reply.value.action)) == Error) then 1 else 0
    {
      r := CheckWAF(cfg, req, reply);
      if !cfg.wafEnabled {
        return;
      }
      if reply.Success? {
        wafRequests := Bump(wafRequests, ActionOf(Lower(reply.value.action)));
      }
      if reply.Failure? || ActionOf(Lower(reply.value.action)) == Error {
        wafErrors := wafErrors + 1;
      }
    }

    method Check(req: Request, o: Outcomes) returns (r: Checked)
      modifies this, Owned()
      ensures r == Decide(cfg, Exempted(exempt, req), req, o)
      ensures Counters() == Recorded(cfg, Exempted(exempt, req), old(Counters()), o, r.action)
      ensures usage != null ==> usage.metrics.entries == UsageAfter(old(usage.metrics.entries), r.action)
    {
      var free := RealIP.IsExemptIP(req.addr, exempt);
      if free {
        r := Bare(req.ip, Allow, "ip is in exempt list", STATUS_OK);
      } else {
        r := CheckByDecision(req, o);
      }
      RecordFinalMetric(r.action);
    }

    /** The rest of Check for an address that is not exempt; the final metric of each branch is left to Check. */
    method CheckByDecision(req: Request, o: Outcomes) returns (r: Checked)
      modifies this`wafRequests, this`wafErrors, this`captchaErrors
      ensures r == Decide(cfg, false, req, o)
      ensures Bumped(Counters(), r.action) == Recorded(cfg, false, old(Counters()), o, r.action)
    {
      var first := CheckDecision(cfg, req, o.decision);
      Verdicts(cfg, req, o);
      match first.action {
        case Allow => r := CheckByWAF(req, o, first.decision);
        case Solve => r := RunCaptcha(req, o.session, first.decision);
        case Ban => r := if first.status == 0 then first.(status := BanStatus(cfg)) else first;
        case Error => r := Bare(req.ip, Error, first.reason, STATUS_ERROR);
        case _ => assert false;
      }
    }

    method CheckByWAF(req: Request, o: Outcomes, decision: Option<Decision>) returns (r: Checked)
      modifies this`wafRequests, this`wafErrors, this`captchaErrors
      ensures r == DecideByWAF(cfg, req, o, decision)
      ensures wafRequests
        == if cfg.wafEnabled && o.waf.Success? then Bump(old(wafRequests), ActionOf(Lower(o.waf.value.action))) else old(wafRequests)
      ensures wafErrors == old(wafErrors) + if WAFFailed(cfg, o) then 1 else 0
      ensures captchaErrors == old(captchaErrors) + if WAFAction(cfg, o) == Some(Solve) && SessionFails(cfg, o) then 1 else 0
    {
      var waf := RunWAF(req, o.waf);
      match waf.action {
        case Solve => r := RunCaptcha(req, o.session, decision);
        case Allow => r := waf;
        case Challenge => r := waf;
        case Ban => r := waf;
        case Error => r := waf;
        case _ => r := Bare(req.ip, waf.action, "unknown action", STATUS_ERROR);
      }
    }

    /** Requests served one after the other, with no usage report sent meanwhile. */
    method CheckAll(arrivals: seq<Arrival>) returns (results: seq<Checked>)
      modifies this, Owned()
      ensures AreResults(cfg, exempt, arrivals, results)
      ensures Counters() == RecordedAll(cfg, exempt, old(Counters()), arrivals)
      ensures usage != null ==> usage.metrics.entries == UsageAll(cfg, exempt, old(usage.metrics.entries), arrivals)
    {
      results := [];
      for i := 0 to |arrivals|
        invariant AreResults(cfg, exempt, arrivals[..i], results)
        invariant Counters() == RecordedAll(cfg, exempt, old(Counters()), arrivals[..i])
        invariant usage != null ==> usage.metrics.entries == UsageAll(cfg, exempt, old(usage.metrics.entries), arrivals[..i])
      {
        OneMore(cfg, exempt, arrivals, i, results);
        CountersSnoc(cfg, exempt, old(Counters()), arrivals, i);
        if usage != null {
          UsageSnoc(cfg, exempt, old(usage.metrics.entries), arrivals, i);
        }
        var r := Check(arrivals[i].req, arrivals[i].o);
        results := results + [r];
      }
      assert arrivals[..|arrivals|] == arrivals;
    }
  }

  ghost predicate AreResults(cfg: Config, exempt: seq<Prefix>, arrivals: seq<Arrival>, results: seq<Checked>) {
    |results| == |arrivals| && forall i :: 0 <= i < |arrivals| ==> results[i] == ResultOf(cfg, exempt, arrivals[i])
  }

  lemma OneMore(cfg: Config, exempt: seq<Prefix>, arrivals: seq<Arrival>, i: nat, results: seq<Checked>)
    requires i < |arrivals| && AreResults(cfg, exempt, arrivals[..i], results)
    ensures AreResults(cfg, exempt, arrivals[..i + 1], results + [ResultOf(cfg, exempt, arrivals[i])])
  {
  }

  lemma CountersSnoc(cfg: Config, exempt: seq<Prefix>, t: Tallies, arrivals: seq<Arrival>, i: nat)
    requires i < |arrivals|
    ensures var a := arrivals[i];
      RecordedAll(cfg, exempt, t, arrivals[..i + 1])
        == Recorded(cfg, Exempted(exempt, a.req), RecordedAll(cfg, exempt, t, arrivals[..i]), a.o, ResultOf(cfg, exempt, a).action)
  {
    assert arrivals[..i + 1][..i] == arrivals[..i];
  }

  lemma UsageSnoc(cfg: Config, exempt: seq<Prefix>, usage: map<string, UsageMetrics.Metric>, arrivals: seq<Arrival>, i: nat)
    requires i < |arrivals|
    ensures UsageAll(cfg, exempt, usage, arrivals[..i + 1])
         == UsageAfter(UsageAll(cfg, exempt, usage, arrivals[..i]), ResultOf(cfg, exempt, arrivals[i]).action)
  {
    assert arrivals[..i + 1][..i] == arrivals[..i];
  }

  // ----- the answer to the proxy -----

  datatype Response =
    | Ok(headers: map<string, seq<string>>)
    | Denied(status: int, location: string, body: string, headers: map<string, seq<string>>)
    | Unavailable(reason: string)
    | Internal

  /** Server.Check; without a bouncer every request is denied.  The body of a denied page is left out. */
  function Respond(result: Option<Checked>): Response {
    match result
    case None => Denied(STATUS_ERROR, "", "", map[])
    case Some(r) =>
      if r.action == Allow then Ok(r.headers)
      else if r.action == Solve then Denied(STATUS_FOUND, r.redirect, "", map[])
      else if r.action == Challenge then Denied(r.status, "", r.body, r.headers)
      else if r.action == Ban then Denied(r.status, "", "", map[])
      else if r.action == Error then Unavailable(r.reason)
      else Internal
  }

  // ----- when a request is let through -----

  predicate CaptchaSettled(cfg: Config, o: Outcomes) {
    !cfg.captchaEnabled || o.session.NotRequired?
  }

  predicate FailsOpen(cfg: Config, req: Request) {
    cfg.failOpen && !IsChallengePath(req.path)
  }

  predicate WAFPasses(cfg: Config, req: Request, o: Outcomes) {
    if !cfg.wafEnabled then !IsChallengePath(req.path)
    else
      match o.waf
      case Failure(_) => FailsOpen(cfg, req)
      case Success(r) =>
        || ActionOf(Lower(r.action)) == Allow
        || (ActionOf(Lower(r.action)) == Error && FailsOpen(cfg, req))
        || (ActionOf(Lower(r.action)) == Solve && CaptchaSettled(cfg, o))
  }

  /** The proxy is answered OK exactly under this condition, for every configuration and every component outcome. */
  lemma AllowedIff(cfg: Config, exempt: bool, req: Request, o: Outcomes)
    ensures Respond(Some(Decide(cfg, exempt, req, o))).Ok? <==>
      || exempt
      || (HasKind(o.decision, Solve) && CaptchaSettled(cfg, o))
      || (o.decision.Success? && !HasKind(o.decision, Ban) && !HasKind(o.decision, Solve) && WAFPasses(cfg, req, o))
  {
    if !exempt && o.decision.Success? && !HasKind(o.decision, Ban) && !HasKind(o.decision, Solve) {
      WAFStage(cfg, req, o);
    }
  }

  /** The WAF stage of a request that the decision cache lets pass. */
  lemma WAFStage(cfg: Config, req: Request, o: Outcomes)
    ensures forall d :: DecideByWAF(cfg, req, o, d).action == Allow <==> WAFPasses(cfg, req, o)
  {
  }

  /** When a request that is not exempt is redirected to a challenge page, and to which. */
  lemma RedirectedIff(cfg: Config, req: Request, o: Outcomes)
    ensures Decide(cfg, false, req, o).action == Solve <==> CaptchaCalled(cfg, o) && cfg.captchaEnabled && o.session.Created?
    ensures Decide(cfg, false, req, o).action == Solve ==>
      Respond(Some(Decide(cfg, false, req, o))) == Denied(302, o.session.session.challengeURL, "", map[])
  {
  }

  /** With the captcha service put in: the page is the service's challenge page, with a fresh token for this IP and URL. */
  lemma RedirectLocation(cfg: Config, req: Request, o: Outcomes, captcha: Captcha.Config, s: Captcha.State, url: string,
                         cookie: Captcha.Token, now: int, later: int, id: string, signs: bool)
    requires o.session == Captcha.Create(captcha, s, req.ip, url, cookie, now, later, id, signs).1
    requires Decide(cfg, false, req, o).action == Solve
    ensures o.session.Created? && var token := o.session.session.token;
      && token.Jwt? && token.claims.id == id && token.claims.ipHash == Captcha.HashOf(req.ip) && token.claims.url == url
      && Respond(Some(Decide(cfg, false, req, o)))
        == Denied(302, captcha.callbackURL + "/captcha/challenge?" + captcha.encode(token), "", map[])
  {
    RedirectedIff(cfg, req, o);
    Captcha.CreateMeaning(captcha, s, req.ip, url, cookie, now, later, id, signs);
  }

  /** The kind of a decision, in its own text: compared without regard to case. */
  lemma HasKindMeaning(d: Decision)
    ensures HasKind(Success(Some(d)), Ban) <==> d.kind.Some? && Lower(d.kind.value) == "ban"
    ensures HasKind(Success(Some(d)), Solve) <==> d.kind.Some? && Lower(d.kind.value) == "captcha"
    ensures !HasKind(Success(None), Ban) && !HasKind(Success(None), Solve)
  {
  }

  /** AppSec's verdict bans, or it gives none for one of its own challenge paths. */
  predicate WAFBans(cfg: Config, req: Request, o: Outcomes) {
    if cfg.wafEnabled && o.waf.Success? && Lower(o.waf.value.action) != "error" then Lower(o.waf.value.action) == "ban"
    else "/crowdsec-internal/challenge/" <= req.path
  }

  /** When a request is banned. */
  lemma BannedIff(cfg: Config, req: Request, o: Outcomes)
    ensures Decide(cfg, false, req, o).action == Ban <==> HasKind(o.decision, Ban) || (NoVerdict(o) && WAFBans(cfg, req, o))
  {
  }

  /** The proxy then denies it with the configured status, or 403. */
  lemma BanAnswer(cfg: Config, req: Request, o: Outcomes)
    requires Decide(cfg, false, req, o).action == Ban
    ensures Respond(Some(Decide(cfg, false, req, o))) == Denied(if cfg.banStatus == 0 then 403 else cfg.banStatus, "", "", map[])
  {
  }

  /** What is recorded of a local ban: the decision behind it, and its scenario as the reason if it has one. */
  lemma LocalBanReason(cfg: Config, req: Request, o: Outcomes)
    requires HasKind(o.decision, Ban)
    ensures var d, r := o.decision.value.value, Decide(cfg, false, req, o);
      r.ip == req.ip && r.decision == Some(d)
      && r.reason == if d.scenario.None? || d.scenario.value == "" then "crowdsec ban" else d.scenario.value
  {
  }

  /** A request without a local verdict is the WAF's to decide. */
  lemma LeftToWAF(cfg: Config, req: Request, o: Outcomes)
    requires NoVerdict(o)
    ensures Decide(cfg, false, req, o) == DecideByWAF(cfg, req, o, None)
  {
    Verdicts(cfg, req, o);
  }

  /** What is recorded of a request the WAF bans. */
  lemma WAFBanReason(cfg: Config, req: Request, o: Outcomes)
    requires DecideByWAF(cfg, req, o, None).action == Ban
    ensures DecideByWAF(cfg, req, o, None) == Bare(req.ip, Ban,
      if !cfg.wafEnabled then "appsec challenge path requires waf"
      else if WAFFailed(cfg, o) then "appsec challenge path waf error" else "ban", BanStatus(cfg))
  {
  }

  /** What is recorded of a request sent to a captcha: the decision that called for it, if a local one did. */
  lemma SolveReason(cfg: Config, req: Request, o: Outcomes)
    requires Decide(cfg, false, req, o).action == Solve
    ensures Decide(cfg, false, req, o).reason == "captcha required"
    ensures Decide(cfg, false, req, o).decision == if HasKind(o.decision, Solve) then o.decision.value else None
  {
  }

  /** And of one AppSec says something unknown of. */
  lemma UnknownReason(cfg: Config, req: Request, o: Outcomes)
    requires DecideByWAF(cfg, req, o, None).action.Other?
    ensures DecideByWAF(cfg, req, o, None) == Bare(req.ip, Other(Lower(o.waf.value.action)), "unknown action", 500)
  {
  }

  /** An allowed request carries headers only if AppSec allowed it, and then AppSec's, with its cookies to set. */
  lemma AllowedAnswer(cfg: Config, exempt: bool, req: Request, o: Outcomes)
    requires Decide(cfg, exempt, req, o).action == Allow
    ensures Respond(Some(Decide(cfg, exempt, req, o))) ==
      if !exempt && NoVerdict(o) && cfg.wafEnabled && o.waf.Success? && Lower(o.waf.value.action) == "allow" then
        Ok(if o.waf.value.cookies == [] then o.waf.value.headers else o.waf.value.headers["Set-Cookie" := o.waf.value.cookies])
      else Ok(map[])
  {
  }

  /** And the reason recorded for it. */
  lemma AllowedReason(cfg: Config, req: Request, o: Outcomes)
    requires Decide(cfg, false, req, o).action == Allow
    ensures Decide(cfg, false, req, o).reason ==
      if CaptchaCalled(cfg, o) then if cfg.captchaEnabled then "captcha not required" else "captcha disabled"
      else if WAFFailed(cfg, o) then "waf-unavailable"
      else "ok"
  {
    Verdicts(cfg, req, o);
  }

  lemma ExemptAnswer(cfg: Config, req: Request, o: Outcomes)
    ensures Decide(cfg, true, req, o) == Checked(req.ip, Allow, "ip is in exempt list", 200, "", None, "", map[])
  {
  }

  /** The reason the proxy is given when the check failed. */
  lemma UnavailableReason(cfg: Config, req: Request, o: Outcomes)
    requires Respond(Some(Decide(cfg, false, req, o))).Unavailable?
    ensures Respond(Some(Decide(cfg, false, req, o))) == Unavailable(
      if o.decision.Failure? then "decision cache error" else if CaptchaCalled(cfg, o) then "captcha error" else "error")
  {
  }

  /** A verdict of AppSec with no other meaning is an internal error, and so is no other answer. */
  lemma InternalIff(cfg: Config, req: Request, o: Outcomes)
    ensures Respond(Some(Decide(cfg, false, req, o))).Internal?
      <==> NoVerdict(o) && cfg.wafEnabled && o.waf.Success?
           && Lower(o.waf.value.action) !in {"allow", "ban", "captcha", "challenge", "error"}
  {
  }

  /** Without a bouncer every request is denied. */
  lemma NoBouncer()
    ensures Respond(None) == Denied(500, "", "", map[])
  {
  }

  /** When AppSec's own challenge is shown. */
  lemma ChallengedIff(cfg: Config, req: Request, o: Outcomes)
    ensures Decide(cfg, false, req, o).action == Challenge
      <==> NoVerdict(o) && cfg.wafEnabled && o.waf.Success? && Lower(o.waf.value.action) == "challenge"
  {
  }

  lemma ChallengeStage(cfg: Config, req: Request, o: Outcomes)
    requires cfg.wafEnabled && o.waf.Success? && Lower(o.waf.value.action) == "challenge"
    ensures var r := o.waf.value;
      DecideByWAF(cfg, req, o, None) == Checked(req.ip, Challenge, "crowdsec challenge",
        if r.status != 0 then r.status else if cfg.banStatus == 0 then 403 else cfg.banStatus, "", None, r.body,
        if r.cookies == [] then r.headers else r.headers["Set-Cookie" := r.cookies])
  {
  }

  /** Its body, headers and cookies go through unchanged, with its status, or that of a ban if it has none. */
  lemma ChallengeAnswer(cfg: Config, req: Request, o: Outcomes)
    requires NoVerdict(o) && cfg.wafEnabled && o.waf.Success? && Lower(o.waf.value.action) == "challenge"
    ensures var r := o.waf.value;
      Respond(Some(Decide(cfg, false, req, o))) == Denied(
        if r.status != 0 then r.status else if cfg.banStatus == 0 then 403 else cfg.banStatus, "", r.body,
        if r.cookies == [] then r.headers else r.headers["Set-Cookie" := r.cookies])
  {
    LeftToWAF(cfg, req, o);
    ChallengeStage(cfg, req, o);
  }

  /** When the proxy is told the check failed: a lookup or captcha error, or a WAF failure that may not fail open. */
  lemma UnavailableIff(cfg: Config, req: Request, o: Outcomes)
    ensures Respond(Some(Decide(cfg, false, req, o))).Unavailable? <==>
      || o.decision.Failure?
      || (CaptchaCalled(cfg, o) && cfg.captchaEnabled && !o.session.NotRequired? && !o.session.Created?)
      || (NoVerdict(o) && WAFFailed(cfg, o) && !cfg.failOpen && !IsChallengePath(req.path))
  {
  }

  /** A request allowed for want of a WAF verdict says so, and no other allowed request does. */
  lemma FailOpenIsMarked(cfg: Config, req: Request, o: Outcomes)
    requires Decide(cfg, false, req, o).action == Allow
    ensures Decide(cfg, false, req, o).reason == "waf-unavailable" <==> NoVerdict(o) && WAFFailed(cfg, o)
  {
  }

  /** An inspection's outcome: an unrouted host is allowed without asking AppSec. */
  function FromInspection(i: Result<Option<WAFReply>, string>): Result<WAFReply, string> {
    match i
    case Failure(e) => Failure(e)
    case Success(None) => Success(WAFReply("allow", 0, "", map[], []))
    case Success(Some(r)) => Success(r)
  }

  /** The WAF stage in terms of the request: method, host routes and AppSec's reply. */
  predicate InspectionPasses(cfg: Config, req: Request, routes: seq<HostRouting.Route>, verb: string, host: string,
                             reply: Result<WAFReply, string>, settled: bool) {
    if !cfg.wafEnabled then !IsChallengePath(req.path)
    else if verb == "" then FailsOpen(cfg, req)
    else if HostRouting.TargetOf(routes, HostRouting.HostLabels(host)).None? then true
    else if reply.Failure? then FailsOpen(cfg, req)
    else
      var action := ActionOf(Lower(reply.value.action));
      action == Allow || (action == Error && FailsOpen(cfg, req)) || (action == Solve && settled)
  }

  /**
   The condition with the components put in: the decision cache's answer, the captcha service's view of the
   session cookie, and AppSec reached through the host routes.
   */
  lemma AdmittedIff(cfg: Config, exempt: bool, req: Request, decision: Result<Option<Decision>, string>,
                    captcha: Captcha.Config, s: Captcha.State, url: string, cookie: Captcha.Token, now: int, later: int,
                    id: string, signs: bool,
                    routes: seq<HostRouting.Route>, verb: string, host: string, reply: Result<WAFReply, string>)
    ensures var session := Captcha.Create(captcha, s, req.ip, url, cookie, now, later, id, signs).1;
      var o := Outcomes(decision, session, FromInspection(HostRouting.Inspect(routes, verb, host, reply)));
      var settled := !cfg.captchaEnabled || Captcha.SessionAccepted(s.signed, cookie, now, later);
      Respond(Some(Decide(cfg, exempt, req, o))).Ok? <==>
        || exempt
        || (HasKind(decision, Solve) && settled)
        || (decision.Success? && !HasKind(decision, Ban) && !HasKind(decision, Solve)
            && InspectionPasses(cfg, req, routes, verb, host, reply, settled))
  {
    var session := Captcha.Create(captcha, s, req.ip, url, cookie, now, later, id, signs).1;
    var o := Outcomes(decision, session, FromInspection(HostRouting.Inspect(routes, verb, host, reply)));
    AllowedIff(cfg, exempt, req, o);
    SessionSettles(captcha, s, req.ip, url, cookie, now, later, id, signs);
    InspectionMeaning(cfg, req, routes, verb, host, reply, o);
  }

  lemma InspectionMeaning(cfg: Config, req: Request, routes: seq<HostRouting.Route>, verb: string, host: string,
                          reply: Result<WAFReply, string>, o: Outcomes)
    requires o.waf == FromInspection(HostRouting.Inspect(routes, verb, host, reply))
    ensures WAFPasses(cfg, req, o) <==> InspectionPasses(cfg, req, routes, verb, host, reply, CaptchaSettled(cfg, o))
  {
    assert Lower("allow") == "allow";
  }

  lemma SessionSettles(captcha: Captcha.Config, s: Captcha.State, ip: string, url: string, cookie: Captcha.Token, now: int, later: int,
                       id: string, signs: bool)
    ensures Captcha.Create(captcha, s, ip, url, cookie, now, later, id, signs).1.NotRequired?
       <==> Captcha.SessionAccepted(s.signed, cookie, now, later)
  {
  }

  /** Nothing overrides a local ban or a failed lookup of an address that is not exempt. */
  lemma BanAndErrorAreFinal(cfg: Config, req: Request, o: Outcomes)
    ensures HasKind(o.decision, Ban) ==> Respond(Some(Decide(cfg, false, req, o))) == Denied(BanStatus(cfg), "", "", map[])
    ensures o.decision.Failure? ==> Respond(Some(Decide(cfg, false, req, o))) == Unavailable("decision cache error")
  {
  }

  /**
   From the decision stream to the proxy: after any well-formed run, a request that is not exempt is denied
   with the ban status if its address text has a live ban, or if it has no live decision of its own, lies in
   some live range, and every most specific live range it lies in is a ban.
   */
  lemma LiveBanIsDenied(net: Parsers, trace: seq<Snapshot>, events: seq<Option<Batch>>, cfg: Config, req: Request, o: Outcomes)
    requires IsRun(net, trace, events) && WellFormed(FlatLog(events)) && req.ip != ""
    requires o.decision == Answer(net, trace[|events|].entries, trace[|events|].index, req.ip)
    requires var live := Apply(map[], FlatLog(events));
      if req.ip in live then IsBan(live[req.ip])
      else net.addr(req.ip).Some? && BannedByRange(net, live, Unmap(net.addr(req.ip).value))
    ensures Respond(Some(Decide(cfg, false, req, o))) == Denied(BanStatus(cfg), "", "", map[])
  {
    LiveAnswer(net, trace, events, req.ip);
    LiveBan(net, Apply(map[], FlatLog(events)), req.ip, o.decision);
    BanAndErrorAreFinal(cfg, req, o);
  }

  lemma LiveBan(net: Parsers, live: map<string, Decision>, ip: string, r: Result<Option<Decision>, string>)
    requires ip != "" && Correct(net, live, live, ip, r)
    requires if ip in live then IsBan(live[ip])
      else net.addr(ip).Some? && BannedByRange(net, live, Unmap(net.addr(ip).value))
    ensures HasKind(r, Ban)
  {
  }

  predicate IsBan(d: Decision) {
    d.kind.Some? && ActionOf(Lower(d.kind.value)) == Ban
  }

  /** The address lies in a live range, and the most specific one bans, whichever decision for it is indexed. */
  ghost predicate BannedByRange(net: Parsers, live: map<string, Decision>, a: Addr)
    requires !a.Is4In6()
  {
    && (exists k :: k in live && LiveRangeCovers(net, live[k], a))
    && (forall d :: MostSpecific(net, live, a, Some(d)) ==> IsBan(d))
  }

  // ----- accounting -----

  function EndsIn(cfg: Config, exempt: seq<Prefix>, action: Action): Arrival -> bool {
    (a: Arrival) => ResultOf(cfg, exempt, a).action == action
  }

  function IsInspected(cfg: Config, exempt: seq<Prefix>): Arrival -> bool {
    (a: Arrival) => Inspected(cfg, exempt, a)
  }

  /** AppSec was asked and no reply came back. */
  function GetsNoReply(cfg: Config, exempt: seq<Prefix>): Arrival -> bool {
    (a: Arrival) => Inspected(cfg, exempt, a) && a.o.waf.Failure?
  }

  function LookupFails(exempt: seq<Prefix>): Arrival -> bool {
    (a: Arrival) => !Exempted(exempt, a.req) && a.o.decision.Failure?
  }

  /** AppSec failed, and the request was let through or banned for its path all the same. */
  function SurvivesFailure(cfg: Config, exempt: seq<Prefix>): Arrival -> bool {
    (a: Arrival) => Inspected(cfg, exempt, a) && WAFFailed(cfg, a.o) && (cfg.failOpen || IsChallengePath(a.req.path))
  }

  /** The request counters grow by one for each request, under the action it ended in. */
  lemma {:induction false} RequestsCounted(cfg: Config, exempt: seq<Prefix>, t: Tallies, arrivals: seq<Arrival>)
    ensures var after := RecordedAll(cfg, exempt, t, arrivals);
      && Sum(after.requests) == Sum(t.requests) + |arrivals|
      && forall action :: Count(after.requests, action) == Count(t.requests, action) + Tally(arrivals, EndsIn(cfg, exempt, action))
  {
    if arrivals != [] {
      var init, last := arrivals[..|arrivals| - 1], arrivals[|arrivals| - 1];
      RequestsCounted(cfg, exempt, t, init);
      var before := RecordedAll(cfg, exempt, t, init).requests;
      var action := ResultOf(cfg, exempt, last).action;
      SumUpdate(before, action, Count(before, action) + 1);
    }
  }

  /**
   Every inspected request is counted under the action AppSec replied with or went unanswered, and the WAF errors
   are the unanswered ones together with the replies that were errors.
   */
  lemma {:induction false} InspectionsCounted(cfg: Config, exempt: seq<Prefix>, t: Tallies, arrivals: seq<Arrival>)
    ensures var after := RecordedAll(cfg, exempt, t, arrivals);
      var unanswered := Tally(arrivals, GetsNoReply(cfg, exempt));
      && Sum(after.wafRequests) + unanswered == Sum(t.wafRequests) + Tally(arrivals, IsInspected(cfg, exempt))
      && after.wafErrors - t.wafErrors == unanswered + Count(after.wafRequests, Error) - Count(t.wafRequests, Error)
  {
    if arrivals != [] {
      var init, last := arrivals[..|arrivals| - 1], arrivals[|arrivals| - 1];
      InspectionsCounted(cfg, exempt, t, init);
      var before := RecordedAll(cfg, exempt, t, init);
      if Inspected(cfg, exempt, last) && last.o.waf.Success? {
        var action := ActionOf(Lower(last.o.waf.value.action));
        SumUpdate(before.wafRequests, action, Count(before.wafRequests, action) + 1);
      }
    }
  }

  /**
   Every failure ends somewhere: the requests that ended in an error are the failed lookups, the captcha errors
   and the WAF errors, less those WAF errors that were let through or banned on a challenge path.
   */
  lemma {:induction false} ErrorsAccounted(cfg: Config, exempt: seq<Prefix>, t: Tallies, arrivals: seq<Arrival>)
    ensures var after := RecordedAll(cfg, exempt, t, arrivals);
      Count(after.requests, Error) - Count(t.requests, Error) + Tally(arrivals, SurvivesFailure(cfg, exempt))
        == Tally(arrivals, LookupFails(exempt)) + (after.captchaErrors - t.captchaErrors) + (after.wafErrors - t.wafErrors)
  {
    if arrivals != [] {
      var last := arrivals[|arrivals| - 1];
      ErrorsAccounted(cfg, exempt, t, arrivals[..|arrivals| - 1]);
      ErrorIff(cfg, Exempted(exempt, last.req), last.req, last.o);
    }
  }

  lemma ErrorIff(cfg: Config, exempt: bool, req: Request, o: Outcomes)
    ensures !exempt ==> (Decide(cfg, exempt, req, o).action == Error <==>
      || o.decision.Failure?
      || (CaptchaCalled(cfg, o) && SessionFails(cfg, o))
      || (NoVerdict(o) && WAFFailed(cfg, o) && !cfg.failOpen && !IsChallengePath(req.path)))
    ensures exempt ==> Decide(cfg, exempt, req, o).action == Allow
  {
    if !exempt {
      UnavailableIff(cfg, req, o);
    }
  }

  /**
   Served one after the other and unreported, requests raise the usage counter of the action they end in, and
   no other metric.
   */
  lemma {:induction false} UsageCounted(cfg: Config, exempt: seq<Prefix>, usage: map<string, UsageMetrics.Metric>,
                                        arrivals: seq<Arrival>)
    ensures var after := UsageAll(cfg, exempt, usage, arrivals);
      && (forall action :: UsageOf(action).Some? ==>
            UsageMetrics.Amount(after, UsageOf(action).value.key)
              == UsageMetrics.Amount(usage, UsageOf(action).value.key) + Tally(arrivals, EndsIn(cfg, exempt, action)))
      && (forall key :: key !in USAGE_KEYS ==> (key in after <==> key in usage) && (key in usage ==> after[key] == usage[key]))
  {
    if arrivals != [] {
      var init, last := arrivals[..|arrivals| - 1], arrivals[|arrivals| - 1];
      UsageCounted(cfg, exempt, usage, init);
      var before := UsageAll(cfg, exempt, usage, init);
      forall action | UsageOf(action).Some?
        ensures UsageMetrics.Amount(UsageAfter(before, ResultOf(cfg, exempt, last).action), UsageOf(action).value.key)
          == UsageMetrics.Amount(before, UsageOf(action).value.key) + if ResultOf(cfg, exempt, last).action == action then 1 else 0
      {
        OneUsageKey(before, ResultOf(cfg, exempt, last).action, action);
      }
    }
  }

  const USAGE_KEYS := {"CAPI:bypass", "CAPI:ban", "CAPI:captcha", "CAPI:challenge"}

  /** Which counter an action is reported under, and with which metadata it first appears. */
  lemma UsageMeaning(usage: map<string, UsageMetrics.Metric>)
    ensures Reports(usage, Allow, "CAPI:bypass", "processed", "bypass") && Reports(usage, Ban, "CAPI:ban", "dropped", "ban")
    ensures Reports(usage, Solve, "CAPI:captcha", "dropped", "captcha")
    ensures Reports(usage, Challenge, "CAPI:challenge", "dropped", "challenge")
    ensures forall action :: action !in {Allow, Ban, Solve, Challenge} ==> UsageAfter(usage, action) == usage
  {
  }

  /** Ending in `action` adds one to the metric at `key`, which keeps its metadata or gets this. */
  predicate Reports(usage: map<string, UsageMetrics.Metric>, action: Action, key: string, name: string, remediation: string) {
    && UsageOf(action).Some? && UsageOf(action).value.key == key
    && UsageAfter(usage, action) == usage[key :=
         if key in usage then usage[key].(value := usage[key].value + 1)
         else UsageMetrics.Metric(name, "request", 1, map["origin" := "CAPI", "remediation" := remediation])]
  }

  lemma OneUsageKey(usage: map<string, UsageMetrics.Metric>, ended: Action, action: Action)
    requires UsageOf(action).Some?
    ensures UsageMetrics.Amount(UsageAfter(usage, ended), UsageOf(action).value.key)
         == UsageMetrics.Amount(usage, UsageOf(action).value.key) + if ended == action then 1 else 0
  {
    assert |"CAPI:ban"| == 8 && |"CAPI:captcha"| == 12 && |"CAPI:challenge"| == 14 && |"CAPI:bypass"| == 11;
  }
}
