/** The HTTP endpoint that verifies a solved captcha and sends the client back where it came from. */
module CaptchaHandler {
  import opened Wrappers
  import opened Captcha
  import opened CaptchaRuns
  import opened Counting

  /** The submitted form; an absent token is the malformed empty one. */
  datatype Form = Unparsable | Form(token: Token, response: string)

  datatype Reply = HttpError(status: nat, message: string) | Redirect(url: string, cookie: Token)

  function Message(v: VerifyResult): string {
    match v
    case BadToken => "Invalid or expired challenge token"
    case WrongIP => ""
    case AlreadyUsed => "Challenge already used or expired"
    case ProviderFailed => "Captcha verification failed"
    case NotSolved => "Captcha verification failed"
    case UnsignedSession => "failed to create session token"
    case Verified(_) => "Captcha verified successfully"
  }

  /** One submission: the session is read at `seen`, the response checked at `now`, the cookie minted at `later`. */
  datatype Submission = Submission(form: Form, ip: string, seen: int, now: int, later: int, provider: ProviderReply, sid: string, signs: bool)

  function Verdict(cfg: Config, s: State, q: Submission): (State, VerifyResult)
    requires q.form.Form?
  {
    Verify(cfg, s, q.ip, q.form.token, q.provider, q.now, q.later, q.sid, q.signs)
  }

  /** The checks that precede verification. */
  function Refusal(cfg: Config, enabled: bool, s: State, q: Submission): Option<Reply> {
    if !enabled then Some(HttpError(404, "Captcha not enabled"))
    else if q.form.Unparsable? then Some(HttpError(400, "Failed to parse form"))
    else if q.form.token == Malformed("") then Some(HttpError(400, "challenge token is required"))
    else if q.form.response == "" then Some(HttpError(400, "captcha response is required"))
    else if GetSession(cfg, s, q.form.token, q.seen).None? then Some(HttpError(403, "Invalid or expired session"))
    else None
  }

  function Handle(cfg: Config, enabled: bool, s: State, q: Submission): (State, Reply) {
    match Refusal(cfg, enabled, s, q)
    case Some(r) => (s, r)
    case None =>
      var (s', v) := Verdict(cfg, s, q);
      (s', if v.Verified? then Redirect(q.form.token.claims.url, v.token) else HttpError(403, Message(v)))
  }

  class Server {
    const service: Service
    const enabled: bool
    var verifications: map<string, int>
    /** IPs reported to the notifier. */
    var notified: seq<string>

    constructor (service: Service, enabled: bool)
      ensures this.service == service && this.enabled == enabled && verifications == map[] && notified == []
    {
      this.service, this.enabled := service, enabled;
      verifications, notified := map[], [];
    }

    method HandleCaptchaVerify(q: Submission) returns (r: Reply)
      modifies this, service, service.challenges
      ensures (service.Value(), r) == Handle(service.cfg, enabled, old(service.Value()), q)
      ensures notified == old(notified) + if r.Redirect? then [q.ip] else []
      ensures verifications ==
        if Refusal(service.cfg, enabled, old(service.Value()), q).Some? then old(verifications)
        else Bump(old(verifications), if r.Redirect? then "success" else "failure")
    {
      if !enabled {
        return HttpError(404, "Captcha not enabled");
      }
      if q.form.Unparsable? {
        return HttpError(400, "Failed to parse form");
      }
      if q.form.token == Malformed("") {
        return HttpError(400, "challenge token is required");
      }
      if q.form.response == "" {
        return HttpError(400, "captcha response is required");
      }
      if !Accepted(service.signed, q.form.token, q.seen) {
        return HttpError(403, "Invalid or expired session");
      }
      var session := SessionOf(service.cfg, q.form.token.claims, q.form.token.claims.issued);
      var v := service.VerifyResponse(q.ip, q.form.token, q.provider, q.now, q.later, q.sid, q.signs);
      if !v.Verified? {
        verifications := Bump(verifications, "failure");
        return HttpError(403, Message(v));
      }
      verifications := Bump(verifications, "success");
      notified := notified + [q.ip];
      return Redirect(session.originalURL, v.token);
    }
  }

  /** Exactly when a submission is redirected, and where to. */
  lemma RedirectIff(cfg: Config, s: State, q: Submission, enabled: bool)
    requires q.seen <= q.now
    ensures Handle(cfg, enabled, s, q).1.Redirect? <==>
      && enabled && q.form.Form? && q.form.response != ""
      && Accepted(s.signed, q.form.token, q.now) && q.form.token.claims.ipHash == HashOf(q.ip)
      && (cfg.replayProtection ==> q.form.token.claims.id in s.cache)
      && q.provider == ProviderYes && q.signs
  {
  }

  /** What each submission that is not redirected is told, in the order the checks are made. */
  lemma RefusalMeaning(cfg: Config, s: State, q: Submission, enabled: bool)
    ensures !enabled ==> Handle(cfg, enabled, s, q) == (s, HttpError(404, "Captcha not enabled"))
    ensures enabled && q.form.Unparsable? ==> Handle(cfg, enabled, s, q) == (s, HttpError(400, "Failed to parse form"))
    ensures enabled && q.form.Form? && q.form.token == Malformed("")
      ==> Handle(cfg, enabled, s, q) == (s, HttpError(400, "challenge token is required"))
    ensures enabled && q.form.Form? && q.form.token != Malformed("") && q.form.response == ""
      ==> Handle(cfg, enabled, s, q) == (s, HttpError(400, "captcha response is required"))
    ensures enabled && q.form.Form? && q.form.token != Malformed("") && q.form.response != "" && !Accepted(s.signed, q.form.token, q.seen)
      ==> Handle(cfg, enabled, s, q) == (s, HttpError(403, "Invalid or expired session"))
  {
  }

  /** And past those checks, what each verdict of the verification is told. */
  lemma VerdictMeaning(cfg: Config, s: State, q: Submission)
    requires q.form.Form? && q.form.response != "" && Accepted(s.signed, q.form.token, q.seen)
    ensures var (r, v) := (Handle(cfg, true, s, q).1, Verdict(cfg, s, q).1);
      && (v.BadToken? ==> r == HttpError(403, "Invalid or expired challenge token"))
      && (v.WrongIP? ==> r == HttpError(403, ""))
      && (v.AlreadyUsed? ==> r == HttpError(403, "Challenge already used or expired"))
      && (v.ProviderFailed? || v.NotSolved? ==> r == HttpError(403, "Captcha verification failed"))
      && (v.UnsignedSession? ==> r == HttpError(403, "failed to create session token"))
      && (v.Verified? ==> r == Redirect(q.form.token.claims.url, v.token))
  {
  }

  /**
   The cookie of a redirect is a session token: freshly signed, without a challenge ID, and in every later state
   of the service it spares a client of any IP the captcha, exactly until the session's duration is over.
   */
  lemma RedirectCookie(cfg: Config, enabled: bool, s: State, q: Submission, later: State,
                       ip: string, url: string, at: int, then': int, id: string, signs: bool)
    requires Handle(cfg, enabled, s, q).1.Redirect? && Handle(cfg, enabled, s, q).0.signed <= later.signed
    ensures var cookie := Handle(cfg, enabled, s, q).1.cookie;
      && cookie.Jwt? && cookie.claims.id == "" && cookie.claims.sid == q.sid && cookie.claims in later.signed
      && IsWholeSecond(cookie.claims.expires, q.later + cfg.sessionDuration)
      && (Create(cfg, later, ip, url, cookie, at, then', id, signs).1 == NotRequired
          <==> at < cookie.claims.expires && then' <= cookie.claims.expires)
  {
    VerifyMeaning(cfg, s, q.ip, q.form.token, q.provider, q.now, q.later, q.sid, q.signs);
  }

  /**
   Whenever a client is redirected, in any reachable state, it is to exactly the URL that an earlier
   CreateSession was given for the same client IP, and that URL passed the redirect check.
   */
  lemma RedirectProvenance(cfg: Config, enabled: bool, start: int, ops: seq<Op>, q: Submission)
    requires Handle(cfg, enabled, Run(cfg, start, ops).0.s, q).1.Redirect?
    ensures CreatedBefore(cfg, ops, Run(cfg, start, ops).1, q.ip, Handle(cfg, enabled, Run(cfg, start, ops).0.s, q).1.url)
  {
    Provenance(cfg, start, ops, q.form.token.claims);
  }
}
