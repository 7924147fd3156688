/**
 The captcha challenge protocol: signed challenge and session tokens (RFC 7519, sections 4.1.4 and
 4.1.6), the cache of outstanding challenges, and its gauge.
 */
module Captcha {
  import opened Wrappers
  import opened KeyedCache

  // ----- time and tokens -----

  /** Times and durations are integers in nanoseconds. */
  const SECOND: int := 1_000_000_000

  /** The numeric dates in a token carry whole seconds. */
  function Floor(t: int): int {
    t / SECOND * SECOND
  }

  /** The keyed hash of a client IP, ideally injective; a token without the claim has none. */
  datatype IpHash = NoHash | HashOf(ip: string)

  /** The payload of either kind of token; claims a token does not carry read as their zero value. */
  datatype Claims = Claims(id: string, ipHash: IpHash, url: string, sid: string, issued: int, expires: int)

  datatype Token = Jwt(claims: Claims) | Malformed(text: string)

  datatype URL = URL(scheme: string, host: string)

  /** `encode` is the query string that carries a token. */
  datatype Config = Config(
    replayProtection: bool, challengeDuration: int, sessionDuration: int,
    callbackURL: string, siteKey: string, provider: string,
    parseURL: string -> Option<URL>, encode: Token -> string)

  function ChallengeFor(cfg: Config, ip: string, url: string, id: string, now: int): Claims {
    Claims(id, HashOf(ip), url, "", Floor(now), Floor(now + cfg.challengeDuration))
  }

  function SessionFor(cfg: Config, sid: string, now: int): Claims {
    Claims("", NoHash, "", sid, Floor(now), Floor(now + cfg.sessionDuration))
  }

  /** Signature and expiry: `signed` is the set of payloads signed with the service's key. */
  predicate Accepted(signed: set<Claims>, token: Token, now: int) {
    token.Jwt? && token.claims in signed && now < token.claims.expires
  }

  /** VerifySessionToken parses at `now` and compares the expiry once more at `later`. */
  predicate SessionAccepted(signed: set<Claims>, token: Token, now: int, later: int) {
    Accepted(signed, token, now) && later <= token.claims.expires
  }

  predicate ValidRedirect(cfg: Config, url: string) {
    match cfg.parseURL(url)
    case None => false
    case Some(u) => (u.scheme == "http" || u.scheme == "https") && u.host != ""
  }

  // ----- the service's steps, as functions of its state -----

  datatype State = State(signed: set<Claims>, cache: map<string, Claims>, pending: int, expiredTotal: nat)

  datatype Session = Session(
    token: Token, originalURL: string, createdAt: int, expiresAt: int, provider: string,
    siteKey: string, callbackURL: string, redirectURL: string, challengeURL: string)

  datatype CreateResult = NotRequired | InvalidURL | UnsignedChallenge | Created(session: Session)

  datatype ProviderReply = ProviderError | ProviderNo | ProviderYes

  datatype VerifyResult = BadToken | WrongIP | AlreadyUsed | ProviderFailed | NotSolved | UnsignedSession | Verified(token: Token)

  function SessionOf(cfg: Config, c: Claims, createdAt: int): Session {
    Session(Jwt(c), c.url, createdAt, c.expires, cfg.provider, cfg.siteKey, cfg.callbackURL + "/captcha",
            c.url, cfg.callbackURL + "/captcha/challenge?" + cfg.encode(Jwt(c)))
  }

  /** Sign a fresh challenge and, under replay protection, remember it. */
  function Mint(cfg: Config, s: State, c: Claims): State {
    var s' := s.(signed := s.signed + {c});
    if cfg.replayProtection then s'.(cache := s.cache[c.id := c], pending := s.pending + 1) else s'
  }

  /** Under replay protection, forget a solved challenge. */
  function Spend(cfg: Config, s: State, id: string): State {
    if cfg.replayProtection then s.(cache := s.cache - {id}, pending := s.pending - 1) else s
  }

  function Sign(s: State, c: Claims): State {
    s.(signed := s.signed + {c})
  }

  /** CreateSession: the session token is checked at `now` and `later`, the challenge minted at `later`. */
  function Create(cfg: Config, s: State, ip: string, url: string, session: Token, now: int, later: int, id: string, signs: bool)
    : (State, CreateResult)
  {
    if SessionAccepted(s.signed, session, now, later) then (s, NotRequired)
    else if !ValidRedirect(cfg, url) then (s, InvalidURL)
    else if !signs then (s, UnsignedChallenge)
    else
      var c := ChallengeFor(cfg, ip, url, id, later);
      (Mint(cfg, s, c), Created(SessionOf(cfg, c, later)))
  }

  /** VerifyResponse: the token and cache are checked at `now`, the session minted at `later`. */
  function Verify(cfg: Config, s: State, ip: string, token: Token, reply: ProviderReply, now: int, later: int, sid: string, signs: bool)
    : (State, VerifyResult)
  {
    if !Accepted(s.signed, token, now) then (s, BadToken)
    else if token.claims.ipHash != HashOf(ip) then (s, WrongIP)
    else if cfg.replayProtection && token.claims.id !in s.cache then (s, AlreadyUsed)
    else if reply == ProviderError then (s, ProviderFailed)
    else if reply == ProviderNo then (s, NotSolved)
    else
      var spent := Spend(cfg, s, token.claims.id);
      var c := SessionFor(cfg, sid, later);
      if signs then (Sign(spent, c), Verified(Jwt(c))) else (spent, UnsignedSession)
  }

  function GetSession(cfg: Config, s: State, token: Token, now: int): Option<Session> {
    if Accepted(s.signed, token, now) then Some(SessionOf(cfg, token.claims, token.claims.issued)) else None
  }

  function ExpiredAt(s: State, readings: string -> int): set<string> {
    set id | id in s.cache && s.cache[id].expires < readings(id)
  }

  /** One cleanup pass; the callback reads the clock anew for every entry. */
  function Clean(s: State, readings: string -> int): State {
    var gone := ExpiredAt(s, readings);
    s.(cache := s.cache - gone, pending := s.pending - |gone|, expiredTotal := s.expiredTotal + |gone|)
  }

  // ----- what the steps mean -----

  /** `e` is the last whole second not after `t`. */
  predicate IsWholeSecond(e: int, t: int) {
    e % 1_000_000_000 == 0 && t - 1_000_000_000 < e <= t
  }

  lemma FloorMeaning(t: int)
    ensures IsWholeSecond(Floor(t), t)
  {
  }

  /** A redirect may go to an absolute http or https URL with a host, and nowhere else. */
  lemma ValidRedirectMeaning(cfg: Config, url: string)
    ensures ValidRedirect(cfg, url)
       <==> cfg.parseURL(url).Some? && cfg.parseURL(url).value.scheme in {"http", "https"} && cfg.parseURL(url).value.host != ""
  {
  }

  /** Signed with the service's key and not expired; the session check compares the expiry at a second clock reading. */
  lemma AcceptedMeaning(signed: set<Claims>, token: Token, now: int, later: int)
    ensures Accepted(signed, token, now) <==> token.Jwt? && token.claims in signed && now < token.claims.expires
    ensures SessionAccepted(signed, token, now, later)
       <==> token.Jwt? && token.claims in signed && now < token.claims.expires && later <= token.claims.expires
  {
  }

  /** A session as handed out for a challenge: where each of its links leads, and what it repeats of the request. */
  predicate Presents(cfg: Config, session: Session) {
    && session.challengeURL == cfg.callbackURL + "/captcha/challenge?" + cfg.encode(session.token)
    && session.callbackURL == cfg.callbackURL + "/captcha"
    && session.provider == cfg.provider && session.siteKey == cfg.siteKey
    && session.token.Jwt? && session.originalURL == session.redirectURL == session.token.claims.url
    && session.expiresAt == session.token.claims.expires
  }

  /**
   CreateSession: nothing for a client whose session token is accepted, an error for a URL it may not be sent back
   to or a failed signature, else a new challenge for this IP and URL, remembered under replay protection.
   */
  lemma CreateMeaning(cfg: Config, s: State, ip: string, url: string, session: Token, now: int, later: int, id: string, signs: bool)
    ensures var (s', r) := Create(cfg, s, ip, url, session, now, later, id, signs);
      var spared := SessionAccepted(s.signed, session, now, later);
      && (r.NotRequired? <==> spared)
      && (r.InvalidURL? <==> !spared && !ValidRedirect(cfg, url))
      && (r.UnsignedChallenge? <==> !spared && ValidRedirect(cfg, url) && !signs)
      && (!r.Created? ==> s' == s)
      && (r.Created? ==>
           && Presents(cfg, r.session) && r.session.createdAt == later
           && var c := r.session.token.claims;
              && c.id == id && c.ipHash == HashOf(ip) && c.url == url && IsWholeSecond(c.issued, later)
              && IsWholeSecond(c.expires, later + cfg.challengeDuration)
              && s'.signed == s.signed + {c} && s'.expiredTotal == s.expiredTotal
              && s'.cache == (if cfg.replayProtection then s.cache[id := c] else s.cache)
              && s'.pending == (if cfg.replayProtection then s.pending + 1 else s.pending))
  {
    FloorMeaning(later);
    FloorMeaning(later + cfg.challengeDuration);
  }

  /**
   VerifyResponse: which check refuses, and what a solved challenge leaves.  The challenge is spent even if the
   session token then cannot be signed.
   */
  lemma VerifyMeaning(cfg: Config, s: State, ip: string, token: Token, reply: ProviderReply, now: int, later: int, sid: string, signs: bool)
    ensures var (s', v) := Verify(cfg, s, ip, token, reply, now, later, sid, signs);
      var mine := Accepted(s.signed, token, now) && token.claims.ipHash == HashOf(ip);
      var live := mine && (cfg.replayProtection ==> token.claims.id in s.cache);
      && (v.BadToken? <==> !Accepted(s.signed, token, now))
      && (v.WrongIP? <==> Accepted(s.signed, token, now) && !mine)
      && (v.AlreadyUsed? <==> mine && !live)
      && (v.ProviderFailed? <==> live && reply == ProviderError)
      && (v.NotSolved? <==> live && reply == ProviderNo)
      && (v.UnsignedSession? <==> live && reply == ProviderYes && !signs)
      && (!v.Verified? && !v.UnsignedSession? ==> s' == s)
      && (v.Verified? || v.UnsignedSession? ==>
           && s'.cache == (if cfg.replayProtection then s.cache - {token.claims.id} else s.cache)
           && s'.pending == (if cfg.replayProtection then s.pending - 1 else s.pending)
           && s'.expiredTotal == s.expiredTotal)
      && (v.UnsignedSession? ==> s'.signed == s.signed)
      && (v.Verified? ==>
           && v.token.Jwt? && s'.signed == s.signed + {v.token.claims}
           && v.token.claims.id == "" && v.token.claims.ipHash == NoHash && v.token.claims.sid == sid
           && IsWholeSecond(v.token.claims.expires, later + cfg.sessionDuration))
  {
    FloorMeaning(later + cfg.sessionDuration);
  }

  // ----- the service object -----

  class Service {
    const cfg: Config
    const challenges: Cache<string, Claims>
    var signed: set<Claims>
    var pending: int
    var expiredTotal: nat

    ghost function Value(): State
      reads this, challenges
    {
      State(signed, challenges.entries, pending, expiredTotal)
    }

    constructor (cfg: Config)
      ensures fresh(challenges) && this.cfg == cfg && Value() == State({}, map[], 0, 0)
    {
      this.cfg := cfg;
      var c := new Cache<string, Claims>();
      challenges := c;
      signed, pending, expiredTotal := {}, 0, 0;
    }

    method RequiresCaptcha(session: Token, now: int, later: int) returns (required: bool)
      ensures required <==> !SessionAccepted(signed, session, now, later)
    {
      if session == Malformed("") {
        return true;
      }
      if !Accepted(signed, session, now) {
        return true;
      }
      return session.claims.expires < later;
    }

    method CreateSession(ip: string, url: string, session: Token, now: int, later: int, id: string, signs: bool)
      returns (r: CreateResult)
      modifies this, challenges
      ensures (Value(), r) == Create(cfg, old(Value()), ip, url, session, now, later, id, signs)
    {
      var required := RequiresCaptcha(session, now, later);
      if !required {
        return NotRequired;
      }
      if !ValidRedirect(cfg, url) {
        return InvalidURL;
      }
      if !signs {
        return UnsignedChallenge;
      }
      var c := ChallengeFor(cfg, ip, url, id, later);
      signed := signed + {c};
      if cfg.replayProtection {
        challenges.Set(c.id, c);
        pending := pending + 1;
      }
      return Created(SessionOf(cfg, c, later));
    }

    method VerifyResponse(ip: string, token: Token, reply: ProviderReply, now: int, later: int, sid: string, signs: bool)
      returns (r: VerifyResult)
      modifies this, challenges
      ensures (Value(), r) == Verify(cfg, old(Value()), ip, token, reply, now, later, sid, signs)
    {
      if !Accepted(signed, token, now) {
        return BadToken;
      }
      if token.claims.ipHash != HashOf(ip) {
        return WrongIP;
      }
      if cfg.replayProtection {
        var cached := challenges.Get(token.claims.id);
        if cached.None? {
          return AlreadyUsed;
        }
      }
      match reply {
        case ProviderError => return ProviderFailed;
        case ProviderNo => return NotSolved;
        case ProviderYes =>
      }
      if cfg.replayProtection {
        challenges.Delete(token.claims.id);
        pending := pending - 1;
      }
      if !signs {
        return UnsignedSession;
      }
      var c := SessionFor(cfg, sid, later);
      signed := signed + {c};
      return Verified(Jwt(c));
    }

    /** One tick of the cleanup loop. */
    method CleanupPass(readings: string -> int)
      modifies this, challenges
      ensures Value() == Clean(old(Value()), readings)
    {
      var removed := challenges.CleanupPass((id: string, c: Claims) => c.expires < readings(id));
      assert removed == ExpiredAt(old(Value()), readings);
      pending := pending - |removed|;
      expiredTotal := expiredTotal + |removed|;
    }
  }
}
