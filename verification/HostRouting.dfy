/** Choosing the AppSec endpoint for a request by host patterns, and the checks made on those patterns. */
module HostRouting {
  import opened Wrappers
  import opened Text

  datatype RouteConfig = RouteConfig(hosts: seq<string>, path: string, port: int)

  /** `patterns` are lower-cased host patterns cut into labels. */
  datatype Route = Route(patterns: seq<seq<string>>, path: string, port: int)

  datatype Target = Default | To(route: Route)

  // ----- hosts -----

  function Index(s: string, c: char): (i: int)
    ensures -1 <= i < |s| && (i >= 0 ==> s[i] == c)
    ensures forall j :: 0 <= j < |s| && (i < 0 || j < i) ==> s[j] != c
  {
    if s == "" then -1
    else if s[0] == c then 0
    else
      var i := Index(s[1..], c);
      if i < 0 then -1 else i + 1
  }

  function LastIndex(s: string, c: char): (i: int)
    ensures -1 <= i < |s| && (i >= 0 ==> s[i] == c)
    ensures forall j :: i < j < |s| ==> s[j] != c
  {
    if s == "" then -1 else if s[|s| - 1] == c then |s| - 1 else LastIndex(s[..|s| - 1], c)
  }

  /** The host of a host:port text, as Go's net.SplitHostPort finds it; None where that is an error. */
  function SplitHost(text: string): Option<string> {
    var colon := LastIndex(text, ':');
    if colon < 0 then None
    else if text[0] == '[' then
      var end := Index(text, ']');
      if end < 0 || end + 1 != colon || '[' in text[1..] || ']' in text[end + 1..] then None else Some(text[1..end])
    else if ':' in text[..colon] || '[' in text || ']' in text then None
    else Some(text[..colon])
  }

  function NormalizeHost(host: string): string {
    match SplitHost(host)
    case Some(h) => Lower(h)
    case None => Lower(host)
  }

  function HostLabels(host: string): seq<string> {
    Split(NormalizeHost(host), '.')
  }

  // ----- matching -----

  predicate LabelsFit(pattern: seq<string>, host: seq<string>) {
    |pattern| == |host| && forall i :: 0 <= i < |pattern| ==> pattern[i] == "*" || pattern[i] == host[i]
  }

  predicate Fits(pattern: seq<string>, host: seq<string>) {
    pattern == ["*"] || LabelsFit(pattern, host)
  }

  predicate RouteFits(route: Route, host: seq<string>) {
    exists i :: 0 <= i < |route.patterns| && Fits(route.patterns[i], host)
  }

  method LabelsMatch(pattern: seq<string>, host: seq<string>) returns (r: bool)
    ensures r == LabelsFit(pattern, host)
  {
    if |pattern| != |host| {
      return false;
    }
    for i := 0 to |pattern|
      invariant forall j :: 0 <= j < i ==> pattern[j] == "*" || pattern[j] == host[j]
    {
      if pattern[i] != "*" && pattern[i] != host[i] {
        return false;
      }
    }
    return true;
  }

  method HostMatches(route: Route, host: seq<string>) returns (r: bool)
    ensures r == RouteFits(route, host)
  {
    for i := 0 to |route.patterns|
      invariant forall j :: 0 <= j < i ==> !Fits(route.patterns[j], host)
    {
      if |route.patterns[i]| == 1 && route.patterns[i][0] == "*" {
        return true;
      }
      var fits := LabelsMatch(route.patterns[i], host);
      if fits {
        return true;
      }
    }
    return false;
  }

  /** The first route that fits; without routes every host goes to the default endpoint. */
  function FirstFit(routes: seq<Route>, host: seq<string>): Option<Route> {
    if routes == [] then None else if RouteFits(routes[0], host) then Some(routes[0]) else FirstFit(routes[1..], host)
  }

  function TargetOf(routes: seq<Route>, host: seq<string>): Option<Target> {
    if routes == [] then Some(Default)
    else
      match FirstFit(routes, host)
      case None => None
      case Some(r) => Some(To(r))
  }

  method FindTarget(routes: seq<Route>, host: string) returns (r: Option<Target>)
    ensures r == TargetOf(routes, HostLabels(host))
    ensures routes == [] ==> r == Some(Default)
    ensures routes != [] && r.None? ==> forall i :: 0 <= i < |routes| ==> !RouteFits(routes[i], HostLabels(host))
    ensures routes != [] && r.Some? ==> r.value.To?
    ensures routes != [] && r.Some? ==> exists i :: 0 <= i < |routes| && Some(To(routes[i])) == r && FitsFirst(routes, i, HostLabels(host))
  {
    if |routes| == 0 {
      return Some(Default);
    }
    var labels := HostLabels(host);
    for i := 0 to |routes|
      invariant FirstFit(routes, labels) == FirstFit(routes[i..], labels)
      invariant forall j :: 0 <= j < i ==> !RouteFits(routes[j], labels)
    {
      var fits := HostMatches(routes[i], labels);
      if fits {
        assert FitsFirst(routes, i, labels);
        return Some(To(routes[i]));
      }
    }
    return None;
  }

  function PatternOf(host: string): seq<string> {
    Split(Lower(host), '.')
  }

  function RouteOf(c: RouteConfig): Route {
    Route(seq(|c.hosts|, i requires 0 <= i < |c.hosts| => PatternOf(c.hosts[i])), c.path, c.port)
  }

  /** The route has the configured path and port, and the labels of each host, lower-cased, for a pattern. */
  predicate Carries(route: Route, config: RouteConfig) {
    && route.path == config.path && route.port == config.port && |route.patterns| == |config.hosts|
    && forall k :: 0 <= k < |config.hosts| ==> route.patterns[k] == Split(Lower(config.hosts[k]), '.')
  }

  method NewRoutes(configs: seq<RouteConfig>) returns (routes: seq<Route>)
    ensures |routes| == |configs| && forall i :: 0 <= i < |configs| ==> routes[i] == RouteOf(configs[i])
    ensures forall i :: 0 <= i < |configs| ==> Carries(routes[i], configs[i])
  {
    routes := [];
    for i := 0 to |configs|
      invariant |routes| == i && forall j :: 0 <= j < i ==> routes[j] == RouteOf(configs[j])
    {
      var patterns: seq<seq<string>> := [];
      for k := 0 to |configs[i].hosts|
        invariant |patterns| == k && forall j :: 0 <= j < k ==> patterns[j] == PatternOf(configs[i].hosts[j])
      {
        patterns := patterns + [Split(Lower(configs[i].hosts[k]), '.')];
      }
      assert patterns == RouteOf(configs[i]).patterns;
      routes := routes + [Route(patterns, configs[i].path, configs[i].port)];
    }
  }

  // ----- the inspection request -----

  /** What Inspect does: an error without a method, no question asked (None) if no route fits, else AppSec's reply. */
  function Inspect<T>(routes: seq<Route>, verb: string, host: string, reply: Result<T, string>): Result<Option<T>, string> {
    if verb == "" then Failure("method cannot be empty")
    else if TargetOf(routes, HostLabels(host)).None? then Success(None)
    else
      match reply
      case Failure(e) => Failure(e)
      case Success(r) => Success(Some(r))
  }

  /** Nothing is asked of AppSec for a request without a method, which is an error, nor for a host no route fits. */
  lemma InspectMeaning<T>(routes: seq<Route>, verb: string, host: string, reply: Result<T, string>)
    ensures verb == "" ==> Inspect(routes, verb, host, reply) == Failure("method cannot be empty")
    ensures verb != "" && routes != [] && (forall i :: 0 <= i < |routes| ==> !RouteFits(routes[i], HostLabels(host)))
      ==> Inspect(routes, verb, host, reply) == Success(None)
    ensures verb != "" && (routes == [] || exists i :: 0 <= i < |routes| && RouteFits(routes[i], HostLabels(host)))
      ==> Inspect(routes, verb, host, reply) == if reply.Failure? then Failure(reply.error) else Success(Some(reply.value))
  {
    FirstFitIs(routes, HostLabels(host));
  }

  // ----- overlap -----

  predicate Overlap(p: seq<string>, q: seq<string>) {
    || p == ["*"] || q == ["*"]
    || (|p| == |q| && forall i :: 0 <= i < |p| ==> p[i] == "*" || q[i] == "*" || p[i] == q[i])
  }

  /** Labels that fit both patterns, if any do. */
  function Shared(p: seq<string>, q: seq<string>): seq<string>
    requires p != ["*"] && q != ["*"] ==> |p| == |q|
  {
    if p == ["*"] then q
    else if q == ["*"] then p
    else seq(|p|, i requires 0 <= i < |p| => if p[i] == "*" then q[i] else p[i])
  }

  lemma SharedFitsBoth(p: seq<string>, q: seq<string>)
    requires Overlap(p, q)
    ensures Fits(p, Shared(p, q)) && Fits(q, Shared(p, q))
    ensures forall l :: l in Shared(p, q) ==> l in p || l in q
  {
  }

  lemma FittingBothOverlap(p: seq<string>, q: seq<string>, host: seq<string>)
    ensures Fits(p, host) && Fits(q, host) ==> Overlap(p, q)
  {
  }

  lemma {:induction false} JoinLower(parts: seq<string>)
    requires |parts| >= 1 && forall p :: p in parts ==> Lower(p) == p
    ensures Lower(Join(parts, '.')) == Join(parts, '.')
  {
    if |parts| > 1 {
      JoinLower(parts[1..]);
      var a, b := parts[0], Join(parts[1..], '.');
      forall i | 0 <= i < |a + ['.'] + b|
        ensures LowerChar((a + ['.'] + b)[i]) == (a + ['.'] + b)[i]
      {
        if i < |a| {
          assert Lower(a)[i] == a[i];
        } else if i > |a| {
          assert Lower(b)[i - |a| - 1] == b[i - |a| - 1];
        }
      }
      assert Lower(a + ['.'] + b) == a + ['.'] + b;
    }
  }

  lemma PatternLabels(h: string)
    ensures forall l :: l in PatternOf(h) ==> '.' !in l && Lower(l) == l
    ensures forall l, c :: l in PatternOf(h) && c in l ==> c in Lower(h)
  {
    SplitPieces(Lower(h), '.');
    LowerTwice(h);
    forall l | l in PatternOf(h)
      ensures Lower(l) == l
    {
      forall i | 0 <= i < |l|
        ensures LowerChar(l[i]) == l[i]
      {
        assert l[i] in Lower(h);
        var k :| 0 <= k < |h| && Lower(h)[k] == l[i];
        assert Lower(Lower(h))[k] == LowerChar(l[i]);
      }
      assert Lower(l) == l;
    }
  }

  /** The lower-case host both patterns fit, given that they overlap. */
  lemma SharedHost(g: string, h: string) returns (host: string)
    requires Overlap(PatternOf(g), PatternOf(h))
    ensures Lower(host) == host
    ensures Fits(PatternOf(g), Split(host, '.')) && Fits(PatternOf(h), Split(host, '.'))
    ensures host == Join(Shared(PatternOf(g), PatternOf(h)), '.')
  {
    var p, q := PatternOf(g), PatternOf(h);
    var w := Shared(p, q);
    PatternLabels(g);
    PatternLabels(h);
    SharedFitsBoth(p, q);
    host := Join(w, '.');
    JoinLower(w);
    SplitOfJoin(w, '.');
  }

  /** Two configured patterns overlap exactly when some normalised host fits both. */
  lemma OverlapIffSharedHost(g: string, h: string)
    ensures Overlap(PatternOf(g), PatternOf(h))
       <==> exists host :: Lower(host) == host && Fits(PatternOf(g), Split(host, '.')) && Fits(PatternOf(h), Split(host, '.'))
  {
    if Overlap(PatternOf(g), PatternOf(h)) {
      var host := SharedHost(g, h);
    }
    forall host | Fits(PatternOf(g), Split(host, '.')) && Fits(PatternOf(h), Split(host, '.')) {
      FittingBothOverlap(PatternOf(g), PatternOf(h), Split(host, '.'));
    }
  }

  lemma LastIndexIs(s: string, c: char, i: nat)
    requires i < |s| && s[i] == c && forall j :: i < j < |s| ==> s[j] != c
    ensures LastIndex(s, c) == i
  {
  }

  lemma IndexIs(s: string, c: char, i: nat)
    requires i < |s| && s[i] == c && forall j :: 0 <= j < i ==> s[j] != c
    ensures Index(s, c) == i
  {
  }

  // ----- address literals and ports -----

  predicate BracketFree(text: string) {
    '[' !in text && ']' !in text
  }

  /** Free of the characters that delimit ports and address literals. */
  predicate Plain(text: string) {
    ':' !in text && BracketFree(text)
  }

  /** A host text that carries no port: a name, an IPv4 address, or an IPv6 literal in brackets. */
  predicate Portless(host: string) {
    Plain(host) || (|host| >= 2 && host[0] == '[' && host[|host| - 1] == ']' && BracketFree(host[1..|host| - 1]))
  }

  /** A name read out of a host:port text is all that stands before the one colon. */
  lemma NameShape(text: string, h: string)
    requires SplitHost(text) == Some(h) && text[0] != '['
    ensures |h| < |text| && text == h + ":" + text[|h| + 1..] && Plain(h) && Plain(text[|h| + 1..])
  {
    var colon := LastIndex(text, ':');
    assert h == text[..colon] && text[colon] == ':';
    assert BracketFree(text) && forall j :: colon < j < |text| ==> text[j] != ':';
  }

  /** A literal read out of a host:port text is bracketed there, and has no bracket left. */
  lemma LiteralShape(text: string)
    requires text != "" && text[0] == '['
    ensures SplitHost(text).Some? ==> LastIndex(text, ':') == Index(text, ']') + 1
    ensures SplitHost(text).Some? ==> BracketFree(SplitHost(text).value) && |SplitHost(text).value| + 2 < |text|
  {
    var end := Index(text, ']');
    if SplitHost(text).Some? {
      assert '[' !in text[1..] && forall j :: 1 <= j < end ==> text[j] == text[1..][j - 1] && text[j] != ']';
    }
  }

  lemma LiteralSplit(x: string, port: string, raw: string)
    requires BracketFree(x) && Plain(port) && raw == "[" + x + "]:" + port
    ensures SplitHost(raw) == Some(x)
  {
    LiteralIndices(x, port, raw);
    assert '[' !in raw[1..] && ']' !in raw[|x| + 2..] && raw[1..|x| + 1] == x by {
      assert raw[1..] == x + "]:" + port;
      assert raw[|x| + 2..] == ":" + port;
    }
  }

  lemma LiteralIndices(x: string, port: string, raw: string)
    requires BracketFree(x) && Plain(port) && raw == "[" + x + "]:" + port
    ensures LastIndex(raw, ':') == |x| + 2 && Index(raw, ']') == |x| + 1 && raw[0] == '['
  {
    assert forall j :: 0 <= j < |x| ==> raw[j + 1] == x[j];
    assert forall j :: 0 <= j < |port| ==> raw[|x| + 3 + j] == port[j];
    IndexIs(raw, ']', |x| + 1);
    LastIndexIs(raw, ':', |x| + 2);
  }

  lemma PortSplit(host: string, port: string, raw: string)
    requires raw == host + ":" + port && Plain(host) && Plain(port)
    ensures SplitHost(raw) == Some(host) && SplitHost(host) == None
  {
    LastIndexIs(raw, ':', |host|);
    assert raw[..|host|] == host;
    assert LastIndex(host, ':') < 0;
  }

  lemma BracketGone(host: string, h: string)
    requires host != "" && host[0] == '[' && BracketFree(h)
    ensures Lower(host) != Lower(h)
  {
    assert Lower(host)[0] == '[';
    assert h != "" ==> Lower(h)[0] == LowerChar(h[0]) != '[';
  }

  lemma PrefixIndex(a: string, b: string, c: char)
    requires a <= b
    ensures Index(a, c) >= 0 ==> Index(b, c) == Index(a, c)
  {
    if Index(a, c) >= 0 {
      IndexIs(b, c, Index(a, c));
    }
  }

  /** With a port behind it, a text that starts with a bracket either is no host:port text or loses the bracket. */
  lemma BracketedLoses(host: string, port: string)
    requires host != "" && host[0] == '['
    ensures NormalizeHost(host + ":" + port) != NormalizeHost(host)
  {
    var raw := host + ":" + port;
    assert raw[0] == '[' && raw[|host|] == ':' && |raw| > |host|;
    LiteralShape(raw);
    LiteralShape(host);
    PrefixIndex(host, raw, ']');
    if SplitHost(raw).Some? {
      BracketGone(host, SplitHost(raw).value);
    }
  }

  /**
   Which host texts a port leaves alone.  Those free of colons and brackets, and no others: of the texts that
   carry no port of their own, it is the bracketed literals that change.
   */
  lemma PortIgnoredIff(host: string, port: string)
    ensures NormalizeHost(host + ":" + port) == NormalizeHost(host) <==> Plain(host) && Plain(port)
    ensures Portless(host) && Plain(port)
      ==> (NormalizeHost(host + ":" + port) == NormalizeHost(host) <==> !HasPrefix(host, "["))
  {
    var raw := host + ":" + port;
    if Plain(host) && Plain(port) {
      PortSplit(host, port, raw);
    } else if HasPrefix(host, "[") {
      BracketedLoses(host, port);
    } else {
      if SplitHost(raw).Some? {
        var h := SplitHost(raw).value;
        NameShape(raw, h);
        SameColon(host, port, h, raw[|h| + 1..]);
      }
    }
  }

  /** A text with one colon is cut there in only one way. */
  lemma SameColon(a: string, b: string, c: string, d: string)
    requires a + ":" + b == c + ":" + d && ':' !in c && ':' !in d
    ensures a == c && b == d
  {
    var s := a + ":" + b;
    assert s[|a|] == ':';
    assert forall j :: 0 <= j < |s| && j != |c| ==> s[j] == if j < |c| then c[j] else d[j - |c| - 1];
    assert a == s[..|a|] && c == s[..|a|] && b == s[|a| + 1..] && d == s[|a| + 1..];
  }

  /** A name is lower-cased, and its port dropped. */
  lemma NameNormalForms(host: string, port: string)
    requires Plain(host) && Plain(port)
    ensures NormalizeHost(host) == NormalizeHost(host + ":" + port) == Lower(host)
  {
    PortSplit(host, port, host + ":" + port);
  }

  /** An IPv6 literal keeps its brackets without a port and loses them with one. */
  lemma LiteralNormalForms(x: string, port: string)
    requires BracketFree(x) && Plain(port)
    ensures NormalizeHost("[" + x + "]") == Lower("[" + x + "]")
    ensures NormalizeHost("[" + x + "]:" + port) == Lower(x)
  {
    var bare := "[" + x + "]";
    assert bare[|x| + 1] == ']' && forall j :: 0 <= j < |x| ==> bare[j + 1] == x[j];
    IndexIs(bare, ']', |x| + 1);
    LiteralSplit(x, port, "[" + x + "]:" + port);
  }

  // ----- which texts are normal forms -----

  /** Bracket-free, or not of the form host:port. */
  predicate NormalForm(h: string) {
    BracketFree(h) || SplitHost(h).None?
  }

  /** Not changed by lower-casing, nor the result of it. */
  predicate Uncased(c: char) {
    !('A' <= c <= 'Z') && !('a' <= c <= 'z')
  }

  lemma LowerKeepsIndices(t: string, c: char)
    requires Uncased(c)
    ensures Index(Lower(t), c) == Index(t, c) && LastIndex(Lower(t), c) == LastIndex(t, c)
  {
    var i, j := Index(t, c), LastIndex(t, c);
    if 0 <= i {
      IndexIs(Lower(t), c, i);
      LastIndexIs(Lower(t), c, j);
    }
  }

  lemma LowerKeepsHead(t: string, c: char, to: nat)
    requires Uncased(c) && to <= |t|
    ensures c in Lower(t)[..to] <==> c in t[..to]
  {
    assert forall j :: 0 <= j < to ==> (Lower(t)[..to][j] == c <==> t[..to][j] == c);
  }

  lemma LowerKeepsTail(t: string, c: char, from: nat)
    requires Uncased(c) && from <= |t|
    ensures c in Lower(t)[from..] <==> c in t[from..]
  {
    assert forall j :: 0 <= j < |t| - from ==> (Lower(t)[from..][j] == c <==> t[from..][j] == c);
  }

  lemma LowerKeepsBrackets(t: string)
    ensures BracketFree(Lower(t)) <==> BracketFree(t)
  {
    LowerKeepsTail(t, '[', 0);
    LowerKeepsTail(t, ']', 0);
    assert t[0..] == t && Lower(t)[0..] == Lower(t);
  }

  lemma LowerKeepsSplit(t: string)
    ensures SplitHost(Lower(t)).None? <==> SplitHost(t).None?
  {
    LowerKeepsIndices(t, ':');
    if 0 <= LastIndex(t, ':') {
      if t[0] == '[' {
        LowerKeepsLiteral(t);
      } else {
        LowerKeepsBrackets(t);
        LowerKeepsHead(t, ':', LastIndex(t, ':'));
      }
    }
  }

  predicate WellBracketed(t: string, colon: int, end: int) {
    0 <= end < |t| && end + 1 == colon && '[' !in t[1..] && ']' !in t[end + 1..]
  }

  lemma LiteralSplits(t: string)
    requires 0 <= LastIndex(t, ':') && t[0] == '['
    ensures SplitHost(t).Some? <==> WellBracketed(t, LastIndex(t, ':'), Index(t, ']'))
  {
  }

  lemma LowerKeepsLiteral(t: string)
    requires 0 <= LastIndex(t, ':') && t[0] == '['
    ensures SplitHost(Lower(t)).None? <==> SplitHost(t).None?
  {
    LowerKeepsIndices(t, ':');
    LowerKeepsIndices(t, ']');
    LowerKeepsTail(t, '[', 1);
    if 0 <= Index(t, ']') {
      LowerKeepsTail(t, ']', Index(t, ']') + 1);
    }
    assert Lower(t)[0] == '[';
    LiteralSplits(t);
    LiteralSplits(Lower(t));
  }

  /** The lower-case texts that some request host normalises to. */
  lemma NormalFormIff(h: string)
    requires Lower(h) == h
    ensures (exists raw :: NormalizeHost(raw) == h) <==> NormalForm(h)
  {
    if NormalForm(h) {
      var raw := RawOf(h);
    }
    forall raw | NormalizeHost(raw) == h
      ensures NormalForm(h)
    {
      NormalIsNormalForm(raw);
    }
  }

  lemma NormalIsNormalForm(raw: string)
    ensures NormalForm(NormalizeHost(raw)) && Lower(NormalizeHost(raw)) == NormalizeHost(raw)
  {
    match SplitHost(raw)
    case Some(h) =>
      LowerTwice(h);
      LowerKeepsBrackets(h);
      if raw[0] == '[' {
        LiteralShape(raw);
      } else {
        NameShape(raw, h);
      }
    case None =>
      LowerTwice(raw);
      LowerKeepsSplit(raw);
  }

  lemma RawOf(h: string) returns (raw: string)
    requires Lower(h) == h && NormalForm(h)
    ensures NormalizeHost(raw) == h
  {
    if SplitHost(h).None? {
      raw := h;
    } else {
      raw := "[" + h + "]:" + "0";
      LiteralSplit(h, "0", raw);
    }
  }

  // ----- overlap among request hosts -----

  /** Some request host fits both patterns: the labels they share are not pinned, or pin a normal form. */
  predicate RequestOverlap(p: seq<string>, q: seq<string>) {
    Overlap(p, q) && Shared(p, q) != [] && ("*" in Shared(p, q) || NormalForm(Join(Shared(p, q), '.')))
  }

  lemma FittingBothRequestOverlap(p: seq<string>, q: seq<string>, raw: string)
    ensures Fits(p, HostLabels(raw)) && Fits(q, HostLabels(raw)) ==> RequestOverlap(p, q)
  {
    var labels := HostLabels(raw);
    FittingBothOverlap(p, q, labels);
    if Fits(p, labels) && Fits(q, labels) && "*" !in Shared(p, q) {
      Pinned(p, q, labels);
      JoinOfSplit(NormalizeHost(raw), '.');
      NormalIsNormalForm(raw);
    }
  }

  lemma Pinned(p: seq<string>, q: seq<string>, labels: seq<string>)
    requires Overlap(p, q) && Fits(p, labels) && Fits(q, labels) && "*" !in Shared(p, q)
    ensures labels == Shared(p, q)
  {
    var w := Shared(p, q);
    assert forall i :: 0 <= i < |w| ==> w[i] in w;
  }

  /** Stands in for a label both patterns leave open; a bracket inside a text is never part of a host:port form. */
  const OPEN := "a["

  function Filled(w: seq<string>): seq<string> {
    seq(|w|, i requires 0 <= i < |w| => if w[i] == "*" then OPEN else w[i])
  }

  lemma FilledFitsBoth(p: seq<string>, q: seq<string>)
    requires Overlap(p, q)
    ensures Fits(p, Filled(Shared(p, q))) && Fits(q, Filled(Shared(p, q)))
  {
  }

  lemma {:induction false} OpenInside(parts: seq<string>)
    requires |parts| >= 1 && OPEN in parts
    ensures exists k :: 0 < k < |Join(parts, '.')| && Join(parts, '.')[k] == '['
  {
    var text := Join(parts, '.');
    if parts[0] == OPEN {
      assert text[1] == '[';
    } else {
      OpenInside(parts[1..]);
      var rest := Join(parts[1..], '.');
      var k :| 0 < k < |rest| && rest[k] == '[';
      assert text[|parts[0]| + 1 + k] == '[';
    }
  }

  /** A text with an opening bracket after its first character is no host:port text. */
  lemma InnerBracketIsNoPort(text: string, k: nat)
    requires 0 < k < |text| && text[k] == '['
    ensures SplitHost(text) == None
  {
    assert text[1..][k - 1] == '[';
  }

  /** The request host both patterns fit, given that they overlap among request hosts. */
  lemma SharedRequestHost(g: string, h: string) returns (raw: string)
    requires RequestOverlap(PatternOf(g), PatternOf(h))
    ensures Fits(PatternOf(g), HostLabels(raw)) && Fits(PatternOf(h), HostLabels(raw))
  {
    var p, q := PatternOf(g), PatternOf(h);
    var w := Shared(p, q);
    if "*" in w {
      PatternLabels(g);
      PatternLabels(h);
      SharedFitsBoth(p, q);
      FilledFitsBoth(p, q);
      raw := OpenHost(w);
    } else {
      var host := SharedHost(g, h);
      raw := RawOf(host);
    }
  }

  lemma OpenHost(w: seq<string>) returns (raw: string)
    requires "*" in w && forall l :: l in w ==> '.' !in l && Lower(l) == l
    ensures HostLabels(raw) == Filled(w)
  {
    var labels := Filled(w);
    var i :| 0 <= i < |w| && w[i] == "*";
    assert labels[i] == OPEN;
    assert Lower(OPEN) == OPEN;
    forall l | l in labels
      ensures '.' !in l && Lower(l) == l
    {
      var j :| 0 <= j < |labels| && labels[j] == l;
    }
    raw := Join(labels, '.');
    OpenInside(labels);
    var k :| 0 < k < |raw| && raw[k] == '[';
    InnerBracketIsNoPort(raw, k);
    JoinLower(labels);
    SplitOfJoin(labels, '.');
  }

  /** Two configured patterns overlap among request hosts exactly when some request host fits both. */
  lemma OverlapIffRequestHost(g: string, h: string)
    ensures RequestOverlap(PatternOf(g), PatternOf(h))
       <==> exists raw :: Fits(PatternOf(g), HostLabels(raw)) && Fits(PatternOf(h), HostLabels(raw))
  {
    if RequestOverlap(PatternOf(g), PatternOf(h)) {
      var raw := SharedRequestHost(g, h);
    }
    forall raw: string {
      FittingBothRequestOverlap(PatternOf(g), PatternOf(h), raw);
    }
  }

  // ----- order independence -----

  /** Requests for either route are inspected at the same endpoint. */
  predicate SameEndpoint(r: Route, s: Route) {
    r.path == s.path && r.port == s.port
  }

  /** Routes at different positions lead to the same endpoint or share no request host. */
  predicate Separate(routes: seq<Route>) {
    forall i, j :: 0 <= i < j < |routes| ==> SameEndpoint(routes[i], routes[j]) || Disjoint(routes[i], routes[j])
  }

  predicate Disjoint(r: Route, s: Route) {
    forall i, j :: 0 <= i < |r.patterns| && 0 <= j < |s.patterns| ==> !RequestOverlap(r.patterns[i], s.patterns[j])
  }

  /** Routes are tried in order: FirstFit is the fitting route before which none fits. */
  lemma {:induction false} FirstFitIs(routes: seq<Route>, host: seq<string>)
    ensures match FirstFit(routes, host)
      case None => forall r :: r in routes ==> !RouteFits(r, host)
      case Some(r) => exists i :: 0 <= i < |routes| && routes[i] == r && FitsFirst(routes, i, host)
  {
    if routes != [] {
      var rest := routes[1..];
      FirstFitIs(rest, host);
      if RouteFits(routes[0], host) {
        assert FitsFirst(routes, 0, host);
      } else if FirstFit(rest, host).Some? {
        var i :| 0 <= i < |rest| && Some(rest[i]) == FirstFit(rest, host) && FitsFirst(rest, i, host);
        assert forall j :: 0 < j < |routes| ==> routes[j] == rest[j - 1];
        assert FitsFirst(routes, i + 1, host);
      }
    }
  }

  predicate FitsFirst(routes: seq<Route>, i: nat, host: seq<string>)
    requires i < |routes|
  {
    RouteFits(routes[i], host) && forall j :: 0 <= j < i ==> !RouteFits(routes[j], host)
  }

  lemma SameFit(routes: seq<Route>, r: Route, s: Route, raw: string)
    requires Separate(routes) && r in routes && s in routes
    requires RouteFits(r, HostLabels(raw)) && RouteFits(s, HostLabels(raw))
    ensures SameEndpoint(r, s)
  {
    var i :| 0 <= i < |r.patterns| && Fits(r.patterns[i], HostLabels(raw));
    var j :| 0 <= j < |s.patterns| && Fits(s.patterns[j], HostLabels(raw));
    FittingBothRequestOverlap(r.patterns[i], s.patterns[j], raw);
    FittingBothRequestOverlap(s.patterns[j], r.patterns[i], raw);
  }

  lemma SameMembers(a: seq<Route>, b: seq<Route>, r: Route)
    requires multiset(a) == multiset(b)
    ensures r in a <==> r in b
  {
    assert r in a <==> r in multiset(a);
    assert r in b <==> r in multiset(b);
  }

  lemma SeparateOrderIrrelevant(routes: seq<Route>, others: seq<Route>, raw: string)
    requires Separate(routes) && multiset(routes) == multiset(others)
    ensures SameTarget(TargetOf(routes, HostLabels(raw)), TargetOf(others, HostLabels(raw)))
  {
    var host := HostLabels(raw);
    assert |multiset(routes)| == |routes| && |multiset(others)| == |others|;
    FirstFitIs(routes, host);
    FirstFitIs(others, host);
    var a, b := FirstFit(routes, host), FirstFit(others, host);
    if a.Some? {
      SameMembers(routes, others, a.value);
    }
    if b.Some? {
      SameMembers(routes, others, b.value);
    }
    if a.Some? && b.Some? {
      SameFit(routes, a.value, b.value, raw);
    }
  }

  predicate SameTarget(a: Option<Target>, b: Option<Target>) {
    match (a, b)
    case (Some(To(r)), Some(To(s))) => SameEndpoint(r, s)
    case _ => a == b
  }

  ghost predicate OrderIrrelevant(routes: seq<Route>) {
    forall others, raw: string :: multiset(others) == multiset(routes)
      ==> SameTarget(TargetOf(routes, HostLabels(raw)), TargetOf(others, HostLabels(raw)))
  }

  ghost predicate AllConfigured(routes: seq<Route>, configs: seq<RouteConfig>) {
    |routes| == |configs| && forall i :: 0 <= i < |configs| ==> routes[i] == RouteOf(configs[i])
  }

  /** Moving the route at `i` to the front. */
  function Promote(routes: seq<Route>, i: nat): seq<Route>
    requires i < |routes|
  {
    [routes[i]] + (routes[..i] + routes[i + 1..])
  }

  lemma PromotePermutes(routes: seq<Route>, i: nat)
    requires i < |routes|
    ensures multiset(Promote(routes, i)) == multiset(routes)
  {
    assert routes == routes[..i] + ([routes[i]] + routes[i + 1..]);
    assert multiset(Promote(routes, i)) == multiset([routes[i]]) + (multiset(routes[..i]) + multiset(routes[i + 1..]));
  }

  /**
   The order of configured routes matters for no request host exactly when routes to different endpoints share
   none.
   */
  lemma OrderIrrelevantIff(configs: seq<RouteConfig>, routes: seq<Route>)
    requires AllConfigured(routes, configs)
    ensures OrderIrrelevant(routes) <==> Separate(routes)
  {
    if Separate(routes) {
      forall others, raw: string | multiset(others) == multiset(routes)
        ensures SameTarget(TargetOf(routes, HostLabels(raw)), TargetOf(others, HostLabels(raw)))
      {
        SeparateOrderIrrelevant(routes, others, raw);
      }
    } else {
      var i, j :| 0 <= i < j < |routes| && !SameEndpoint(routes[i], routes[j]) && !Disjoint(routes[i], routes[j]);
      OverlapMatters(configs, routes, i, j);
    }
  }

  lemma OverlapMatters(configs: seq<RouteConfig>, routes: seq<Route>, i: nat, j: nat)
    requires AllConfigured(routes, configs) && i < j < |routes|
    requires !SameEndpoint(routes[i], routes[j]) && !Disjoint(routes[i], routes[j])
    ensures !OrderIrrelevant(routes)
  {
    var k, l :| 0 <= k < |routes[i].patterns| && 0 <= l < |routes[j].patterns|
      && RequestOverlap(routes[i].patterns[k], routes[j].patterns[l]);
    var raw := SharedRequestHost(configs[i].hosts[k], configs[j].hosts[l]);
    var labels := HostLabels(raw);
    assert RouteFits(routes[i], labels) && RouteFits(routes[j], labels);
    PromotePermutes(routes, i);
    PromotePermutes(routes, j);
    assert TargetOf(Promote(routes, i), labels) == Some(To(routes[i]));
    assert TargetOf(Promote(routes, j), labels) == Some(To(routes[j]));
  }

  // ----- literal patterns and validation -----

  predicate Literal(host: string) {
    forall l :: l in PatternOf(host) ==> l != "*"
  }

  /** A pattern without wildcards fits exactly its own lower-cased host. */
  lemma LiteralFitsItself(h: string, host: string)
    requires Literal(h)
    ensures Fits(PatternOf(h), Split(host, '.')) <==> host == Lower(h)
  {
    var p, labels := PatternOf(h), Split(host, '.');
    JoinOfSplit(Lower(h), '.');
    JoinOfSplit(host, '.');
    assert forall i :: 0 <= i < |p| ==> p[i] in p;
    if Fits(p, labels) {
      assert p == labels;
    }
  }

  lemma OneRoute(h: string, path: string, labels: seq<string>)
    ensures TargetOf([RouteOf(RouteConfig([h], path, 0))], labels).Some? <==> Fits(PatternOf(h), labels)
  {
    var r := RouteOf(RouteConfig([h], path, 0));
    assert r.patterns == [PatternOf(h)];
    assert RouteFits(r, labels) <==> Fits(r.patterns[0], labels);
    assert FirstFit([r], labels).Some? <==> RouteFits([r][0], labels);
  }

  /** A route for an IPv6 literal is taken without a port and missed with one, and AppSec is then not asked. */
  lemma LiteralRouteMissed<T>(x: string, port: string, path: string, verb: string, reply: Result<T, string>)
    requires BracketFree(x) && Plain(port) && Literal("[" + x + "]") && verb != "" && reply.Success?
    ensures var routes := [RouteOf(RouteConfig(["[" + x + "]"], path, 0))];
      && Inspect(routes, verb, "[" + x + "]", reply) == Success(Some(reply.value))
      && Inspect(routes, verb, "[" + x + "]:" + port, reply) == Success(None)
  {
    var h := "[" + x + "]";
    LiteralNormalForms(x, port);
    LiteralFitsItself(h, Lower(h));
    LiteralFitsItself(h, Lower(x));
    OneRoute(h, path, HostLabels(h));
    OneRoute(h, path, HostLabels("[" + x + "]:" + port));
    assert |Lower(x)| != |Lower(h)|;
  }

  /** All hosts of all routes, lower-cased, in order. */
  function LowerHosts(configs: seq<RouteConfig>): seq<string> {
    if configs == [] then [] else LowerHosts(configs[..|configs| - 1]) + LowerAll(configs[|configs| - 1].hosts)
  }

  function LowerAll(hosts: seq<string>): seq<string> {
    seq(|hosts|, i requires 0 <= i < |hosts| => Lower(hosts[i]))
  }

  predicate Distinct(s: seq<string>) {
    forall i, j :: 0 <= i < j < |s| ==> s[i] != s[j]
  }

  datatype Verdict = Valid | MissingURL | NoHosts | BadPort | DuplicateHost(host: string)

  predicate RouteOk(c: RouteConfig) {
    c.hosts != [] && 0 <= c.port <= 65535
  }

  lemma LowerHostsSnoc(configs: seq<RouteConfig>, i: nat)
    requires i < |configs|
    ensures LowerHosts(configs[..i + 1]) == LowerHosts(configs[..i]) + LowerAll(configs[i].hosts)
  {
    assert configs[..i + 1][..i] == configs[..i];
  }

  lemma {:induction false} LowerHostsPrefix(configs: seq<RouteConfig>, i: nat)
    requires i <= |configs|
    ensures LowerHosts(configs[..i]) <= LowerHosts(configs)
  {
    if i < |configs| {
      LowerHostsPrefix(configs[..|configs| - 1], i);
      assert configs[..|configs| - 1][..i] == configs[..i];
    } else {
      assert configs[..i] == configs;
    }
  }

  /** The routes before `i` are complete, and no host is repeated among them. */
  predicate SoundBefore(configs: seq<RouteConfig>, i: nat)
    requires i <= |configs|
  {
    (forall j :: 0 <= j < i ==> RouteOk(configs[j])) && Distinct(LowerHosts(configs[..i]))
  }

  /** Validation accepts exactly the configurations whose routes are complete and whose hosts differ beyond case. */
  method Validate(enabled: bool, appSecURL: string, configs: seq<RouteConfig>) returns (v: Verdict)
    ensures v == Valid <==>
      !enabled || (appSecURL != "" && Distinct(LowerHosts(configs))
        && forall i :: 0 <= i < |configs| ==> configs[i].hosts != [] && 0 <= configs[i].port <= 65535)
    ensures v.MissingURL? <==> enabled && appSecURL == ""
    ensures v.NoHosts? ==> exists i :: 0 <= i < |configs| && SoundBefore(configs, i) && configs[i].hosts == []
    ensures v.BadPort? ==> exists i :: 0 <= i < |configs| && SoundBefore(configs, i) && !(0 <= configs[i].port <= 65535)
    ensures v.DuplicateHost? ==> !Distinct(LowerHosts(configs)) && Lower(v.host) in LowerHosts(configs)
  {
    if !enabled {
      return Valid;
    }
    if appSecURL == "" {
      return MissingURL;
    }
    var seen: set<string> := {};
    for i := 0 to |configs|
      invariant forall j :: 0 <= j < i ==> RouteOk(configs[j])
      invariant Distinct(LowerHosts(configs[..i]))
      invariant forall h :: h in seen <==> h in LowerHosts(configs[..i])
    {
      var c := configs[i];
      assert SoundBefore(configs, i);
      if |c.hosts| == 0 {
        return NoHosts;
      }
      if c.port < 0 || c.port > 65535 {
        return BadPort;
      }
      ghost var before := LowerHosts(configs[..i]);
      LowerHostsSnoc(configs, i);
      LowerHostsPrefix(configs, i + 1);
      for k := 0 to |c.hosts|
        invariant Distinct(before + LowerAll(c.hosts)[..k])
        invariant forall h :: h in seen <==> h in before + LowerAll(c.hosts)[..k]
      {
        var key := Lower(c.hosts[k]);
        ghost var upto := before + LowerAll(c.hosts)[..k];
        assert before + LowerAll(c.hosts)[..k + 1] == upto + [key];
        if key in seen {
          RepeatedHost(configs, i, k, upto, c.hosts[k]);
          return DuplicateHost(c.hosts[k]);
        }
        assert key !in upto;
        seen := seen + {key};
      }
      assert LowerAll(c.hosts)[..|c.hosts|] == LowerAll(c.hosts);
    }
    assert configs[..|configs|] == configs;
    return Valid;
  }

  lemma RepeatedHost(configs: seq<RouteConfig>, i: nat, k: nat, upto: seq<string>, host: string)
    requires i < |configs| && k < |configs[i].hosts| && host == configs[i].hosts[k]
    requires upto == LowerHosts(configs[..i]) + LowerAll(configs[i].hosts)[..k] && Lower(host) in upto
    ensures !Distinct(LowerHosts(configs)) && Lower(host) in LowerHosts(configs)
  {
    LowerHostsSnoc(configs, i);
    LowerHostsPrefix(configs, i + 1);
    var all := LowerHosts(configs);
    assert LowerHosts(configs[..i + 1]) <= all;
    assert upto + [Lower(host)] <= LowerHosts(configs[..i + 1]);
    var m :| 0 <= m < |upto| && upto[m] == Lower(host);
    assert all[m] == Lower(host) && all[|upto|] == Lower(host);
  }

  lemma HostPosition(configs: seq<RouteConfig>, i: nat, k: nat) returns (at: nat)
    requires i < |configs| && k < |configs[i].hosts|
    ensures at == |LowerHosts(configs[..i])| + k && at < |LowerHosts(configs)|
    ensures LowerHosts(configs)[at] == Lower(configs[i].hosts[k])
  {
    LowerHostsSnoc(configs, i);
    LowerHostsPrefix(configs, i + 1);
    at := |LowerHosts(configs[..i])| + k;
    assert LowerHosts(configs[..i + 1])[at] == LowerAll(configs[i].hosts)[k];
  }

  /** Validated routes whose hosts are all literal may be listed in any order. */
  lemma ValidLiteralsSeparate(configs: seq<RouteConfig>, routes: seq<Route>)
    requires AllConfigured(routes, configs) && Distinct(LowerHosts(configs))
    requires forall i, k :: 0 <= i < |configs| && 0 <= k < |configs[i].hosts| ==> Literal(configs[i].hosts[k])
    ensures Separate(routes)
    ensures OrderIrrelevant(routes)
  {
    forall i, j, k, l | 0 <= i < j < |routes| && 0 <= k < |routes[i].patterns| && 0 <= l < |routes[j].patterns|
      ensures !RequestOverlap(routes[i].patterns[k], routes[j].patterns[l])
    {
      DistinctLiteralsApart(configs, i, k, j, l);
    }
    OrderIrrelevantIff(configs, routes);
  }

  lemma DistinctLiteralsApart(configs: seq<RouteConfig>, i: nat, k: nat, j: nat, l: nat)
    requires Distinct(LowerHosts(configs)) && i < j < |configs| && k < |configs[i].hosts| && l < |configs[j].hosts|
    requires Literal(configs[i].hosts[k]) && Literal(configs[j].hosts[l])
    ensures !Overlap(PatternOf(configs[i].hosts[k]), PatternOf(configs[j].hosts[l]))
  {
    LiteralsOverlap(configs[i].hosts[k], configs[j].hosts[l]);
    var a := HostPosition(configs, i, k);
    var b := HostPosition(configs, j, l);
    LowerHostsPrefix(configs[..j], i + 1);
    assert configs[..j][..i + 1] == configs[..i + 1];
    LowerHostsSnoc(configs, i);
  }

  lemma LiteralsOverlap(g: string, h: string)
    requires Literal(g) && Literal(h)
    ensures Overlap(PatternOf(g), PatternOf(h)) ==> Lower(g) == Lower(h)
  {
    if Overlap(PatternOf(g), PatternOf(h)) {
      var host := SharedHost(g, h);
      LiteralFitsItself(g, host);
      LiteralFitsItself(h, host);
    }
  }
}
