/** Working out the client's address from forwarding headers, and matching it against configured ranges. */
module RealIP {
  import opened Wrappers
  import opened Text
  import opened NetAddr

  const MAX_HOPS: nat := 20

  // ----- configured ranges -----

  /** The text parseIPNets hands to the prefix parser: a bare address becomes a single-host prefix. */
  function RangeText(address: string): string {
    if '/' in address then address else address + if ':' in address then "/128" else "/32"
  }

  /** A text with a slash is taken as written; without one it names a single host, IPv6 if it has a colon. */
  lemma RangeTextMeaning(address: string)
    ensures '/' in address ==> RangeText(address) == address
    ensures '/' !in address && ':' in address ==> RangeText(address) == address + "/128"
    ensures '/' !in address && ':' !in address ==> RangeText(address) == address + "/32"
  {
  }

  predicate FirstUnparsable(net: Parsers, addresses: seq<string>, i: nat)
    requires i < |addresses|
  {
    net.prefix(RangeText(addresses[i])).None? && forall j :: 0 <= j < i ==> net.prefix(RangeText(addresses[j])).Some?
  }

  method ParseIPNets(net: Parsers, addresses: seq<string>) returns (r: Result<seq<Prefix>, string>)
    ensures match r
      case Success(ranges) =>
        && |ranges| == |addresses|
        && forall i :: 0 <= i < |ranges| ==>
          net.prefix(RangeText(addresses[i])).Some? && ranges[i] == Masked(net.prefix(RangeText(addresses[i])).value)
      case Failure(text) => exists i :: 0 <= i < |addresses| && FirstUnparsable(net, addresses, i) && text == RangeText(addresses[i])
  {
    var ranges: seq<Prefix> := [];
    for i := 0 to |addresses|
      invariant |ranges| == i
      invariant forall j :: 0 <= j < i ==>
        net.prefix(RangeText(addresses[j])).Some? && ranges[j] == Masked(net.prefix(RangeText(addresses[j])).value)
    {
      var address := addresses[i];
      if '/' !in address {
        var suffix := "/32";
        if ':' in address {
          suffix := "/128";
        }
        address := address + suffix;
      }
      var prefix := net.prefix(address);
      if prefix.None? {
        assert FirstUnparsable(net, addresses, i);
        return Failure(address);
      }
      ranges := ranges + [Masked(prefix.value)];
    }
    return Success(ranges);
  }

  predicate InRanges(a: Addr, ranges: seq<Prefix>) {
    exists i :: 0 <= i < |ranges| && Contains(ranges[i], Unmap(a))
  }

  /** Membership in bits: no zone, the range's family, and the range's leading bits. */
  lemma InRangesMeaning(a: Addr, ranges: seq<Prefix>)
    ensures InRanges(a, ranges) <==> exists i :: 0 <= i < |ranges| && LiesIn(Unmap(a), ranges[i])
  {
    forall p: Prefix {
      CoversIffBits(p, Unmap(a));
    }
  }

  predicate LiesIn(a: Addr, p: Prefix) {
    !a.HasZone() && p.addr.V4? == a.V4? && forall i :: 0 <= i < p.bits ==> Bit(a, i) == Bit(p.addr, i)
  }

  method IsTrustedProxyAddr(a: Addr, proxies: seq<Prefix>) returns (trusted: bool)
    ensures trusted <==> InRanges(a, proxies)
  {
    var unmapped := Unmap(a);
    for i := 0 to |proxies|
      invariant forall j :: 0 <= j < i ==> !Contains(proxies[j], unmapped)
    {
      if Contains(proxies[i], unmapped) {
        return true;
      }
    }
    return false;
  }

  /** An address that could not be parsed is never exempt. */
  method IsExemptIP(a: Option<Addr>, exempt: seq<Prefix>) returns (r: bool)
    ensures r <==> a.Some? && InRanges(a.value, exempt)
  {
    if a.None? {
      return false;
    }
    var unmapped := Unmap(a.value);
    for i := 0 to |exempt|
      invariant forall j :: 0 <= j < i ==> !Contains(exempt[j], unmapped)
    {
      if Contains(exempt[i], unmapped) {
        return true;
      }
    }
    return false;
  }

  /** Masking the configured ranges does not change who is in them. */
  lemma MaskedRangeContains(p: Prefix, a: Addr)
    ensures Contains(Masked(p), Unmap(a)) <==> Contains(p, Unmap(a))
  {
  }

  /** A configured range matches no address at all exactly when it is an IPv4-mapped range of 96 bits or more. */
  lemma InertRangeIff(p: Prefix)
    ensures (forall a: Addr :: !Contains(Masked(p), Unmap(a))) <==> p.addr.Is4In6() && p.bits >= 96
  {
    var m := Masked(p);
    if p.addr.Is4In6() && p.bits >= 96 {
      MaskedKeepsMapping(p);
      forall a: Addr
        ensures !Contains(m, Unmap(a))
      {
        if Covers(m, Unmap(a)) {
          CoarserAgrees(Unmap(a).n, m.addr.n, HostBits(m), 32);
        }
      }
    } else {
      MappedNeedsNinetySixBits(p);
      if p.addr.V6? && p.bits >= 96 {
        MaskedKeepsMapping(p);
      }
      assert Unmap(m.addr) == m.addr;
      assert Contains(m, Unmap(m.addr));
    }
  }

  // ----- the forwarding header -----

  datatype Found = Found(text: string, addr: Addr)

  /** A header entry that parses and is not one of our own proxies. */
  function Usable(net: Parsers, proxies: seq<Prefix>, entry: string): Option<Found> {
    var text := TrimSpace(entry);
    match net.addr(text)
    case None => None
    case Some(a) => if InRanges(a, proxies) then None else Some(Found(text, a))
  }

  /** How to read one header entry. */
  type Reader = string -> Option<Found>

  function ReaderFor(net: Parsers, proxies: seq<Prefix>): Reader {
    (entry: string) => Usable(net, proxies, entry)
  }

  /** The rightmost usable entry. */
  function LastUsable(read: Reader, entries: seq<string>): Option<Found> {
    if entries == [] then None
    else
      var last := read(entries[|entries| - 1]);
      if last.Some? then last else LastUsable(read, entries[..|entries| - 1])
  }

  function LastHops(entries: seq<string>): seq<string> {
    if |entries| > MAX_HOPS then entries[|entries| - MAX_HOPS..] else entries
  }

  function ForwardedFor(net: Parsers, proxies: seq<Prefix>, header: string): Option<Found> {
    if header == "" then None else LastUsable(ReaderFor(net, proxies), LastHops(Split(header, ',')))
  }

  /** Position `i` holds the rightmost usable entry. */
  predicate IsRightmost(read: Reader, entries: seq<string>, i: nat)
    requires i < |entries|
  {
    read(entries[i]).Some? && forall j :: i < j < |entries| ==> read(entries[j]).None?
  }

  /** LastUsable is the rightmost usable entry, or None if none is usable. */
  lemma {:induction false} LastUsableIsRightmost(read: Reader, entries: seq<string>)
    ensures match LastUsable(read, entries)
      case None => forall i :: 0 <= i < |entries| ==> read(entries[i]).None?
      case Some(f) => exists i :: 0 <= i < |entries| && IsRightmost(read, entries, i) && read(entries[i]) == Some(f)
  {
    if entries != [] {
      var n := |entries| - 1;
      var init := entries[..n];
      LastUsableIsRightmost(read, init);
      if read(entries[n]).Some? {
        assert IsRightmost(read, entries, n);
      } else if LastUsable(read, init).Some? {
        var i :| 0 <= i < n && IsRightmost(read, init, i) && read(init[i]) == LastUsable(read, init);
        assert forall j :: i < j < |entries| ==> j == n || entries[j] == init[j];
        assert IsRightmost(read, entries, i);
      } else {
        assert forall j :: 0 <= j < |entries| ==> j == n || entries[j] == init[j];
      }
    }
  }

  /** An address that parses and lies in none of the trusted ranges. */
  predicate NotOurs(net: Parsers, proxies: seq<Prefix>, text: string) {
    net.addr(text).Some? && forall j :: 0 <= j < |proxies| ==> !Contains(proxies[j], Unmap(net.addr(text).value))
  }

  /** The entry the header is read for: among its last 20, the rightmost that is an address and not a trusted proxy's. */
  predicate IsClientEntry(net: Parsers, proxies: seq<Prefix>, header: string, i: nat) {
    var entries := Split(header, ',');
    && header != "" && |entries| - 20 <= i < |entries| && NotOurs(net, proxies, TrimSpace(entries[i]))
    && forall j :: i < j < |entries| ==> !NotOurs(net, proxies, TrimSpace(entries[j]))
  }

  lemma UsableMeaning(net: Parsers, proxies: seq<Prefix>, entry: string)
    ensures var r := ReaderFor(net, proxies)(entry);
      && (r.Some? <==> NotOurs(net, proxies, TrimSpace(entry)))
      && (r.Some? ==> r.value.text == TrimSpace(entry) && net.addr(r.value.text) == Some(r.value.addr))
  {
  }

  /** The rightmost usable hop is the rightmost usable entry, if that is among the last 20. */
  lemma HopPosition(read: Reader, entries: seq<string>, i: nat)
    requires i < |entries|
    ensures var k := i - (|entries| - |LastHops(entries)|);
      && (|entries| - 20 <= i && IsRightmost(read, entries, i) <==> k >= 0 && IsRightmost(read, LastHops(entries), k))
      && (k >= 0 ==> LastHops(entries)[k] == entries[i])
  {
    var hops := LastHops(entries);
    var skip := |entries| - |hops|;
    var k := i - skip;
    if k >= 0 && IsRightmost(read, entries, i) {
      forall m | k < m < |hops|
        ensures read(hops[m]).None?
      {
        assert hops[m] == entries[skip + m];
      }
    }
    if k >= 0 && IsRightmost(read, hops, k) {
      forall j | i < j < |entries|
        ensures read(entries[j]).None?
      {
        assert hops[j - skip] == entries[j];
      }
    }
  }

  lemma ClientIsRightmost(net: Parsers, proxies: seq<Prefix>, header: string, i: nat)
    requires header != "" && i < |Split(header, ',')|
    ensures IsClientEntry(net, proxies, header, i)
       <==> |Split(header, ',')| - 20 <= i && IsRightmost(ReaderFor(net, proxies), Split(header, ','), i)
  {
    forall entry: string {
      UsableMeaning(net, proxies, entry);
    }
  }

  lemma RightmostIsLast(read: Reader, entries: seq<string>, i: nat)
    requires i < |entries| && |entries| - 20 <= i && IsRightmost(read, entries, i)
    ensures LastUsable(read, LastHops(entries)) == read(entries[i])
  {
    HopPosition(read, entries, i);
    LastUsableIsRightmost(read, LastHops(entries));
  }

  lemma LastIsRightmost(read: Reader, entries: seq<string>) returns (i: nat)
    requires LastUsable(read, LastHops(entries)).Some?
    ensures i < |entries| && |entries| - 20 <= i && IsRightmost(read, entries, i)
  {
    var hops := LastHops(entries);
    LastUsableIsRightmost(read, hops);
    var k :| 0 <= k < |hops| && IsRightmost(read, hops, k);
    i := |entries| - |hops| + k;
    HopPosition(read, entries, i);
  }

  /** The header yields its client entry. */
  lemma ClientIsFound(net: Parsers, proxies: seq<Prefix>, header: string, i: nat)
    requires IsClientEntry(net, proxies, header, i)
    ensures var found := ForwardedFor(net, proxies, header);
      found.Some? && found.value.text == TrimSpace(Split(header, ',')[i]) && net.addr(found.value.text) == Some(found.value.addr)
  {
    ClientIsRightmost(net, proxies, header, i);
    RightmostIsLast(ReaderFor(net, proxies), Split(header, ','), i);
    UsableMeaning(net, proxies, Split(header, ',')[i]);
  }

  /** And nothing if it has none. */
  lemma FoundIsClient(net: Parsers, proxies: seq<Prefix>, header: string) returns (i: nat)
    requires ForwardedFor(net, proxies, header).Some?
    ensures IsClientEntry(net, proxies, header, i)
  {
    i := LastIsRightmost(ReaderFor(net, proxies), Split(header, ','));
    ClientIsRightmost(net, proxies, header, i);
  }

  /** The whole decision: dedicated header, then X-Forwarded-For, then X-Real-IP, then the socket address. */
  function RealIP(net: Parsers, proxies: seq<Prefix>, ip: string, forwardedFor: string, realIP: string, trusted: string)
    : (string, Option<Addr>)
  {
    if trusted != "" && net.addr(trusted).Some? then (trusted, net.addr(trusted))
    else
      match ForwardedFor(net, proxies, forwardedFor)
      case Some(f) => (f.text, Some(f.addr))
      case None =>
        if realIP != "" && net.addr(realIP).Some? then (realIP, net.addr(realIP)) else (ip, net.addr(ip))
  }

  method ReadEntry(net: Parsers, proxies: seq<Prefix>, entry: string) returns (r: Option<Found>)
    ensures r == ReaderFor(net, proxies)(entry)
  {
    var text := TrimSpace(entry);
    var addr := net.addr(text);
    if addr.None? {
      return None;
    }
    var own := IsTrustedProxyAddr(addr.value, proxies);
    return if own then None else Some(Found(text, addr.value));
  }

  lemma LastUsableStep(read: Reader, entries: seq<string>, i: nat)
    requires i < |entries|
    ensures LastUsable(read, entries[..i + 1]) == if read(entries[i]).Some? then read(entries[i]) else LastUsable(read, entries[..i])
  {
    assert entries[..i + 1][..i] == entries[..i];
  }

  /** The right-to-left scan of the last hops. */
  method ScanForwarded(net: Parsers, proxies: seq<Prefix>, header: string) returns (r: Option<Found>)
    ensures r == LastUsable(ReaderFor(net, proxies), LastHops(Split(header, ',')))
  {
    var ips := LastHops(Split(header, ','));
    ghost var read := ReaderFor(net, proxies);
    var i := |ips|;
    assert ips[..|ips|] == ips;
    while i > 0
      invariant 0 <= i <= |ips|
      invariant LastUsable(read, ips) == LastUsable(read, ips[..i])
    {
      i := i - 1;
      LastUsableStep(read, ips, i);
      r := ReadEntry(net, proxies, ips[i]);
      if r.Some? {
        return;
      }
    }
    return None;
  }

  method ExtractRealIP(net: Parsers, proxies: seq<Prefix>, ip: string, forwardedFor: string, realIP: string, trusted: string)
    returns (text: string, addr: Option<Addr>)
    ensures (text, addr) == RealIP(net, proxies, ip, forwardedFor, realIP, trusted)
    ensures addr == net.addr(text)
    ensures trusted != "" && net.addr(trusted).Some? ==> text == trusted
    ensures trusted == "" || net.addr(trusted).None? ==>
      && (forall i: nat :: IsClientEntry(net, proxies, forwardedFor, i) ==> text == TrimSpace(Split(forwardedFor, ',')[i]))
      && ((forall i: nat :: !IsClientEntry(net, proxies, forwardedFor, i))
          ==> text == if realIP != "" && net.addr(realIP).Some? then realIP else ip)
  {
    forall i: nat | IsClientEntry(net, proxies, forwardedFor, i) {
      ClientIsFound(net, proxies, forwardedFor, i);
    }
    if ForwardedFor(net, proxies, forwardedFor).Some? {
      ghost var i := FoundIsClient(net, proxies, forwardedFor);
    }
    if trusted != "" {
      addr := net.addr(trusted);
      if addr.Some? {
        return trusted, addr;
      }
    }
    if forwardedFor != "" {
      var found := ScanForwarded(net, proxies, forwardedFor);
      if found.Some? {
        return found.value.text, Some(found.value.addr);
      }
    }
    if realIP != "" {
      addr := net.addr(realIP);
      if addr.Some? {
        return realIP, addr;
      }
    }
    return ip, net.addr(ip);
  }

  lemma {:induction false} LastUsableAppend(read: Reader, a: seq<string>, b: seq<string>)
    ensures LastUsable(read, a + b) == if LastUsable(read, b).Some? then LastUsable(read, b) else LastUsable(read, a)
  {
    if b == [] {
      assert a + b == a;
    } else {
      LastUsableAppend(read, a, b[..|b| - 1]);
      assert (a + b)[..|a + b| - 1] == a + b[..|b| - 1];
    }
  }

  /**
   Whatever a client writes in front of the header, followed by a comma, does not change the answer, once
   the last 20 entries hold a usable one or the header already has 20 entries.
   */
  lemma PrependedTextIgnored(net: Parsers, proxies: seq<Prefix>, ip: string, header: string, realIP: string, trusted: string, forged: string)
    requires ForwardedFor(net, proxies, header).Some? || |Split(header, ',')| >= MAX_HOPS
    ensures RealIP(net, proxies, ip, forged + "," + header, realIP, trusted) == RealIP(net, proxies, ip, header, realIP, trusted)
  {
    var a, b := Split(forged, ','), Split(header, ',');
    SplitAppend(forged, header, ',');
    assert forged + [','] + header == forged + "," + header;
    var kept := HopsOfAppend(a, b);
    LastUsableAppend(ReaderFor(net, proxies), kept, LastHops(b));
  }

  lemma HopsOfAppend(a: seq<string>, b: seq<string>) returns (kept: seq<string>)
    ensures LastHops(a + b) == kept + LastHops(b)
    ensures |b| >= MAX_HOPS ==> kept == []
  {
    if |b| >= MAX_HOPS {
      kept := [];
    } else {
      kept := if |a + b| > MAX_HOPS then a[|a + b| - MAX_HOPS..] else a;
    }
  }

  /** With fewer entries and none usable, a usable entry written in front is what counts. */
  lemma PrependedEntryTaken(net: Parsers, proxies: seq<Prefix>, header: string, forged: string)
    requires LastUsable(ReaderFor(net, proxies), LastHops(Split(header, ','))).None? && |Split(header, ',')| < MAX_HOPS
    requires ',' !in forged && ReaderFor(net, proxies)(forged).Some?
    ensures ForwardedFor(net, proxies, forged + "," + header) == ReaderFor(net, proxies)(forged)
  {
    var read := ReaderFor(net, proxies);
    SplitWithoutSeparator(forged, ',');
    SplitAppend(forged, header, ',');
    assert forged + [','] + header == forged + "," + header;
    var b := Split(header, ',');
    assert LastHops([forged] + b) == [forged] + b && LastHops(b) == b;
    LastUsableAppend(read, [forged], b);
    assert LastUsable(read, [forged]) == read(forged);
  }

  /**
   A client that can name a usable address other than the current answer gets it believed by writing it in
   front of the header exactly when the header has no usable entry in its last 20 and fewer than 20 entries.
   */
  lemma ForgeableIff(net: Parsers, proxies: seq<Prefix>, ip: string, header: string, realIP: string, trusted: string,
                     forged: string, f: Found)
    requires (trusted == "" || net.addr(trusted).None?) && net.addr("").None?
    requires ',' !in forged && ReaderFor(net, proxies)(forged) == Some(f)
    requires (f.text, Some(f.addr)) != RealIP(net, proxies, ip, header, realIP, trusted)
    ensures RealIP(net, proxies, ip, forged + "," + header, realIP, trusted) != RealIP(net, proxies, ip, header, realIP, trusted)
       <==> ForwardedFor(net, proxies, header).None? && |Split(header, ',')| < MAX_HOPS
  {
    if ForwardedFor(net, proxies, header).Some? || |Split(header, ',')| >= MAX_HOPS {
      PrependedTextIgnored(net, proxies, ip, header, realIP, trusted, forged);
    } else {
      if header == "" {
        NothingInEmpty(net, proxies);
      }
      PrependedEntryTaken(net, proxies, header, forged);
    }
  }

  lemma NothingInEmpty(net: Parsers, proxies: seq<Prefix>)
    requires net.addr("").None?
    ensures LastUsable(ReaderFor(net, proxies), LastHops(Split("", ','))).None?
  {
  }
}
