/**
 The local copy of CrowdSec decisions: a map keyed by the decision's value string, and a
 longest-prefix-match index rebuilt from it.
 */
module Decisions {
  import opened Wrappers
  import opened NetAddr
  import opened KeyedCache
  import opened Text

  datatype Decision = Decision(
    value: Option<string>, scope: Option<string>, kind: Option<string>,
    origin: Option<string>, scenario: Option<string>)

  predicate IsScope(d: Decision, scope: string) {
    d.scope == Some(scope)
  }

  // ----- the index -----

  /** What buildIndex does to a parsed prefix: mask, rewrite mapped IPv4, drop single hosts. */
  function Normalise(prefix: Prefix): Option<Prefix> {
    var p := Masked(prefix);
    if p.addr.Is4In6() then
      if p.bits < 96 then None else DropHost(Prefix(Unmap(p.addr), p.bits - 96))
    else DropHost(p)
  }

  function DropHost(p: Prefix): Option<Prefix> {
    if p.bits == p.addr.BitLen() then None else Some(p)
  }

  /** The range a decision states, as written; None when buildIndex finds no prefix in it. */
  function WrittenRange(net: Parsers, d: Decision): Option<Prefix> {
    if d.value.None? then None
    else
      var value := TrimSpace(d.value.value);
      if value == "" || !IsScope(d, "Range") then None else net.prefix(value)
  }

  function IndexKey(net: Parsers, d: Decision): Option<Prefix> {
    match WrittenRange(net, d)
    case None => None
    case Some(p) => Normalise(p)
  }

  lemma NormaliseIsMasked(p: Prefix)
    ensures Normalise(p).Some? ==> IsMasked(Normalise(p).value)
  {
    var m := Masked(p);
    MaskedIsMasked(p);
    MappedNeedsNinetySixBits(p);
    if m.addr.Is4In6() {
      var q := Prefix(Unmap(m.addr), m.bits - 96);
      var k := HostBits(m);
      // The mapping bits lie above the cleared ones, so what is left below them is still cleared.
      ShlBy32(MAPPED_TOP);
      ShrOfSum(MAPPED_TOP, 32 - k, q.addr.n, k);
      ShlOfSum(MAPPED_TOP, 32 - k, k);
      ShlDistributes(Shl(MAPPED_TOP, 32 - k), Shr(q.addr.n, k), k);
    }
  }

  lemma {:induction false} ShlDistributes(a: nat, b: nat, k: nat)
    ensures Shl(a + b, k) == Shl(a, k) + Shl(b, k)
  {
    if k > 0 {
      ShlDistributes(a, b, k - 1);
    }
  }

  // ----- building the index -----

  /** How a decision is filed: its normalised prefix, or None if it is not indexed. */
  type Keying = Decision -> Option<Prefix>

  function KeyOf(net: Parsers): Keying {
    (d: Decision) => IndexKey(net, d)
  }

  ghost predicate MaskedKeys(key: Keying) {
    forall d :: key(d).Some? ==> IsMasked(key(d).value)
  }

  lemma KeysAreMasked(net: Parsers)
    ensures MaskedKeys(KeyOf(net))
  {
    forall d | KeyOf(net)(d).Some?
      ensures IsMasked(KeyOf(net)(d).value)
    {
      NormaliseIsMasked(WrittenRange(net, d).value);
    }
  }

  function InsertDecision(key: Keying, t: Table<Decision>, d: Decision): Table<Decision> {
    match key(d)
    case None => t
    case Some(p) => Insert(t, p, d)
  }

  /** The table that visiting `order` builds; a later decision replaces an earlier one at its prefix. */
  function BuildFrom(key: Keying, entries: map<string, Decision>, order: seq<string>): Table<Decision> {
    if order == [] then map[]
    else
      var k := order[|order| - 1];
      var t := BuildFrom(key, entries, order[..|order| - 1]);
      if k in entries then InsertDecision(key, t, entries[k]) else t
  }

  /** Every stored decision sits under its own value. */
  ghost predicate Keyed(entries: map<string, Decision>) {
    forall k :: k in entries ==> entries[k].value == Some(k)
  }

  /** The index holds exactly the prefixes of the stored decisions, each with a stored decision of that prefix. */
  ghost predicate Coherent(key: Keying, t: Table<Decision>, entries: map<string, Decision>) {
    && (forall p :: p in t ==> IsStored(t[p], entries) && key(t[p]) == Some(p))
    && (forall k :: k in entries ==> key(entries[k]).Some? ==> key(entries[k]).value in t)
  }

  predicate IsStored(d: Decision, entries: map<string, Decision>) {
    d.value.Some? && d.value.value in entries && entries[d.value.value] == d
  }

  lemma CoherentIsMasked(key: Keying, t: Table<Decision>, entries: map<string, Decision>)
    requires MaskedKeys(key) && Coherent(key, t, entries)
    ensures AllMasked(t)
  {
  }

  /** Inserting at a normalised prefix does not mask it further. */
  lemma InsertAtKey(key: Keying, t: Table<Decision>, d: Decision, p: Prefix)
    requires MaskedKeys(key) && key(d) == Some(p)
    ensures InsertDecision(key, t, d) == t[p := d]
  {
  }

  /** Coherent as far as the keys in `order` are concerned. */
  ghost predicate CoherentFor(key: Keying, t: Table<Decision>, entries: map<string, Decision>, order: seq<string>) {
    && (forall p :: p in t ==> IsStored(t[p], entries) && t[p].value.value in order && key(t[p]) == Some(p))
    && (forall k :: k in order && k in entries && key(entries[k]).Some? ==> key(entries[k]).value in t)
  }

  lemma {:induction false} BuildIsCoherentFor(key: Keying, entries: map<string, Decision>, order: seq<string>)
    requires MaskedKeys(key) && Keyed(entries)
    ensures CoherentFor(key, BuildFrom(key, entries, order), entries, order)
  {
    if order != [] {
      var k := order[|order| - 1];
      var init := order[..|order| - 1];
      BuildIsCoherentFor(key, entries, init);
      var u := BuildFrom(key, entries, init);
      if k in entries && key(entries[k]).Some? {
        InsertAtKey(key, u, entries[k], key(entries[k]).value);
      }
      assert order == init + [k];
    }
  }

  /** Whatever order the keys come in, the table built is coherent with the map. */
  lemma BuildIsCoherent(key: Keying, entries: map<string, Decision>, order: seq<string>)
    requires MaskedKeys(key)
    requires Keyed(entries) && IsOrderOf(order, entries.Keys)
    ensures Coherent(key, BuildFrom(key, entries, order), entries)
  {
    BuildIsCoherentFor(key, entries, order);
  }

  // ----- any coherent table is one that some key order builds -----

  lemma {:induction false} OrderExists(keys: set<string>) returns (order: seq<string>)
    ensures IsOrderOf(order, keys)
    decreases keys
  {
    if keys == {} {
      order := [];
    } else {
      var k :| k in keys;
      order := OrderExists(keys - {k});
      order := order + [k];
    }
  }

  lemma OrderAppend(a: seq<string>, b: seq<string>, j: set<string>, k: set<string>)
    requires IsOrderOf(a, j) && IsOrderOf(b, k) && j !! k
    ensures IsOrderOf(a + b, j + k)
  {
    forall x, y | 0 <= x < y < |a + b|
      ensures (a + b)[x] != (a + b)[y]
    {
      if x < |a| <= y {
        assert a[x] in j && b[y - |a|] in k;
      }
    }
  }

  ghost function Chosen(t: Table<Decision>): set<string> {
    set p | p in t && t[p].value.Some? :: t[p].value.value
  }

  /** `u` already holds `t`'s decision at every prefix whose decision is among `keys`. */
  ghost predicate Agrees(t: Table<Decision>, u: Table<Decision>, keys: seq<string>) {
    forall p :: p in t && t[p].value.Some? && t[p].value.value in keys ==> p in u && u[p] == t[p]
  }

  lemma {:induction false} ChosenWin(key: Keying, entries: map<string, Decision>, t: Table<Decision>,
                                     before: seq<string>, last: seq<string>)
    requires MaskedKeys(key)
    requires Coherent(key, t, entries)
    requires forall k :: k in last ==> k in Chosen(t)
    ensures Agrees(t, BuildFrom(key, entries, before + last), last)
  {
    if last != [] {
      var k := last[|last| - 1];
      var init := last[..|last| - 1];
      assert last == init + [k] && k in last;
      ChosenWin(key, entries, t, before, init);
      ChosenStep(key, entries, t, before + init, init, k);
      assert before + init + [k] == before + last;
    }
  }

  lemma ChosenStep(key: Keying, entries: map<string, Decision>, t: Table<Decision>,
                   order: seq<string>, init: seq<string>, k: string)
    requires MaskedKeys(key)
    requires Coherent(key, t, entries) && k in Chosen(t)
    requires Agrees(t, BuildFrom(key, entries, order), init)
    ensures Agrees(t, BuildFrom(key, entries, order + [k]), init + [k])
  {
  }

  /** Coherent describes exactly the tables buildIndex can produce. */
  lemma CoherentIsBuildable(key: Keying, t: Table<Decision>, entries: map<string, Decision>)
    requires MaskedKeys(key)
    requires Keyed(entries)
    ensures Coherent(key, t, entries)
       <==> exists order :: IsOrderOf(order, entries.Keys) && BuildFrom(key, entries, order) == t
  {
    if Coherent(key, t, entries) {
      var order := BuildingOrder(key, t, entries);
    }
    forall order | IsOrderOf(order, entries.Keys) {
      BuildIsCoherent(key, entries, order);
    }
  }

  /** Visit the decisions the table holds after all the others. */
  lemma BuildingOrder(key: Keying, t: Table<Decision>, entries: map<string, Decision>) returns (order: seq<string>)
    requires MaskedKeys(key)
    requires Keyed(entries) && Coherent(key, t, entries)
    ensures IsOrderOf(order, entries.Keys) && BuildFrom(key, entries, order) == t
  {
    var before, last := ChosenLast(key, t, entries);
    order := before + last;
    ChosenWin(key, entries, t, before, last);
    var u := BuildFrom(key, entries, order);
    BuildIsCoherent(key, entries, order);
    SameKeys(key, t, u, entries);
    SameKeys(key, u, t, entries);
    AgreesEverywhere(key, t, u, entries, last);
  }

  lemma ChosenLast(key: Keying, t: Table<Decision>, entries: map<string, Decision>)
    returns (before: seq<string>, last: seq<string>)
    requires Coherent(key, t, entries)
    ensures IsOrderOf(before + last, entries.Keys) && IsOrderOf(last, Chosen(t))
  {
    ChosenStored(key, t, entries);
    last := OrderExists(Chosen(t));
    before := OrderExists(entries.Keys - Chosen(t));
    OrderAppend(before, last, entries.Keys - Chosen(t), Chosen(t));
    assert entries.Keys - Chosen(t) + Chosen(t) == entries.Keys;
  }

  lemma ChosenStored(key: Keying, t: Table<Decision>, entries: map<string, Decision>)
    requires Coherent(key, t, entries)
    ensures Chosen(t) <= entries.Keys
  {
  }

  lemma AgreesEverywhere(key: Keying, t: Table<Decision>, u: Table<Decision>, entries: map<string, Decision>, last: seq<string>)
    requires Coherent(key, t, entries) && t.Keys == u.Keys
    requires Agrees(t, u, last) && forall k :: k in Chosen(t) ==> k in last
    ensures t == u
  {
  }

  /** Which prefixes are indexed, and which prefix an address hits, do not depend on the key order. */
  lemma KeyOrderKeepsPrefixes(key: Keying, t: Table<Decision>, u: Table<Decision>, entries: map<string, Decision>, a: Addr)
    requires Coherent(key, t, entries) && Coherent(key, u, entries)
    ensures t.Keys == u.Keys
    ensures Lookup(t, a).Some? == Lookup(u, a).Some?
    ensures Lookup(t, a).Some? ==> Lookup(t, a).value.prefix == Lookup(u, a).value.prefix
  {
    SameKeys(key, t, u, entries);
    SameKeys(key, u, t, entries);
    LookupSamePrefix(t, u, a, a.BitLen());
  }

  lemma SameKeys(key: Keying, t: Table<Decision>, u: Table<Decision>, entries: map<string, Decision>)
    requires Coherent(key, t, entries) && Coherent(key, u, entries)
    ensures t.Keys <= u.Keys
  {
  }

  lemma {:induction false} LookupSamePrefix<V>(t: Table<V>, u: Table<V>, a: Addr, bits: nat)
    requires bits <= a.BitLen() && t.Keys == u.Keys
    ensures LookupFrom(t, a, bits).Some? == LookupFrom(u, a, bits).Some?
    ensures LookupFrom(t, a, bits).Some? ==> LookupFrom(t, a, bits).value.prefix == LookupFrom(u, a, bits).value.prefix
    decreases bits
  {
    if Slot(a, bits) !in t.Keys && bits > 0 {
      LookupSamePrefix(t, u, a, bits - 1);
    }
  }

  ghost predicate DistinctPrefixes(key: Keying, entries: map<string, Decision>) {
    forall j, k :: j in entries && k in entries && j != k && key(entries[j]).Some?
      ==> key(entries[j]) != key(entries[k])
  }

  /** The table is the same for every key order exactly when no two stored decisions share a normalised prefix. */
  lemma TableUniqueIff(key: Keying, entries: map<string, Decision>)
    requires MaskedKeys(key)
    requires Keyed(entries)
    ensures DistinctPrefixes(key, entries)
       <==> forall t, u :: Coherent(key, t, entries) && Coherent(key, u, entries) ==> t == u
  {
    if DistinctPrefixes(key, entries) {
      forall t, u | Coherent(key, t, entries) && Coherent(key, u, entries)
        ensures t == u
      {
        SameTable(key, t, u, entries);
      }
    } else {
      var j, k :| j in entries && k in entries && j != k && key(entries[j]).Some?
        && key(entries[j]) == key(entries[k]);
      var order := OrderExists(entries.Keys);
      BuildIsCoherent(key, entries, order);
      var t := BuildFrom(key, entries, order);
      var p := key(entries[j]).value;
      var tj := PutChosen(key, t, entries, j, p);
      var tk := PutChosen(key, t, entries, k, p);
      assert tj[p].value == Some(j) && tk[p].value == Some(k);
    }
  }

  /** Any decision may be the one its prefix ends up with. */
  lemma PutChosen(key: Keying, t: Table<Decision>, entries: map<string, Decision>, k: string, p: Prefix)
    returns (u: Table<Decision>)
    requires Keyed(entries) && Coherent(key, t, entries) && k in entries && key(entries[k]) == Some(p)
    ensures Coherent(key, u, entries) && p in u && u[p] == entries[k]
  {
    assert p in t;
    u := t[p := entries[k]];
    forall q | q in u
      ensures IsStored(u[q], entries) && key(u[q]) == Some(q)
    {
      if q != p {
        assert u[q] == t[q];
      }
    }
  }

  lemma SameTable(key: Keying, t: Table<Decision>, u: Table<Decision>, entries: map<string, Decision>)
    requires Coherent(key, t, entries) && Coherent(key, u, entries) && DistinctPrefixes(key, entries)
    ensures t == u
  {
  }

  // ----- what the index means, in terms of the ranges as written -----

  /**
   Whether an address (never an IPv4-mapped one: callers unmap first) lies in a range as written.  An
   IPv4 address also lies in the mapped ranges that contain its mapped form, if they fix all 96 mapping bits.
   */
  predicate RangeCovers(p: Prefix, a: Addr)
    requires !a.Is4In6()
  {
    if a.V6? then Covers(p, a)
    else Covers(p, a) || (p.addr.Is4In6() && p.bits >= 96 && Covers(p, Mapped(a)))
  }

  predicate IsHost(p: Prefix) {
    p.bits == p.addr.BitLen()
  }

  lemma MaskedMapping(p: Prefix)
    ensures Masked(p).addr.Is4In6() <==> p.addr.Is4In6() && p.bits >= 96
  {
    MappedNeedsNinetySixBits(p);
    if p.addr.V6? && p.bits >= 96 {
      MaskedKeepsMapping(p);
    }
  }

  /** Normalising drops exactly the single hosts, and otherwise keeps every address of the range. */
  lemma NormaliseMeaning(p: Prefix, a: Addr)
    requires !a.Is4In6()
    ensures Normalise(p).None? <==> IsHost(p)
    ensures Normalise(p).Some? ==> (Covers(Normalise(p).value, a) <==> RangeCovers(p, a))
  {
    var m := Masked(p);
    MaskedMapping(p);
    if m.addr.Is4In6() {
      if a.V4? {
        UnmappedCovers(m, a);
      } else if Covers(p, a) {
        CoarserAgrees(a.n, p.addr.n, HostBits(p), 32);
      }
    }
  }

  predicate LiveRangeCovers(net: Parsers, d: Decision, a: Addr)
    requires !a.Is4In6()
  {
    match WrittenRange(net, d)
    case None => false
    case Some(p) => !IsHost(p) && RangeCovers(p, a)
  }

  /** In a decision's own fields: scope "Range", and a value that, trimmed, parses as a range of more than one host. */
  lemma RangeDecisionMeaning(net: Parsers, d: Decision, a: Addr)
    requires !a.Is4In6()
    ensures LiveRangeCovers(net, d, a) ==> d.scope == Some("Range") && d.value.Some? && net.prefix(TrimSpace(d.value.value)).Some?
    ensures d.scope == Some("Range") && d.value.Some? && TrimSpace(d.value.value) != "" && net.prefix(TrimSpace(d.value.value)).Some?
      ==> var p := net.prefix(TrimSpace(d.value.value)).value;
        LiveRangeCovers(net, d, a) <==> p.bits != p.addr.BitLen() && RangeCovers(p, a)
  {
  }

  lemma IndexKeyMeaning(net: Parsers, d: Decision, a: Addr)
    requires !a.Is4In6()
    ensures LiveRangeCovers(net, d, a) <==> IndexKey(net, d).Some? && Covers(IndexKey(net, d).value, a)
  {
    if WrittenRange(net, d).Some? {
      NormaliseMeaning(WrittenRange(net, d).value, a);
    }
  }

  /** Every address in `d`'s range is in `e`'s. */
  ghost predicate Inside(net: Parsers, d: Decision, e: Decision) {
    forall x: Addr :: !x.Is4In6() && LiveRangeCovers(net, d, x) ==> LiveRangeCovers(net, e, x)
  }

  /** The linear-scan answer: a covering range that lies inside every other covering range, or none. */
  ghost predicate MostSpecific(net: Parsers, entries: map<string, Decision>, a: Addr, r: Option<Decision>)
    requires !a.Is4In6()
  {
    match r
    case None => forall k :: k in entries ==> !LiveRangeCovers(net, entries[k], a)
    case Some(d) =>
      && IsStored(d, entries) && LiveRangeCovers(net, d, a)
      && forall k :: k in entries && LiveRangeCovers(net, entries[k], a) ==> Inside(net, d, entries[k])
  }

  function ValueOf(m: Option<Match<Decision>>): Option<Decision> {
    match m
    case None => None
    case Some(hit) => Some(hit.value)
  }

  lemma LongerKeyIsInside(net: Parsers, d: Decision, e: Decision, a: Addr)
    requires !a.Is4In6() && LiveRangeCovers(net, d, a) && LiveRangeCovers(net, e, a)
    requires IndexKey(net, d).Some? && IndexKey(net, e).Some? && IndexKey(net, e).value.bits <= IndexKey(net, d).value.bits
    ensures Inside(net, d, e)
  {
    IndexKeyMeaning(net, d, a);
    IndexKeyMeaning(net, e, a);
    forall x: Addr | !x.Is4In6() && LiveRangeCovers(net, d, x)
      ensures LiveRangeCovers(net, e, x)
    {
      IndexKeyMeaning(net, d, x);
      IndexKeyMeaning(net, e, x);
      LongerIsInside(IndexKey(net, d).value, IndexKey(net, e).value, a, x);
    }
  }

  /** The indexed lookup refines the linear scan over every stored decision. */
  lemma LookupRefinesScan(net: Parsers, t: Table<Decision>, entries: map<string, Decision>, a: Addr)
    requires Keyed(entries) && Coherent(KeyOf(net), t, entries) && !a.Is4In6()
    ensures MostSpecific(net, entries, a, ValueOf(Lookup(t, a)))
  {
    KeysAreMasked(net);
    CoherentIsMasked(KeyOf(net), t, entries);
    LookupIsLongest(t, a);
    var r := Lookup(t, a);
    if r.Some? {
      IndexKeyMeaning(net, r.value.value, a);
    }
    forall k | k in entries && LiveRangeCovers(net, entries[k], a)
      ensures r.Some? && Inside(net, r.value.value, entries[k])
    {
      IndexKeyMeaning(net, entries[k], a);
      LongerKeyIsInside(net, r.value.value, entries[k], a);
    }
  }

  // ----- answering a request -----

  const NO_IP := "no ip found"

  /** GetDecision on a map and a published index. */
  function Answer(net: Parsers, entries: map<string, Decision>, index: Option<Table<Decision>>, ip: string)
    : Result<Option<Decision>, string>
  {
    if ip == "" then Failure(NO_IP)
    else if ip in entries then Success(Some(entries[ip]))
    else if index.None? then Success(None)
    else
      match net.addr(ip)
      case None => Success(None)
      case Some(a) => Success(ValueOf(Lookup(index.value, Unmap(a))))
  }

  /** Without an address there is no answer but an error, and an address that does not parse is in no range. */
  lemma NoAddressMeaning(net: Parsers, entries: map<string, Decision>, index: Option<Table<Decision>>, ip: string)
    ensures ip == "" ==> Answer(net, entries, index, ip) == Failure("no ip found")
    ensures ip != "" && ip !in entries && net.addr(ip).None? ==> Answer(net, entries, index, ip) == Success(None)
  {
  }

  /** What GetDecision is for: the exact match in `exact`, else the most specific range of `ranges`. */
  ghost predicate Correct(net: Parsers, exact: map<string, Decision>, ranges: map<string, Decision>, ip: string,
                          r: Result<Option<Decision>, string>) {
    if ip == "" then r == Failure(NO_IP)
    else if ip in exact then r == Success(Some(exact[ip]))
    else if net.addr(ip).None? then r == Success(None)
    else r.Success? && MostSpecific(net, ranges, Unmap(net.addr(ip).value), r.value)
  }

  function IndexOrEmpty(index: Option<Table<Decision>>): Table<Decision> {
    if index.Some? then index.value else map[]
  }

  lemma AnswerIsCorrect(net: Parsers, exact: map<string, Decision>, ranges: map<string, Decision>,
                        index: Option<Table<Decision>>, ip: string)
    requires Keyed(ranges) && Coherent(KeyOf(net), IndexOrEmpty(index), ranges)
    ensures Correct(net, exact, ranges, ip, Answer(net, exact, index, ip))
  {
    if net.addr(ip).Some? {
      var a := Unmap(net.addr(ip).value);
      LookupRefinesScan(net, IndexOrEmpty(index), ranges, a);
      KeysAreMasked(net);
      CoherentIsMasked(KeyOf(net), IndexOrEmpty(index), ranges);
      LookupIsLongest(IndexOrEmpty(index), a);
    }
  }

  // ----- spellings of one address -----

  /** Every entry of a published index is filed under its own decision's prefix, whether or not it is still stored. */
  ghost predicate Filed(net: Parsers, t: Table<Decision>) {
    forall p :: p in t ==> KeyOf(net)(t[p]) == Some(p)
  }

  /** No text is both an address and a range: one has a slash and the other has not. */
  ghost predicate AddressesAreNoRanges(net: Parsers) {
    forall text :: net.addr(text).Some? ==> net.prefix(TrimSpace(text)).None?
  }

  /** Two texts of one address, such as `1.2.3.4` and `::ffff:1.2.3.4`. */
  ghost predicate SameAddress(net: Parsers, ip: string, other: string) {
    && ip != "" && other != "" && ip != other && net.addr(ip).Some? && net.addr(other).Some?
    && Unmap(net.addr(ip).value) == Unmap(net.addr(other).value)
  }

  /** An exact match is by text: they get the same answer exactly when neither has a decision of its own. */
  lemma SpellingsAgree(net: Parsers, entries: map<string, Decision>, index: Option<Table<Decision>>, ip: string, other: string)
    requires Keyed(entries) && Filed(net, IndexOrEmpty(index)) && AddressesAreNoRanges(net) && SameAddress(net, ip, other)
    ensures Answer(net, entries, index, ip) == Answer(net, entries, index, other) <==> ip !in entries && other !in entries
  {
    OwnOrRange(net, entries, index, ip, other);
    OwnOrRange(net, entries, index, other, ip);
  }

  /** A decision kept under an address text is never what the index answers. */
  lemma OwnOrRange(net: Parsers, entries: map<string, Decision>, index: Option<Table<Decision>>, ip: string, other: string)
    requires Keyed(entries) && Filed(net, IndexOrEmpty(index)) && AddressesAreNoRanges(net) && SameAddress(net, ip, other)
    ensures ip in entries ==> Answer(net, entries, index, ip) != Answer(net, entries, index, other)
  {
    if ip in entries && other !in entries && index.Some? {
      var a := Unmap(net.addr(other).value);
      FiledIsMasked(net, index.value);
      LookupIsLongest(index.value, a);
      if Lookup(index.value, a).Some? {
        FiledIsNoAddress(net, Lookup(index.value, a).value.value, ip);
      }
    }
  }

  lemma FiledIsMasked(net: Parsers, t: Table<Decision>)
    requires Filed(net, t)
    ensures AllMasked(t)
  {
    KeysAreMasked(net);
    assert forall p :: p in t ==> KeyOf(net)(t[p]) == Some(p);
  }

  lemma FiledIsNoAddress(net: Parsers, d: Decision, ip: string)
    requires AddressesAreNoRanges(net) && KeyOf(net)(d).Some? && net.addr(ip).Some?
    ensures d.value != Some(ip)
  {
    assert WrittenRange(net, d).Some?;
  }
}
