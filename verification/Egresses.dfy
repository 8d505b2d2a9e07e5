/** Egress policies and their canonical form, from `proto.rs`.

    The master compares what it stores with what a node reports, so an entry
    must have one text only. An entry is read to a block of addresses -- a
    prefix of an IPv4 address, section 3.1 of RFC 4632 -- and written back. */
module Egresses {
  import opened Wrappers
  import opened Powers
  import opened Text

  const ADDRESSES: nat := 0x1_0000_0000
  const MAX_ENTRIES: nat := 64

  /** A prefix of an address. */
  datatype Cidr = Cidr(addr: nat, prefix: nat)

  predicate IsCidr(c: Cidr) {
    c.addr < ADDRESSES && c.prefix <= 32
  }

  /** How many addresses share a prefix of this length. */
  function Size(prefix: nat): (n: nat)
    requires prefix <= 32
    ensures n >= 1
  {
    Pow2(32 - prefix)
  }

  /** The address with everything after its prefix cleared: what masking the
      low bits leaves. A prefix of nought clears it all. */
  function Masked(c: Cidr): (n: nat)
    requires IsCidr(c)
    ensures n <= c.addr
  {
    ModBelow(c.addr, Size(c.prefix));
    c.addr - c.addr % Size(c.prefix)
  }

  // ---- reading -------------------------------------------------------------

  /** One part of a dotted address: up to three digits, no leading nought. */
  function Octet(s: string): (r: Option<nat>)
    ensures r.Some? ==> r.value < 256
  {
    if 1 <= |s| <= 3 && AllDigits(s) && (|s| > 1 ==> s[0] != '0') && ValueOf(s) < 256
    then Some(ValueOf(s)) else None
  }

  function Address(a: nat, b: nat, c: nat, d: nat): nat {
    ((a * 256 + b) * 256 + c) * 256 + d
  }

  function ParseAddress(s: string): (r: Option<nat>)
    ensures r.Some? ==> r.value < ADDRESSES
  {
    var p := Split(s, '.');
    if |p| != 4 then None
    else
      match (Octet(p[0]), Octet(p[1]), Octet(p[2]), Octet(p[3]))
      case (Some(a), Some(b), Some(c), Some(d)) => Some(Address(a, b, c, d))
      case _ => None
  }

  /** An entry is an address, or an address and a prefix length. */
  function ParseCidr(entry: string): (r: Option<Cidr>)
    ensures r.Some? ==> IsCidr(r.value)
  {
    var t := Trim(entry);
    var i := IndexOf(t, '/');
    var (addr, prefix) := if i < 0 then (t, "32") else (t[..i], t[i + 1..]);
    match (ParseAddress(addr), ParseUnsigned(prefix))
    case (Some(a), Some(p)) => if p <= 32 then Some(Cidr(a, p)) else None
    case _ => None
  }

  // ---- writing ---------------------------------------------------------------

  function AddressText(n: nat): string {
    Decimal(n / 256 / 256 / 256) + "." + Decimal(n / 256 / 256 % 256) + "."
    + Decimal(n / 256 % 256) + "." + Decimal(n % 256)
  }

  function CidrText(c: Cidr): string {
    AddressText(c.addr) + "/" + Decimal(c.prefix)
  }

  /** The canonical text of an entry, or the entry that cannot be one. */
  function CanonicalCidr(entry: string): Result<string, string> {
    match ParseCidr(entry)
    case Some(c) => Ok(CidrText(Cidr(Masked(c), c.prefix)))
    case None => Err(entry)
  }

  // ---- reading back what was written --------------------------------------------

  lemma OctetText(n: nat)
    requires n < 256
    ensures Octet(Decimal(n)) == Some(n) && '.' !in Decimal(n) && '/' !in Decimal(n)
  {
    ValueOfDecimal(n);
  }

  lemma SplitOne(s: string)
    requires '.' !in s
    ensures Split(s, '.') == [s]
  {}

  lemma AddressRoundTrip(n: nat)
    requires n < ADDRESSES
    ensures ParseAddress(AddressText(n)) == Some(n) && '/' !in AddressText(n)
  {
    hide Octet, Decimal, Split, Address;
    var a, b, c, d := n / 256 / 256 / 256, n / 256 / 256 % 256, n / 256 % 256, n % 256;
    OctetsOf(n);
    OctetText(a);
    OctetText(b);
    OctetText(c);
    OctetText(d);
    DottedSplits(Decimal(a), Decimal(b), Decimal(c), Decimal(d));
  }

  lemma OctetsOf(n: nat)
    requires n < ADDRESSES
    ensures var a, b, c, d := n / 256 / 256 / 256, n / 256 / 256 % 256, n / 256 % 256, n % 256;
            a < 256 && n == Address(a, b, c, d)
  {}

  lemma DottedSplits(a: string, b: string, c: string, d: string)
    requires '.' !in a && '.' !in b && '.' !in c && '.' !in d
    ensures Split(a + "." + b + "." + c + "." + d, '.') == [a, b, c, d]
  {
    hide Split;
    var cd := c + ['.'] + d;
    var bcd := b + ['.'] + cd;
    SplitCons(a, '.', bcd);
    SplitCons(b, '.', cd);
    SplitCons(c, '.', d);
    SplitOne(d);
    Regroup(a, b, c, d);
    assert [a] + ([b] + ([c] + [d])) == [a, b, c, d];
  }

  lemma Regroup(a: string, b: string, c: string, d: string)
    ensures a + "." + b + "." + c + "." + d == a + ['.'] + (b + ['.'] + (c + ['.'] + d))
  {
    var l := a + "." + b;
    assert l + "." + c + "." + d == l + ("." + c + "." + d);
    assert l == a + ("." + b);
    assert a + ("." + b) + ("." + c + "." + d) == a + (("." + b) + ("." + c + "." + d));
  }

  lemma ParseParts(addr: string, prefix: string, a: nat, p: nat)
    requires '/' !in addr && Trim(addr + ['/'] + prefix) == addr + ['/'] + prefix
    requires ParseAddress(addr) == Some(a) && ParseUnsigned(prefix) == Some(p) && p <= 32
    ensures ParseCidr(addr + ['/'] + prefix) == Some(Cidr(a, p))
  {
    hide Trim, IndexOf, ParseAddress, ParseUnsigned;
    var t := addr + ['/'] + prefix;
    IndexAfter(addr, '/', prefix);
    assert t[..|addr|] == addr && t[|addr| + 1..] == prefix;
  }

  lemma NothingToTrim(addr: string, prefix: string)
    requires addr != "" && IsDigit(addr[0]) && prefix != "" && IsDigit(prefix[|prefix| - 1])
    ensures Trim(addr + ['/'] + prefix) == addr + ['/'] + prefix
  {
    hide Trim;
    TrimNothing(addr + ['/'] + prefix);
  }

  lemma AddressStarts(n: nat)
    ensures AddressText(n) != "" && IsDigit(AddressText(n)[0])
  {
    hide Decimal;
    var first := Decimal(n / 256 / 256 / 256);
    assert AddressText(n)[0] == first[0];
  }

  /** Every block reads back as itself, whatever its prefix. */
  lemma CidrRoundTrip(c: Cidr)
    requires IsCidr(c)
    ensures ParseCidr(CidrText(c)) == Some(c)
  {
    hide AddressText, Decimal, Trim, ParseCidr, ParseAddress, ParseUnsigned;
    var addr, prefix := AddressText(c.addr), Decimal(c.prefix);
    AddressRoundTrip(c.addr);
    ParseDecimal(c.prefix);
    AddressStarts(c.addr);
    NothingToTrim(addr, prefix);
    assert IsCidr(c);
    ParseParts(addr, prefix, c.addr, c.prefix);
  }

  lemma OctetIsText(s: string)
    requires Octet(s).Some?
    ensures Decimal(Octet(s).value) == s
  {
    DecimalOfValue(s);
  }

  /** An address is written one way only. */
  lemma AddressIsText(s: string)
    requires ParseAddress(s).Some?
    ensures AddressText(ParseAddress(s).value) == s
  {
    hide Octet, Decimal, Split;
    var p := Split(s, '.');
    SplitJoins(s, '.');
    var a, b, c, d := Octet(p[0]).value, Octet(p[1]).value, Octet(p[2]).value, Octet(p[3]).value;
    OctetIsText(p[0]);
    OctetIsText(p[1]);
    OctetIsText(p[2]);
    OctetIsText(p[3]);
    PartsOfAddress(a, b, c, d);
    assert p == [p[0], p[1], p[2], p[3]];
    FourJoined(p[0], p[1], p[2], p[3]);
    Regroup(p[0], p[1], p[2], p[3]);
  }

  lemma FourJoined(a: string, b: string, c: string, d: string)
    ensures Joined([a, b, c, d], '.') == a + ['.'] + (b + ['.'] + (c + ['.'] + d))
  {
    assert [a, b, c, d][1..] == [b, c, d] && [b, c, d][1..] == [c, d] && [c, d][1..] == [d];
    assert Joined([c, d], '.') == c + ['.'] + Joined([d], '.') == c + ['.'] + d;
    assert Joined([b, c, d], '.') == b + ['.'] + (c + ['.'] + d);
  }

  lemma PartsOfAddress(a: nat, b: nat, c: nat, d: nat)
    requires a < 256 && b < 256 && c < 256 && d < 256
    ensures var n := Address(a, b, c, d);
            n / 256 / 256 / 256 == a && n / 256 / 256 % 256 == b && n / 256 % 256 == c && n % 256 == d
  {
    var ab := a * 256 + b;
    var abc := ab * 256 + c;
    var n := Address(a, b, c, d);
    DivMod(n, abc, 256, d);
    DivMod(abc, ab, 256, c);
    DivMod(ab, a, 256, b);
  }

  /** The text of a block, as it may be written in an entry. */
  ghost predicate Writes(t: string, c: Cidr) {
    || (t == AddressText(c.addr) && c.prefix == 32)
    || exists digits :: t == AddressText(c.addr) + "/" + digits && ParseUnsigned(digits) == Some(c.prefix)
  }

  /** An entry is an address -- that address alone -- or an address, a stroke and how many
      of its leading bits count, with space around it or none. */
  lemma EntryIs(entry: string, c: Cidr)
    requires IsCidr(c)
    ensures ParseCidr(entry) == Some(c) <==> Writes(Trim(entry), c)
  {
    hide ParseCidr, Writes, Trim;
    if ParseCidr(entry) == Some(c) { ReadIsWritten(entry, c); }
    if Writes(Trim(entry), c) { WrittenIsRead(entry, c); }
  }

  lemma ReadIsWritten(entry: string, c: Cidr)
    requires ParseCidr(entry) == Some(c)
    ensures Writes(Trim(entry), c)
  {
    hide AddressText, ParseAddress, ParseUnsigned, Trim;
    var t := Trim(entry);
    var i := IndexOf(t, '/');
    ThirtyTwo();
    if i >= 0 {
      AddressIsText(t[..i]);
      assert t == AddressText(c.addr) + "/" + t[i + 1..];
    } else {
      AddressIsText(t);
    }
  }

  lemma WrittenIsRead(entry: string, c: Cidr)
    requires IsCidr(c) && Writes(Trim(entry), c)
    ensures ParseCidr(entry) == Some(c)
  {
    hide AddressText, ParseAddress, ParseUnsigned, Trim;
    var t := Trim(entry);
    AddressRoundTrip(c.addr);
    ThirtyTwo();
    if t == AddressText(c.addr) && c.prefix == 32 {
      assert IndexOf(t, '/') < 0;
    } else {
      var digits :| t == AddressText(c.addr) + "/" + digits && ParseUnsigned(digits) == Some(c.prefix);
      assert t == AddressText(c.addr) + ['/'] + digits;
      IndexAfter(AddressText(c.addr), '/', digits);
      assert t[..|AddressText(c.addr)|] == AddressText(c.addr) && t[|AddressText(c.addr)| + 1..] == digits;
    }
  }

  lemma ThirtyTwo()
    ensures ParseUnsigned("32") == Some(32)
  {
    assert Decimal(32) == Decimal(3) + [DigitChar(2)] == "32";
    ParseDecimal(32);
  }

  /** So a bare address is the block of that address and no other. */
  lemma BareAddressIsItself(entry: string, a: nat)
    requires a < ADDRESSES && Trim(entry) == AddressText(a)
    ensures ParseCidr(entry).Some? && ParseCidr(entry).value.addr == a
    ensures forall b: nat :: InBlock(ParseCidr(entry).value, b) <==> b == a
  {
    hide ParseCidr, Trim, AddressText;
    EntryIs(entry, Cidr(a, 32));
    assert Size(32) == 1;
  }

  /** Space around an entry does not matter. */
  lemma SpaceAround(before: string, entry: string, after: string)
    requires AllSpaces(before) && AllSpaces(after)
    requires entry != "" && !IsSpace(entry[0]) && !IsSpace(entry[|entry| - 1])
    ensures ParseCidr(before + entry + after) == ParseCidr(entry)
  {
    hide IsSpace, AllSpaces;
    TrimAround(before, entry, after);
    TrimNothing(entry);
  }

  // ---- what an entry denotes ------------------------------------------------------

  /** `a` agrees with the block on every bit of its prefix. */
  predicate InBlock(c: Cidr, a: nat)
    requires IsCidr(c)
  {
    a < ADDRESSES && a / Size(c.prefix) == c.addr / Size(c.prefix)
  }

  ghost predicate SameBlock(c: Cidr, d: Cidr)
    requires IsCidr(c) && IsCidr(d)
  {
    forall a: nat :: InBlock(c, a) <==> InBlock(d, a)
  }

  /** A block is the run of addresses from its masked address on. */
  lemma BlockIsRun(c: Cidr, a: nat)
    requires IsCidr(c)
    ensures InBlock(c, a) <==> Masked(c) <= a < Masked(c) + Size(c.prefix)
    ensures Masked(c) + Size(c.prefix) <= ADDRESSES
  {
    var p := Size(c.prefix);
    SameQuotient(c.addr, a, p);
    Pow2ThirtyTwo();
    Pow2Add(32 - c.prefix, c.prefix);
    FitsWhole(c.addr, p, Pow2(c.prefix));
  }

  lemma FitsWhole(n: nat, p: nat, k: nat)
    requires p > 0 && n < p * k
    ensures n - n % p + p <= p * k
  {
    var q := n / p;
    assert n == q * p + n % p;
    if q >= k {
      Multiples(k, q, p);
    } else {
      Multiples(q + 1, k, p);
    }
  }

  /** Blocks are the same addresses exactly when their masked address and
      their prefix are the same. */
  lemma SameBlockIsSameText(c: Cidr, d: Cidr)
    requires IsCidr(c) && IsCidr(d)
    ensures SameBlock(c, d) <==> Masked(c) == Masked(d) && c.prefix == d.prefix
  {
    forall a: nat
      ensures InBlock(c, a) <==> Masked(c) <= a < Masked(c) + Size(c.prefix)
      ensures InBlock(d, a) <==> Masked(d) <= a < Masked(d) + Size(d.prefix)
    {
      BlockIsRun(c, a);
      BlockIsRun(d, a);
    }
    if SameBlock(c, d) {
      assert InBlock(c, Masked(c)) && InBlock(d, Masked(d));
      assert InBlock(c, Masked(c) + Size(c.prefix) - 1) && InBlock(d, Masked(d) + Size(d.prefix) - 1);
      if c.prefix < d.prefix {
        Pow2Monotone(32 - d.prefix, 32 - c.prefix);
      } else if d.prefix < c.prefix {
        Pow2Monotone(32 - c.prefix, 32 - d.prefix);
      }
    }
  }

  lemma MaskedTwice(c: Cidr)
    requires IsCidr(c)
    ensures var m := Cidr(Masked(c), c.prefix);
            IsCidr(m) && Masked(m) == Masked(c) && SameBlock(m, c)
  {
    var p := Size(c.prefix);
    var q := c.addr / p;
    assert c.addr == q * p + c.addr % p;
    DivMod(Masked(c), q, p, 0);
    SameBlockIsSameText(Cidr(Masked(c), c.prefix), c);
  }

  /** Canonical text denotes what the entry did, and is its own canonical
      text. */
  lemma CanonicalKeepsBlock(entry: string)
    requires ParseCidr(entry).Some?
    ensures var t := CanonicalCidr(entry).value;
            && ParseCidr(t).Some? && SameBlock(ParseCidr(t).value, ParseCidr(entry).value)
            && CanonicalCidr(t) == Ok(t)
  {
    var c := ParseCidr(entry).value;
    MaskedTwice(c);
    CidrRoundTrip(Cidr(Masked(c), c.prefix));
  }

  /** Two entries have one canonical text exactly when they denote one block. */
  lemma CanonicalIffSameBlock(e1: string, e2: string)
    requires ParseCidr(e1).Some? && ParseCidr(e2).Some?
    ensures CanonicalCidr(e1) == CanonicalCidr(e2) <==> SameBlock(ParseCidr(e1).value, ParseCidr(e2).value)
  {
    hide ParseCidr, CidrText, SameBlock, Masked, Size;
    var c, d := ParseCidr(e1).value, ParseCidr(e2).value;
    SameBlockIsSameText(c, d);
    CidrRoundTrip(Cidr(Masked(c), c.prefix));
    CidrRoundTrip(Cidr(Masked(d), d.prefix));
  }

  // ---- whole policies -----------------------------------------------------------------

  /** A sandbox's rules: the internet or not, and what is let through or kept out. */
  datatype Egress = Egress(internet: bool, allow: seq<string>, deny: seq<string>)

  const CLOSED := Egress(false, [], [])

  datatype Refusal = TooMany(count: nat) | NotCidr(entry: string)

  predicate IsEntry(e: string) {
    ParseCidr(e).Some?
  }

  /** The canonical text of an entry that has one. */
  function EntryText(e: string): string
    requires IsEntry(e)
  {
    CanonicalCidr(e).value
  }

  predicate AllEntries(l: seq<string>) {
    forall e :: e in l ==> IsEntry(e)
  }

  function Texts(l: seq<string>): (ts: seq<string>)
    requires AllEntries(l)
    ensures |ts| == |l|
  {
    seq(|l|, i requires 0 <= i < |l| => EntryText(l[i]))
  }

  /** `l` with every later copy of an element left out. */
  function Dedup(l: seq<string>): seq<string> {
    if l == [] then []
    else
      var rest, last := Dedup(l[..|l| - 1]), l[|l| - 1];
      if last in rest then rest else rest + [last]
  }

  /** Which of the list are entries. */
  function Readable(l: seq<string>): (rs: seq<bool>)
    ensures |rs| == |l|
    ensures forall i :: 0 <= i < |l| ==> rs[i] == IsEntry(l[i])
  {
    seq(|l|, i requires 0 <= i < |l| => IsEntry(l[i]))
  }

  /** The first place, from `i` on, that does not hold. */
  function FirstFalse(rs: seq<bool>, i: nat): (k: nat)
    requires i <= |rs|
    ensures i <= k <= |rs|
    ensures forall j :: i <= j < k ==> rs[j]
    ensures k < |rs| ==> !rs[k]
    decreases |rs| - i
  {
    if i == |rs| || !rs[i] then i else FirstFalse(rs, i + 1)
  }

  function FirstBad(l: seq<string>): (k: nat)
    ensures k <= |l|
    ensures forall j :: 0 <= j < k ==> IsEntry(l[j])
    ensures k < |l| ==> !IsEntry(l[k])
  {
    hide IsEntry;
    FirstFalse(Readable(l), 0)
  }

  function CanonicalList(l: seq<string>): Result<seq<string>, Refusal> {
    var i := FirstBad(l);
    if i < |l| then Err(NotCidr(l[i])) else Ok(Dedup(Texts(l)))
  }

  function Canonical(e: Egress): Result<Egress, Refusal> {
    if |e.allow| + |e.deny| > MAX_ENTRIES then Err(TooMany(|e.allow| + |e.deny|))
    else
      match CanonicalList(e.allow)
      case Err(why) => Err(why)
      case Ok(allow) =>
        match CanonicalList(e.deny)
        case Err(why) => Err(why)
        case Ok(deny) => Ok(Egress(e.internet, allow, deny))
  }

  lemma FirstBadAt(l: seq<string>, i: nat)
    requires i <= |l| && (forall j :: 0 <= j < i ==> IsEntry(l[j])) && (i < |l| ==> !IsEntry(l[i]))
    ensures FirstBad(l) == i
  {
    hide IsEntry, FirstBad;
  }

  /** One list, entry by entry. */
  method ListCanonical(l: seq<string>) returns (r: Result<seq<string>, Refusal>)
    ensures r == CanonicalList(l)
  {
    hide IsEntry, EntryText, CanonicalCidr, FirstBad;
    var out: seq<string> := [];
    var i := 0;
    while i < |l|
      invariant 0 <= i <= |l| && (forall j :: 0 <= j < i ==> IsEntry(l[j]))
      invariant AllEntries(l[..i]) && out == Dedup(Texts(l[..i]))
    {
      var c := CanonicalCidr(l[i]);
      CanonicalOfEntry(l[i]);
      if c.Err? {
        FirstBadAt(l, i);
        return Err(NotCidr(l[i]));
      }
      assert l[..i + 1] == l[..i] + [l[i]];
      assert Texts(l[..i + 1]) == Texts(l[..i]) + [c.value];
      DedupSnoc(Texts(l[..i]), c.value);
      if c.value !in out {
        out := out + [c.value];
      }
      i := i + 1;
    }
    assert l[..i] == l;
    FirstBadAt(l, i);
    return Ok(out);
  }

  lemma CanonicalOfEntry(e: string)
    ensures CanonicalCidr(e).Ok? <==> IsEntry(e)
    ensures IsEntry(e) ==> EntryText(e) == CanonicalCidr(e).value
  {}

  lemma DedupSnoc(l: seq<string>, x: string)
    ensures Dedup(l + [x]) == if x in Dedup(l) then Dedup(l) else Dedup(l) + [x]
  {
    assert (l + [x])[..|l|] == l;
  }

  /** A policy in canonical form, or why it has none. */
  method EgressCanonical(e: Egress) returns (r: Result<Egress, Refusal>)
    ensures r == Canonical(e)
  {
    hide CanonicalList;
    if |e.allow| + |e.deny| > MAX_ENTRIES {
      return Err(TooMany(|e.allow| + |e.deny|));
    }
    var allow := ListCanonical(e.allow);
    if allow.Err? { return Err(allow.error); }
    var deny := ListCanonical(e.deny);
    if deny.Err? { return Err(deny.error); }
    return Ok(Egress(e.internet, allow.value, deny.value));
  }

  predicate NoCopies(l: seq<string>) {
    forall i, j :: 0 <= i < j < |l| ==> l[i] != l[j]
  }

  lemma {:induction false} DedupKeeps(l: seq<string>)
    ensures NoCopies(Dedup(l)) && |Dedup(l)| <= |l|
    ensures forall x :: x in Dedup(l) <==> x in l
    ensures NoCopies(l) ==> Dedup(l) == l
  {
    if l != [] {
      var rest, last := l[..|l| - 1], l[|l| - 1];
      DedupKeeps(rest);
      assert l == rest + [last];
    }
  }

  /** The entry names the address. */
  predicate Names(e: string, a: nat) {
    IsEntry(e) && InBlock(ParseCidr(e).value, a)
  }

  /** `a` is in one of the blocks the list names. */
  ghost predicate Covers(l: seq<string>, a: nat) {
    exists e :: e in l && Names(e, a)
  }

  lemma EntryLaws(e: string)
    requires IsEntry(e)
    ensures IsEntry(EntryText(e)) && EntryText(EntryText(e)) == EntryText(e)
    ensures forall a: nat :: Names(EntryText(e), a) <==> Names(e, a)
  {
    hide ParseCidr, CanonicalCidr, InBlock;
    CanonicalOfEntry(e);
    CanonicalKeepsBlock(e);
    CanonicalOfEntry(EntryText(e));
  }

  /** A canonical list has no duplicates, names exactly the addresses the
      list it came from named, and is left alone by another pass. */
  lemma CanonicalListLaws(l: seq<string>)
    requires AllEntries(l)
    ensures var r := CanonicalList(l);
            && r.Ok? && NoCopies(r.value) && |r.value| <= |l| && AllEntries(r.value)
            && (forall a: nat :: Covers(r.value, a) <==> Covers(l, a))
            && CanonicalList(r.value) == r
  {
    hide IsEntry, EntryText, Names, Texts, FirstBad;
    ListOk(l);
    var ts := Texts(l);
    var out := Dedup(ts);
    DedupKeeps(ts);
    TextsAre(l);
    forall x | x in out ensures IsEntry(x) && EntryText(x) == x {
      var e :| e in l && EntryText(e) == x;
      EntryLaws(e);
    }
    forall a: nat ensures Covers(out, a) <==> Covers(l, a) {
      if Covers(l, a) {
        var e :| e in l && Names(e, a);
        EntryLaws(e);
        assert EntryText(e) in out;
      }
      if Covers(out, a) {
        var x :| x in out && Names(x, a);
        var e :| e in l && EntryText(e) == x;
        EntryLaws(e);
      }
    }
    ListOk(out);
    TextsFixed(out);
    DedupKeeps(out);
  }

  lemma ListOk(l: seq<string>)
    requires AllEntries(l)
    ensures CanonicalList(l) == Ok(Dedup(Texts(l)))
  {
    hide IsEntry, EntryText;
  }

  lemma TextsAre(l: seq<string>)
    requires AllEntries(l)
    ensures forall e :: e in l ==> EntryText(e) in Texts(l)
    ensures forall x :: x in Texts(l) ==> exists e :: e in l && EntryText(e) == x
  {
    hide IsEntry, EntryText;
    var ts := Texts(l);
    forall e | e in l ensures EntryText(e) in ts {
      var i :| 0 <= i < |l| && l[i] == e;
      assert ts[i] == EntryText(e);
    }
    forall x | x in ts ensures exists e :: e in l && EntryText(e) == x {
      var i :| 0 <= i < |ts| && ts[i] == x;
      assert EntryText(l[i]) == x;
    }
  }

  lemma TextsFixed(l: seq<string>)
    requires AllEntries(l) && forall x :: x in l ==> EntryText(x) == x
    ensures Texts(l) == l
  {
    hide IsEntry, EntryText;
  }

  /** A policy has a canonical form exactly when it has at most 64 entries and every one is
      a CIDR; the form lets in and keeps out the same addresses, and is its own. */
  lemma CanonicalLaws(e: Egress)
    ensures Canonical(e).Ok? <==> |e.allow| + |e.deny| <= 64 && AllEntries(e.allow) && AllEntries(e.deny)
    ensures Canonical(e).Ok? ==>
              var c := Canonical(e).value;
              && c.internet == e.internet && NoCopies(c.allow) && NoCopies(c.deny)
              && (forall a: nat :: Covers(c.allow, a) <==> Covers(e.allow, a))
              && (forall a: nat :: Covers(c.deny, a) <==> Covers(e.deny, a))
              && Canonical(c) == Ok(c)
  {
    hide IsEntry, EntryText, Texts, Covers;
    if AllEntries(e.allow) { CanonicalListLaws(e.allow); } else { ListBad(e.allow); }
    if AllEntries(e.deny) { CanonicalListLaws(e.deny); } else { ListBad(e.deny); }
  }

  /** The first of a list that is no CIDR. */
  predicate FirstNot(l: seq<string>, entry: string) {
    exists i :: 0 <= i < |l| && l[i] == entry && !IsEntry(l[i]) && forall j :: 0 <= j < i ==> IsEntry(l[j])
  }

  /** A refusal names the first entry that is no CIDR, those let through looked at first. */
  lemma RefusalNamesFirst(e: Egress)
    requires Canonical(e).Err?
    ensures match Canonical(e).error
            case TooMany(n) => n == |e.allow| + |e.deny| > 64
            case NotCidr(entry) => FirstNot(e.allow, entry) || (AllEntries(e.allow) && FirstNot(e.deny, entry))
  {
    hide IsEntry, EntryText, Texts;
    if AllEntries(e.allow) {
      ListOk(e.allow);
      BadIsFirst(e.deny);
    } else {
      BadIsFirst(e.allow);
    }
  }

  lemma BadIsFirst(l: seq<string>)
    ensures AllEntries(l) ==> CanonicalList(l).Ok?
    ensures !AllEntries(l) ==>
              && CanonicalList(l).Err? && CanonicalList(l).error.NotCidr? && FirstNot(l, CanonicalList(l).error.entry)
  {
    hide IsEntry, EntryText, Texts;
    var i := FirstBad(l);
    if i < |l| {
      assert l[i] == CanonicalList(l).error.entry;
    }
  }

  lemma ListBad(l: seq<string>)
    requires !AllEntries(l)
    ensures CanonicalList(l).Err?
  {
    hide IsEntry;
  }
}
