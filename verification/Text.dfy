/** Decimal text and splitting, as the standard libraries of the sources do
    them. A string is a sequence of characters. */
module Text {
  import opened Wrappers

  predicate IsDigit(c: char) {
    '0' <= c <= '9'
  }

  predicate AllDigits(s: string) {
    forall i :: 0 <= i < |s| ==> IsDigit(s[i])
  }

  function DigitChar(d: nat): (c: char)
    requires d < 10
    ensures IsDigit(c)
  {
    ('0' as int + d) as char
  }

  function DigitValue(c: char): (d: nat)
    requires IsDigit(c)
    ensures d < 10 && DigitChar(d) == c
  {
    c as int - '0' as int
  }

  /** `n` in decimal, with no leading noughts. */
  function Decimal(n: nat): (s: string)
    ensures s != "" && AllDigits(s)
    ensures n > 0 ==> s[0] != '0'
    ensures |s| > 1 <==> n >= 10
    ensures n < 1000 ==> |s| <= 3
  {
    if n < 10 then [DigitChar(n)] else Decimal(n / 10) + [DigitChar(n % 10)]
  }

  /** The value of a run of digits, leading noughts and all. */
  function ValueOf(s: string): (n: nat)
    requires AllDigits(s)
  {
    if s == "" then 0 else 10 * ValueOf(s[..|s| - 1]) + DigitValue(s[|s| - 1])
  }

  lemma {:induction false} ValueOfDecimal(n: nat)
    ensures ValueOf(Decimal(n)) == n
  {
    if n < 10 {
      assert Decimal(n)[..0] == "";
    } else {
      ValueOfDecimal(n / 10);
      assert Decimal(n)[..|Decimal(n)| - 1] == Decimal(n / 10);
    }
  }

  lemma ValueOfBound(s: string)
    requires AllDigits(s)
    ensures |s| <= 2 ==> ValueOf(s) < 100
    ensures s != "" && s[0] != '0' ==> ValueOf(s) > 0
  {
    if s != "" {
      ValueOfBound(s[..|s| - 1]);
      if |s| == 1 { assert s[..0] == ""; }
    }
  }

  /** Digits with no leading nought are the decimal of their own value. */
  lemma {:induction false} DecimalOfValue(s: string)
    requires s != "" && AllDigits(s) && (|s| > 1 ==> s[0] != '0')
    ensures Decimal(ValueOf(s)) == s
  {
    var rest, last := s[..|s| - 1], s[|s| - 1];
    assert s == rest + [last];
    if rest == "" {
      assert ValueOf(s) == DigitValue(last);
    } else {
      DecimalOfValue(rest);
      ValueOfBound(rest);
      DecimalSnoc(ValueOf(rest), DigitValue(last));
    }
  }

  lemma DecimalSnoc(v: nat, d: nat)
    requires v > 0 && d < 10
    ensures Decimal(10 * v + d) == Decimal(v) + [DigitChar(d)]
  {
    assert (10 * v + d) / 10 == v && (10 * v + d) % 10 == d;
  }

  /** A non-negative number, as Rust's unsigned types parse one: digits,
      after at most one plus sign. */
  function ParseUnsigned(s: string): (r: Option<nat>) {
    var digits := if s != "" && s[0] == '+' then s[1..] else s;
    if digits != "" && AllDigits(digits) then Some(ValueOf(digits)) else None
  }

  lemma ParseDecimal(n: nat)
    ensures ParseUnsigned(Decimal(n)) == Some(n)
  {
    ValueOfDecimal(n);
  }

  /** A signed number in decimal. */
  function Signed(n: int): (s: string)
    ensures s != ""
  {
    if n < 0 then "-" + Decimal(-n) else Decimal(n)
  }

  const I64_MIN := -0x8000_0000_0000_0000
  const I64_MAX := 0x7fff_ffff_ffff_ffff

  /** A 64-bit number, as Rust parses one: a sign if there is one, digits,
      and nothing past the range. */
  function ParseSigned(s: string): (r: Option<int>)
    ensures r.Some? ==> I64_MIN <= r.value <= I64_MAX
  {
    var signed := s != "" && (s[0] == '+' || s[0] == '-');
    var digits := if signed then s[1..] else s;
    if digits == "" || !AllDigits(digits) then None
    else
      var v: int := ValueOf(digits);
      var n := if s[0] == '-' then -v else v;
      if I64_MIN <= n <= I64_MAX then Some(n) else None
  }

  lemma ParseOfSigned(n: int)
    requires I64_MIN <= n <= I64_MAX
    ensures ParseSigned(Signed(n)) == Some(n)
    ensures '.' !in Signed(n)
  {
    hide Decimal, ValueOf;
    if n < 0 {
      ValueOfDecimal(-n);
      assert Signed(n)[1..] == Decimal(-n);
    } else {
      ValueOfDecimal(n);
      assert IsDigit(Decimal(n)[0]);
    }
  }

  /** Number text with one way to be written: no plus, no leading nought, and
      no minus before a nought. */
  predicate IsPlain(s: string) {
    var body := if s != "" && s[0] == '-' then s[1..] else s;
    && body != "" && AllDigits(body)
    && (body[0] == '0' ==> body == "0" && s == body)
  }

  /** Printing what was parsed gives the text back exactly when it was plain. */
  lemma SignedOfParse(s: string)
    requires ParseSigned(s).Some?
    ensures Signed(ParseSigned(s).value) == s <==> IsPlain(s)
  {
    if IsPlain(s) {
      PlainPrints(s);
    }
    if Signed(ParseSigned(s).value) == s {
      SignedIsPlain(ParseSigned(s).value);
    }
  }

  lemma PlainPrints(s: string)
    requires ParseSigned(s).Some? && IsPlain(s)
    ensures Signed(ParseSigned(s).value) == s
  {
    hide Decimal, ValueOf;
    var body := if s[0] == '-' then s[1..] else s;
    assert s[0] == '-' ==> s == "-" + body;
    assert s[0] != '-' ==> IsDigit(s[0]);
    DecimalOfValue(body);
    ValueOfBound(body);
  }

  lemma SignedIsPlain(n: int)
    ensures IsPlain(Signed(n))
  {
    hide Decimal;
    if n < 0 {
      assert Signed(n)[1..] == Decimal(-n);
    } else {
      assert IsDigit(Decimal(n)[0]);
      assert n == 0 ==> |Decimal(n)| == 1 && Decimal(n) == [Decimal(n)[0]];
    }
  }

  // ---- splitting -----------------------------------------------------------

  function IndexOf(s: string, c: char): (i: int)
    ensures -1 <= i < |s|
    ensures i >= 0 ==> s[i] == c && c !in s[..i]
    ensures i < 0 <==> c !in s
  {
    if s == "" then -1
    else if s[0] == c then 0
    else
      var i := IndexOf(s[1..], c);
      assert s == [s[0]] + s[1..];
      assert i >= 0 ==> s[..i + 1] == [s[0]] + s[1..][..i];
      if i < 0 then -1 else i + 1
  }

  lemma {:induction false} IndexAfter(a: string, c: char, b: string)
    requires c !in a
    ensures IndexOf(a + [c] + b, c) == |a|
  {
    var s := a + [c] + b;
    if a != "" {
      assert s[0] == a[0];
      assert s[1..] == a[1..] + [c] + b;
      IndexAfter(a[1..], c, b);
    }
  }

  /** The pieces of `s` between the separators, empty ones included. */
  function Split(s: string, sep: char): (parts: seq<string>)
    ensures parts != []
  {
    var i := IndexOf(s, sep);
    if i < 0 then [s] else [s[..i]] + Split(s[i + 1..], sep)
  }

  lemma SplitCons(a: string, sep: char, b: string)
    requires sep !in a
    ensures Split(a + [sep] + b, sep) == [a] + Split(b, sep)
  {
    var s := a + [sep] + b;
    IndexAfter(a, sep, b);
    assert s[..|a|] == a && s[|a| + 1..] == b;
  }

  /** White space, as Unicode has it. */
  predicate IsSpace(c: char) {
    var n := c as int;
    || 9 <= n <= 13 || n == 32 || n == 0x85 || n == 0xA0 || n == 0x1680
    || 0x2000 <= n <= 0x200A || n == 0x2028 || n == 0x2029 || n == 0x202F || n == 0x205F || n == 0x3000
  }

  function TrimStart(s: string): (t: string)
    ensures t != "" ==> !IsSpace(t[0])
    ensures |t| <= |s|
  {
    if s != "" && IsSpace(s[0]) then TrimStart(s[1..]) else s
  }

  function TrimEnd(s: string): (t: string)
    ensures t <= s
    ensures t != "" ==> !IsSpace(t[|t| - 1])
  {
    if s != "" && IsSpace(s[|s| - 1]) then TrimEnd(s[..|s| - 1]) else s
  }

  function Trim(s: string): string {
    TrimEnd(TrimStart(s))
  }

  lemma TrimNothing(s: string)
    requires s == "" || (!IsSpace(s[0]) && !IsSpace(s[|s| - 1]))
    ensures Trim(s) == s
  {}

  predicate AllSpaces(s: string) {
    forall i :: 0 <= i < |s| ==> IsSpace(s[i])
  }

  /** Trimming takes away the space around a text and nothing of it. */
  lemma TrimAround(a: string, s: string, b: string)
    requires AllSpaces(a) && AllSpaces(b) && s != "" && !IsSpace(s[0]) && !IsSpace(s[|s| - 1])
    ensures Trim(a + s + b) == s
  {
    TrimStartOf(a, s + b);
    assert a + s + b == a + (s + b);
    TrimEndOf(s, b);
  }

  lemma {:induction false} TrimStartOf(a: string, s: string)
    requires AllSpaces(a) && s != "" && !IsSpace(s[0])
    ensures TrimStart(a + s) == s
    decreases |a|
  {
    if a == "" {
      assert a + s == s;
    } else {
      assert (a + s)[0] == a[0] && (a + s)[1..] == a[1..] + s;
      TrimStartOf(a[1..], s);
    }
  }

  lemma {:induction false} TrimEndOf(s: string, b: string)
    requires AllSpaces(b) && s != "" && !IsSpace(s[|s| - 1])
    ensures TrimEnd(s + b) == s
    decreases |b|
  {
    if b == "" {
      assert s + b == s;
    } else {
      var t := s + b;
      assert t[|t| - 1] == b[|b| - 1] && t[..|t| - 1] == s + b[..|b| - 1];
      TrimEndOf(s, b[..|b| - 1]);
    }
  }

  /** A text that begins without space keeps what it begins with. */
  lemma TrimKeepsStart(a: string, b: string)
    requires a != "" && !IsSpace(a[0]) && !IsSpace(a[|a| - 1])
    ensures a <= Trim(a + b)
  {
    assert TrimStart(a + b) == a + b;
    TrimEndKeeps(a, b);
  }

  lemma {:induction false} TrimEndKeeps(a: string, b: string)
    requires a != "" && !IsSpace(a[|a| - 1])
    ensures a <= TrimEnd(a + b)
    decreases |b|
  {
    var t := a + b;
    if b == "" {
      assert t == a;
    } else if IsSpace(t[|t| - 1]) {
      assert t[..|t| - 1] == a + b[..|b| - 1];
      TrimEndKeeps(a, b[..|b| - 1]);
    }
  }

  /** Splitting loses nothing but the separators. */
  lemma {:induction false} SplitJoins(s: string, sep: char)
    ensures Joined(Split(s, sep), sep) == s
    ensures forall p :: p in Split(s, sep) ==> sep !in p
    decreases |s|
  {
    var i := IndexOf(s, sep);
    if i >= 0 {
      SplitJoins(s[i + 1..], sep);
      assert s == s[..i] + [sep] + s[i + 1..];
      assert Split(s, sep)[1..] == Split(s[i + 1..], sep);
    }
  }

  function Joined(parts: seq<string>, sep: char): string
    requires parts != []
  {
    if |parts| == 1 then parts[0] else parts[0] + [sep] + Joined(parts[1..], sep)
  }

  // ---- the order of strings ---------------------------------------------------

  predicate Before(a: string, b: string) {
    b != "" && (a == "" || a[0] < b[0] || (a[0] == b[0] && Before(a[1..], b[1..])))
  }

  /** It is the order of dictionaries: a text comes before any that goes on from it, and
      two that part are as the characters they part at. */
  lemma {:induction false} BeforeParts(common: string, a: string, b: string)
    ensures b != "" ==> Before(common, common + b)
    ensures a != "" && b != "" && a[0] != b[0] ==> (Before(common + a, common + b) <==> a[0] < b[0])
    decreases |common|
  {
    if common == "" {
      assert common + a == a && common + b == b;
    } else {
      assert (common + a)[1..] == common[1..] + a && (common + b)[1..] == common[1..] + b;
      BeforeParts(common[1..], a, b);
    }
  }

  lemma {:induction false} BeforeTotal(a: string, b: string)
    ensures Before(a, b) || a == b || Before(b, a)
    ensures !(Before(a, b) && Before(b, a))
    ensures !(a == b && Before(a, b))
  {
    if a != "" && b != "" {
      BeforeTotal(a[1..], b[1..]);
      assert a == [a[0]] + a[1..] && b == [b[0]] + b[1..];
    }
  }

  lemma {:induction false} BeforeTransitive(a: string, b: string, c: string)
    requires Before(a, b) && Before(b, c)
    ensures Before(a, c)
  {
    if a != "" && a[0] == b[0] == c[0] {
      BeforeTransitive(a[1..], b[1..], c[1..]);
    }
  }
}
