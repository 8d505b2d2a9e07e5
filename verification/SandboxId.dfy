/** The E2B-style sandbox id of `master/e2b.rs`: random bytes cut into 5-bit
    digits by a loop that shifts an accumulator.

    `Bits` is the byte string's bits, most significant first, which is how
    base32 (section 6 of RFC 4648) defines its digits. */
module SandboxId {
  import opened Powers
  import opened Wrappers

  const LENGTH := 26
  const ALPHABET := "abcdefghijklmnopqrstuvwxyz234567"

  type Bit = b: nat | b < 2

  // ---- bits and what they are worth -------------------------------------------

  /** A bit string as a number. */
  function Value(bits: seq<Bit>): nat {
    if bits == [] then 0 else 2 * Value(bits[..|bits| - 1]) + bits[|bits| - 1]
  }

  function BitsOf(n: nat, width: nat): (bits: seq<Bit>)
    ensures |bits| == width
  {
    if width == 0 then [] else BitsOf(n / 2, width - 1) + [n % 2]
  }

  /** All the bits of a byte string, in order. */
  function Bits(raw: seq<Byte>): (bits: seq<Bit>)
    ensures |bits| == 8 * |raw|
  {
    if raw == [] then [] else Bits(raw[..|raw| - 1]) + BitsOf(raw[|raw| - 1] as nat, 8)
  }

  lemma {:induction false} ValueBound(bits: seq<Bit>)
    ensures Value(bits) < Pow2(|bits|)
  {
    if bits != [] { ValueBound(bits[..|bits| - 1]); }
  }

  lemma ValueSnoc(a: seq<Bit>, bit: Bit)
    ensures Value(a + [bit]) == 2 * Value(a) + bit
  {
    assert (a + [bit])[..|a|] == a;
  }

  lemma {:induction false} ValueConcat(a: seq<Bit>, b: seq<Bit>)
    ensures Value(a + b) == Value(a) * Pow2(|b|) + Value(b)
  {
    hide Value;
    if b == [] {
      assert a + b == a;
      assert Value(b) == 0 by { ValueEmpty(); }
    } else {
      var rest, last := b[..|b| - 1], b[|b| - 1];
      assert b == rest + [last] && a + b == (a + rest) + [last];
      ValueSnoc(a + rest, last);
      ValueSnoc(rest, last);
      ValueConcat(a, rest);
      Doubled(Value(a), Pow2(|rest|));
    }
  }

  lemma ValueEmpty()
    ensures Value([]) == 0
  {}

  lemma Doubled(v: nat, p: nat)
    ensures 2 * (v * p) == v * (2 * p)
  {}

  lemma {:induction false} ValueOfBits(n: nat, width: nat)
    requires n < Pow2(width)
    ensures Value(BitsOf(n, width)) == n
  {
    if width > 0 {
      ValueOfBits(n / 2, width - 1);
      assert BitsOf(n, width)[..width - 1] == BitsOf(n / 2, width - 1);
    }
  }

  lemma {:induction false} ValueInjective(a: seq<Bit>, b: seq<Bit>)
    requires |a| == |b| && Value(a) == Value(b)
    ensures a == b
  {
    if a != [] {
      ValueInjective(a[..|a| - 1], b[..|b| - 1]);
      assert a == a[..|a| - 1] + [a[|a| - 1]];
      assert b == b[..|b| - 1] + [b[|b| - 1]];
    }
  }

  // ---- the digits ---------------------------------------------------------------

  /** How many whole digits there are in `raw`, up to an id's length. */
  function DigitCount(raw: seq<Byte>): nat {
    if 8 * |raw| >= 5 * LENGTH then LENGTH else 8 * |raw| / 5
  }

  /** The `k`-th base32 digit: the bits from `5k` to `5k + 5`. */
  function Digit(raw: seq<Byte>, k: nat): (d: nat)
    requires 5 * k + 5 <= 8 * |raw|
  {
    Value(Bits(raw)[5 * k..5 * k + 5])
  }

  lemma DigitBelow32(raw: seq<Byte>, k: nat)
    requires 5 * k + 5 <= 8 * |raw|
    ensures Digit(raw, k) < 32
  {
    ValueBound(Bits(raw)[5 * k..5 * k + 5]);
    Pow2Small();
  }

  /** What is left of the accumulator after the digits so far: the bits
      between the last digit and the last byte taken. */
  ghost function Pending(raw: seq<Byte>, taken: nat, out: nat): seq<Bit>
    requires taken <= |raw| && 5 * out <= 8 * taken
  {
    Bits(raw[..taken])[5 * out..]
  }

  lemma {:induction false} BitsPrefix(raw: seq<Byte>, taken: nat)
    requires taken <= |raw|
    ensures Bits(raw[..taken]) == Bits(raw)[..8 * taken]
    decreases |raw| - taken
  {
    if taken < |raw| {
      BitsPrefix(raw, taken + 1);
      BitsTake(raw, taken);
    } else {
      assert raw[..taken] == raw;
    }
  }

  lemma BitsTake(raw: seq<Byte>, taken: nat)
    requires taken < |raw|
    ensures Bits(raw[..taken + 1]) == Bits(raw[..taken]) + BitsOf(raw[taken] as nat, 8)
  {
    assert raw[..taken + 1][..taken] == raw[..taken];
  }

  /** Shifting a byte in appends its bits. */
  lemma ShiftIn(raw: seq<Byte>, taken: nat, out: nat, acc: nat)
    requires taken < |raw| && 5 * out <= 8 * taken && acc == Value(Pending(raw, taken, out))
    ensures acc * 256 + raw[taken] as nat == Value(Pending(raw, taken + 1, out))
  {
    var b := raw[taken] as nat;
    BitsTake(raw, taken);
    assert Pending(raw, taken + 1, out) == Pending(raw, taken, out) + BitsOf(b, 8);
    ValueConcat(Pending(raw, taken, out), BitsOf(b, 8));
    Pow2Small();
    ValueOfBits(b, 8);
  }

  /** The next five pending bits are the accumulator's top ones, modulo 32. */
  lemma ShiftOut(raw: seq<Byte>, taken: nat, out: nat, acc: nat, bits: nat)
    requires taken <= |raw| && 5 * out + 5 <= 8 * taken && bits == 8 * taken - 5 * out - 5
    requires Low(acc, bits + 5) == Value(Pending(raw, taken, out))
    ensures Shr(acc, bits) % 32 == Digit(raw, out)
    ensures Low(acc, bits) == Value(Pending(raw, taken, out + 1))
  {
    hide Value, Bits, Pow2, Shr, Low;
    var top, rest := SplitPending(raw, taken, out);
    ValueConcat(top, rest);
    ValueBound(top);
    ValueBound(rest);
    Pow2Small();
    ShiftNumbers(acc, Value(top), Value(rest), bits);
  }

  /** The pending bits are a digit's, then those still pending after it. */
  lemma SplitPending(raw: seq<Byte>, taken: nat, out: nat) returns (top: seq<Bit>, rest: seq<Bit>)
    requires taken <= |raw| && 5 * out + 5 <= 8 * taken
    ensures Pending(raw, taken, out) == top + rest && |top| == 5 && |rest| == 8 * taken - 5 * out - 5
    ensures top == Bits(raw)[5 * out..5 * out + 5]
    ensures rest == Pending(raw, taken, out + 1)
  {
    var p := Pending(raw, taken, out);
    top, rest := p[..5], p[5..];
    BitsPrefix(raw, taken);
  }

  lemma ShiftNumbers(acc: nat, top: nat, rest: nat, bits: nat)
    requires top < 32 && rest < Pow2(bits) && Low(acc, bits + 5) == top * Pow2(bits) + rest
    ensures Shr(acc, bits) % 32 == top && Low(acc, bits) == rest
  {
    hide Shr, Low, Pow2;
    var k := Shr(acc, bits + 5);
    ShrLow(acc, bits + 5);
    Pow2Small();
    Pow2Add(bits, 5);
    Distribute(k, top, Pow2(bits), Pow2(bits + 5));
    ShrLowUnique(acc, bits, 32 * k + top, rest);
  }

  lemma Distribute(k: nat, top: nat, p: nat, m: nat)
    requires m == p * 32
    ensures k * m + top * p == (32 * k + top) * p
  {}

  // ---- the loop -------------------------------------------------------------------

  predicate IsDigitsOf(out: string, raw: seq<Byte>)
    requires 5 * |out| <= 8 * |raw|
  {
    forall k :: 0 <= k < |out| ==> Digit(raw, k) < 32 && out[k] == ALPHABET[Digit(raw, k)]
  }

  /** The id made of `raw`'s first 26 base32 digits. The source feeds it 32
      random bytes; the loop is the same for any number of them. */
  method NewSandboxId(raw: seq<Byte>) returns (out: string)
    ensures |out| == DigitCount(raw) && 5 * |out| <= 8 * |raw|
    ensures IsDigitsOf(out, raw)
    ensures |raw| == 32 ==> |out| == 26
  {
    hide Digit, Pow2, Pending, Shr, Low;
    out := "";
    var acc, bits := 0, 0;
    var i := 0;
    Start(raw);
    while i < |raw|
      invariant 0 <= i <= |raw| && |out| <= LENGTH && 5 * |out| <= 8 * i
      invariant bits == 8 * i - 5 * |out|
      invariant |out| < LENGTH ==> bits < 5
      invariant |out| < LENGTH ==> acc == Value(Pending(raw, i, |out|)) && acc < Pow2(bits)
      invariant IsDigitsOf(out, raw)
    {
      if |out| == LENGTH { break; }
      ShiftIn(raw, i, |out|, acc);
      AccBound(acc, bits, raw[i] as nat);
      acc := acc * 256 + raw[i] as nat;
      assert acc < 4096;
      i := i + 1;
      bits := bits + 8;
      ghost var shifted := acc;
      while bits >= 5 && |out| < LENGTH
        invariant |out| <= LENGTH && 5 * |out| <= 8 * i && bits == 8 * i - 5 * |out|
        invariant Low(acc, bits) == Value(Pending(raw, i, |out|))
        invariant IsDigitsOf(out, raw)
        decreases bits
      {
        bits := bits - 5;
        ShiftOut(raw, i, |out|, acc, bits);
        DigitBelow32(raw, |out|);
        out := out + [ALPHABET[Shr(acc, bits) % 32]];
      }
      ShrLow(acc, bits);
      acc := Low(acc, bits);
    }
  }

  lemma Start(raw: seq<Byte>)
    ensures Value(Pending(raw, 0, 0)) == 0 && 0 < Pow2(0)
  {
    assert raw[..0] == [];
  }

  /** The accumulator never holds more than twelve bits. */
  lemma AccBound(acc: nat, bits: nat, b: nat)
    requires bits < 5 && acc < Pow2(bits) && b < 256
    ensures acc * 256 + b < 4096
    ensures Low(acc * 256 + b, bits + 8) == acc * 256 + b
  {
    hide Shr, Low, Pow2;
    Pow2Small();
    if bits < 4 { Pow2Monotone(bits, 4); }
    Pow2Add(bits, 8);
    ShrLowUnique(acc * 256 + b, bits + 8, 0, acc * 256 + b);
  }

  // ---- what an id says about the bytes it came from -----------------------------------

  /** The 130 bits an id is made of. */
  function IdBits(raw: seq<Byte>): seq<Bit> {
    Bits(raw)[..5 * DigitCount(raw)]
  }

  /** Which digit a character stands for. */
  function DigitOf(c: char): int {
    if c >= 'a' then c as int - 'a' as int else c as int - '2' as int + 26
  }

  lemma AlphabetDecodes(d: nat)
    requires d < 32
    ensures |ALPHABET| == 32 && DigitOf(ALPHABET[d]) == d
  {}

  lemma SliceOfPrefix(bits: seq<Bit>, n: nat, i: nat)
    requires i + 5 <= n <= |bits|
    ensures bits[..n][i..i + 5] == bits[i..i + 5]
  {}

  /** Two random strings give one id exactly when their first 130 bits are
      the same: no bit is dropped and none is used twice. */
  lemma IdsInjective(raw1: seq<Byte>, raw2: seq<Byte>, id1: string, id2: string)
    requires |raw1| == |raw2| && |id1| == |id2| == DigitCount(raw1)
    requires IsDigitsOf(id1, raw1) && IsDigitsOf(id2, raw2)
    ensures id1 == id2 <==> IdBits(raw1) == IdBits(raw2)
  {
    hide Value, ALPHABET, Bits;
    var n := |id1|;
    var x, y := IdBits(raw1), IdBits(raw2);
    forall k | 0 <= k < n
      ensures id1[k] == id2[k] <==> x[5 * k..5 * k + 5] == y[5 * k..5 * k + 5]
    {
      var a, b := Bits(raw1)[5 * k..5 * k + 5], Bits(raw2)[5 * k..5 * k + 5];
      SliceOfPrefix(Bits(raw1), 5 * n, 5 * k);
      SliceOfPrefix(Bits(raw2), 5 * n, 5 * k);
      AlphabetDecodes(Digit(raw1, k));
      AlphabetDecodes(Digit(raw2, k));
      if Value(a) == Value(b) { ValueInjective(a, b); }
    }
    if id1 == id2 {
      forall i | 0 <= i < 5 * n ensures x[i] == y[i] {
        var k := i / 5;
        assert id1[k] == id2[k];
        assert x[i] == x[5 * k..5 * k + 5][i - 5 * k];
      }
    }
  }
}
