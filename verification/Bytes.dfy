/** Bytes, big-endian integers and the bytewise exclusive or, over unbounded integers. */
module Bytes {
  import opened Multiples

  type Byte = b: int | 0 <= b < 256

  const U64: nat := 0x1_0000_0000_0000_0000
  const U32: nat := 0x1_0000_0000

  /** `256` to the `k`: the number of values `k` big-endian bytes can carry. */
  function Values(k: nat): (v: nat)
    ensures v >= 1
  {
    if k == 0 then 1 else 256 * Values(k - 1)
  }

  lemma ValuesOfWords()
    ensures Values(4) == U32 && Values(8) == U64
  {
    assert Values(2) == 0x1_0000;
    assert Values(3) == 0x100_0000;
    assert Values(4) == U32;
    assert Values(5) == 0x100_0000_0000;
    assert Values(6) == 0x1_0000_0000_0000;
    assert Values(7) == 0x100_0000_0000_0000;
  }

  /** The low `k` bytes of `n`, most significant first (`to_be_bytes`). */
  function ToBe(n: nat, k: nat): (s: seq<Byte>)
    ensures |s| == k
  {
    if k == 0 then [] else ToBe(n / 256, k - 1) + [n % 256]
  }

  /** The value of big-endian bytes (`from_be_bytes`). */
  function FromBe(s: seq<Byte>): nat {
    if |s| == 0 then 0 else FromBe(s[..|s| - 1]) * 256 + s[|s| - 1]
  }

  lemma {:induction false} FromBeBound(s: seq<Byte>)
    ensures FromBe(s) < Values(|s|)
  {
    if |s| == 0 {
    } else {
      FromBeBound(s[..|s| - 1]);
    }
  }

  /** Reading back what was written: exact below the word's range. */
  lemma {:induction false} BeRoundTrip(n: nat, k: nat)
    requires n < Values(k)
    ensures FromBe(ToBe(n, k)) == n
  {
    if k == 0 {
    } else {
      BeRoundTrip(n / 256, k - 1);
      assert ToBe(n, k)[..k - 1] == ToBe(n / 256, k - 1);
    }
  }

  /** Writing back what was read: every byte string is canonical. */
  lemma {:induction false} BeCanonical(s: seq<Byte>)
    ensures ToBe(FromBe(s), |s|) == s
  {
    if |s| == 0 {
    } else {
      BeCanonical(s[..|s| - 1]);
      assert s == s[..|s| - 1] + [s[|s| - 1]];
    }
  }

  lemma {:induction false} ToBeDigit(n: nat, k: nat, i: nat)
    requires i < k
    ensures ToBe(n, k)[i] == n / Values(k - 1 - i) % 256
  {
    if i == k - 1 {
    } else {
      ToBeDigit(n / 256, k - 1, i);
      DivideTwice(n, 256, Values(k - 2 - i));
    }
  }

  lemma Regroup(q: nat, a: nat, b: nat, r: nat)
    ensures a * (b * q + r) == (a * b) * q + a * r
  {
  }

  lemma Within(r: nat, a: nat, b: nat)
    requires r < b
    ensures a * r + a <= a * b
  {
    assert a * b == a * (r + 1) + a * (b - r - 1);
  }

  lemma TwoDigits(q: nat, r: nat, low: nat, a: nat, b: nat)
    requires r < b && low < a
    ensures var n := a * (b * q + r) + low;
            && a * b >= 1 && n / (a * b) == q && n % (a * b) == a * r + low
            && (a * r + low) / a == r && (a * r + low) % a == low
  {
    Regroup(q, a, b, r);
    Within(r, a, b);
    ModOf(a * b, q, a * r + low);
    ModOf(a, r, low);
  }

  lemma DivideTwice(n: nat, a: nat, b: nat)
    requires a >= 1 && b >= 1
    ensures a * b >= 1 && n / a / b == n / (a * b) && n / a % b == n % (a * b) / a && n % (a * b) % a == n % a
  {
    var m := n / a;
    TwoDigits(m / b, m % b, n % a, a, b);
    assert n == a * m + n % a && m == b * (m / b) + m % b;
  }

  /** Byte `i` of `k` is the digit of weight 256 to the `k - 1 - i`: the first byte is the most significant. */
  lemma BytesAreDigits(n: nat, k: nat)
    ensures forall i :: 0 <= i < k ==> ToBe(n, k)[i] == n / Values(k - 1 - i) % 256
  {
    forall i | 0 <= i < k
      ensures ToBe(n, k)[i] == n / Values(k - 1 - i) % 256
    {
      ToBeDigit(n, k, i);
    }
  }

  /** Four bytes as a number, most significant first. */
  function Word(a: nat, b: nat, c: nat, d: nat): nat {
    16777216 * a + 65536 * b + 256 * c + d
  }

  lemma FourBytes(s: seq<Byte>)
    requires |s| == 4
    ensures FromBe(s) == Word(s[0], s[1], s[2], s[3])
  {
    assert s[..3][..2] == s[..2] && s[..2][..1] == s[..1] && s[..1][..0] == [];
    assert FromBe(s[..1]) == s[0];
    assert FromBe(s[..2]) == FromBe(s[..1]) * 256 + s[1];
    assert FromBe(s[..3]) == FromBe(s[..2]) * 256 + s[2];
  }

  // ---- bits -------------------------------------------------------------------

  /** Bit `i` of `n`, counted from the lowest. */
  predicate Bit(n: nat, i: nat) {
    if i == 0 then n % 2 == 1 else Bit(n / 2, i - 1)
  }

  lemma BitShifts(n: nat, i: nat)
    ensures Bit(n, i + 8) == Bit(n / 256, i)
  {
    assert Bit(n, i + 8) == Bit(n / 2 / 2, i + 6);
    assert Bit(n / 4, i + 6) == Bit(n / 4 / 2 / 2, i + 4);
    assert Bit(n / 16, i + 4) == Bit(n / 16 / 2 / 2, i + 2);
    assert Bit(n / 64, i + 2) == Bit(n / 64 / 2 / 2, i);
  }

  lemma {:induction false} BitOfLow(n: nat, i: nat, k: nat)
    requires i < k
    ensures Bit(n, i) == Bit(n % Bits(k), i)
  {
    DivideTwice(n, 2, Bits(k - 1));
    if i == 0 {
    } else {
      BitOfLow(n / 2, i - 1, k - 1);
    }
  }

  /** Bit `i` of the digit of weight 256 to the `j` is bit `8 * j + i` of the number. */
  lemma {:induction false} BitOfDigit(n: nat, j: nat, i: nat)
    requires i < 8
    ensures Bit(n / Values(j) % 256, i) == Bit(n, 8 * j + i)
  {
    if j == 0 {
      assert Bits(4) == 16 && Bits(8) == 256;
      BitOfLow(n, i, 8);
    } else {
      DivideTwice(n, 256, Values(j - 1));
      BitOfDigit(n / 256, j - 1, i);
      BitShifts(n, 8 * (j - 1) + i);
    }
  }

  // ---- exclusive or -----------------------------------------------------------

  /** Exclusive or of the low `k` bits. */
  function XorBits(a: nat, b: nat, k: nat): (x: nat) {
    if k == 0 then 0 else (if a % 2 == b % 2 then 0 else 1) + 2 * XorBits(a / 2, b / 2, k - 1)
  }

  function Bits(k: nat): (b: nat)
    ensures b >= 1
  {
    if k == 0 then 1 else 2 * Bits(k - 1)
  }

  lemma {:induction false} XorBitsBound(a: nat, b: nat, k: nat)
    ensures XorBits(a, b, k) < Bits(k)
  {
    if k == 0 {
    } else {
      XorBitsBound(a / 2, b / 2, k - 1);
    }
  }

  lemma {:induction false} XorBitsCancel(a: nat, b: nat, k: nat)
    requires a < Bits(k)
    ensures XorBits(XorBits(a, b, k), b, k) == a
  {
    if k == 0 {
    } else {
      var x := XorBits(a, b, k);
      assert x / 2 == XorBits(a / 2, b / 2, k - 1);
      XorBitsCancel(a / 2, b / 2, k - 1);
    }
  }

  lemma {:induction false} XorBitsCommute(a: nat, b: nat, k: nat)
    ensures XorBits(a, b, k) == XorBits(b, a, k)
  {
    if k == 0 {
    } else {
      XorBitsCommute(a / 2, b / 2, k - 1);
    }
  }

  function Xor(a: Byte, b: Byte): Byte {
    XorBitsBound(a, b, 8);
    assert Bits(4) == 16 && Bits(8) == 256;
    XorBits(a, b, 8)
  }

  lemma XorCancel(a: Byte, b: Byte)
    ensures Xor(Xor(a, b), a) == b && Xor(Xor(a, b), b) == a
  {
    assert Bits(4) == 16 && Bits(8) == 256;
    XorBitsCancel(a, b, 8);
    XorBitsCommute(a, b, 8);
    XorBitsCancel(b, a, 8);
  }

  lemma {:induction false} XorBitsDiffer(a: nat, b: nat, k: nat, i: nat)
    requires i < k
    ensures Bit(XorBits(a, b, k), i) <==> Bit(a, i) != Bit(b, i)
  {
    var x := XorBits(a, b, k);
    assert x / 2 == XorBits(a / 2, b / 2, k - 1);
    if i == 0 {
    } else {
      XorBitsDiffer(a / 2, b / 2, k - 1, i - 1);
    }
  }

  lemma {:induction false} XorBitsWithNone(a: nat, k: nat)
    requires a < Bits(k)
    ensures XorBits(a, 0, k) == a && XorBits(a, a, k) == 0
  {
    if k == 0 {
    } else {
      XorBitsWithNone(a / 2, k - 1);
    }
  }

  /** What exclusive or is: nothing changes against zero, nothing is left against itself, and a bit is set where exactly
      one of the two has it. */
  lemma XorMeans(a: Byte, b: Byte)
    ensures Xor(a, 0) == a && Xor(a, a) == 0
    ensures forall i :: 0 <= i < 8 ==> (Bit(Xor(a, b), i) <==> Bit(a, i) != Bit(b, i))
  {
    assert Bits(4) == 16 && Bits(8) == 256;
    XorBitsWithNone(a, 8);
    forall i | 0 <= i < 8
      ensures Bit(Xor(a, b), i) <==> Bit(a, i) != Bit(b, i)
    {
      XorBitsDiffer(a, b, 8, i);
    }
  }
}
