/** Little-endian integers and byte files. */
module Bytes {
  type byte = b: int | 0 <= b < 256

  const TWO_63: int := 0x8000_0000_0000_0000
  const TWO_64: int := 0x1_0000_0000_0000_0000

  function Pow256(k: nat): nat {
    if k == 0 then 1 else 256 * Pow256(k - 1)
  }

  /** The low `k` bytes of `n`, least significant first. */
  function LittleEndian(n: nat, k: nat): (s: seq<byte>)
    ensures |s| == k
  {
    if k == 0 then [] else [n % 256] + LittleEndian(n / 256, k - 1)
  }

  function FromLittleEndian(s: seq<byte>): nat {
    if s == [] then 0 else s[0] + 256 * FromLittleEndian(s[1..])
  }

  lemma {:induction false} LittleEndianRoundTrip(n: nat, k: nat)
    requires n < Pow256(k)
    ensures FromLittleEndian(LittleEndian(n, k)) == n
    decreases k
  {
    if k > 0 {
      assert n / 256 < Pow256(k - 1);
      LittleEndianRoundTrip(n / 256, k - 1);
      assert LittleEndian(n, k)[1..] == LittleEndian(n / 256, k - 1);
    }
  }

  lemma QuotientIs(n: nat, d: nat, q: nat, rest: nat)
    requires n == q * d + rest && rest < d
    ensures n / d == q
  {
    var p, r := n / d, n % d;
    assert n == p * d + r;
    SameQuotient(p, q, d, r, rest);
  }

  lemma SameQuotient(p: nat, q: nat, d: nat, r: nat, rest: nat)
    requires r < d && rest < d && p * d + r == q * d + rest
    ensures p == q
  {
    assert (p - q) * d == rest - r;
    if p > q {
      AtLeastOnce(p - q, d);
    } else if q > p {
      assert (q - p) * d == r - rest;
      AtLeastOnce(q - p, d);
    }
  }

  lemma AtLeastOnce(k: nat, d: nat)
    requires k >= 1
    ensures k * d >= d
  {
    assert (k - 1) * d >= 0;
  }

  lemma DividedTwice(n: nat, d: nat)
    requires d > 0
    ensures n / (256 * d) == n / 256 / d
  {
    var m := n / 256;
    var q, r := m / d, m % d;
    assert n == q * (256 * d) + (256 * r + n % 256) by {
      assert m == q * d + r;
      assert 256 * (q * d) == q * (256 * d);
    }
    QuotientIs(n, 256 * d, q, 256 * r + n % 256);
  }

  lemma {:induction false} Pow256Positive(k: nat)
    ensures Pow256(k) > 0
  {
    if k > 0 {
      Pow256Positive(k - 1);
    }
  }

  /** The byte at `i` is the digit of 256 to the `i`. */
  lemma {:induction false} LittleEndianDigit(n: nat, k: nat, i: nat)
    requires i < k
    ensures Pow256(i) > 0 && LittleEndian(n, k)[i] == n / Pow256(i) % 256
    decreases k
  {
    Pow256Positive(i);
    if i > 0 {
      LittleEndianDigit(n / 256, k - 1, i - 1);
      DividedTwice(n, Pow256(i - 1));
    }
  }

  /** Any bytes are the digits of the number they stand for. */
  lemma {:induction false} DigitsRoundTrip(s: seq<byte>)
    ensures LittleEndian(FromLittleEndian(s), |s|) == s
    decreases |s|
  {
    if s != [] {
      DigitsRoundTrip(s[1..]);
    }
  }

  /** A word is zero exactly when all its bytes are. */
  lemma {:induction false} ZeroWord(s: seq<byte>)
    ensures FromLittleEndian(s) == 0 <==> forall i :: 0 <= i < |s| ==> s[i] == 0
    decreases |s|
  {
    if s != [] {
      ZeroWord(s[1..]);
      assert forall i :: 1 <= i < |s| ==> s[i] == s[1..][i - 1];
      if FromLittleEndian(s[1..]) != 0 {
        var i :| 0 <= i < |s[1..]| && s[1..][i] != 0;
        assert s[i + 1] != 0;
      }
    }
  }

  lemma {:induction false} FromLittleEndianBound(s: seq<byte>)
    ensures FromLittleEndian(s) < Pow256(|s|)
    decreases |s|
  {
    if s != [] {
      FromLittleEndianBound(s[1..]);
    }
  }

  lemma Pow256Values()
    ensures Pow256(4) == 0x1_0000_0000 && Pow256(8) == TWO_64
  {
    assert Pow256(4) == 256 * (256 * (256 * (256 * Pow256(0))));
    assert Pow256(8) == 256 * (256 * (256 * (256 * Pow256(4))));
  }

  predicate FitsInt64(x: int) { -TWO_63 <= x < TWO_63 }

  /** binary.Write of an int64: two's complement. */
  function Int64(x: int): (s: seq<byte>)
    ensures |s| == 8
  {
    LittleEndian(x % TWO_64, 8)
  }

  function FromInt64(s: seq<byte>): int
    requires |s| == 8
  {
    var n := FromLittleEndian(s);
    if n >= TWO_63 then n - TWO_64 else n
  }

  lemma Int64RoundTrip(x: int)
    requires FitsInt64(x)
    ensures FromInt64(Int64(x)) == x
  {
    Pow256Values();
    LittleEndianRoundTrip(x % TWO_64, 8);
  }

  lemma Int64Digits(s: seq<byte>)
    requires |s| == 8
    ensures Int64(FromInt64(s)) == s
  {
    Pow256Values();
    FromLittleEndianBound(s);
    DigitsRoundTrip(s);
    assert FromInt64(s) % TWO_64 == FromLittleEndian(s);
  }

  /** Minus one is all ones, and what is not negative has its digits. */
  lemma Int64Bytes(x: int)
    requires FitsInt64(x)
    ensures x == -1 ==> Int64(x) == [0xFF, 0xFF, 0xFF, 0xFF, 0xFF, 0xFF, 0xFF, 0xFF]
    ensures x >= 0 ==> forall i :: 0 <= i < 8 ==> Pow256(i) > 0 && Int64(x)[i] == x / Pow256(i) % 256
  {
    if x == -1 {
      var s: seq<byte> := [0xFF, 0xFF, 0xFF, 0xFF, 0xFF, 0xFF, 0xFF, 0xFF];
      AllOnes(s);
      Int64Digits(s);
    } else if x >= 0 {
      Digits(x);
    }
  }

  lemma Digits(x: nat)
    requires x < TWO_63
    ensures forall i :: 0 <= i < 8 ==> Pow256(i) > 0 && Int64(x)[i] == x / Pow256(i) % 256
  {
    assert Int64(x) == LittleEndian(x, 8);
    forall i | 0 <= i < 8
      ensures Pow256(i) > 0 && LittleEndian(x, 8)[i] == x / Pow256(i) % 256
    {
      LittleEndianDigit(x, 8, i);
    }
  }

  lemma AllOnes(s: seq<byte>)
    requires s == [0xFF, 0xFF, 0xFF, 0xFF, 0xFF, 0xFF, 0xFF, 0xFF]
    ensures FromInt64(s) == -1
  {
    assert FromLittleEndian(s[4..]) == 0xFFFF_FFFF by {
      assert s[4..] == [0xFF, 0xFF, 0xFF, 0xFF];
      FourOnes();
    }
    FourDigits(s);
  }

  lemma FourOnes()
    ensures FromLittleEndian([0xFF, 0xFF, 0xFF, 0xFF]) == 0xFFFF_FFFF
  {
    var s: seq<byte> := [0xFF, 0xFF, 0xFF, 0xFF];
    assert s[1..] == [0xFF, 0xFF, 0xFF] && s[1..][1..] == [0xFF, 0xFF] && s[1..][1..][1..] == [0xFF];
    assert s[1..][1..][1..][1..] == [];
  }

  lemma FourDigits(s: seq<byte>)
    requires |s| >= 4
    ensures FromLittleEndian(s) == s[0] + 256 * s[1] + 0x1_0000 * s[2] + 0x100_0000 * s[3] +
                                   0x1_0000_0000 * FromLittleEndian(s[4..])
  {
    assert s[1..][1..] == s[2..] && s[2..][1..] == s[3..] && s[3..][1..] == s[4..];
  }

  lemma FromInt64Fits(s: seq<byte>)
    requires |s| == 8
    ensures FitsInt64(FromInt64(s))
  {
    Pow256Values();
    FromLittleEndianBound(s);
  }

  // ----- files -----

  function Zeros(n: nat): (s: seq<byte>)
    ensures |s| == n && forall i :: 0 <= i < n ==> s[i] == 0
  {
    seq(n, _ => 0)
  }

  /** ftruncate: cut, or extend with zeros. */
  function Resized(s: seq<byte>, n: nat): (t: seq<byte>)
    ensures |t| == n
    ensures forall i :: 0 <= i < n ==> t[i] == if i < |s| then s[i] else 0
  {
    if n <= |s| then s[..n] else s + Zeros(n - |s|)
  }

  /** pwrite: beyond the end, the gap reads as zeros. */
  function Written(s: seq<byte>, off: nat, data: seq<byte>): (t: seq<byte>)
    ensures forall i :: 0 <= i < |t| ==>
              t[i] == if off <= i < off + |data| then data[i - off] else if i < |s| then s[i] else 0
    ensures |t| == if data == [] then |s| else if off + |data| > |s| then off + |data| else |s|
  {
    if data == [] then s
    else
      var base := if |s| < off + |data| then Resized(s, off + |data|) else s;
      base[..off] + data + base[off + |data|..]
  }

  class File {
    var bytes: seq<byte>

    constructor ()
      ensures bytes == []
    {
      bytes := [];
    }

    method Truncate(n: nat)
      modifies this
      ensures bytes == Resized(old(bytes), n)
    {
      if n <= |bytes| {
        bytes := bytes[..n];
      } else {
        bytes := bytes + Zeros(n - |bytes|);
      }
    }

    method WriteAt(off: nat, data: seq<byte>)
      modifies this
      ensures bytes == Written(old(bytes), off, data)
    {
      bytes := Written(bytes, off, data);
    }
  }
}
