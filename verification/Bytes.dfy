/** Byte strings: fixed-width integers in both byte orders, the minimal compact-size
    length code, and the prefix-freedom facts that every wire format here rests on. */
module Bytes {

  type byte = x: int | 0 <= x < 256

  function Pow256(w: nat): (p: nat)
    ensures p > 0
  {
    if w == 0 then 1 else 256 * Pow256(w - 1)
  }

  /** `n` in `w` little-endian bytes, truncating as `to_le_bytes` after a narrowing cast. */
  function LE(n: nat, w: nat): (s: seq<byte>)
    ensures |s| == w
  {
    if w == 0 then [] else [n % 256] + LE(n / 256, w - 1)
  }

  function FromLE(s: seq<byte>): nat {
    if s == [] then 0 else s[0] + 256 * FromLE(s[1..])
  }

  /** `n` in `w` big-endian bytes. */
  function BE(n: nat, w: nat): (s: seq<byte>)
    ensures |s| == w
  {
    if w == 0 then [] else BE(n / 256, w - 1) + [n % 256]
  }

  function FromBE(s: seq<byte>): nat {
    if s == [] then 0 else 256 * FromBE(s[..|s| - 1]) + s[|s| - 1]
  }

  lemma {:induction false} LERoundTrip(n: nat, w: nat)
    requires n < Pow256(w)
    ensures FromLE(LE(n, w)) == n
  {
    if w > 0 {
      LERoundTrip(n / 256, w - 1);
      assert LE(n, w)[1..] == LE(n / 256, w - 1);
    }
  }

  lemma {:induction false} FromLERoundTrip(s: seq<byte>)
    ensures FromLE(s) < Pow256(|s|)
    ensures LE(FromLE(s), |s|) == s
  {
    if s != [] {
      FromLERoundTrip(s[1..]);
      assert s == [s[0]] + s[1..];
      assert FromLE(s) % 256 == s[0] && FromLE(s) / 256 == FromLE(s[1..]);
    }
  }

  lemma {:induction false} BERoundTrip(n: nat, w: nat)
    requires n < Pow256(w)
    ensures FromBE(BE(n, w)) == n
  {
    if w > 0 {
      BERoundTrip(n / 256, w - 1);
      assert BE(n, w)[..w - 1] == BE(n / 256, w - 1);
    }
  }

  lemma {:induction false} FromBERoundTrip(s: seq<byte>)
    ensures FromBE(s) < Pow256(|s|)
    ensures BE(FromBE(s), |s|) == s
  {
    if s != [] {
      FromBERoundTrip(s[..|s| - 1]);
      assert s == s[..|s| - 1] + [s[|s| - 1]];
    }
  }

  /** Byte `i` is the digit of weight 256^i, counted from the front in little-endian order. */
  lemma {:induction false} LEDigit(n: nat, w: nat, i: nat)
    requires i < w
    ensures LE(n, w)[i] == n / Pow256(i) % 256
  {
    if i > 0 {
      LEDigit(n / 256, w - 1, i - 1);
      DivideOn(n, Pow256(i - 1));
    }
  }

  /** And from the back in big-endian order. */
  lemma {:induction false} BEDigit(n: nat, w: nat, i: nat)
    requires i < w
    ensures BE(n, w)[w - 1 - i] == n / Pow256(i) % 256
  {
    if i > 0 {
      BEDigit(n / 256, w - 1, i - 1);
      DivideOn(n, Pow256(i - 1));
    }
  }

  lemma DivideOn(n: nat, p: nat)
    requires p > 0
    ensures n / 256 / p == n / (256 * p)
  {
    var q := n / 256 / p;
    assert p * q <= n / 256 < p * q + p;
    assert 256 * p * q <= n < 256 * p * q + 256 * p;
    Quotient(n, 256 * p, q);
  }

  lemma Quotient(n: nat, d: nat, q: nat)
    requires d > 0 && d * q <= n < d * q + d
    ensures n / d == q
  {
    var y := q - n / d;
    assert d * y == d * q - d * (n / d) && n == d * (n / d) + n % d;
    assert y >= 1 ==> d * y >= d;
    assert y <= -1 ==> d * y + d <= 0;
  }

  lemma LEInjective(m: nat, n: nat, w: nat)
    requires m < Pow256(w) && n < Pow256(w)
    requires LE(m, w) == LE(n, w)
    ensures m == n
  {
    LERoundTrip(m, w);
    LERoundTrip(n, w);
  }

  lemma Widths()
    ensures Pow256(1) == 0x100 && Pow256(2) == 0x1_0000 && Pow256(4) == 0x1_0000_0000
    ensures Pow256(8) == 0x1_0000_0000_0000_0000
  {
    assert Pow256(3) == 0x100_0000;
    assert Pow256(5) == 0x100_0000_0000;
    assert Pow256(6) == 0x1_0000_0000_0000;
    assert Pow256(7) == 0x100_0000_0000_0000;
  }

  // ----- compact sizes -----

  const U64_LIMIT: nat := 0x1_0000_0000_0000_0000

  /** The minimal compact-size code of a length. */
  function CompactSize(n: nat): (s: seq<byte>)
    ensures 1 <= |s| <= 9
  {
    if n <= 0xfc then [n]
    else if n <= 0xffff then [0xfd] + LE(n, 2)
    else if n <= 0xffff_ffff then [0xfe] + LE(n, 4)
    else [0xff] + LE(n, 8)
  }

  /** The code byte by byte: one byte up to 252, or a tag and two, four or eight bytes, low byte first. */
  lemma CompactSizeBytes(n: nat)
    requires n < U64_LIMIT
    ensures n <= 0xfc ==> CompactSize(n) == [n]
    ensures 0xfd <= n <= 0xffff ==> CompactSize(n) == [0xfd, n % 256, n / 256]
    ensures 0x1_0000 <= n <= 0xffff_ffff ==>
              CompactSize(n) == [0xfe, n % 256, n / 0x100 % 256, n / 0x1_0000 % 256, n / 0x100_0000]
    ensures n > 0xffff_ffff ==>
              |CompactSize(n)| == 9 && CompactSize(n)[0] == 0xff
              && forall i :: 0 <= i < 8 ==> CompactSize(n)[1 + i] == n / Pow256(i) % 256
  {
    Widths();
    assert Pow256(0) == 1 && Pow256(3) == 0x100_0000;
    if 0xfd <= n <= 0xffff {
      forall i | 0 <= i < 2 ensures LE(n, 2)[i] == n / Pow256(i) % 256 { LEDigit(n, 2, i); }
      assert LE(n, 2) == [LE(n, 2)[0], LE(n, 2)[1]];
    } else if 0x1_0000 <= n <= 0xffff_ffff {
      forall i | 0 <= i < 4 ensures LE(n, 4)[i] == n / Pow256(i) % 256 { LEDigit(n, 4, i); }
      assert LE(n, 4) == [LE(n, 4)[0], LE(n, 4)[1], LE(n, 4)[2], LE(n, 4)[3]];
    } else if n > 0xffff_ffff {
      forall i | 0 <= i < 8 ensures LE(n, 8)[i] == n / Pow256(i) % 256 { LEDigit(n, 8, i); }
    }
  }

  /** A length-prefixed byte string, the wire form of scripts. */
  function VarBytes(s: seq<byte>): seq<byte> {
    CompactSize(|s|) + s
  }

  /** `x` starts `s` and `y` starts `s`, both of one length: they are the same bytes. */
  lemma SplitEqual<T>(x: seq<T>, s: seq<T>, y: seq<T>, t: seq<T>)
    requires x + s == y + t && |x| == |y|
    ensures x == y && s == t
  {
    assert x == (x + s)[..|x|] && y == (y + t)[..|y|];
    assert s == (x + s)[|x|..] && t == (y + t)[|y|..];
  }

  lemma CompactSizePrefixFree(m: nat, s: seq<byte>, n: nat, t: seq<byte>)
    requires m < U64_LIMIT && n < U64_LIMIT
    requires CompactSize(m) + s == CompactSize(n) + t
    ensures m == n && s == t
  {
    Widths();
    var a, b := CompactSize(m), CompactSize(n);
    assert a[0] == (a + s)[0] == b[0];
    assert |a| == |b|;
    SplitEqual(a, s, b, t);
    if m > 0xfc {
      var w := |a| - 1;
      assert a[1..] == LE(m, w) && b[1..] == LE(n, w);
      LEInjective(m, n, w);
    }
  }

  lemma VarBytesPrefixFree(x: seq<byte>, s: seq<byte>, y: seq<byte>, t: seq<byte>)
    requires |x| < U64_LIMIT && |y| < U64_LIMIT
    requires VarBytes(x) + s == VarBytes(y) + t
    ensures x == y && s == t
  {
    assert VarBytes(x) + s == CompactSize(|x|) + (x + s);
    assert VarBytes(y) + t == CompactSize(|y|) + (y + t);
    CompactSizePrefixFree(|x|, x + s, |y|, y + t);
    SplitEqual(x, s, y, t);
  }

  // ----- byte strings at a position -----

  /** `e` occupies `b` from position `pos`. */
  predicate At(b: seq<byte>, pos: nat, e: seq<byte>) {
    pos + |e| <= |b| && b[pos..pos + |e|] == e
  }

  lemma AtFits(b: seq<byte>, pos: nat, e: seq<byte>)
    requires At(b, pos, e)
    ensures pos + |e| <= |b|
  {
  }

  lemma AtWhole(b: seq<byte>)
    ensures At(b, 0, b)
  {
  }

  lemma AtMiddle(a: seq<byte>, e: seq<byte>, b: seq<byte>)
    ensures At(a + (e + b), |a|, e)
  {
  }

  lemma AtConcat(b: seq<byte>, pos: nat, x: seq<byte>, y: seq<byte>)
    ensures At(b, pos, x + y) <==> At(b, pos, x) && At(b, pos + |x|, y)
  {
    var n := pos + |x| + |y|;
    if n <= |b| {
      assert b[pos..n] == b[pos..pos + |x|] + b[pos + |x|..n];
      if b[pos..n] == x + y {
        SplitEqual(b[pos..pos + |x|], b[pos + |x|..n], x, y);
      }
    }
  }
}
