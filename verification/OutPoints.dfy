/** Chain identities, and outpoints in their wallet-wide order: an ordered set of outpoints is a
    strictly increasing list. */
module OutPoints {
  import opened Bytes
  import opened Transactions

  datatype ChainId =
    Bitcoin | Testnet | Testnet4 | Signet | Regtest | BitcoinBlake2b | BitcoinBlake2bTestnet4

  /** The two pairs of a Bitcoin chain and its fork. */
  predicate ForkPair(bitcoin: ChainId, fork: ChainId) {
    (bitcoin == Bitcoin && fork == BitcoinBlake2b) || (bitcoin == Testnet4 && fork == BitcoinBlake2bTestnet4)
  }

  /** Byte order on identifiers, then output index. */
  predicate Less(a: OutPoint, b: OutPoint) {
    FromBE(a.txid) < FromBE(b.txid) || (a.txid == b.txid && a.vout < b.vout)
  }

  lemma LessTotal(a: OutPoint, b: OutPoint)
    ensures a == b || Less(a, b) || Less(b, a)
    ensures !(Less(a, b) && Less(b, a)) && !Less(a, a)
  {
    FromBERoundTrip(a.txid);
    FromBERoundTrip(b.txid);
  }

  lemma LessTransitive(a: OutPoint, b: OutPoint, c: OutPoint)
    requires Less(a, b) && Less(b, c)
    ensures Less(a, c)
  {
  }

  predicate Increasing(s: seq<OutPoint>) {
    forall i, j :: 0 <= i < j < |s| ==> Less(s[i], s[j])
  }

  /** `o` added to an ordered set. */
  function Insert(s: seq<OutPoint>, o: OutPoint): seq<OutPoint> {
    if s == [] then [o]
    else if s[0] == o then s
    else if Less(o, s[0]) then [o] + s
    else [s[0]] + Insert(s[1..], o)
  }

  lemma {:induction false} InsertIncreasing(s: seq<OutPoint>, o: OutPoint)
    requires Increasing(s)
    ensures Increasing(Insert(s, o))
    ensures forall x :: x in Insert(s, o) <==> x in s || x == o
  {
    hide Less;
    if s != [] {
      LessTotal(s[0], o);
      assert s == [s[0]] + s[1..];
      if s[0] != o && !Less(o, s[0]) {
        InsertIncreasing(s[1..], o);
        var t := Insert(s[1..], o);
        forall x | x in t ensures Less(s[0], x) {}
      } else if s[0] != o {
        forall x | x in s ensures Less(o, x) {
          if x != s[0] { LessTransitive(o, s[0], x); }
        }
      }
    }
  }

  /** The two first differ at byte `k`, where the first is smaller. */
  predicate DiffersAt(a: seq<byte>, b: seq<byte>, k: nat)
    requires |a| == |b|
  {
    k < |a| && a[..k] == b[..k] && a[k] < b[k]
  }

  lemma DiffersCons(a: seq<byte>, b: seq<byte>)
    requires |a| == |b| > 0
    ensures var n := |a| - 1;
            (exists k: nat :: DiffersAt(a, b, k)) <==>
              (exists k: nat :: DiffersAt(a[..n], b[..n], k)) || (a[..n] == b[..n] && a[n] < b[n])
  {
    var n := |a| - 1;
    forall k: nat | k < n ensures DiffersAt(a, b, k) <==> DiffersAt(a[..n], b[..n], k) {
      assert a[..n][..k] == a[..k] && b[..n][..k] == b[..k];
    }
    assert DiffersAt(a, b, n) <==> a[..n] == b[..n] && a[n] < b[n];
  }

  lemma LastByte(a: seq<byte>, b: seq<byte>)
    requires |a| == |b| > 0
    ensures var n := |a| - 1;
            FromBE(a) < FromBE(b) <==> FromBE(a[..n]) < FromBE(b[..n]) || (a[..n] == b[..n] && a[n] < b[n])
  {
    hide FromBE;
    var n := |a| - 1;
    SameNumber(a[..n], b[..n]);
    Unfold(a);
    Unfold(b);
    Digits(FromBE(a[..n]), a[n], FromBE(b[..n]), b[n]);
  }

  lemma Digits(x: nat, p: byte, y: nat, q: byte)
    ensures 256 * x + p < 256 * y + q <==> x < y || (x == y && p < q)
  {
  }

  lemma SameNumber(c: seq<byte>, d: seq<byte>)
    requires |c| == |d|
    ensures FromBE(c) == FromBE(d) <==> c == d
  {
    hide FromBE, BE;
    FromBERoundTrip(c);
    FromBERoundTrip(d);
  }

  lemma Unfold(a: seq<byte>)
    requires a != []
    ensures FromBE(a) == 256 * FromBE(a[..|a| - 1]) + a[|a| - 1]
  {
  }

  /** Numbers of one length compare by their first different byte. */
  lemma {:induction false} FirstDifference(a: seq<byte>, b: seq<byte>)
    requires |a| == |b|
    ensures FromBE(a) < FromBE(b) <==> exists k: nat :: DiffersAt(a, b, k)
  {
    if a != [] {
      hide DiffersAt;
      FirstDifference(a[..|a| - 1], b[..|a| - 1]);
      LastByte(a, b);
      DiffersCons(a, b);
    }
  }

  /** Outpoints are ordered as byte strings and then by index. */
  lemma LessIff(a: OutPoint, b: OutPoint)
    ensures Less(a, b) <==> (exists k: nat :: DiffersAt(a.txid, b.txid, k)) || (a.txid == b.txid && a.vout < b.vout)
  {
    FirstDifference(a.txid, b.txid);
  }
}
