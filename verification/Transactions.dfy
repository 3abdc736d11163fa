/** Transactions and their consensus encoding. */
module Transactions {
  import opened Bytes

  type u16 = x: int | 0 <= x < 0x1_0000
  type u32 = x: int | 0 <= x < 0x1_0000_0000
  type u64 = x: int | 0 <= x < 0x1_0000_0000_0000_0000
  type i32 = x: int | -0x8000_0000 <= x < 0x8000_0000
  type Hash = s: seq<byte> | |s| == 32 witness LE(0, 32)
  /** No byte string in memory is longer than a `usize`. */
  type Script = s: seq<byte> | |s| < U64_LIMIT

  const MAX_MONEY: u64 := 21_000_000 * 100_000_000

  datatype OutPoint = OutPoint(txid: Hash, vout: u32)
  datatype TxOut = TxOut(value: u64, script: Script)
  datatype TxIn = TxIn(prevout: OutPoint, scriptSig: Script, sequence: u32, witnessStack: seq<Script>)
  datatype Transaction = Transaction(version: i32, lockTime: u32, inputs: seq<TxIn>, outputs: seq<TxOut>)

  /** `enables replacement, no lock time`: the sequence of every input the builders create. */
  const RBF_SEQUENCE: u32 := 0xffff_fffd

  const NULL_OUTPOINT: OutPoint := OutPoint(LE(0, 32), 0xffff_ffff)

  predicate IsCoinbase(tx: Transaction) {
    |tx.inputs| == 1 && tx.inputs[0].prevout == NULL_OUTPOINT
  }

  predicate IsOpReturn(script: Script) {
    script != [] && script[0] == 0x6a
  }

  function Prevouts(tx: Transaction): (r: seq<OutPoint>)
    ensures |r| == |tx.inputs|
    ensures forall i :: 0 <= i < |r| ==> r[i] == tx.inputs[i].prevout
  {
    seq(|tx.inputs|, i requires 0 <= i < |tx.inputs| => tx.inputs[i].prevout)
  }

  function SumValues(outs: seq<TxOut>): nat {
    if outs == [] then 0 else outs[0].value + SumValues(outs[1..])
  }

  // ----- consensus encoding -----

  function EncodeOutPoint(o: OutPoint): (s: seq<byte>)
    ensures |s| == 36
  {
    o.txid + LE(o.vout, 4)
  }

  function EncodeU64(v: u64): seq<byte> { LE(v, 8) }
  function EncodeU32(v: u32): seq<byte> { LE(v, 4) }
  function EncodeScript(s: Script): seq<byte> { VarBytes(s) }

  function EncodeTxOut(o: TxOut): seq<byte> {
    LE(o.value, 8) + VarBytes(o.script)
  }

  /** Two's complement of a signed version number. */
  function EncodeI32(v: i32): (s: seq<byte>)
    ensures |s| == 4
  {
    LE(if v < 0 then v + 0x1_0000_0000 else v, 4)
  }

  /** Witness bytes of one input: an empty stack is one byte. */
  function WitnessSize(stack: seq<seq<byte>>): nat {
    |CompactSize(|stack|)| + ItemsSize(stack)
  }

  function ItemsSize(stack: seq<seq<byte>>): nat {
    if stack == [] then 0 else |VarBytes(stack[0])| + ItemsSize(stack[1..])
  }

  /** `f` applied to each element, end to end. */
  function Concat<T>(f: T -> seq<byte>, xs: seq<T>): seq<byte> {
    if xs == [] then [] else f(xs[0]) + Concat(f, xs[1..])
  }

  /** No code word of `f` is empty or starts another. */
  ghost predicate PrefixFree<T(!new)>(f: T -> seq<byte>) {
    && (forall x :: f(x) != [])
    && forall x, s, y, t :: f(x) + s == f(y) + t ==> x == y && s == t
  }

  /** A run of code words of a prefix-free code is read in one way only. */
  lemma {:induction false} ConcatInjective<T(!new)>(f: T -> seq<byte>, xs: seq<T>, ys: seq<T>)
    requires PrefixFree(f) && Concat(f, xs) == Concat(f, ys)
    ensures xs == ys
  {
    if xs != [] && ys != [] {
      assert f(xs[0]) + Concat(f, xs[1..]) == f(ys[0]) + Concat(f, ys[1..]);
      ConcatInjective(f, xs[1..], ys[1..]);
      assert xs == [xs[0]] + xs[1..] && ys == [ys[0]] + ys[1..];
    }
  }

  lemma OutPointPrefixFree()
    ensures PrefixFree(EncodeOutPoint)
  {
    forall x: OutPoint, s, y, t | EncodeOutPoint(x) + s == EncodeOutPoint(y) + t ensures x == y && s == t {
      SplitEqual(EncodeOutPoint(x), s, EncodeOutPoint(y), t);
      SplitEqual(x.txid, LE(x.vout, 4), y.txid, LE(y.vout, 4));
      Widths();
      LEInjective(x.vout, y.vout, 4);
    }
  }

  lemma TxOutPrefixFree()
    ensures PrefixFree(EncodeTxOut)
  {
    hide CompactSize, LE;
    forall x: TxOut, s, y, t | EncodeTxOut(x) + s == EncodeTxOut(y) + t ensures x == y && s == t {
      assert EncodeTxOut(x) + s == LE(x.value, 8) + (VarBytes(x.script) + s);
      assert EncodeTxOut(y) + t == LE(y.value, 8) + (VarBytes(y.script) + t);
      SplitEqual(LE(x.value, 8), VarBytes(x.script) + s, LE(y.value, 8), VarBytes(y.script) + t);
      Widths();
      LEInjective(x.value, y.value, 8);
      VarBytesPrefixFree(x.script, s, y.script, t);
    }
  }

  lemma U64PrefixFree()
    ensures PrefixFree(EncodeU64)
  {
    hide LE;
    forall x: u64, s, y: u64, t | EncodeU64(x) + s == EncodeU64(y) + t ensures x == y && s == t {
      SplitEqual(LE(x, 8), s, LE(y, 8), t);
      Widths();
      LEInjective(x, y, 8);
    }
  }

  lemma U32PrefixFree()
    ensures PrefixFree(EncodeU32)
  {
    hide LE;
    forall x: u32, s, y: u32, t | EncodeU32(x) + s == EncodeU32(y) + t ensures x == y && s == t {
      SplitEqual(LE(x, 4), s, LE(y, 4), t);
      Widths();
      LEInjective(x, y, 4);
    }
  }

  lemma ScriptPrefixFree()
    ensures PrefixFree(EncodeScript)
  {
    hide CompactSize;
    forall x: Script, s, y: Script, t | EncodeScript(x) + s == EncodeScript(y) + t ensures x == y && s == t {
      VarBytesPrefixFree(x, s, y, t);
    }
  }

  lemma EncodeI32Injective(x: i32, y: i32)
    requires EncodeI32(x) == EncodeI32(y)
    ensures x == y
  {
    Widths();
    LEInjective(if x < 0 then x + 0x1_0000_0000 else x, if y < 0 then y + 0x1_0000_0000 else y, 4);
  }
}
