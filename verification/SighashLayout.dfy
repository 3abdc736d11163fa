/** The signature message byte by byte: what stands at which offset, for every hash type. */
module SighashLayout {
  import opened Wrappers
  import opened Bytes
  import opened Transactions
  import opened Sighash

  // ----- concatenations -----

  lemma ConcatCons<T>(f: T -> seq<byte>, xs: seq<T>)
    requires xs != []
    ensures Concat(f, xs) == f(xs[0]) + Concat(f, xs[1..])
  {
  }

  lemma ConcatNone<T>(f: T -> seq<byte>)
    ensures Concat(f, []) == []
  {
  }

  lemma {:induction false} ConcatSplit<T>(f: T -> seq<byte>, xs: seq<T>, i: nat)
    requires i <= |xs|
    ensures Concat(f, xs) == Concat(f, xs[..i]) + Concat(f, xs[i..])
  {
    hide Concat;
    if i == 0 {
      ConcatNone(f);
      assert xs[..0] == [] && xs[0..] == xs;
    } else {
      ConcatSplit(f, xs[1..], i - 1);
      ConcatCons(f, xs);
      ConcatCons(f, xs[..i]);
      assert xs[..i][1..] == xs[1..][..i - 1] && xs[1..][i - 1..] == xs[i..] && xs[..i][0] == xs[0];
    }
  }

  /** Each code word stands after those of the elements before it. */
  lemma ConcatAt<T>(f: T -> seq<byte>, xs: seq<T>, i: nat)
    requires i < |xs|
    ensures At(Concat(f, xs), |Concat(f, xs[..i])|, f(xs[i]))
  {
    ConcatSplit(f, xs, i);
    assert xs[i..][0] == xs[i];
    var a, b := Concat(f, xs[..i]), Concat(f, xs[i..][1..]);
    assert Concat(f, xs) == a + (f(xs[i]) + b);
    AtMiddle(a, f(xs[i]), b);
  }

  lemma {:induction false} ConcatWidth<T>(f: T -> seq<byte>, xs: seq<T>, w: nat)
    requires forall i :: 0 <= i < |xs| ==> |f(xs[i])| == w
    ensures |Concat(f, xs)| == w * |xs|
  {
    if xs != [] { ConcatWidth(f, xs[1..], w); }
  }

  /** Code words of one width stand at its multiples. */
  lemma FixedAt<T>(f: T -> seq<byte>, xs: seq<T>, w: nat, i: nat)
    requires i < |xs| && forall j :: 0 <= j < |xs| ==> |f(xs[j])| == w
    ensures At(Concat(f, xs), w * i, f(xs[i])) && |Concat(f, xs)| == w * |xs|
  {
    hide Concat;
    ConcatAt(f, xs, i);
    ConcatWidth(f, xs, w);
    ConcatWidth(f, xs[..i], w);
  }

  /** What each aggregate hash is taken over: identifier and index of every previous output, every spent
      amount, script and sequence, and every output, in order and in consensus encoding. */
  lemma AggregateLayout(s: Spend, i: nat)
    requires |s.spent| == |s.tx.inputs|
    ensures i < |s.spent| ==>
              && At(PrevoutBytes(s), 36 * i, s.tx.inputs[i].prevout.txid)
              && At(PrevoutBytes(s), 36 * i + 32, LE(s.tx.inputs[i].prevout.vout, 4))
              && At(AmountBytes(s), 8 * i, LE(s.spent[i].value, 8))
              && At(SequenceBytes(s), 4 * i, LE(s.tx.inputs[i].sequence, 4))
              && At(ScriptBytes(s), |Concat(EncodeScript, Scripts(s.spent[..i]))|,
                    CompactSize(|s.spent[i].script|) + s.spent[i].script)
    ensures i < |s.tx.outputs| ==>
              var o, at := s.tx.outputs[i], |Concat(EncodeTxOut, s.tx.outputs[..i])|;
              At(OutputBytes(s), at, LE(o.value, 8)) && At(OutputBytes(s), at + 8, CompactSize(|o.script|) + o.script)
    ensures |PrevoutBytes(s)| == 36 * |s.spent| && |AmountBytes(s)| == 8 * |s.spent|
    ensures |SequenceBytes(s)| == 4 * |s.spent|
  {
    hide Concat, LE, CompactSize, At;
    ConcatWidth(EncodeOutPoint, Prevouts(s.tx), 36);
    ConcatWidth(EncodeU64, Amounts(s.spent), 8);
    ConcatWidth(EncodeU32, Sequences(s.tx), 4);
    if i < |s.spent| {
      FixedAt(EncodeOutPoint, Prevouts(s.tx), 36, i);
      AtConcat(PrevoutBytes(s), 36 * i, s.tx.inputs[i].prevout.txid, LE(s.tx.inputs[i].prevout.vout, 4));
      FixedAt(EncodeU64, Amounts(s.spent), 8, i);
      FixedAt(EncodeU32, Sequences(s.tx), 4, i);
      ConcatAt(EncodeScript, Scripts(s.spent), i);
      assert Scripts(s.spent)[..i] == Scripts(s.spent[..i]);
    }
    if i < |s.tx.outputs| {
      ConcatAt(EncodeTxOut, s.tx.outputs, i);
      var o, at := s.tx.outputs[i], |Concat(EncodeTxOut, s.tx.outputs[..i])|;
      AtConcat(OutputBytes(s), at, LE(o.value, 8), VarBytes(o.script));
    }
  }

  // ----- the message -----

  /** Exactly these spends have a message. */
  lemma AcceptedIff(s: Spend)
    ensures Accepted(s) <==>
              && |s.spent| == |s.tx.inputs| && s.index < |s.tx.inputs| && s.index < 0x1_0000_0000
              && s.hashType / 0x20 % 2 == 1 && s.scriptType <= 1
              && (s.hashType % 0x20 == 3 ==> s.index < |s.tx.outputs|)
  {
  }

  /** Epoch, hash type, version in two's complement, lock time and its fifth byte. */
  lemma HeadLayout(sha: Sha256, s: Spend)
    requires Accepted(s)
    ensures var m := Message(sha, s);
            && At(m, 0, [0, s.hashType]) && At(m, 2, LE((s.tx.version + 0x1_0000_0000) % 0x1_0000_0000, 4))
            && At(m, 6, LE(s.tx.lockTime, 4))
            && At(m, 10, [0]) && At(m, 11, AfterHead(sha, s)) && |m| == 11 + |AfterHead(sha, s)|
  {
    hide Accepted, LE, AfterHead;
    assert EncodeI32(s.tx.version) == LE((s.tx.version + 0x1_0000_0000) % 0x1_0000_0000, 4);
    hide EncodeI32;
    var m := Message(sha, s);
    Regroup(sha, s);
    assert m == Head(s) + AfterHead(sha, s);
    assert At(m, 0, Head(s) + AfterHead(sha, s));
    AtConcat(m, 0, Head(s), AfterHead(sha, s));
    AtConcat(m, 0, [0, s.hashType] + EncodeI32(s.tx.version) + LE(s.tx.lockTime, 4), [0]);
    AtConcat(m, 0, [0, s.hashType] + EncodeI32(s.tx.version), LE(s.tx.lockTime, 4));
    AtConcat(m, 0, [0, s.hashType], EncodeI32(s.tx.version));
  }

  /** Where the outputs hash, or what follows it, begins. */
  function OutputsAt(s: Spend): nat {
    if s.hashType >= 0x80 then 11 else 139
  }

  /** Where the script type stands: 32 bytes later if the hash type signs all outputs. */
  function ScriptTypeAt(s: Spend): nat {
    OutputsAt(s) + if s.hashType % 0x20 == 2 || s.hashType % 0x20 == 3 then 0 else 32
  }

  /** The four input hashes, the outputs hash and the script type. */
  lemma HashesLayout(sha: Sha256, s: Spend)
    requires Accepted(s)
    ensures var m := Message(sha, s);
            && (s.hashType < 0x80 ==>
                  && At(m, 11, sha(PrevoutBytes(s))) && At(m, 43, sha(AmountBytes(s)))
                  && At(m, 75, sha(ScriptBytes(s))) && At(m, 107, sha(SequenceBytes(s))))
            && (s.hashType % 0x20 != 2 && s.hashType % 0x20 != 3 ==> At(m, OutputsAt(s), sha(OutputBytes(s))))
            && At(m, ScriptTypeAt(s), [s.scriptType])
            && var tail := ThisInput(s) + (VarBytes(s.scriptCode) + SingleHash(sha, s));
            && At(m, ScriptTypeAt(s) + 1, tail) && |m| == ScriptTypeAt(s) + 1 + |tail|
  {
    hide Check, PrevoutBytes, AmountBytes, ScriptBytes, SequenceBytes, OutputBytes, ThisInput, VarBytes, SingleHash,
         At, Message, Head;
    var m := Message(sha, s);
    HeadLayout(sha, s);
    var tail := ThisInput(s) + (VarBytes(s.scriptCode) + SingleHash(sha, s));
    AtConcat(m, 11, InputHashes(sha, s), OutputsHash(sha, s) + ([s.scriptType] + tail));
    AtConcat(m, OutputsAt(s), OutputsHash(sha, s), [s.scriptType] + tail);
    AtConcat(m, ScriptTypeAt(s), [s.scriptType], tail);
    if s.hashType < 0x80 { FourHashes(sha, s, m); }
  }

  lemma FourHashes(sha: Sha256, s: Spend, m: seq<byte>)
    requires s.hashType < 0x80 && At(m, 11, InputHashes(sha, s))
    ensures At(m, 11, sha(PrevoutBytes(s))) && At(m, 43, sha(AmountBytes(s)))
    ensures At(m, 75, sha(ScriptBytes(s))) && At(m, 107, sha(SequenceBytes(s)))
  {
    hide PrevoutBytes, AmountBytes, ScriptBytes, SequenceBytes, At;
    var a: seq<byte>, b: seq<byte>, c: seq<byte> := sha(PrevoutBytes(s)), sha(AmountBytes(s)), sha(ScriptBytes(s));
    AtConcat(m, 11, a + b + c, sha(SequenceBytes(s)));
    AtConcat(m, 11, a + b, c);
    AtConcat(m, 11, a, b);
  }

  /** Where the script code stands. */
  function CodeAt(s: Spend): nat
    requires Accepted(s)
  {
    ScriptTypeAt(s) + if s.hashType >= 0x80 then 49 + |VarBytes(s.spent[s.index].script)| else 5
  }

  /** This input, the script code and, under SINGLE, the hash of this output, which end the message. */
  lemma TailLayout(sha: Sha256, s: Spend)
    requires Accepted(s)
    ensures var m, at := Message(sha, s), ScriptTypeAt(s) + 1;
            && (s.hashType < 0x80 ==> At(m, at, LE(s.index, 4)))
            && (s.hashType >= 0x80 ==>
                  var input, out := s.tx.inputs[s.index], s.spent[s.index];
                  && At(m, at, input.prevout.txid) && At(m, at + 32, LE(input.prevout.vout, 4))
                  && At(m, at + 36, LE(out.value, 8)) && At(m, at + 44, CompactSize(|out.script|) + out.script)
                  && At(m, at + 44 + |VarBytes(out.script)|, LE(input.sequence, 4)))
            && At(m, CodeAt(s), CompactSize(|s.scriptCode|) + s.scriptCode)
            && var end := CodeAt(s) + |VarBytes(s.scriptCode)|;
            && (s.hashType % 0x20 == 3 ==> At(m, end, sha(EncodeTxOut(s.tx.outputs[s.index]))) && |m| == end + 32)
            && (s.hashType % 0x20 != 3 ==> |m| == end)
  {
    hide Check, At, Message, LE, CompactSize;
    var m, at := Message(sha, s), ScriptTypeAt(s) + 1;
    AcceptedIff(s);
    HashesLayout(sha, s);
    AtConcat(m, at, ThisInput(s), VarBytes(s.scriptCode) + SingleHash(sha, s));
    AtConcat(m, CodeAt(s), VarBytes(s.scriptCode), SingleHash(sha, s));
    if s.hashType >= 0x80 {
      var input, out := s.tx.inputs[s.index], s.spent[s.index];
      AtConcat(m, at, EncodeOutPoint(input.prevout) + EncodeTxOut(out), LE(input.sequence, 4));
      AtConcat(m, at, EncodeOutPoint(input.prevout), EncodeTxOut(out));
      AtConcat(m, at, input.prevout.txid, LE(input.prevout.vout, 4));
      AtConcat(m, at + 36, LE(out.value, 8), VarBytes(out.script));
    }
  }

  /** The digest hashes the message behind the twice-hashed tag. */
  lemma DigestOf(sha: Sha256, s: Spend)
    requires Accepted(s)
    ensures |TAG| == |"UnifiedSighash"| && forall i :: 0 <= i < |TAG| ==> TAG[i] == "UnifiedSighash"[i] as int
    ensures exists preimage :: SignatureHash(sha, s) == Ok(sha(preimage)) && |preimage| == 64 + |Message(sha, s)|
              && At(preimage, 0, sha(TAG)) && At(preimage, 32, sha(TAG)) && At(preimage, 64, Message(sha, s))
  {
    hide Message, At;
    var preimage := TaggedPreimage(sha, Message(sha, s));
    assert At(preimage, 0, preimage) by { AtWhole(preimage); }
    AtConcat(preimage, 0, sha(TAG) + sha(TAG), Message(sha, s));
    AtConcat(preimage, 0, sha(TAG), sha(TAG));
  }
}
