/** The unified signature message and digest: which parts of a spend they commit to. */
module Sighash {
  import opened Wrappers
  import opened Bytes
  import opened Transactions

  const UNIFIED: byte := 0x20
  const NONE: byte := 0x02
  const SINGLE: byte := 0x03
  const ANYONECANPAY: byte := 0x80
  const SCRIPT_TYPE_BASE: byte := 0
  const SCRIPT_TYPE_WITNESS_V0: byte := 1
  /** "UnifiedSighash" */
  const TAG: seq<byte> :=
    [0x55, 0x6e, 0x69, 0x66, 0x69, 0x65, 0x64, 0x53, 0x69, 0x67, 0x68, 0x61, 0x73, 0x68]

  datatype SighashError =
    | MissingUnifiedFlag(hashType: byte)
    | UnsupportedScriptType(scriptType: byte)
    | PrevoutsLengthMismatch(inputs: nat, prevouts: nat)
    | InputIndexOutOfBounds(index: nat, inputs: nat)
    | InputIndexTooLarge(index: nat)
    | MissingSingleOutput(index: nat, outputs: nat)

  /** SHA-256, known only to return 32 bytes. */
  type Sha256 = seq<byte> -> Hash

  /** Everything the message is computed from. */
  datatype Spend = Spend(
    tx: Transaction, spent: seq<TxOut>, index: nat, hashType: byte, scriptType: byte, scriptCode: Script)

  function OutputType(hashType: byte): byte { hashType % 0x20 }
  predicate AnyoneCanPay(hashType: byte) { hashType / ANYONECANPAY % 2 == 1 }
  predicate SignsAllOutputs(hashType: byte) {
    OutputType(hashType) != NONE && OutputType(hashType) != SINGLE
  }

  function Amounts(outs: seq<TxOut>): (r: seq<u64>)
    ensures |r| == |outs|
    ensures forall i :: 0 <= i < |r| ==> r[i] == outs[i].value
  {
    seq(|outs|, i requires 0 <= i < |outs| => outs[i].value)
  }

  function Scripts(outs: seq<TxOut>): (r: seq<Script>)
    ensures |r| == |outs|
    ensures forall i :: 0 <= i < |r| ==> r[i] == outs[i].script
  {
    seq(|outs|, i requires 0 <= i < |outs| => outs[i].script)
  }

  function Sequences(tx: Transaction): (r: seq<u32>)
    ensures |r| == |tx.inputs|
    ensures forall i :: 0 <= i < |r| ==> r[i] == tx.inputs[i].sequence
  {
    seq(|tx.inputs|, i requires 0 <= i < |tx.inputs| => tx.inputs[i].sequence)
  }

  /** The refusals, in the order the program makes them. */
  function Check(s: Spend): Result<(), SighashError> {
    if |s.spent| != |s.tx.inputs| then Err(PrevoutsLengthMismatch(|s.tx.inputs|, |s.spent|))
    else if s.hashType / UNIFIED % 2 == 0 then Err(MissingUnifiedFlag(s.hashType))
    else if s.scriptType != SCRIPT_TYPE_BASE && s.scriptType != SCRIPT_TYPE_WITNESS_V0 then
      Err(UnsupportedScriptType(s.scriptType))
    else if s.index >= |s.tx.inputs| then Err(InputIndexOutOfBounds(s.index, |s.tx.inputs|))
    else if s.index >= 0x1_0000_0000 then Err(InputIndexTooLarge(s.index))
    else if OutputType(s.hashType) == SINGLE && s.index >= |s.tx.outputs| then
      Err(MissingSingleOutput(s.index, |s.tx.outputs|))
    else Ok(())
  }

  predicate Accepted(s: Spend) {
    Check(s).Ok?
  }

  // ----- the message, section by section -----

  function Head(s: Spend): (r: seq<byte>)
    ensures |r| == 11
  {
    [0, s.hashType] + EncodeI32(s.tx.version) + LE(s.tx.lockTime, 4) + [0]
  }

  function PrevoutBytes(s: Spend): seq<byte> { Concat(EncodeOutPoint, Prevouts(s.tx)) }
  function AmountBytes(s: Spend): seq<byte> { Concat(EncodeU64, Amounts(s.spent)) }
  function ScriptBytes(s: Spend): seq<byte> { Concat(EncodeScript, Scripts(s.spent)) }
  function SequenceBytes(s: Spend): seq<byte> { Concat(EncodeU32, Sequences(s.tx)) }
  function OutputBytes(s: Spend): seq<byte> { Concat(EncodeTxOut, s.tx.outputs) }

  function InputHashes(sha: Sha256, s: Spend): seq<byte> {
    if AnyoneCanPay(s.hashType) then []
    else sha(PrevoutBytes(s)) + sha(AmountBytes(s)) + sha(ScriptBytes(s)) + sha(SequenceBytes(s))
  }

  function OutputsHash(sha: Sha256, s: Spend): seq<byte> {
    if SignsAllOutputs(s.hashType) then sha(OutputBytes(s)) else []
  }

  /** This input: itself under ANYONECANPAY, otherwise its index. */
  function ThisInput(s: Spend): seq<byte>
    requires Accepted(s)
  {
    if AnyoneCanPay(s.hashType) then
      EncodeOutPoint(s.tx.inputs[s.index].prevout) + EncodeTxOut(s.spent[s.index])
      + LE(s.tx.inputs[s.index].sequence, 4)
    else LE(s.index, 4)
  }

  function SingleHash(sha: Sha256, s: Spend): seq<byte>
    requires Accepted(s)
  {
    if OutputType(s.hashType) == SINGLE then sha(EncodeTxOut(s.tx.outputs[s.index])) else []
  }

  function Message(sha: Sha256, s: Spend): seq<byte>
    requires Accepted(s)
  {
    Head(s) + InputHashes(sha, s) + OutputsHash(sha, s) + [s.scriptType] + ThisInput(s)
    + VarBytes(s.scriptCode) + SingleHash(sha, s)
  }

  function TaggedPreimage(sha: Sha256, message: seq<byte>): seq<byte> {
    sha(TAG) + sha(TAG) + message
  }

  function SignatureHash(sha: Sha256, s: Spend): Result<Hash, SighashError> {
    var _ :- Check(s);
    Ok(sha(TaggedPreimage(sha, Message(sha, s))))
  }

  // ----- what must be committed to -----

  datatype InputCommitment =
    | AllInputs(prevouts: seq<OutPoint>, amounts: seq<u64>, scripts: seq<Script>, sequences: seq<u32>, index: nat)
    | OneInput(prevout: OutPoint, spent: TxOut, sequence: u32)

  datatype OutputCommitment = AllOutputs(outputs: seq<TxOut>) | NoOutputs | OneOutput(output: TxOut)

  datatype Commitment = Commitment(
    hashType: byte, version: i32, lockTime: u32, scriptType: byte, scriptCode: Script,
    inputs: InputCommitment, outputs: OutputCommitment)

  function CommittedInputs(s: Spend): InputCommitment
    requires Accepted(s)
  {
    if AnyoneCanPay(s.hashType) then
      OneInput(s.tx.inputs[s.index].prevout, s.spent[s.index], s.tx.inputs[s.index].sequence)
    else AllInputs(Prevouts(s.tx), Amounts(s.spent), Scripts(s.spent), Sequences(s.tx), s.index)
  }

  function CommittedOutputs(s: Spend): OutputCommitment
    requires Accepted(s)
  {
    if OutputType(s.hashType) == SINGLE then OneOutput(s.tx.outputs[s.index])
    else if OutputType(s.hashType) == NONE then NoOutputs
    else AllOutputs(s.tx.outputs)
  }

  /** What a signature with this hash type speaks about, and nothing else. */
  function Committed(s: Spend): Commitment
    requires Accepted(s)
  {
    Commitment(s.hashType, s.tx.version, s.tx.lockTime, s.scriptType, s.scriptCode,
               CommittedInputs(s), CommittedOutputs(s))
  }

  /** The finitely many byte strings hashed inside one message. */
  function Preimages(s: Spend): set<seq<byte>>
    requires Accepted(s)
  {
    {PrevoutBytes(s), AmountBytes(s), ScriptBytes(s), SequenceBytes(s), OutputBytes(s)}
    + if OutputType(s.hashType) == SINGLE then {EncodeTxOut(s.tx.outputs[s.index])} else {}
  }

  /** No two of these byte strings collide. */
  ghost predicate CollisionFree(sha: Sha256, preimages: set<seq<byte>>) {
    forall x, y :: x in preimages && y in preimages && sha(x) == sha(y) ==> x == y
  }

  // ----- equal messages, equal commitments -----

  lemma HeadBinds(a: Spend, b: Spend)
    requires Head(a) == Head(b)
    ensures a.hashType == b.hashType && a.tx.version == b.tx.version && a.tx.lockTime == b.tx.lockTime
  {
    hide EncodeI32, LE;
    assert Head(a)[1] == Head(b)[1];
    var va, vb := EncodeI32(a.tx.version), EncodeI32(b.tx.version);
    var la, lb := LE(a.tx.lockTime, 4), LE(b.tx.lockTime, 4);
    assert va == Head(a)[2..6] && vb == Head(b)[2..6] && la == Head(a)[6..10] && lb == Head(b)[6..10];
    EncodeI32Injective(a.tx.version, b.tx.version);
    Widths();
    LEInjective(a.tx.lockTime, b.tx.lockTime, 4);
  }

  lemma InputHashesBind(sha: Sha256, a: Spend, b: Spend)
    requires Accepted(a) && Accepted(b) && CollisionFree(sha, Preimages(a) + Preimages(b))
    requires !AnyoneCanPay(a.hashType) && !AnyoneCanPay(b.hashType)
    requires InputHashes(sha, a) == InputHashes(sha, b)
    ensures Prevouts(a.tx) == Prevouts(b.tx) && Amounts(a.spent) == Amounts(b.spent)
    ensures Scripts(a.spent) == Scripts(b.spent) && Sequences(a.tx) == Sequences(b.tx)
  {
    hide Concat, PrefixFree;
    var pa: seq<byte>, pb: seq<byte> := sha(PrevoutBytes(a)), sha(PrevoutBytes(b));
    var ma: seq<byte>, mb: seq<byte> := sha(AmountBytes(a)), sha(AmountBytes(b));
    var ca: seq<byte>, cb: seq<byte> := sha(ScriptBytes(a)), sha(ScriptBytes(b));
    SplitEqual(pa + ma + ca, sha(SequenceBytes(a)), pb + mb + cb, sha(SequenceBytes(b)));
    SplitEqual(pa + ma, ca, pb + mb, cb);
    SplitEqual(pa, ma, pb, mb);
    OutPointPrefixFree();
    ConcatInjective(EncodeOutPoint, Prevouts(a.tx), Prevouts(b.tx));
    U64PrefixFree();
    ConcatInjective(EncodeU64, Amounts(a.spent), Amounts(b.spent));
    ScriptPrefixFree();
    ConcatInjective(EncodeScript, Scripts(a.spent), Scripts(b.spent));
    U32PrefixFree();
    ConcatInjective(EncodeU32, Sequences(a.tx), Sequences(b.tx));
  }

  /** Everything after the head and the hashes: one input or an index, then the script code. */
  lemma TailBinds(a: Spend, s: seq<byte>, b: Spend, t: seq<byte>)
    requires Accepted(a) && Accepted(b) && a.hashType == b.hashType
    requires ThisInput(a) + (VarBytes(a.scriptCode) + s) == ThisInput(b) + (VarBytes(b.scriptCode) + t)
    ensures a.scriptCode == b.scriptCode && s == t
    ensures AnyoneCanPay(a.hashType) ==> CommittedInputs(a) == CommittedInputs(b)
    ensures !AnyoneCanPay(a.hashType) ==> a.index == b.index
  {
    hide VarBytes, EncodeOutPoint, EncodeTxOut, LE;
    var ra, rb := VarBytes(a.scriptCode) + s, VarBytes(b.scriptCode) + t;
    if AnyoneCanPay(a.hashType) {
      var ia, ib := a.tx.inputs[a.index], b.tx.inputs[b.index];
      OneInputBinds(ia, a.spent[a.index], ra, ib, b.spent[b.index], rb);
    } else {
      Widths();
      SplitEqual(LE(a.index, 4), ra, LE(b.index, 4), rb);
      LEInjective(a.index, b.index, 4);
    }
    VarBytesPrefixFree(a.scriptCode, s, b.scriptCode, t);
  }

  lemma OneInputBinds(x: TxIn, xo: TxOut, s: seq<byte>, y: TxIn, yo: TxOut, t: seq<byte>)
    requires EncodeOutPoint(x.prevout) + EncodeTxOut(xo) + LE(x.sequence, 4) + s
          == EncodeOutPoint(y.prevout) + EncodeTxOut(yo) + LE(y.sequence, 4) + t
    ensures x.prevout == y.prevout && xo == yo && x.sequence == y.sequence && s == t
  {
    hide EncodeOutPoint, EncodeTxOut, LE;
    var p, q := LE(x.sequence, 4), LE(y.sequence, 4);
    assert EncodeOutPoint(x.prevout) + EncodeTxOut(xo) + p + s == EncodeOutPoint(x.prevout) + (EncodeTxOut(xo) + (p + s));
    assert EncodeOutPoint(y.prevout) + EncodeTxOut(yo) + q + t == EncodeOutPoint(y.prevout) + (EncodeTxOut(yo) + (q + t));
    OutPointPrefixFree();
    TxOutPrefixFree();
    assert EncodeTxOut(xo) + (p + s) == EncodeTxOut(yo) + (q + t);
    SplitEqual(p, s, q, t);
    Widths();
    LEInjective(x.sequence, y.sequence, 4);
  }

  function AfterHead(sha: Sha256, s: Spend): seq<byte>
    requires Accepted(s)
  {
    InputHashes(sha, s) + (OutputsHash(sha, s)
    + ([s.scriptType] + (ThisInput(s) + (VarBytes(s.scriptCode) + SingleHash(sha, s)))))
  }

  lemma Regroup(sha: Sha256, s: Spend)
    requires Accepted(s)
    ensures Message(sha, s) == Head(s) + AfterHead(sha, s)
  {
    hide Head, InputHashes, OutputsHash, ThisInput, VarBytes, SingleHash, Check;
  }

  /** Equal messages agree section by section. */
  lemma Sections(sha: Sha256, a: Spend, b: Spend)
    requires Accepted(a) && Accepted(b) && Message(sha, a) == Message(sha, b)
    ensures Head(a) == Head(b) && a.hashType == b.hashType
    ensures InputHashes(sha, a) == InputHashes(sha, b) && OutputsHash(sha, a) == OutputsHash(sha, b)
    ensures a.scriptType == b.scriptType
    ensures ThisInput(a) + (VarBytes(a.scriptCode) + SingleHash(sha, a))
         == ThisInput(b) + (VarBytes(b.scriptCode) + SingleHash(sha, b))
  {
    hide ThisInput, VarBytes, SingleHash, Check, Head, PrevoutBytes, AmountBytes, ScriptBytes, SequenceBytes, OutputBytes;
    Regroup(sha, a);
    Regroup(sha, b);
    SplitEqual(Head(a), AfterHead(sha, a), Head(b), AfterHead(sha, b));
    HeadBinds(a, b);
    var ya := ThisInput(a) + (VarBytes(a.scriptCode) + SingleHash(sha, a));
    var yb := ThisInput(b) + (VarBytes(b.scriptCode) + SingleHash(sha, b));
    var xa, xb := [a.scriptType] + ya, [b.scriptType] + yb;
    SplitEqual(InputHashes(sha, a), OutputsHash(sha, a) + xa, InputHashes(sha, b), OutputsHash(sha, b) + xb);
    SplitEqual(OutputsHash(sha, a), xa, OutputsHash(sha, b), xb);
    SplitEqual([a.scriptType], ya, [b.scriptType], yb);
  }

  lemma OutputsBind(sha: Sha256, a: Spend, b: Spend)
    requires Accepted(a) && Accepted(b) && CollisionFree(sha, Preimages(a) + Preimages(b))
    requires a.hashType == b.hashType
    requires OutputsHash(sha, a) == OutputsHash(sha, b) && SingleHash(sha, a) == SingleHash(sha, b)
    ensures CommittedOutputs(a) == CommittedOutputs(b)
  {
    hide Concat, EncodeTxOut, PrefixFree;
    TxOutPrefixFree();
    if SignsAllOutputs(a.hashType) {
      assert OutputBytes(a) == OutputBytes(b);
      ConcatInjective(EncodeTxOut, a.tx.outputs, b.tx.outputs);
    } else if OutputType(a.hashType) == SINGLE {
      var x, y := a.tx.outputs[a.index], b.tx.outputs[b.index];
      assert EncodeTxOut(x) == EncodeTxOut(y);
      SameTxOut(x, y);
    }
  }

  lemma SameTxOut(x: TxOut, y: TxOut)
    requires EncodeTxOut(x) == EncodeTxOut(y)
    ensures x == y
  {
    hide EncodeTxOut;
    TxOutPrefixFree();
    assert EncodeTxOut(x) + [] == EncodeTxOut(y) + [];
  }

  /** Equal messages commit to equal data, unless SHA-256 collides on what was hashed. */
  lemma MessageBinds(sha: Sha256, a: Spend, b: Spend)
    requires Accepted(a) && Accepted(b) && CollisionFree(sha, Preimages(a) + Preimages(b))
    requires Message(sha, a) == Message(sha, b)
    ensures Committed(a) == Committed(b)
  {
    hide Head, InputHashes, OutputsHash, ThisInput, VarBytes, SingleHash, Check, CollisionFree, Preimages, Message;
    Sections(sha, a, b);
    HeadBinds(a, b);
    TailBinds(a, SingleHash(sha, a), b, SingleHash(sha, b));
    OutputsBind(sha, a, b);
    if !AnyoneCanPay(a.hashType) { InputHashesBind(sha, a, b); }
  }

  /** Nothing outside the commitment reaches the message. */
  lemma CommitmentDetermines(sha: Sha256, a: Spend, b: Spend)
    requires Accepted(a) && Accepted(b) && Committed(a) == Committed(b)
    ensures Message(sha, a) == Message(sha, b)
  {
    hide Concat, EncodeOutPoint, EncodeTxOut, VarBytes, LE, EncodeI32, Check;
    assert Head(a) == Head(b) && InputHashes(sha, a) == InputHashes(sha, b);
    assert OutputsHash(sha, a) == OutputsHash(sha, b) && ThisInput(a) == ThisInput(b);
    assert SingleHash(sha, a) == SingleHash(sha, b);
  }

  /** The digest a signature is made over pins down exactly the commitment. */
  lemma DigestBindsCommitment(sha: Sha256, a: Spend, b: Spend)
    requires Accepted(a) && Accepted(b)
    requires CollisionFree(sha, Preimages(a) + Preimages(b)
               + {TaggedPreimage(sha, Message(sha, a)), TaggedPreimage(sha, Message(sha, b))})
    ensures SignatureHash(sha, a) == SignatureHash(sha, b) <==> Committed(a) == Committed(b)
  {
    hide Message, Committed, Preimages;
    if Committed(a) == Committed(b) { CommitmentDetermines(sha, a, b); }
    if SignatureHash(sha, a) == SignatureHash(sha, b) {
      SplitEqual(sha(TAG) + sha(TAG), Message(sha, a), sha(TAG) + sha(TAG), Message(sha, b));
      MessageBinds(sha, a, b);
    }
  }

  // ----- the loops -----

  method Aggregate<T>(f: T -> seq<byte>, xs: seq<T>) returns (bytes: seq<byte>)
    ensures bytes == Concat(f, xs)
  {
    bytes := [];
    for i := 0 to |xs|
      invariant bytes + Concat(f, xs[i..]) == Concat(f, xs)
    {
      assert xs[i..][1..] == xs[i + 1..];
      bytes := bytes + f(xs[i]);
    }
    assert bytes + [] == bytes;
  }

  /** The hashes shared by every input, computed once. */
  datatype Cache = Cache(prevouts: Hash, amounts: Hash, scripts: Hash, sequences: Hash, outputs: Hash)

  method NewCache(sha: Sha256, s: Spend) returns (r: Result<Cache, SighashError>)
    ensures |s.spent| != |s.tx.inputs| ==> r == Err(PrevoutsLengthMismatch(|s.tx.inputs|, |s.spent|))
    ensures |s.spent| == |s.tx.inputs| ==>
              r == Ok(Cache(sha(PrevoutBytes(s)), sha(AmountBytes(s)), sha(ScriptBytes(s)),
                            sha(SequenceBytes(s)), sha(OutputBytes(s))))
  {
    if |s.spent| != |s.tx.inputs| { return Err(PrevoutsLengthMismatch(|s.tx.inputs|, |s.spent|)); }
    var prevouts := Aggregate(EncodeOutPoint, Prevouts(s.tx));
    var amounts := Aggregate(EncodeU64, Amounts(s.spent));
    var scripts := Aggregate(EncodeScript, Scripts(s.spent));
    var sequences := Aggregate(EncodeU32, Sequences(s.tx));
    var outputs := Aggregate(EncodeTxOut, s.tx.outputs);
    return Ok(Cache(sha(prevouts), sha(amounts), sha(scripts), sha(sequences), sha(outputs)));
  }

  /** The message grown field by field from the cached hashes. */
  method BuildDigest(sha: Sha256, s: Spend) returns (r: Result<Hash, SighashError>)
    ensures r == SignatureHash(sha, s)
  {
    hide Concat, EncodeOutPoint, EncodeTxOut, VarBytes, LE, EncodeI32;
    var cache :- NewCache(sha, s);
    if s.hashType / UNIFIED % 2 == 0 { return Err(MissingUnifiedFlag(s.hashType)); }
    if s.scriptType != SCRIPT_TYPE_BASE && s.scriptType != SCRIPT_TYPE_WITNESS_V0 {
      return Err(UnsupportedScriptType(s.scriptType));
    }
    if s.index >= |s.tx.inputs| { return Err(InputIndexOutOfBounds(s.index, |s.tx.inputs|)); }
    if s.index >= 0x1_0000_0000 { return Err(InputIndexTooLarge(s.index)); }
    var outputType := s.hashType % 0x20;
    if outputType == SINGLE && s.index >= |s.tx.outputs| {
      return Err(MissingSingleOutput(s.index, |s.tx.outputs|));
    }
    var anyoneCanPay := s.hashType / ANYONECANPAY % 2 == 1;
    var message: seq<byte> := [0, s.hashType];
    message := message + EncodeI32(s.tx.version) + LE(s.tx.lockTime, 4) + [0];
    if !anyoneCanPay {
      message := message + cache.prevouts + cache.amounts + cache.scripts + cache.sequences;
    }
    assert message == Head(s) + InputHashes(sha, s);
    if outputType != NONE && outputType != SINGLE { message := message + cache.outputs; }
    assert message == Head(s) + InputHashes(sha, s) + OutputsHash(sha, s);
    ghost var prefix := message + [s.scriptType];
    message := message + [s.scriptType];
    if anyoneCanPay {
      message := message + EncodeOutPoint(s.tx.inputs[s.index].prevout);
      message := message + EncodeTxOut(s.spent[s.index]);
      message := message + LE(s.tx.inputs[s.index].sequence, 4);
    } else {
      message := message + LE(s.index, 4);
    }
    assert message == prefix + ThisInput(s);
    message := message + VarBytes(s.scriptCode);
    if outputType == SINGLE { message := message + sha(EncodeTxOut(s.tx.outputs[s.index])); }
    assert message == Message(sha, s);
    return Ok(sha(sha(TAG) + sha(TAG) + message));
  }
}
