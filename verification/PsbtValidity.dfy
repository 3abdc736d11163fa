/** The container byte by byte, and exactly which PSBTs the adapter accepts. */
module PsbtValidity {
  import opened Wrappers
  import opened Bytes
  import opened PsbtFormat
  import opened PsbtUnified
  import opened PsbtMerge

  // ----- the container -----

  lemma {:induction false} PairsSplit(ps: seq<RawPair>, i: nat)
    requires i <= |ps|
    ensures EncodePairs(ps) == EncodePairs(ps[..i]) + EncodePairs(ps[i..])
  {
    hide EncodePair;
    if i == 0 {
      assert ps[..0] == [] && ps[0..] == ps;
    } else {
      PairsSplit(ps[1..], i - 1);
      assert ps[..i][1..] == ps[1..][..i - 1] && ps[1..][i - 1..] == ps[i..] && ps[..i][0] == ps[0];
    }
  }

  lemma {:induction false} MapsSplit(ms: seq<RawMap>, i: nat)
    requires i <= |ms|
    ensures EncodeMaps(ms) == EncodeMaps(ms[..i]) + EncodeMaps(ms[i..])
  {
    hide EncodeMap;
    if i == 0 {
      assert ms[..0] == [] && ms[0..] == ms;
    } else {
      MapsSplit(ms[1..], i - 1);
      assert ms[..i][1..] == ms[1..][..i - 1] && ms[1..][i - 1..] == ms[i..] && ms[..i][0] == ms[0];
    }
  }

  /** In a map, each pair stands after those before it: key length, key, value length, value; and a zero
      byte ends the map. */
  lemma PairAt(m: RawMap, i: nat)
    requires i < |m.pairs|
    ensures var b, at := EncodeMap(m), |EncodePairs(m.pairs[..i])|;
            var key, value := m.pairs[i].key, m.pairs[i].value;
            && At(b, at, CompactSize(|key|)) && At(b, at + |CompactSize(|key|)|, key)
            && At(b, at + |VarBytes(key)|, CompactSize(|value|))
            && At(b, at + |VarBytes(key)| + |CompactSize(|value|)|, value)
            && b[|b| - 1] == 0
  {
    hide EncodePairs, CompactSize, At;
    var ps, key, value := m.pairs, m.pairs[i].key, m.pairs[i].value;
    var a, rest := EncodePairs(ps[..i]), EncodePairs(ps[i..][1..]);
    PairsSplit(ps, i);
    assert EncodePairs(ps[i..]) == EncodePair(ps[i..][0]) + EncodePairs(ps[i..][1..]) by { FirstPair(ps[i..]); }
    assert EncodeMap(m) == a + (EncodePair(ps[i]) + (rest + [0]));
    assert At(EncodeMap(m), |a|, EncodePair(ps[i])) by { AtMiddle(a, EncodePair(ps[i]), rest + [0]); }
    AtConcat(EncodeMap(m), |a|, VarBytes(key), VarBytes(value));
    AtConcat(EncodeMap(m), |a|, CompactSize(|key|), key);
    AtConcat(EncodeMap(m), |a| + |VarBytes(key)|, CompactSize(|value|), value);
  }

  lemma FirstPair(ps: seq<RawPair>)
    requires ps != []
    ensures EncodePairs(ps) == EncodePair(ps[0]) + EncodePairs(ps[1..])
  {
  }

  /** The container: the magic "psbt" and 0xff, the global map, and then every input's and every output's
      map in order. */
  lemma MapAt(p: RawPsbt, i: nat)
    ensures var b, global := Encode(p), 5 + |EncodeMap(p.global)|;
            && At(b, 0, [0x70, 0x73, 0x62, 0x74, 0xff]) && At(b, 5, EncodeMap(p.global))
            && (i < |p.inputs| ==> At(b, global + |EncodeMaps(p.inputs[..i])|, EncodeMap(p.inputs[i])))
            && (i < |p.outputs| ==>
                  At(b, global + |EncodeMaps(p.inputs)| + |EncodeMaps(p.outputs[..i])|, EncodeMap(p.outputs[i])))
            && |b| == global + |EncodeMaps(p.inputs)| + |EncodeMaps(p.outputs)|
  {
    hide EncodeMap, EncodeMaps, At;
    var g, ins, outs := EncodeMap(p.global), EncodeMaps(p.inputs), EncodeMaps(p.outputs);
    var b := Encode(p);
    assert b == MAGIC + (g + (ins + outs));
    AtWhole(b);
    AtConcat(b, 0, MAGIC, g + (ins + outs));
    AtConcat(b, 5, g, ins + outs);
    AtConcat(b, 5 + |g|, ins, outs);
    if i < |p.inputs| { MapsAt(b, 5 + |g|, p.inputs, i); }
    if i < |p.outputs| { MapsAt(b, 5 + |g| + |ins|, p.outputs, i); }
  }

  lemma MapsAt(b: seq<byte>, at: nat, ms: seq<RawMap>, i: nat)
    requires At(b, at, EncodeMaps(ms)) && i < |ms|
    ensures At(b, at + |EncodeMaps(ms[..i])|, EncodeMap(ms[i]))
  {
    hide EncodeMap, EncodeMaps, At;
    MapsSplit(ms, i);
    var a, rest := EncodeMaps(ms[..i]), EncodeMaps(ms[i..]);
    AtConcat(b, at, a, rest);
    assert rest == EncodeMap(ms[i]) + EncodeMaps(ms[i..][1..]) by { FirstMap(ms[i..]); }
    AtConcat(b, at + |a|, EncodeMap(ms[i]), EncodeMaps(ms[i..][1..]));
  }

  lemma FirstMap(ms: seq<RawMap>)
    requires ms != []
    ensures EncodeMaps(ms) == EncodeMap(ms[0]) + EncodeMaps(ms[1..])
  {
  }

  // ----- what is accepted -----

  /** The proprietary key of this wallet's unified signatures, up to the public key. */
  predicate InNamespace(key: seq<byte>) {
    && |key| >= 11 && key[0] == 0xfc && key[1] == 8 && key[10] == 0
    && forall i :: 0 <= i < 8 ==> key[2 + i] == "coincube"[i] as int
  }

  lemma NamespaceIff(key: seq<byte>)
    ensures IsReserved(key) <==> InNamespace(key)
  {
    assert |RESERVED| == 11;
    if IsReserved(key) { assert forall i :: 0 <= i < 11 ==> key[i] == RESERVED[i]; }
    if InNamespace(key) {
      forall i | 0 <= i < 8 ensures key[2 + i] == PREFIX[i] { assert key[2 + i] == "coincube"[i] as int; }
      assert key[2..10] == PREFIX;
      assert key[..11] == [key[0], key[1]] + key[2..10] + [key[10]];
    }
  }

  /** A field of an input: a legacy partial signature is of a valid key and ends in SIGHASH_ALL; a unified
      record is of a valid key that has no legacy one, strict DER and ends in 0x21; and a sighash request
      asks for one of the two. */
  predicate FieldGood(lib: Library, m: Content, key: seq<byte>)
    requires key in m
  {
    var value := m[key];
    && key != [] && lib.inputOk(RawPair(key, value)) && lib.normal(RawPair(key, value)) == value && ReservedData(key).Ok?
    && (key[0] == 0x02 ==> lib.validKey(key[1..]) && value != [] && value[|value| - 1] == 0x01)
    && (key == [0x03] ==> |value| == 4 && FromLE(value) in {0x01, 0x21})
    && (InNamespace(key) ==>
          && lib.validKey(key[11..]) && [0x02] + key[11..] !in m
          && value != [] && value[|value| - 1] == 0x21 && lib.strictDer(value[..|value| - 1]))
  }

  lemma FieldIff(lib: Library, m: Content, key: seq<byte>)
    requires key in m && key != []
    ensures FieldGood(lib, m, key) <==>
              && lib.inputOk(RawPair(key, m[key])) && ReservedData(key).Ok?
              && (IsStandard(key) ==> lib.validKey(key[1..])) && (key == SIGHASH_TYPE_KEY ==> |m[key]| == 4)
              && RecordOk(lib, m, key) && lib.normal(RawPair(key, m[key])) == m[key]
  {
    hide ReservedData, FromLE;
    NamespaceIff(key);
    assert |RESERVED| == 11;
  }

  lemma InputIff(lib: Library, m: Content)
    ensures GoodInput(lib, m) <==> forall key :: key in m ==> FieldGood(lib, m, key)
  {
    hide ReservedData, FieldGood, RecordOk;
    forall key | key in m && key != []
      ensures FieldGood(lib, m, key) <==>
                && lib.inputOk(RawPair(key, m[key])) && ReservedData(key).Ok?
                && (IsStandard(key) ==> lib.validKey(key[1..])) && (key == SIGHASH_TYPE_KEY ==> |m[key]| == 4)
                && RecordOk(lib, m, key) && lib.normal(RawPair(key, m[key])) == m[key]
    {
      FieldIff(lib, m, key);
    }
    if [] in m { NotEmpty(lib, m); }
  }

  lemma NotEmpty(lib: Library, m: Content)
    requires [] in m
    ensures !FieldGood(lib, m, [])
  {
  }

  /** A field of the global map or an output's: decodable, canonical and outside the namespace. */
  predicate Outside(lib: Library, ok: RawPair -> bool, m: Content) {
    forall key :: key in m ==>
      && key != [] && ok(RawPair(key, m[key])) && lib.normal(RawPair(key, m[key])) == m[key] && !InNamespace(key)
  }

  lemma OutsideIff(lib: Library, ok: RawPair -> bool, m: Content)
    ensures Outside(lib, ok, m) <==> [] !in m && FieldsOk(ok, m) && !HasReserved(m) && Canonical(lib, m)
  {
    hide InNamespace, IsReserved;
    forall key ensures IsReserved(key) <==> InNamespace(key) { NamespaceIff(key); }
  }

  /** The adapter accepts exactly version-0 PSBTs whose unsigned transaction has as many inputs and
      outputs as there are maps, whose fields are good, and which fit in 16 MiB, counting the seven
      bytes of an explicit version field. */
  lemma ValidIff(lib: Library, u: UnifiedPsbt)
    requires Faithful(lib)
    ensures var p := u.psbt;
            Valid(lib, u) <==>
              && p.version == 0 && [0xfb] !in p.global && [0x00] in p.global && lib.unsignedOk(p.global[[0x00]])
              && lib.decode(p.global[[0x00]]) == Some(TxShape(|p.inputs|, |p.outputs|))
              && Outside(lib, lib.globalOk, p.global)
              && (forall m :: m in p.outputs ==> Outside(lib, lib.outputOk, m))
              && (forall m :: m in p.inputs ==> forall key :: key in m ==> FieldGood(lib, m, key))
              && |Encode(RawOf(lib, p))| + (if u.explicitGlobalVersion then 7 else 0) <= 16_777_216
  {
    hide Outside, FieldGood, InputFieldsOk, InputOk, Encode, Canonical, HasReserved, FieldsOk, ValidateInternal, Faithful;
    var p := u.psbt;
    OutsideIff(lib, lib.globalOk, p.global);
    forall m | m in p.outputs
      ensures Outside(lib, lib.outputOk, m) <==> [] !in m && FieldsOk(lib.outputOk, m) && !HasReserved(m) && Canonical(lib, m)
    {
      OutsideIff(lib, lib.outputOk, m);
    }
    forall m | m in p.inputs ensures GoodInput(lib, m) <==> forall key :: key in m ==> FieldGood(lib, m, key) {
      InputIff(lib, m);
    }
    if Valid(lib, u) { ValidIsGood(lib, u); }
    if GoodContent(lib, p) && Size(lib, u) <= MAX_PSBT_BYTES { GoodIsValid(lib, u); }
  }
}
