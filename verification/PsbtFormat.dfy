/** The strict reader and printer of the version-0 PSBT container. The functions say what the
    bytes mean; the loops that compute it are in PsbtLoops. */
module PsbtFormat {
  import opened Wrappers
  import opened Bytes

  const MAX_PSBT_BYTES: nat := 16 * 1024 * 1024
  /** `usize` of a 64-bit target. */
  const USIZE_MAX: nat := 0xffff_ffff_ffff_ffff
  const MAGIC: seq<byte> := [0x70, 0x73, 0x62, 0x74, 0xff]
  const UNSIGNED_TX_KEY: seq<byte> := [0x00]
  const VERSION_KEY: seq<byte> := [0xfb]

  datatype Error =
    | InputTooLarge(actual: nat, maximum: nat)
    | InvalidMagic
    | TruncatedCompactSize
    | NonMinimalCompactSize
    | TruncatedField
    | LengthOverflow
    | DuplicateRawKey(map_: nat, key: seq<byte>)
    | EmptyKey
    | MissingUnsignedTransaction
    | InvalidUnsignedTransaction
    | MissingMap(index: nat)
    | TrailingData
    | InvalidVersionField
    | UnsupportedVersion(version: nat)

  /** `key` is the complete key: type byte, then key data. */
  datatype RawPair = RawPair(key: seq<byte>, value: seq<byte>)
  datatype RawMap = RawMap(pairs: seq<RawPair>)
  datatype RawPsbt = RawPsbt(global: RawMap, inputs: seq<RawMap>, outputs: seq<RawMap>)

  /** What the container needs from the embedded transaction: how many maps follow. */
  datatype TxShape = TxShape(inputs: nat, outputs: nat)
  /** rust-bitcoin's exact transaction decoder, seen only through its map counts. */
  type TxDecoder = seq<byte> -> Option<TxShape>

  // ----- meaning of the bytes: printing -----

  function EncodePair(p: RawPair): seq<byte> {
    VarBytes(p.key) + VarBytes(p.value)
  }

  function EncodePairs(ps: seq<RawPair>): seq<byte> {
    if ps == [] then [] else EncodePair(ps[0]) + EncodePairs(ps[1..])
  }

  function EncodeMap(m: RawMap): seq<byte> {
    EncodePairs(m.pairs) + [0]
  }

  function EncodeMaps(ms: seq<RawMap>): seq<byte> {
    if ms == [] then [] else EncodeMap(ms[0]) + EncodeMaps(ms[1..])
  }

  /** The container as one byte string, before any limit is applied. */
  function Encode(p: RawPsbt): seq<byte> {
    MAGIC + EncodeMap(p.global) + EncodeMaps(p.inputs) + EncodeMaps(p.outputs)
  }

  predicate NoEmptyKeys(m: RawMap) {
    forall p :: p in m.pairs ==> p.key != []
  }

  predicate NoEmptyKeysIn(ms: seq<RawMap>) {
    forall m :: m in ms ==> NoEmptyKeys(m)
  }

  predicate DistinctKeys(ps: seq<RawPair>) {
    forall i, j :: 0 <= i < j < |ps| ==> ps[i].key != ps[j].key
  }

  predicate WellFormedMap(m: RawMap) {
    NoEmptyKeys(m) && DistinctKeys(m.pairs)
  }

  function Lookup(ps: seq<RawPair>, key: seq<byte>): Option<seq<byte>> {
    if ps == [] then None
    else if ps[0].key == key then Some(ps[0].value)
    else Lookup(ps[1..], key)
  }

  function RequireV0(global: RawMap): Result<(), Error> {
    match Lookup(global.pairs, VERSION_KEY)
    case None => Ok(())
    case Some(v) =>
      if |v| != 4 then Err(InvalidVersionField)
      else if FromLE(v) != 0 then Err(UnsupportedVersion(FromLE(v)))
      else Ok(())
  }

  function ShapeOf(global: RawMap, decode: TxDecoder): Result<TxShape, Error> {
    match Lookup(global.pairs, UNSIGNED_TX_KEY)
    case None => Err(MissingUnsignedTransaction)
    case Some(v) =>
      match decode(v)
      case None => Err(InvalidUnsignedTransaction)
      case Some(shape) => Ok(shape)
  }

  /** Exactly the values the parser can return. */
  predicate WellFormed(p: RawPsbt, decode: TxDecoder) {
    && WellFormedMap(p.global)
    && (forall m :: m in p.inputs ==> WellFormedMap(m))
    && (forall m :: m in p.outputs ==> WellFormedMap(m))
    && RequireV0(p.global).Ok?
    && ShapeOf(p.global, decode) == Ok(TxShape(|p.inputs|, |p.outputs|))
  }

  function EnsureSize(size: nat): Result<(), Error> {
    if size > MAX_PSBT_BYTES then Err(InputTooLarge(size, MAX_PSBT_BYTES)) else Ok(())
  }

  /** One map appended to `acc`, with the limit applied after every pair. */
  function AppendPairs(acc: seq<byte>, ps: seq<RawPair>): Result<seq<byte>, Error>
    decreases |ps|
  {
    if ps == [] then
      var _ :- EnsureSize(|acc| + 1);
      Ok(acc + [0])
    else if ps[0].key == [] then Err(EmptyKey)
    else
      var out := acc + EncodePair(ps[0]);
      var _ :- EnsureSize(|out|);
      AppendPairs(out, ps[1..])
  }

  function AppendMaps(acc: seq<byte>, ms: seq<RawMap>): Result<seq<byte>, Error>
    decreases |ms|
  {
    if ms == [] then Ok(acc)
    else
      var out :- AppendPairs(acc, ms[0].pairs);
      AppendMaps(out, ms[1..])
  }

  function Serialize(p: RawPsbt): Result<seq<byte>, Error> {
    var g :- AppendPairs(MAGIC, p.global.pairs);
    var i :- AppendMaps(g, p.inputs);
    var o :- AppendMaps(i, p.outputs);
    var _ :- EnsureSize(|o|);
    Ok(o)
  }

  // ----- meaning of the bytes: reading -----

  /** The position after `length` bytes; `truncated` is the error when they are not there. */
  function Advance(b: seq<byte>, pos: nat, length: nat, truncated: Error): (r: Result<nat, Error>)
    requires pos <= |b|
    ensures r.Ok? ==> r.value == pos + length <= |b|
  {
    if pos + length > USIZE_MAX then Err(LengthOverflow)
    else if pos + length > |b| then Err(truncated)
    else Ok(pos + length)
  }

  /** A truncated one-byte field reports a compact size, whatever it was. */
  function ReadExact(b: seq<byte>, pos: nat, length: nat): (r: Result<nat, Error>)
    requires pos <= |b|
    ensures r.Ok? ==> r.value == pos + length <= |b|
  {
    Advance(b, pos, length, if length == 1 then TruncatedCompactSize else TruncatedField)
  }

  function ReadCompactSize(b: seq<byte>, pos: nat): (r: Result<(nat, nat), Error>)
    requires pos <= |b|
    ensures r.Ok? ==> pos < r.value.1 <= |b|
  {
    var p :- ReadExact(b, pos, 1);
    var tag := b[pos];
    if tag <= 0xfc then Ok((tag, p))
    else
      var width := if tag == 0xfd then 2 else if tag == 0xfe then 4 else 8;
      var least := if tag == 0xfd then 0xfd else if tag == 0xfe then 0x1_0000 else 0x1_0000_0000;
      var q :- Advance(b, p, width, TruncatedCompactSize);
      var value := FromLE(b[p..q]);
      if value < least then Err(NonMinimalCompactSize) else Ok((value, q))
  }

  /** One key/value pair after a non-zero key length. */
  function ReadPair(b: seq<byte>, pos: nat, keyLength: nat, seen: set<seq<byte>>, index: nat)
    : (r: Result<(RawPair, nat), Error>)
    requires pos <= |b|
    ensures r.Ok? ==> pos <= r.value.1 <= |b|
  {
    var k :- ReadExact(b, pos, keyLength);
    var key := b[pos..k];
    if key in seen then Err(DuplicateRawKey(index, key))
    else
      var (valueLength, v) :- ReadCompactSize(b, k);
      var end :- ReadExact(b, v, valueLength);
      Ok((RawPair(key, b[v..end]), end))
  }

  function ReadPairs(b: seq<byte>, pos: nat, seen: set<seq<byte>>, index: nat)
    : (r: Result<(seq<RawPair>, nat), Error>)
    requires pos <= |b|
    ensures r.Ok? ==> pos < r.value.1 <= |b|
    decreases |b| - pos
  {
    var (keyLength, k) :- ReadCompactSize(b, pos);
    if keyLength == 0 then Ok(([], k))
    else
      var (pair, p) :- ReadPair(b, k, keyLength, seen, index);
      var (rest, end) :- ReadPairs(b, p, seen + {pair.key}, index);
      Ok(([pair] + rest, end))
  }

  function ReadMap(b: seq<byte>, pos: nat, index: nat): (r: Result<(RawMap, nat), Error>)
    requires pos <= |b|
    ensures r.Ok? ==> pos < r.value.1 <= |b|
  {
    if pos == |b| then Err(MissingMap(index))
    else
      var (pairs, end) :- ReadPairs(b, pos, {}, index);
      Ok((RawMap(pairs), end))
  }

  function ReadMaps(b: seq<byte>, pos: nat, first: nat, count: nat)
    : (r: Result<(seq<RawMap>, nat), Error>)
    requires pos <= |b|
    ensures r.Ok? ==> pos <= r.value.1 <= |b| && |r.value.0| == count
    decreases count
  {
    if count == 0 then Ok(([], pos))
    else
      var (m, p) :- ReadMap(b, pos, first);
      var (rest, end) :- ReadMaps(b, p, first + 1, count - 1);
      Ok(([m] + rest, end))
  }

  function Parse(b: seq<byte>, decode: TxDecoder): Result<RawPsbt, Error> {
    var _ :- EnsureSize(|b|);
    if |b| < |MAGIC| || b[..|MAGIC|] != MAGIC then Err(InvalidMagic)
    else
      var (global, g) :- ReadMap(b, |MAGIC|, 0);
      var _ :- RequireV0(global);
      var shape :- ShapeOf(global, decode);
      var (inputs, i) :- ReadMaps(b, g, 1, shape.inputs);
      var (outputs, o) :- ReadMaps(b, i, shape.inputs + 1, shape.outputs);
      if o != |b| then Err(TrailingData) else Ok(RawPsbt(global, inputs, outputs))
  }

  // ----- the printer without its running limit -----

  lemma {:induction false} AppendPairsIsEncode(acc: seq<byte>, ps: seq<RawPair>)
    ensures AppendPairs(acc, ps).Ok? <==>
              NoEmptyKeys(RawMap(ps)) && |acc + EncodeMap(RawMap(ps))| <= MAX_PSBT_BYTES
    ensures AppendPairs(acc, ps).Ok? ==>
              AppendPairs(acc, ps).value == acc + EncodeMap(RawMap(ps))
    decreases |ps|
  {
    hide EncodePair, EncodeMap, NoEmptyKeys;
    if ps == [] {
      EmptyMap();
    } else {
      var out := acc + EncodePair(ps[0]);
      AppendPairsIsEncode(out, ps[1..]);
      MapCons(ps);
      assert out + EncodeMap(RawMap(ps[1..])) == acc + EncodeMap(RawMap(ps));
    }
  }

  lemma EmptyMap()
    ensures EncodeMap(RawMap([])) == [0] && NoEmptyKeys(RawMap([]))
  {
  }

  lemma MapCons(ps: seq<RawPair>)
    requires ps != []
    ensures EncodeMap(RawMap(ps)) == EncodePair(ps[0]) + EncodeMap(RawMap(ps[1..]))
    ensures NoEmptyKeys(RawMap(ps)) <==> ps[0].key != [] && NoEmptyKeys(RawMap(ps[1..]))
  {
    hide EncodePair;
    assert ps == [ps[0]] + ps[1..];
  }

  lemma {:induction false} AppendMapsIsEncode(acc: seq<byte>, ms: seq<RawMap>)
    requires |acc| <= MAX_PSBT_BYTES
    ensures AppendMaps(acc, ms).Ok? <==>
              NoEmptyKeysIn(ms) && |acc + EncodeMaps(ms)| <= MAX_PSBT_BYTES
    ensures AppendMaps(acc, ms).Ok? ==> AppendMaps(acc, ms).value == acc + EncodeMaps(ms)
    decreases |ms|
  {
    hide EncodeMap, AppendPairs, NoEmptyKeys;
    if ms == [] {
      assert acc + EncodeMaps(ms) == acc;
    } else {
      AppendPairsIsEncode(acc, ms[0].pairs);
      var out := acc + EncodeMap(ms[0]);
      assert out + EncodeMaps(ms[1..]) == acc + EncodeMaps(ms);
      assert ms == [ms[0]] + ms[1..];
      if AppendPairs(acc, ms[0].pairs).Ok? {
        AppendMapsIsEncode(out, ms[1..]);
      }
    }
  }

  /** The limit checks inside the printer are equivalent to one check on the finished bytes. */
  lemma SerializeIsEncode(p: RawPsbt)
    ensures Serialize(p).Ok? <==>
              && NoEmptyKeys(p.global) && NoEmptyKeysIn(p.inputs) && NoEmptyKeysIn(p.outputs)
              && |Encode(p)| <= MAX_PSBT_BYTES
    ensures Serialize(p).Ok? ==> Serialize(p).value == Encode(p)
  {
    AppendPairsIsEncode(MAGIC, p.global.pairs);
    var g := MAGIC + EncodeMap(p.global);
    if |g| <= MAX_PSBT_BYTES {
      AppendMapsIsEncode(g, p.inputs);
      var i := g + EncodeMaps(p.inputs);
      if |i| <= MAX_PSBT_BYTES {
        AppendMapsIsEncode(i, p.outputs);
        assert i + EncodeMaps(p.outputs) == Encode(p);
      }
    }
  }

  // ----- reading undoes printing, printing undoes reading -----

  lemma CompactSizeSound(b: seq<byte>, pos: nat)
    requires pos <= |b| && ReadCompactSize(b, pos).Ok?
    ensures var (v, end) := ReadCompactSize(b, pos).value;
            v < U64_LIMIT && At(b, pos, CompactSize(v)) && end == pos + |CompactSize(v)|
  {
    Widths();
    var (v, end) := ReadCompactSize(b, pos).value;
    FromLERoundTrip(b[pos + 1..end]);
    assert b[pos..end] == [b[pos]] + b[pos + 1..end];
  }

  lemma CompactSizeComplete(b: seq<byte>, pos: nat, v: nat)
    requires |b| <= USIZE_MAX && v < U64_LIMIT && At(b, pos, CompactSize(v))
    ensures ReadCompactSize(b, pos) == Ok((v, pos + |CompactSize(v)|))
  {
    Widths();
    var e := CompactSize(v);
    assert b[pos] == b[pos..pos + |e|][0] == e[0];
    if v > 0xfc {
      LERoundTrip(v, |e| - 1);
      assert b[pos + 1..pos + |e|] == b[pos..pos + |e|][1..] == e[1..];
    }
  }

  /** A pair reader result is the pair printed there, minus its key length. */
  lemma PairSound(b: seq<byte>, pos: nat, keyLength: nat, seen: set<seq<byte>>, index: nat)
    requires pos <= |b| && ReadPair(b, pos, keyLength, seen, index).Ok?
    ensures var (pair, end) := ReadPair(b, pos, keyLength, seen, index).value;
            && |pair.key| == keyLength && pair.key !in seen
            && At(b, pos, pair.key + VarBytes(pair.value))
            && end == pos + |pair.key + VarBytes(pair.value)|
  {
    hide CompactSize, ReadCompactSize;
    var (pair, end) := ReadPair(b, pos, keyLength, seen, index).value;
    var k := pos + keyLength;
    CompactSizeSound(b, k);
    var size := CompactSize(|pair.value|);
    AtConcat(b, k, size, pair.value);
    AtConcat(b, pos, pair.key, VarBytes(pair.value));
  }

  lemma PairComplete(b: seq<byte>, pos: nat, pair: RawPair, seen: set<seq<byte>>, index: nat)
    requires |b| <= USIZE_MAX && pair.key !in seen
    requires At(b, pos, pair.key + VarBytes(pair.value))
    ensures ReadPair(b, pos, |pair.key|, seen, index)
         == Ok((pair, pos + |pair.key + VarBytes(pair.value)|))
  {
    hide CompactSize, ReadCompactSize;
    var k := pos + |pair.key|;
    var size := CompactSize(|pair.value|);
    AtConcat(b, pos, pair.key, VarBytes(pair.value));
    AtConcat(b, k, size, pair.value);
    CompactSizeComplete(b, k, |pair.value|);
  }

  /** Keys of `ps` avoid `seen` and each other. */
  predicate Fresh(ps: seq<RawPair>, seen: set<seq<byte>>) {
    && NoEmptyKeys(RawMap(ps)) && DistinctKeys(ps)
    && forall p :: p in ps ==> p.key !in seen
  }

  lemma FreshStep(ps: seq<RawPair>, seen: set<seq<byte>>)
    requires ps != []
    ensures Fresh(ps, seen) <==>
              ps[0].key != [] && ps[0].key !in seen && Fresh(ps[1..], seen + {ps[0].key})
  {
    var head, tail := ps[0], ps[1..];
    assert ps == [head] + tail;
    if Fresh(ps, seen) {
      forall p | p in tail ensures p in ps && p.key !in seen + {head.key} {
        var i :| 0 <= i < |tail| && tail[i] == p;
        assert ps[i + 1] == p;
      }
      forall i, j | 0 <= i < j < |tail| ensures tail[i].key != tail[j].key {
        assert tail[i] == ps[i + 1] && tail[j] == ps[j + 1];
      }
    } else if Fresh(tail, seen + {head.key}) {
      forall i, j | 0 <= i < j < |ps| ensures i > 0 ==> ps[i].key != ps[j].key
                                      ensures ps[j] in tail
      {
        assert ps[j] == tail[j - 1];
        if i > 0 { assert ps[i] == tail[i - 1]; }
      }
    }
  }

  lemma EncodePairHead(p: RawPair)
    ensures EncodePair(p) == CompactSize(|p.key|) + (p.key + VarBytes(p.value))
  {
  }

  lemma EncodePairsCons(p: RawPair, ps: seq<RawPair>)
    ensures EncodePairs([p] + ps) + [0] == EncodePair(p) + (EncodePairs(ps) + [0])
  {
    assert ([p] + ps)[1..] == ps;
  }

  lemma {:induction false} PairsSound(b: seq<byte>, pos: nat, seen: set<seq<byte>>, index: nat)
    requires pos <= |b| && ReadPairs(b, pos, seen, index).Ok?
    ensures var (ps, end) := ReadPairs(b, pos, seen, index).value;
            && Fresh(ps, seen)
            && At(b, pos, EncodePairs(ps) + [0]) && end == pos + |EncodePairs(ps) + [0]|
    decreases |b| - pos
  {
    hide At, CompactSize, VarBytes, EncodePair, ReadCompactSize, ReadPair, Fresh;
    CompactSizeSound(b, pos);
    var (keyLength, k) := ReadCompactSize(b, pos).value;
    if keyLength == 0 {
      NoPairs(seen);
    } else {
      PairSound(b, k, keyLength, seen, index);
      var (pair, p) := ReadPair(b, k, keyLength, seen, index).value;
      PairsSound(b, p, seen + {pair.key}, index);
      var (rest, end) := ReadPairs(b, p, seen + {pair.key}, index).value;
      var ps := [pair] + rest;
      assert ps[1..] == rest;
      FreshStep(ps, seen);
      EncodePairHead(pair);
      AtConcat(b, pos, CompactSize(keyLength), pair.key + VarBytes(pair.value));
      AtConcat(b, pos, EncodePair(pair), EncodePairs(rest) + [0]);
      EncodePairsCons(pair, rest);
    }
  }

  lemma NoPairs(seen: set<seq<byte>>)
    ensures EncodePairs([]) + [0] == CompactSize(0) && Fresh([], seen)
  {
  }

  lemma {:induction false} PairsComplete(b: seq<byte>, pos: nat, ps: seq<RawPair>, seen: set<seq<byte>>, index: nat)
    requires |b| <= USIZE_MAX && Fresh(ps, seen) && At(b, pos, EncodePairs(ps) + [0])
    ensures ReadPairs(b, pos, seen, index) == Ok((ps, pos + |EncodePairs(ps) + [0]|))
    decreases |ps|
  {
    hide At, CompactSize, VarBytes, EncodePair, ReadCompactSize, ReadPair, Fresh;
    if ps == [] {
      NoPairs(seen);
      CompactSizeComplete(b, pos, 0);
    } else {
      var pair, rest := ps[0], ps[1..];
      assert [pair] + rest == ps;
      FreshStep(ps, seen);
      EncodePairHead(pair);
      EncodePairsCons(pair, rest);
      AtConcat(b, pos, EncodePair(pair), EncodePairs(rest) + [0]);
      AtConcat(b, pos, CompactSize(|pair.key|), pair.key + VarBytes(pair.value));
      assert |pair.key + VarBytes(pair.value)| <= |b| by { AtFits(b, pos + |CompactSize(|pair.key|)|, pair.key + VarBytes(pair.value)); }
      CompactSizeComplete(b, pos, |pair.key|);
      PairComplete(b, pos + |CompactSize(|pair.key|)|, pair, seen, index);
      PairsComplete(b, pos + |EncodePair(pair)|, rest, seen + {pair.key}, index);
    }
  }

  /** What is read as a map is well formed and is what was printed there. */
  lemma MapSound(b: seq<byte>, pos: nat, index: nat)
    requires pos <= |b| && ReadMap(b, pos, index).Ok?
    ensures var (m, end) := ReadMap(b, pos, index).value;
            WellFormedMap(m) && At(b, pos, EncodeMap(m)) && end == pos + |EncodeMap(m)|
  {
    hide At, EncodePairs, ReadPairs;
    PairsSound(b, pos, {}, index);
  }

  lemma MapComplete(b: seq<byte>, pos: nat, index: nat, m: RawMap)
    requires |b| <= USIZE_MAX && WellFormedMap(m) && At(b, pos, EncodeMap(m))
    ensures ReadMap(b, pos, index) == Ok((m, pos + |EncodeMap(m)|))
  {
    hide EncodePairs, ReadPairs;
    PairsComplete(b, pos, m.pairs, {}, index);
  }

  predicate AllWellFormed(ms: seq<RawMap>) {
    forall m :: m in ms ==> WellFormedMap(m)
  }

  lemma {:induction false} MapsSound(b: seq<byte>, pos: nat, first: nat, count: nat)
    requires pos <= |b| && ReadMaps(b, pos, first, count).Ok?
    ensures var (ms, end) := ReadMaps(b, pos, first, count).value;
            AllWellFormed(ms) && At(b, pos, EncodeMaps(ms)) && end == pos + |EncodeMaps(ms)|
    decreases count
  {
    hide EncodeMap, ReadMap, WellFormedMap;
    if count > 0 {
      hide At;
      MapSound(b, pos, first);
      var (m, p) := ReadMap(b, pos, first).value;
      MapsSound(b, p, first + 1, count - 1);
      var (rest, end) := ReadMaps(b, p, first + 1, count - 1).value;
      assert ([m] + rest)[1..] == rest;
      AtConcat(b, pos, EncodeMap(m), EncodeMaps(rest));
    }
  }

  lemma {:induction false} MapsComplete(b: seq<byte>, pos: nat, first: nat, ms: seq<RawMap>)
    requires |b| <= USIZE_MAX && AllWellFormed(ms) && At(b, pos, EncodeMaps(ms))
    ensures ReadMaps(b, pos, first, |ms|) == Ok((ms, pos + |EncodeMaps(ms)|))
    decreases |ms|
  {
    hide EncodeMap, ReadMap, WellFormedMap;
    if ms != [] {
      assert ms[0] in ms;
      AtConcat(b, pos, EncodeMap(ms[0]), EncodeMaps(ms[1..]));
      MapComplete(b, pos, first, ms[0]);
      MapsComplete(b, pos + |EncodeMap(ms[0])|, first + 1, ms[1..]);
      assert [ms[0]] + ms[1..] == ms;
    }
  }

  /** Four byte strings laid end to end, and where each one starts. */
  lemma FourParts(b: seq<byte>, w: seq<byte>, x: seq<byte>, y: seq<byte>, z: seq<byte>)
    ensures b == w + x + y + z <==>
              && At(b, 0, w) && At(b, |w|, x) && At(b, |w| + |x|, y) && At(b, |w| + |x| + |y|, z)
              && |b| == |w| + |x| + |y| + |z|
  {
    AtConcat(b, 0, w, x);
    AtConcat(b, 0, w + x, y);
    AtConcat(b, 0, w + x + y, z);
    var e := w + x + y + z;
    if |b| == |e| { assert b[0..0 + |e|] == b; }
  }

  lemma ParseSound(b: seq<byte>, decode: TxDecoder)
    requires Parse(b, decode).Ok?
    ensures WellFormed(Parse(b, decode).value, decode)
    ensures b == Encode(Parse(b, decode).value) && |b| <= MAX_PSBT_BYTES
  {
    hide EncodeMap, EncodeMaps, ReadMap, ReadMaps, WellFormedMap, RequireV0, ShapeOf;
    var p := Parse(b, decode).value;
    MapSound(b, |MAGIC|, 0);
    var g := |MAGIC| + |EncodeMap(p.global)|;
    MapsSound(b, g, 1, |p.inputs|);
    MapsSound(b, g + |EncodeMaps(p.inputs)|, |p.inputs| + 1, |p.outputs|);
    FourParts(b, MAGIC, EncodeMap(p.global), EncodeMaps(p.inputs), EncodeMaps(p.outputs));
  }

  lemma ParseComplete(p: RawPsbt, decode: TxDecoder)
    requires WellFormed(p, decode) && |Encode(p)| <= MAX_PSBT_BYTES
    ensures Parse(Encode(p), decode) == Ok(p)
  {
    hide EncodeMap, EncodeMaps, ReadMap, ReadMaps, WellFormedMap, RequireV0, ShapeOf;
    var b := Encode(p);
    FourParts(b, MAGIC, EncodeMap(p.global), EncodeMaps(p.inputs), EncodeMaps(p.outputs));
    var g := |MAGIC| + |EncodeMap(p.global)|;
    MapComplete(b, |MAGIC|, 0, p.global);
    MapsComplete(b, g, 1, p.inputs);
    MapsComplete(b, g + |EncodeMaps(p.inputs)|, |p.inputs| + 1, p.outputs);
  }

  /** The reader and the printer are exact inverses: `b` is read as `p` if and only if `p` is
      well formed and prints, within the limit, as `b`. */
  lemma ReaderInvertsPrinter(b: seq<byte>, p: RawPsbt, decode: TxDecoder)
    ensures Parse(b, decode) == Ok(p) <==> WellFormed(p, decode) && Serialize(p) == Ok(b)
  {
    SerializeIsEncode(p);
    if Parse(b, decode) == Ok(p) {
      ParseSound(b, decode);
    }
    if WellFormed(p, decode) && Serialize(p) == Ok(b) {
      ParseComplete(p, decode);
    }
  }
}
