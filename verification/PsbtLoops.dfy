/** The reader and the printer as the program runs them: a cursor advanced by loops, byte
    strings grown by loops. Each method is proved to compute the function of PsbtFormat. */
module PsbtLoops {
  import opened Wrappers
  import opened Bytes
  import opened PsbtFormat
  import F = PsbtFormat

  /** A position moving through a byte string. */
  class Cursor {
    const bytes: seq<byte>
    var position: nat

    ghost predicate Valid()
      reads this
    {
      position <= |bytes|
    }

    constructor (bytes: seq<byte>, position: nat)
      requires position <= |bytes|
      ensures this.bytes == bytes && this.position == position && Valid()
    {
      this.bytes, this.position := bytes, position;
    }

    method ReadExact(length: nat) returns (r: Result<seq<byte>, Error>)
      requires Valid()
      modifies this`position
      ensures Valid()
      ensures match F.ReadExact(bytes, old(position), length)
              case Ok(end) => r == Ok(bytes[old(position)..end]) && position == end
              case Err(e) => r == Err(e) && position == old(position)
    {
      var end :- F.ReadExact(bytes, position, length);
      r := Ok(bytes[position..end]);
      position := end;
    }

    method ReadCompactTail(length: nat) returns (r: Result<seq<byte>, Error>)
      requires Valid()
      modifies this`position
      ensures Valid()
      ensures match Advance(bytes, old(position), length, TruncatedCompactSize)
              case Ok(end) => r == Ok(bytes[old(position)..end]) && position == end
              case Err(e) => r == Err(e) && position == old(position)
    {
      var end :- Advance(bytes, position, length, TruncatedCompactSize);
      r := Ok(bytes[position..end]);
      position := end;
    }

    method ReadCompactSize() returns (r: Result<nat, Error>)
      requires Valid()
      modifies this`position
      ensures Valid()
      ensures match F.ReadCompactSize(bytes, old(position))
              case Ok((v, end)) => r == Ok(v) && position == end
              case Err(e) => r == Err(e)
    {
      var first :- ReadExact(1);
      var tag := first[0];
      var value: nat;
      if tag <= 0xfc {
        value := tag;
      } else if tag == 0xfd {
        var raw :- ReadCompactTail(2);
        value := FromLE(raw);
        if value < 0xfd { return Err(NonMinimalCompactSize); }
      } else if tag == 0xfe {
        var raw :- ReadCompactTail(4);
        value := FromLE(raw);
        if value <= 0xffff { return Err(NonMinimalCompactSize); }
      } else {
        var raw :- ReadCompactTail(8);
        value := FromLE(raw);
        if value <= 0xffff_ffff { return Err(NonMinimalCompactSize); }
      }
      return Ok(value);
    }

    method ReadMap(index: nat) returns (r: Result<RawMap, Error>)
      requires Valid()
      modifies this`position
      ensures Valid()
      ensures match F.ReadMap(bytes, old(position), index)
              case Ok((m, end)) => r == Ok(m) && position == end
              case Err(e) => r == Err(e)
    {
      hide F.ReadCompactSize;
      if position >= |bytes| { return Err(MissingMap(index)); }
      var pairs: seq<RawPair>, keys: set<seq<byte>> := [], {};
      ghost var all := ReadPairs(bytes, position, {}, index);
      if all.Ok? { assert [] + all.value.0 == all.value.0; }
      while true
        invariant Valid()
        invariant match ReadPairs(bytes, position, keys, index)
                  case Ok((rest, end)) => all == Ok((pairs + rest, end))
                  case Err(e) => all == Err(e)
        decreases |bytes| - position
      {
        var keyLength :- ReadCompactSize();
        if keyLength == 0 {
          assert pairs + [] == pairs;
          break;
        }
        ghost var keyStart := position;
        var key :- ReadExact(keyLength);
        if key in keys { return Err(DuplicateRawKey(index, key)); }
        var valueLength :- ReadCompactSize();
        var value :- ReadExact(valueLength);
        var pair := RawPair(key, value);
        assert F.ReadPair(bytes, keyStart, keyLength, keys, index) == Ok((pair, position));
        ghost var next := ReadPairs(bytes, position, keys + {key}, index);
        if next.Ok? { assert pairs + ([pair] + next.value.0) == pairs + [pair] + next.value.0; }
        keys := keys + {key};
        pairs := pairs + [pair];
      }
      return Ok(RawMap(pairs));
    }

    /** The two counted loops of the parser. */
    method ReadMaps(first: nat, count: nat) returns (r: Result<seq<RawMap>, Error>)
      requires Valid()
      modifies this`position
      ensures Valid()
      ensures match F.ReadMaps(bytes, old(position), first, count)
              case Ok((ms, end)) => r == Ok(ms) && position == end
              case Err(e) => r == Err(e)
    {
      hide F.ReadMap;
      var maps: seq<RawMap> := [];
      ghost var all := F.ReadMaps(bytes, position, first, count);
      if all.Ok? { assert [] + all.value.0 == all.value.0; }
      for i := 0 to count
        invariant Valid()
        invariant match F.ReadMaps(bytes, position, first + i, count - i)
                  case Ok((rest, end)) => all == Ok((maps + rest, end))
                  case Err(e) => all == Err(e)
      {
        var m :- ReadMap(first + i);
        ghost var next := F.ReadMaps(bytes, position, first + i + 1, count - i - 1);
        if next.Ok? { assert maps + ([m] + next.value.0) == maps + [m] + next.value.0; }
        maps := maps + [m];
      }
      assert maps + [] == maps;
      return Ok(maps);
    }
  }

  method ParseBytes(b: seq<byte>, decode: TxDecoder) returns (r: Result<RawPsbt, Error>)
    ensures r == Parse(b, decode)
  {
    var _ :- EnsureSize(|b|);
    if |b| < |MAGIC| || b[..|MAGIC|] != MAGIC { return Err(InvalidMagic); }
    var cursor := new Cursor(b, |MAGIC|);
    var global :- cursor.ReadMap(0);
    var _ :- RequireV0(global);
    var shape :- ShapeOf(global, decode);
    var inputs :- cursor.ReadMaps(1, shape.inputs);
    var outputs :- cursor.ReadMaps(shape.inputs + 1, shape.outputs);
    if cursor.position != |b| { return Err(TrailingData); }
    return Ok(RawPsbt(global, inputs, outputs));
  }

  lemma PairAppended(out: seq<byte>, p: RawPair)
    ensures out + CompactSize(|p.key|) + p.key + CompactSize(|p.value|) + p.value == out + EncodePair(p)
  {
    hide CompactSize;
  }

  method AppendMap(bytes: seq<byte>, m: RawMap) returns (r: Result<seq<byte>, Error>)
    ensures r == AppendPairs(bytes, m.pairs)
  {
    hide EncodePair, CompactSize;
    var out := bytes;
    for i := 0 to |m.pairs|
      invariant AppendPairs(bytes, m.pairs) == AppendPairs(out, m.pairs[i..])
    {
      var pair := m.pairs[i];
      assert m.pairs[i..][1..] == m.pairs[i + 1..];
      if pair.key == [] { return Err(EmptyKey); }
      ghost var before := out;
      out := out + CompactSize(|pair.key|);
      out := out + pair.key;
      out := out + CompactSize(|pair.value|);
      out := out + pair.value;
      PairAppended(before, pair);
      var _ :- EnsureSize(|out|);
    }
    out := out + [0];
    var _ :- EnsureSize(|out|);
    return Ok(out);
  }

  method SerializeBytes(p: RawPsbt) returns (r: Result<seq<byte>, Error>)
    ensures r == Serialize(p)
  {
    var bytes := MAGIC;
    bytes :- AppendMap(bytes, p.global);
    ghost var g := bytes;
    for i := 0 to |p.inputs|
      invariant AppendMaps(g, p.inputs) == AppendMaps(bytes, p.inputs[i..])
    {
      assert p.inputs[i..][1..] == p.inputs[i + 1..];
      bytes :- AppendMap(bytes, p.inputs[i]);
    }
    ghost var o := bytes;
    for i := 0 to |p.outputs|
      invariant AppendMaps(o, p.outputs) == AppendMaps(bytes, p.outputs[i..])
    {
      assert p.outputs[i..][1..] == p.outputs[i + 1..];
      bytes :- AppendMap(bytes, p.outputs[i]);
    }
    var _ :- EnsureSize(|bytes|);
    return Ok(bytes);
  }
}

/** The in-place passes over one input map, proved to compute the conversion functions. */
module PsbtConversionLoops {
  import opened Wrappers
  import opened Bytes
  import opened PsbtFormat
  import opened PsbtUnified

  method ConvertStandardInput(lib: Library, map_: RawMap, input: nat)
    returns (r: Result<RawMap, AdapterError>)
    ensures r == match ToInternal(lib, map_.pairs, input) case Ok(ps) => Ok(RawMap(ps)) case Err(e) => Err(e)
  {
    hide CollectOne;
    var pairs := map_.pairs;
    var keys := Keys({}, {});
    for i := 0 to |pairs|
      invariant Collect(lib, pairs, input, Keys({}, {})) == Collect(lib, pairs[i..], input, keys)
    {
      assert pairs[i..][1..] == pairs[i + 1..];
      keys :- CollectOne(lib, pairs[i], input, keys);
    }
    if keys.standard * keys.reserved != {} { return Err(AmbiguousSignatureEncoding(input)); }
    for i := 0 to |pairs|
      invariant |pairs| == |map_.pairs|
      invariant forall j :: 0 <= j < i ==> pairs[j] == Inward(map_.pairs[j])
      invariant forall j :: i <= j < |pairs| ==> pairs[j] == map_.pairs[j]
    {
      var pair := pairs[i];
      if pair.key != [] && pair.key[0] == PARTIAL_SIG && EndsWith(pair.value, UNIFIED_ALL) {
        pairs := pairs[i := RawPair(ReservedKey(pair.key[1..]), pair.value)];
      }
    }
    assert pairs == InwardAll(map_.pairs);
    return Ok(RawMap(pairs));
  }

  /** The first pass: the keys that already have a standard record. */
  method CollectStandard(lib: Library, pairs: seq<RawPair>, input: nat)
    returns (r: Result<set<seq<byte>>, AdapterError>)
    ensures r == StandardKeys(lib, pairs, input, {})
  {
    var standard: set<seq<byte>> := {};
    for i := 0 to |pairs|
      invariant StandardKeys(lib, pairs, input, {}) == StandardKeys(lib, pairs[i..], input, standard)
    {
      assert pairs[i..][1..] == pairs[i + 1..];
      if IsStandard(pairs[i].key) {
        if !lib.validKey(pairs[i].key[1..]) { return Err(InvalidPublicKey(input)); }
        standard := standard + {pairs[i].key[1..]};
      }
    }
    return Ok(standard);
  }

  lemma GlueOne(done: seq<RawPair>, p: RawPair, r: Result<seq<RawPair>, AdapterError>)
    ensures Glue(done, Glue([p], r)) == Glue(done + [p], r)
  {
    if r.Ok? { assert done + ([p] + r.value) == done + [p] + r.value; }
  }

  lemma Replaced(done: seq<RawPair>, rest: seq<RawPair>, p: RawPair)
    requires rest != []
    ensures (done + rest)[|done| := p] == done + [p] + rest[1..]
  {
  }

  method ConvertInternalInput(lib: Library, map_: RawMap, input: nat)
    returns (r: Result<RawMap, AdapterError>)
    ensures r == match ToStandard(lib, map_.pairs, input) case Ok(ps) => Ok(RawMap(ps)) case Err(e) => Err(e)
  {
    hide ReservedSignature, StandardKeys, StandardKey, MoveOut;
    var pairs := map_.pairs;
    var collected := CollectStandard(lib, pairs, input);
    if collected.Err? { return Err(collected.error); }
    var standard := collected.value;
    ghost var all := MoveOut(lib, pairs, input, standard);
    ghost var done: seq<RawPair> := [];
    assert pairs[0..] == pairs && all == Glue([], all) by { if all.Ok? { assert [] + all.value == all.value; } }
    for i := 0 to |map_.pairs|
      invariant |done| == i && pairs == done + map_.pairs[i..]
      invariant all == Glue(done, MoveOut(lib, map_.pairs[i..], input, standard))
    {
      ghost var rest := map_.pairs[i..];
      assert rest[1..] == map_.pairs[i + 1..] && pairs[i] == rest[0];
      MoveOutOne(lib, rest, input, standard);
      var reserved :- ReservedSignature(lib, pairs[i], input);
      var pair := pairs[i];
      if reserved.Some? {
        if reserved.value in standard { return Err(AmbiguousSignatureEncoding(input)); }
        pair := RawPair(StandardKey(reserved.value), pair.value);
        standard := standard + {reserved.value};
      }
      Replaced(done, rest, pair);
      pairs := pairs[i := pair];
      GlueOne(done, pair, MoveOut(lib, rest[1..], input, standard));
      done := done + [pair];
    }
    assert MoveOut(lib, [], input, standard) == Ok([]) by { MoveOutNone(lib, input, standard); }
    assert map_.pairs[|map_.pairs|..] == [] && pairs == done;
    return Ok(RawMap(pairs));
  }
}
