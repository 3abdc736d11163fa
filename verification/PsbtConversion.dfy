/** Import and export undo each other. */
module PsbtConversion {
  import opened Wrappers
  import opened Bytes
  import opened PsbtFormat
  import opened PsbtUnified

  // ----- what the two passes over an input map accept -----

  /** A record the inward pass accepts. */
  predicate InwardOk(lib: Library, p: RawPair) {
    if IsStandard(p.key) then
      && lib.validKey(p.key[1..])
      && (p.value != [] && p.value[|p.value| - 1] / 0x20 % 2 == 1 ==>
            ValidateSignature(lib, p.value, 0).Ok?)
    else OutwardOk(lib, p)
  }

  /** A reserved record both passes can read. */
  predicate ReservedOk(lib: Library, p: RawPair) {
    && ReservedData(p.key).Ok?
    && (IsReserved(p.key) ==>
          lib.validKey(p.key[|RESERVED|..]) && ValidateSignature(lib, p.value, 0).Ok?)
  }

  /** A record the outward pass accepts. */
  predicate OutwardOk(lib: Library, p: RawPair) {
    (IsStandard(p.key) ==> lib.validKey(p.key[1..])) && ReservedOk(lib, p)
  }

  /** No public key has both encodings. */
  predicate NoTwins(ps: seq<RawPair>) {
    forall p, q :: p in ps && q in ps && IsStandard(p.key) && IsReserved(q.key) ==>
      p.key[1..] != q.key[|RESERVED|..]
  }

  ghost function StandardData(ps: seq<RawPair>): set<seq<byte>> {
    set p | p in ps && IsStandard(p.key) :: p.key[1..]
  }

  ghost function ReservedDataOf(ps: seq<RawPair>): set<seq<byte>> {
    set p | p in ps && IsReserved(p.key) :: p.key[|RESERVED|..]
  }

  lemma CollectOneIff(lib: Library, p: RawPair, input: nat, seen: Keys)
    ensures var r := CollectOne(lib, p, input, seen);
            && (r.Ok? <==> InwardOk(lib, p))
            && (r.Ok? ==> r.value == Keys(seen.standard + StandardData([p]),
                                          seen.reserved + ReservedDataOf([p])))
  {
    ReservedShape(p.key);
    assert IsStandard(p.key) ==> !IsReserved(p.key);
    assert StandardData([p]) == if IsStandard(p.key) then {p.key[1..]} else {};
    assert ReservedDataOf([p]) == if IsReserved(p.key) then {p.key[|RESERVED|..]} else {};
  }

  lemma DataCons(p: RawPair, ps: seq<RawPair>)
    ensures StandardData([p] + ps) == StandardData([p]) + StandardData(ps)
    ensures ReservedDataOf([p] + ps) == ReservedDataOf([p]) + ReservedDataOf(ps)
  {
  }

  lemma {:induction false} CollectIff(lib: Library, ps: seq<RawPair>, input: nat, seen: Keys)
    ensures var r := Collect(lib, ps, input, seen);
            && (r.Ok? <==> forall p :: p in ps ==> InwardOk(lib, p))
            && (r.Ok? ==> r.value == Keys(seen.standard + StandardData(ps),
                                          seen.reserved + ReservedDataOf(ps)))
    decreases |ps|
  {
    hide CollectOne, InwardOk, StandardData, ReservedDataOf;
    if ps == [] {
      NoData();
    } else {
      CollectOneIff(lib, ps[0], input, seen);
      assert ps == [ps[0]] + ps[1..];
      DataCons(ps[0], ps[1..]);
      var r := CollectOne(lib, ps[0], input, seen);
      if r.Ok? {
        CollectIff(lib, ps[1..], input, r.value);
      }
    }
  }

  lemma NoData()
    ensures StandardData([]) == {} && ReservedDataOf([]) == {}
  {
  }

  lemma TwinsAsSets(ps: seq<RawPair>)
    ensures NoTwins(ps) <==> StandardData(ps) * ReservedDataOf(ps) == {}
  {
    if !NoTwins(ps) {
      var p, q :| p in ps && q in ps && IsStandard(p.key) && IsReserved(q.key)
                  && p.key[1..] == q.key[|RESERVED|..];
      assert p.key[1..] in StandardData(ps) * ReservedDataOf(ps);
    }
  }

  /** The inward pass succeeds exactly on acceptable records without twins. */
  lemma ToInternalIff(lib: Library, ps: seq<RawPair>, input: nat)
    ensures ToInternal(lib, ps, input).Ok? <==>
              (forall p :: p in ps ==> InwardOk(lib, p)) && NoTwins(ps)
    ensures ToInternal(lib, ps, input).Ok? ==> ToInternal(lib, ps, input).value == InwardAll(ps)
  {
    hide StandardData, ReservedDataOf, InwardOk, NoTwins;
    CollectIff(lib, ps, input, Keys({}, {}));
    TwinsAsSets(ps);
  }

  lemma {:induction false} StandardKeysIff(lib: Library, ps: seq<RawPair>, input: nat, seen: set<seq<byte>>)
    ensures var r := StandardKeys(lib, ps, input, seen);
            && (r.Ok? <==> forall p :: p in ps && IsStandard(p.key) ==> lib.validKey(p.key[1..]))
            && (r.Ok? ==> r.value == seen + StandardData(ps))
    decreases |ps|
  {
    if ps != [] {
      assert ps == [ps[0]] + ps[1..];
      DataCons(ps[0], ps[1..]);
      assert StandardData([ps[0]]) == if IsStandard(ps[0].key) then {ps[0].key[1..]} else {};
      StandardKeysIff(lib, ps[1..], input,
        if IsStandard(ps[0].key) then seen + {ps[0].key[1..]} else seen);
    }
  }

  lemma ReservedSignatureIff(lib: Library, p: RawPair, input: nat)
    ensures var r := ReservedSignature(lib, p, input);
            && (r.Ok? <==> ReservedOk(lib, p))
            && (r.Ok? ==> r.value == if IsReserved(p.key) then Some(p.key[|RESERVED|..]) else None)
  {
    ReservedShape(p.key);
  }

  ghost predicate AllReservedOk(lib: Library, ps: seq<RawPair>) {
    forall p :: p in ps ==> ReservedOk(lib, p)
  }

  lemma AllOkCons(lib: Library, ps: seq<RawPair>)
    requires ps != []
    ensures AllReservedOk(lib, ps) <==> ReservedOk(lib, ps[0]) && AllReservedOk(lib, ps[1..])
  {
    hide ReservedOk;
    assert ps == [ps[0]] + ps[1..];
  }

  /** What is still to come does not meet what was seen: the same, one record at a time. */
  lemma DisjointCons(ps: seq<RawPair>, seen: set<seq<byte>>)
    requires DistinctKeys(ps) && ps != []
    ensures DistinctKeys(ps[1..])
    ensures !IsReserved(ps[0].key) ==> (ReservedDataOf(ps) !! seen <==> ReservedDataOf(ps[1..]) !! seen)
    ensures IsReserved(ps[0].key) ==>
              var pk := ps[0].key[|RESERVED|..];
              ReservedDataOf(ps) !! seen <==> pk !in seen && ReservedDataOf(ps[1..]) !! seen + {pk}
  {
    hide ReservedDataOf;
    FreshData(ps);
  }

  lemma {:induction false} MoveOutAccepts(lib: Library, ps: seq<RawPair>, input: nat, seen: set<seq<byte>>)
    requires DistinctKeys(ps)
    ensures MoveOut(lib, ps, input, seen).Ok? <==> AllReservedOk(lib, ps) && ReservedDataOf(ps) !! seen
    decreases |ps|
  {
    hide ReservedOk, ReservedSignature, ReservedDataOf, DistinctKeys, StandardKey, MoveOut, AllReservedOk;
    if ps == [] {
      assert AllReservedOk(lib, []) && ReservedDataOf([]) == {} by { NothingReserved(lib); }
      MoveOutNone(lib, input, seen);
    } else {
      ReservedSignatureIff(lib, ps[0], input);
      DisjointCons(ps, seen);
      AllOkCons(lib, ps);
      MoveOutOne(lib, ps, input, seen);
      MoveOutAccepts(lib, ps[1..], input, if IsReserved(ps[0].key) then seen + {ps[0].key[|RESERVED|..]} else seen);
    }
  }

  lemma NothingReserved(lib: Library)
    ensures AllReservedOk(lib, []) && ReservedDataOf([]) == {}
  {
  }

  lemma {:induction false} MoveOutContents(lib: Library, ps: seq<RawPair>, input: nat, seen: set<seq<byte>>)
    requires MoveOut(lib, ps, input, seen).Ok?
    ensures MoveOut(lib, ps, input, seen).value == OutwardAll(ps)
    decreases |ps|
  {
    hide ReservedSignature, ReservedOk, StandardKey, MoveOut, OutwardAll;
    OutwardCons(ps);
    if ps == [] {
      MoveOutNone(lib, input, seen);
    } else {
      ReservedSignatureIff(lib, ps[0], input);
      MoveOutOne(lib, ps, input, seen);
      MoveOutContents(lib, ps[1..], input, if IsReserved(ps[0].key) then seen + {ps[0].key[|RESERVED|..]} else seen);
    }
  }

  lemma OutwardCons(ps: seq<RawPair>)
    ensures OutwardAll(ps) == if ps == [] then [] else [Outward(ps[0])] + OutwardAll(ps[1..])
  {
    hide Outward;
  }

  /** Distinct records carry distinct reserved keys. */
  lemma FreshData(ps: seq<RawPair>)
    requires DistinctKeys(ps) && ps != []
    ensures DistinctKeys(ps[1..])
    ensures IsReserved(ps[0].key) ==>
              && ps[0].key[|RESERVED|..] !in ReservedDataOf(ps[1..])
              && ReservedDataOf(ps) == {ps[0].key[|RESERVED|..]} + ReservedDataOf(ps[1..])
    ensures !IsReserved(ps[0].key) ==> ReservedDataOf(ps) == ReservedDataOf(ps[1..])
  {
    var head, tail := ps[0], ps[1..];
    assert ps == [head] + tail;
    DataCons(head, tail);
    assert ReservedDataOf([head]) == if IsReserved(head.key) then {head.key[|RESERVED|..]} else {};
    forall q | q in tail && IsReserved(q.key) && IsReserved(head.key)
      ensures q.key[|RESERVED|..] != head.key[|RESERVED|..]
    {
      assert q.key == RESERVED + q.key[|RESERVED|..] && head.key == RESERVED + head.key[|RESERVED|..];
    }
  }

  /** The outward pass succeeds exactly on acceptable records without twins. */
  lemma ToStandardIff(lib: Library, ps: seq<RawPair>, input: nat)
    requires DistinctKeys(ps)
    ensures ToStandard(lib, ps, input).Ok? <==>
              (forall p :: p in ps ==> OutwardOk(lib, p)) && NoTwins(ps)
    ensures ToStandard(lib, ps, input).Ok? ==> ToStandard(lib, ps, input).value == OutwardAll(ps)
  {
    hide StandardData, ReservedDataOf, NoTwins, MoveOut, StandardKeys, ReservedData;
    StandardKeysIff(lib, ps, input, {});
    MoveOutAccepts(lib, ps, input, {} + StandardData(ps));
    if MoveOut(lib, ps, input, {} + StandardData(ps)).Ok? {
      MoveOutContents(lib, ps, input, {} + StandardData(ps));
    }
    TwinsAsSets(ps);
  }

  // ----- one map, out and in again -----

  /** An input list as typed validation leaves it. */
  ghost predicate InternalList(lib: Library, ps: seq<RawPair>) {
    && DistinctKeys(ps) && NoEmptyKeys(RawMap(ps)) && NoTwins(ps)
    && (forall p :: p in ps ==> OutwardOk(lib, p))
    && (forall p :: p in ps && IsStandard(p.key) ==> EndsWith(p.value, LEGACY_ALL))
  }

  lemma OutwardPair(lib: Library, p: RawPair)
    requires OutwardOk(lib, p)
    requires IsStandard(p.key) ==> EndsWith(p.value, LEGACY_ALL)
    ensures Inward(Outward(p)) == p && InwardOk(lib, Outward(p)) && !IsReserved(Outward(p).key)
    ensures |EncodePair(Outward(p))| <= |EncodePair(p)|
  {
    ReservedShape(p.key);
    if IsReserved(p.key) {
      assert p.key == RESERVED + p.key[|RESERVED|..];
      assert StandardKey(p.key[|RESERVED|..])[1..] == p.key[|RESERVED|..];
    }
  }

  /** Distinct records stay distinct when the reserved ones move out. */
  lemma OutwardDistinct(p: RawPair, q: RawPair)
    requires p.key != q.key
    requires IsStandard(p.key) && IsReserved(q.key) ==> p.key[1..] != q.key[|RESERVED|..]
    requires IsStandard(q.key) && IsReserved(p.key) ==> q.key[1..] != p.key[|RESERVED|..]
    ensures Outward(p).key != Outward(q).key
  {
    forall r | IsReserved(r) ensures r == RESERVED + r[|RESERVED|..] {}
    assert StandardKey(p.key[if IsReserved(p.key) then |RESERVED| else 0..])[1..]
        == p.key[if IsReserved(p.key) then |RESERVED| else 0..];
    assert StandardKey(q.key[if IsReserved(q.key) then |RESERVED| else 0..])[1..]
        == q.key[if IsReserved(q.key) then |RESERVED| else 0..];
  }

  lemma OutThenIn(lib: Library, ps: seq<RawPair>, input: nat)
    requires InternalList(lib, ps)
    ensures ToStandard(lib, ps, input) == Ok(OutwardAll(ps))
    ensures DistinctKeys(OutwardAll(ps)) && NoEmptyKeys(RawMap(OutwardAll(ps)))
    ensures ToInternal(lib, OutwardAll(ps), input) == Ok(ps)
  {
    hide OutwardOk, InwardOk, Inward, ToStandard, ToInternal;
    var qs := OutwardAll(ps);
    ToStandardIff(lib, ps, input);
    ToInternalIff(lib, qs, input);
    forall i | 0 <= i < |ps|
      ensures Inward(qs[i]) == ps[i] && InwardOk(lib, qs[i]) && !IsReserved(qs[i].key) && qs[i].key != []
    {
      assert ps[i] in ps;
      OutwardPair(lib, ps[i]);
    }
    assert InwardAll(qs) == ps;
    forall i, j | 0 <= i < j < |ps| ensures qs[i].key != qs[j].key {
      assert ps[i] in ps && ps[j] in ps;
      OutwardDistinct(ps[i], ps[j]);
    }
  }

  lemma {:induction false} OutwardShrinks(lib: Library, ps: seq<RawPair>)
    requires forall p :: p in ps ==> OutwardOk(lib, p)
    requires forall p :: p in ps && IsStandard(p.key) ==> EndsWith(p.value, LEGACY_ALL)
    ensures |EncodePairs(OutwardAll(ps))| <= |EncodePairs(ps)|
  {
    hide OutwardOk, EncodePair;
    if ps != [] {
      OutwardPair(lib, ps[0]);
      OutwardShrinks(lib, ps[1..]);
      assert OutwardAll(ps)[1..] == OutwardAll(ps[1..]);
    }
  }

  // ----- what validation establishes -----

  lemma {:induction false} LookupIsContent(ps: seq<RawPair>, key: seq<byte>)
    ensures Lookup(ps, key) == if key in ContentOf(ps) then Some(ContentOf(ps)[key]) else None
  {
    if ps != [] { LookupIsContent(ps[1..], key); }
  }

  /** The content of one map the library lays out. */
  lemma Layout(lib: Library, m: Content, p: RawPair)
    requires Faithful(lib)
    ensures LaysOut(lib.layout(m), m)
    ensures p in lib.layout(m) <==> p.key in m && m[p.key] == p.value
  {
    ContentIff(lib.layout(m), p);
  }

  lemma ContentKeys(m: RawMap)
    requires WellFormedMap(m)
    ensures [] !in ContentOf(m.pairs)
  {
    if [] in ContentOf(m.pairs) {
      ContentIff(m.pairs, RawPair([], []));
    }
  }

  /** The library's layout of a keyed map is a well-formed map. */
  lemma LayoutWellFormed(lib: Library, m: Content)
    requires Faithful(lib) && [] !in m
    ensures WellFormedMap(RawMapOf(lib, m))
  {
    assert LaysOut(lib.layout(m), m);
    forall p | p in lib.layout(m) ensures p.key != [] { Layout(lib, m, p); }
  }

  lemma ContentsKeys(ms: seq<RawMap>, m: Content)
    requires AllWellFormed(ms) && m in Contents(ms)
    ensures [] !in m
  {
    var i :| 0 <= i < |ms| && Contents(ms)[i] == m;
    assert ms[i] in ms;
    ContentKeys(ms[i]);
  }

  /** A valid PSBT is written as a well-formed container that reads back as itself. */
  lemma ValidTyped(lib: Library, p: Psbt)
    requires Faithful(lib) && ValidateTyped(lib, p).Ok?
    ensures WellFormed(RawOf(lib, p), lib.decode)
    ensures Parse(Encode(RawOf(lib, p)), lib.decode) == Ok(RawOf(lib, p))
    ensures VERSION_KEY !in p.global && p.version == 0
    ensures TypedOf(RawOf(lib, p)) == p && NormalPsbt(lib, p) == p && TypedFieldsOk(lib, p)
  {
    hide Encode, WellFormedMap, ReservedData, InputOk, Deserialize, ValidateInputs, NormalPsbt, TypedFieldsOk, TypedOf;
    var raw := RawOf(lib, p);
    var r := Parse(Encode(raw), lib.decode).value;
    ParseSound(Encode(raw), lib.decode);
    TypedDeserialize(lib, r);
    NormalKeys(lib, r, p);
    KeyedLayout(lib, p);
    assert LaysOut(lib.layout(p.global), p.global);
    LookupIsContent(lib.layout(p.global), VERSION_KEY);
    LookupIsContent(lib.layout(p.global), UNSIGNED_TX_KEY);
    ParseComplete(raw, lib.decode);
    LayoutTyped(lib, p);
  }

  /** Decoding keeps the keys. */
  lemma NormalKeys(lib: Library, r: RawPsbt, p: Psbt)
    requires WellFormedMap(r.global) && AllWellFormed(r.inputs) && AllWellFormed(r.outputs)
    requires NormalPsbt(lib, TypedOf(r)) == p
    ensures p.version == 0 && [] !in p.global && VERSION_KEY !in p.global
    ensures forall m :: m in p.inputs || m in p.outputs ==> [] !in m
  {
    hide WellFormedMap;
    ContentKeys(r.global);
    forall m | m in p.inputs || m in p.outputs ensures [] !in m {
      if m in p.inputs {
        var i :| 0 <= i < |p.inputs| && p.inputs[i] == m;
        ContentsKeys(r.inputs, Contents(r.inputs)[i]);
      } else {
        var i :| 0 <= i < |p.outputs| && p.outputs[i] == m;
        ContentsKeys(r.outputs, Contents(r.outputs)[i]);
      }
    }
  }

  lemma KeyedLayout(lib: Library, p: Psbt)
    requires Faithful(lib) && [] !in p.global && forall m :: m in p.inputs || m in p.outputs ==> [] !in m
    ensures var raw := RawOf(lib, p);
            WellFormedMap(raw.global) && AllWellFormed(raw.inputs) && AllWellFormed(raw.outputs)
  {
    hide WellFormedMap, Faithful;
    LayoutWellFormed(lib, p.global);
    forall m | m in p.inputs || m in p.outputs ensures WellFormedMap(RawMapOf(lib, m)) { LayoutWellFormed(lib, m); }
  }

  /** The fields of what the library writes. */
  lemma LayoutTyped(lib: Library, p: Psbt)
    requires Faithful(lib) && p.version == 0 && VERSION_KEY !in p.global
    ensures TypedOf(RawOf(lib, p)) == p
  {
    OutputsRestored(lib, p.inputs);
    OutputsRestored(lib, p.outputs);
    assert LaysOut(lib.layout(p.global), p.global);
    assert p.global - {VERSION_KEY} == p.global;
  }

  lemma TypedDeserialize(lib: Library, r: RawPsbt)
    ensures Deserialize(lib, r).Ok? <==> TypedFieldsOk(lib, TypedOf(r))
    ensures Deserialize(lib, r).Ok? ==> Deserialize(lib, r) == Ok(NormalPsbt(lib, TypedOf(r)))
  {
  }

  /** An accepted input map is laid out as a list ready to move out. */
  lemma AcceptedInput(lib: Library, m: Content)
    requires Faithful(lib) && InputOk(lib, m) && InputFieldsOk(lib, m) && WellFormedMap(RawMapOf(lib, m))
    ensures InternalList(lib, lib.layout(m))
  {
    hide ReservedData, ValidateSignature, Faithful;
    var ps := lib.layout(m);
    forall q | q in ps
      ensures OutwardOk(lib, q) && (IsStandard(q.key) ==> EndsWith(q.value, LEGACY_ALL))
    {
      Layout(lib, m, q);
      assert RecordOk(lib, m, q.key);
    }
    forall q, r | q in ps && r in ps && IsStandard(q.key) && IsReserved(r.key)
      ensures q.key[1..] != r.key[|RESERVED|..]
    {
      Layout(lib, m, q);
      Layout(lib, m, r);
      assert RecordOk(lib, m, r.key);
      assert q.key == StandardKey(q.key[1..]);
    }
  }

  /** Every input list the library writes for a valid PSBT is ready to move out. */
  lemma ValidInput(lib: Library, p: Psbt, i: nat)
    requires Faithful(lib) && ValidateTyped(lib, p).Ok? && i < |p.inputs|
    ensures InternalList(lib, lib.layout(p.inputs[i]))
  {
    hide Encode, Parse, InputOk, InputFieldsOk, WellFormedMap, InternalList, RequireV0, ShapeOf;
    ValidTyped(lib, p);
    assert RawOf(lib, p).inputs[i] in RawOf(lib, p).inputs;
    assert p.inputs[i] in p.inputs;
    AcceptedInput(lib, p.inputs[i]);
  }

  lemma {:induction false} PairsSnoc(ps: seq<RawPair>, p: RawPair)
    ensures EncodePairs(ps + [p]) == EncodePairs(ps) + EncodePair(p)
    ensures p.key !in ContentOf(ps) ==> ContentOf(ps + [p]) == ContentOf(ps)[p.key := p.value]
  {
    if ps == [] {
      assert EncodePairs([p][1..]) == [];
    } else {
      assert (ps + [p])[1..] == ps[1..] + [p];
      PairsSnoc(ps[1..], p);
    }
  }

  /** An explicit version record costs seven bytes and changes nothing else. */
  lemma VersionRecord(lib: Library, raw: RawPsbt, explicit: bool)
    requires WellFormed(raw, lib.decode) && VERSION_KEY !in ContentOf(raw.global.pairs)
    ensures var w := WithVersion(raw, explicit);
            && WellFormed(w, lib.decode) && HasExplicitVersion(w) == explicit
            && |Encode(w)| == |Encode(raw)| + (if explicit then EXPLICIT_VERSION_SIZE else 0)
            && TypedOf(w) == TypedOf(raw)
  {
    hide EncodePair, EncodePairs, EncodeMaps, ContentOf, ShapeOf;
    var ps := raw.global.pairs;
    LookupIsContent(ps, VERSION_KEY);
    if explicit {
      PairsSnoc(ps, VERSION_PAIR);
      VersionPairSize();
      var w := WithVersion(raw, explicit);
      LookupIsContent(w.global.pairs, VERSION_KEY);
      LookupIsContent(w.global.pairs, UNSIGNED_TX_KEY);
      LookupIsContent(ps, UNSIGNED_TX_KEY);
      assert ShapeOf(w.global, lib.decode) == ShapeOf(raw.global, lib.decode) by { ShapeFromLookup(w.global, raw.global, lib.decode); }
      forall p | p in ps ensures p.key != VERSION_KEY { ContentIff(ps, p); }
      assert ContentOf(w.global.pairs) - {VERSION_KEY} == ContentOf(ps) - {VERSION_KEY};
    }
  }

  lemma VersionPairSize()
    ensures |EncodePair(VERSION_PAIR)| == EXPLICIT_VERSION_SIZE && FromLE(VERSION_PAIR.value) == 0
  {
    assert FromLE([0, 0, 0]) == 0 && [0, 0, 0, 0][1..] == [0, 0, 0];
  }

  lemma ShapeFromLookup(m: RawMap, n: RawMap, decode: TxDecoder)
    requires Lookup(m.pairs, UNSIGNED_TX_KEY) == Lookup(n.pairs, UNSIGNED_TX_KEY)
    ensures ShapeOf(m, decode) == ShapeOf(n, decode)
  {
  }

  // ----- the exported container -----

  function OutwardMaps(ms: seq<RawMap>): (r: seq<RawMap>)
    ensures |r| == |ms|
    ensures forall i :: 0 <= i < |ms| ==> r[i] == RawMap(OutwardAll(ms[i].pairs))
  {
    seq(|ms|, i requires 0 <= i < |ms| => RawMap(OutwardAll(ms[i].pairs)))
  }

  lemma {:induction false} OutwardMapsShrink(lib: Library, ms: seq<RawMap>)
    requires forall m :: m in ms ==> InternalList(lib, m.pairs)
    ensures |EncodeMaps(OutwardMaps(ms))| <= |EncodeMaps(ms)|
  {
    hide InternalList, EncodePairs;
    if ms != [] {
      assert ms[0] in ms && ms == [ms[0]] + ms[1..];
      assert |EncodePairs(OutwardAll(ms[0].pairs))| <= |EncodePairs(ms[0].pairs)| by {
        InternalListOk(lib, ms[0].pairs);
        OutwardShrinks(lib, ms[0].pairs);
      }
      OutwardMapsShrink(lib, ms[1..]);
      assert OutwardMaps(ms)[1..] == OutwardMaps(ms[1..]);
    }
  }

  lemma InternalListOk(lib: Library, ps: seq<RawPair>)
    requires InternalList(lib, ps)
    ensures forall p :: p in ps ==> OutwardOk(lib, p)
    ensures forall p :: p in ps && IsStandard(p.key) ==> EndsWith(p.value, LEGACY_ALL)
  {
  }

  /** The container a valid PSBT is written as, with its version record. */
  function Internal(lib: Library, u: UnifiedPsbt): RawPsbt {
    WithVersion(RawOf(lib, u.psbt), u.explicitGlobalVersion)
  }

  function Exported(lib: Library, u: UnifiedPsbt): RawPsbt {
    var w := Internal(lib, u);
    w.(inputs := OutwardMaps(w.inputs))
  }

  /** The internal form of a valid PSBT: well formed, within the limit, read back as itself. */
  lemma ValidInternal(lib: Library, u: UnifiedPsbt)
    requires Faithful(lib) && Valid(lib, u)
    ensures var w := Internal(lib, u);
            && WellFormed(w, lib.decode) && |Encode(w)| <= MAX_PSBT_BYTES
            && HasExplicitVersion(w) == u.explicitGlobalVersion
            && TypedOf(w) == u.psbt
            && (forall m :: m in w.inputs ==> InternalList(lib, m.pairs))
  {
    hide Encode, WellFormed, InternalList, ContentOf, HasExplicitVersion, ValidateInputs;
    var raw := RawOf(lib, u.psbt);
    ValidTyped(lib, u.psbt);
    assert LaysOut(lib.layout(u.psbt.global), u.psbt.global);
    VersionRecord(lib, raw, u.explicitGlobalVersion);
    forall m | m in raw.inputs ensures InternalList(lib, m.pairs) {
      var i :| 0 <= i < |raw.inputs| && raw.inputs[i] == m;
      ValidInput(lib, u.psbt, i);
    }
  }

  lemma ExportedWellFormed(lib: Library, w: RawPsbt)
    requires WellFormed(w, lib.decode) && |Encode(w)| <= MAX_PSBT_BYTES
    requires forall m :: m in w.inputs ==> InternalList(lib, m.pairs)
    ensures var x := w.(inputs := OutwardMaps(w.inputs));
            && WellFormed(x, lib.decode) && |Encode(x)| <= MAX_PSBT_BYTES
            && StandardMaps(lib, w.inputs, 0) == Ok(x.inputs)
            && InternalMaps(lib, x.inputs, 0) == Ok(w.inputs)
  {
    hide InternalList, EncodeMap, EncodeMaps, RequireV0, ShapeOf, ToStandard, ToInternal, OutwardAll;
    var x := w.(inputs := OutwardMaps(w.inputs));
    OutwardMapsShrink(lib, w.inputs);
    forall i | 0 <= i < |w.inputs|
      ensures && ToStandard(lib, w.inputs[i].pairs, i) == Ok(x.inputs[i].pairs)
              && ToInternal(lib, x.inputs[i].pairs, i) == Ok(w.inputs[i].pairs)
              && WellFormedMap(x.inputs[i])
    {
      assert w.inputs[i] in w.inputs;
      OutThenIn(lib, w.inputs[i].pairs, i);
    }
    assert StandardMaps(lib, w.inputs, 0).value == x.inputs;
    assert InternalMaps(lib, x.inputs, 0).value == w.inputs;
  }

  /** Every valid internal PSBT is exportable, and importing the export gives it back. */
  lemma ImportUndoesExport(lib: Library, u: UnifiedPsbt)
    requires Faithful(lib) && Valid(lib, u)
    ensures Export(lib, u) == Ok(Encode(Exported(lib, u)))
    ensures Import(lib, Encode(Exported(lib, u))) == Ok(u)
  {
    hide Encode, Parse, Serialize, WellFormed, InternalList, ContentOf, ValidateTyped, WithVersion,
         StandardMaps, InternalMaps, OutwardMaps, TypedFieldsOk, NormalPsbt;
    var w, x := Internal(lib, u), Exported(lib, u);
    ValidInternal(lib, u);
    ExportedWellFormed(lib, w);
    ValidTyped(lib, u.psbt);
    Reprint(w, lib.decode);
    Reprint(x, lib.decode);
    ExplicitGlobal(w, x);
    assert x.(inputs := w.inputs) == w;
  }

  lemma Reprint(p: RawPsbt, decode: TxDecoder)
    requires WellFormed(p, decode) && |Encode(p)| <= MAX_PSBT_BYTES
    ensures Serialize(p) == Ok(Encode(p)) && Parse(Encode(p), decode) == Ok(p)
  {
    hide Encode, Parse, Serialize;
    ParseComplete(p, decode);
    SerializeIsEncode(p);
  }

  lemma ExplicitGlobal(w: RawPsbt, x: RawPsbt)
    requires w.global == x.global
    ensures HasExplicitVersion(w) == HasExplicitVersion(x)
  {
  }

  // ----- exporting an import -----

  lemma InwardPair(lib: Library, p: RawPair)
    requires InwardOk(lib, p)
    ensures Outward(Inward(p)) == p <==> !IsReserved(p.key)
    ensures IsReserved(p.key) ==> Inward(p) == p
  {
    if IsStandard(p.key) {
      assert ReservedKey(p.key[1..])[|RESERVED|..] == p.key[1..];
      assert p.key == StandardKey(p.key[1..]);
    }
  }

  function NormalPair(lib: Library, p: RawPair): RawPair {
    RawPair(p.key, lib.normal(p))
  }

  function NormalPairs(lib: Library, ps: seq<RawPair>): (r: seq<RawPair>)
    ensures |r| == |ps|
    ensures forall i :: 0 <= i < |ps| ==> r[i] == NormalPair(lib, ps[i])
  {
    seq(|ps|, i requires 0 <= i < |ps| => NormalPair(lib, ps[i]))
  }

  /** One record moved in, decoded, and moved out again. */
  function Through(lib: Library, p: RawPair): RawPair {
    Outward(NormalPair(lib, Inward(p)))
  }

  /** A record that survives the journey: not reserved before, and written the way decoding writes it. */
  predicate Survives(lib: Library, p: RawPair) {
    !IsReserved(p.key) && lib.normal(Inward(p)) == p.value
  }

  lemma ThroughIff(lib: Library, p: RawPair)
    requires InwardOk(lib, p)
    ensures Through(lib, p) == p <==> Survives(lib, p)
    ensures !IsReserved(p.key) ==> Through(lib, p).key == p.key
    ensures !IsReserved(Through(lib, p).key)
  {
    InwardPair(lib, p);
    OutwardKey(NormalPair(lib, Inward(p)));
  }

  ghost predicate SamePairs(a: seq<RawPair>, b: seq<RawPair>) {
    forall p :: p in a <==> p in b
  }

  /** Each record's journey is written in the end. */
  lemma ThroughWritten(lib: Library, ps: seq<RawPair>, ls: seq<RawPair>, p: RawPair)
    requires SamePairs(ls, NormalPairs(lib, InwardAll(ps))) && p in ps
    ensures Through(lib, p) in OutwardAll(ls)
  {
    hide Inward, Outward, NormalPair;
    var i :| 0 <= i < |ps| && ps[i] == p;
    var n := NormalPairs(lib, InwardAll(ps))[i];
    assert n in NormalPairs(lib, InwardAll(ps)) && n in ls;
    var j :| 0 <= j < |ls| && ls[j] == n;
    assert OutwardAll(ls)[j] == Through(lib, p);
  }

  /** And nothing else is. */
  lemma WrittenThrough(lib: Library, ps: seq<RawPair>, ls: seq<RawPair>, o: RawPair) returns (p: RawPair)
    requires SamePairs(ls, NormalPairs(lib, InwardAll(ps))) && o in OutwardAll(ls)
    ensures p in ps && o == Through(lib, p)
  {
    hide Inward, Outward, NormalPair;
    var j :| 0 <= j < |ls| && OutwardAll(ls)[j] == o;
    assert ls[j] in ls && ls[j] in NormalPairs(lib, InwardAll(ps));
    var i :| 0 <= i < |ps| && NormalPairs(lib, InwardAll(ps))[i] == ls[j];
    p := ps[i];
  }

  /** Records of one input before import and after export, as pairs: the same ones exactly when
      every one of them survives. */
  lemma InThenOut(lib: Library, ps: seq<RawPair>, ls: seq<RawPair>)
    requires DistinctKeys(ps) && forall p :: p in ps ==> InwardOk(lib, p)
    requires SamePairs(ls, NormalPairs(lib, InwardAll(ps)))
    ensures SamePairs(OutwardAll(ls), ps) <==> forall p :: p in ps ==> Survives(lib, p)
  {
    hide Inward, Outward, InwardOk, Survives, Through, OutwardAll, InwardAll, NormalPairs, DistinctKeys, SamePairs;
    if SamePairs(OutwardAll(ls), ps) {
      forall p | p in ps ensures Survives(lib, p) { Survivor(lib, ps, ls, p); }
    }
    if forall p :: p in ps ==> Survives(lib, p) {
      AllSurvive(lib, ps, ls);
    }
  }

  lemma Survivor(lib: Library, ps: seq<RawPair>, ls: seq<RawPair>, p: RawPair)
    requires DistinctKeys(ps) && p in ps && forall q :: q in ps ==> InwardOk(lib, q)
    requires SamePairs(ls, NormalPairs(lib, InwardAll(ps))) && SamePairs(OutwardAll(ls), ps)
    ensures Survives(lib, p)
  {
    hide InwardOk, Survives, Through, OutwardAll, InwardAll, NormalPairs, DistinctKeys, IsReserved;
    ThroughWritten(lib, ps, ls, p);
    var q := WrittenThrough(lib, ps, ls, p);
    ThroughIff(lib, q);
    ThroughIff(lib, p);
    OnePerKey(ps, p, Through(lib, p));
  }

  lemma AllSurvive(lib: Library, ps: seq<RawPair>, ls: seq<RawPair>)
    requires SamePairs(ls, NormalPairs(lib, InwardAll(ps)))
    requires forall p :: p in ps ==> InwardOk(lib, p) && Survives(lib, p)
    ensures SamePairs(OutwardAll(ls), ps)
  {
    hide InwardOk, Survives, Through, OutwardAll, InwardAll, NormalPairs, IsReserved;
    forall p ensures p in OutwardAll(ls) <==> p in ps {
      if p in ps {
        ThroughWritten(lib, ps, ls, p);
        ThroughIff(lib, p);
      }
      if p in OutwardAll(ls) {
        var q := WrittenThrough(lib, ps, ls, p);
        ThroughIff(lib, q);
      }
    }
  }

  lemma OnePerKey(ps: seq<RawPair>, p: RawPair, q: RawPair)
    requires DistinctKeys(ps) && p in ps && q in ps && p.key == q.key
    ensures p == q
  {
  }

  lemma OutwardKey(p: RawPair)
    ensures !IsReserved(Outward(p).key)
  {
    forall k: seq<byte> | IsReserved(k) ensures k[0] == PROPRIETARY { assert k[0] == RESERVED[0]; }
  }

  /** The global map of an import, written out again. */
  lemma GlobalRestored(lib: Library, raw: RawPsbt)
    requires Faithful(lib) && WellFormed(raw, lib.decode)
    ensures var ps := raw.global.pairs;
            var rest := ContentOf(ps) - {VERSION_KEY};
            var out := lib.layout(Normal(lib, rest)) + (if HasExplicitVersion(raw) then [VERSION_PAIR] else []);
            ContentOf(out) == ContentOf(ps) <==> Canonical(lib, rest)
  {
    hide EncodePair, EncodePairs, ShapeOf, WellFormedMap, Canonical, Normal;
    var ps := raw.global.pairs;
    var rest := ContentOf(ps) - {VERSION_KEY};
    NormalFixed(lib, rest);
    VersionOnly(lib, raw);
    var out := lib.layout(Normal(lib, rest)) + (if HasExplicitVersion(raw) then [VERSION_PAIR] else []);
    var all := ContentOf(ps);
    assert ContentOf(out) - {VERSION_KEY} == Normal(lib, rest);
    assert VERSION_KEY in all <==> VERSION_KEY in ContentOf(out);
    assert VERSION_KEY in all ==> all[VERSION_KEY] == ContentOf(out)[VERSION_KEY];
    SameWithout(ContentOf(out), all, VERSION_KEY);
  }

  lemma SameWithout(a: Content, b: Content, key: seq<byte>)
    requires key in a <==> key in b
    requires key in a && key in b ==> a[key] == b[key]
    ensures a == b <==> a - {key} == b - {key}
  {
    if a - {key} == b - {key} {
      forall k ensures k in a <==> k in b ensures k in a && k in b ==> a[k] == b[k] {
        assert k in a - {key} <==> k in b - {key};
        if k != key && k in a { assert (a - {key})[k] == (b - {key})[k]; }
      }
    }
  }

  /** The version record is restored whatever else happens to the global map. */
  lemma VersionOnly(lib: Library, raw: RawPsbt)
    requires Faithful(lib) && WellFormed(raw, lib.decode)
    ensures var ps := raw.global.pairs;
            var rest := Normal(lib, ContentOf(ps) - {VERSION_KEY});
            var out := ContentOf(lib.layout(rest) + (if HasExplicitVersion(raw) then [VERSION_PAIR] else []));
            && out - {VERSION_KEY} == rest && (VERSION_KEY in out <==> VERSION_KEY in ContentOf(ps))
            && (VERSION_KEY in out && VERSION_KEY in ContentOf(ps) ==> out[VERSION_KEY] == ContentOf(ps)[VERSION_KEY])
  {
    hide EncodePair, EncodePairs, ShapeOf, WellFormedMap;
    var ps := raw.global.pairs;
    var rest := Normal(lib, ContentOf(ps) - {VERSION_KEY});
    var l := lib.layout(rest);
    assert LaysOut(l, rest);
    LookupIsContent(ps, VERSION_KEY);
    assert l + [] == l;
    if HasExplicitVersion(raw) {
      var v := ContentOf(ps)[VERSION_KEY];
      FromLERoundTrip(v);
      VersionPairSize();
      FromLERoundTrip(VERSION_PAIR.value);
      PairsSnoc(l, VERSION_PAIR);
    }
  }

  /** What an import leaves behind: the typed content of the moved container. */
  lemma Imported(lib: Library, b: seq<byte>)
    requires Import(lib, b).Ok?
    ensures Parse(b, lib.decode).Ok?
    ensures var raw, u := Parse(b, lib.decode).value, Import(lib, b).value;
            && InternalMaps(lib, raw.inputs, 0).Ok?
            && var internal := raw.(inputs := InternalMaps(lib, raw.inputs, 0).value);
            && WellFormed(raw, lib.decode) && WellFormed(internal, lib.decode)
            && u == UnifiedPsbt(NormalPsbt(lib, TypedOf(internal)), HasExplicitVersion(raw)) && Valid(lib, u)
  {
    hide Encode, WellFormed, TypedOf, NormalPsbt, ValidateTyped, Parse, Serialize, HasExplicitVersion;
    ParseSound(b, lib.decode);
    var raw := Parse(b, lib.decode).value;
    var internal := raw.(inputs := InternalMaps(lib, raw.inputs, 0).value);
    InternalWellFormed(lib, raw);
    var bytes := Serialize(internal).value;
    ReaderInvertsPrinter(bytes, internal, lib.decode);
    TypedDeserialize(lib, internal);
  }

  lemma InwardDistinct(p: RawPair, q: RawPair)
    requires p.key != q.key
    requires IsStandard(p.key) && IsReserved(q.key) ==> p.key[1..] != q.key[|RESERVED|..]
    requires IsStandard(q.key) && IsReserved(p.key) ==> q.key[1..] != p.key[|RESERVED|..]
    ensures Inward(p).key != Inward(q).key
  {
    forall k: seq<byte> | k != [] ensures ReservedKey(k[1..])[|RESERVED|..] == k[1..] {}
    forall k: seq<byte> | IsStandard(k) ensures k == StandardKey(k[1..]) {}
    if IsStandard(p.key) && IsStandard(q.key) { assert p.key[1..] != q.key[1..]; }
  }

  /** Moving every input inward keeps a container well formed. */
  lemma InternalWellFormed(lib: Library, raw: RawPsbt)
    requires WellFormed(raw, lib.decode) && InternalMaps(lib, raw.inputs, 0).Ok?
    ensures WellFormed(raw.(inputs := InternalMaps(lib, raw.inputs, 0).value), lib.decode)
  {
    hide RequireV0, ShapeOf, ToInternal, Inward, InwardOk;
    var ms := InternalMaps(lib, raw.inputs, 0).value;
    forall i | 0 <= i < |ms| ensures WellFormedMap(ms[i]) {
      var ps := raw.inputs[i].pairs;
      assert raw.inputs[i] in raw.inputs;
      ToInternalIff(lib, ps, i);
      forall j, k | 0 <= j < k < |ps| ensures Inward(ps[j]).key != Inward(ps[k]).key {
        assert ps[j] in ps && ps[k] in ps;
        InwardDistinct(ps[j], ps[k]);
      }
      forall j | 0 <= j < |ps| ensures Inward(ps[j]).key != [] {
        assert ps[j] in ps;
        InwardKey(ps[j]);
      }
    }
  }

  lemma InwardKey(p: RawPair)
    requires p.key != []
    ensures Inward(p).key != []
  {
  }

  /** One input, imported and exported. */
  lemma InputRestored(lib: Library, raw: RawPsbt, i: nat)
    requires Faithful(lib) && WellFormed(raw, lib.decode) && i < |raw.inputs|
    requires InternalMaps(lib, raw.inputs, 0).Ok?
    ensures var ps := raw.inputs[i].pairs;
            var ls := lib.layout(Normal(lib, ContentOf(InternalMaps(lib, raw.inputs, 0).value[i].pairs)));
            SamePairs(OutwardAll(ls), ps) <==> forall p :: p in ps ==> Survives(lib, p)
  {
    hide RequireV0, ShapeOf, ToInternal, InwardOk, InwardAll, OutwardAll, IsReserved, Survives, Normal, ContentOf,
         NormalPairs, DistinctKeys, NoTwins;
    InternalWellFormed(lib, raw);
    var ps := raw.inputs[i].pairs;
    var qs := InternalMaps(lib, raw.inputs, 0).value[i];
    ToInternalIff(lib, ps, i);
    assert raw.inputs[i] in raw.inputs && WellFormedMap(raw.inputs[i]);
    assert qs in InternalMaps(lib, raw.inputs, 0).value && WellFormedMap(qs);
    var ls := lib.layout(Normal(lib, ContentOf(qs.pairs)));
    assert LaysOut(ls, Normal(lib, ContentOf(qs.pairs)));
    NormalList(lib, qs.pairs);
    SameContent(ls, NormalPairs(lib, qs.pairs));
    InThenOut(lib, ps, ls);
  }

  /** Decoding a list's content decodes each pair. */
  lemma {:induction false} NormalList(lib: Library, ps: seq<RawPair>)
    requires DistinctKeys(ps)
    ensures DistinctKeys(NormalPairs(lib, ps))
    ensures ContentOf(NormalPairs(lib, ps)) == Normal(lib, ContentOf(ps))
  {
    if ps != [] {
      NormalList(lib, ps[1..]);
      assert NormalPairs(lib, ps)[1..] == NormalPairs(lib, ps[1..]);
    }
  }

  /** The content of the container `raw` is imported from and of the one it is exported to: a map is
      restored exactly when its values are written the way decoding writes them and, in an input, no
      record was reserved. */
  ghost predicate Restored(lib: Library, raw: RawPsbt, out: RawPsbt) {
    && (ContentOf(out.global.pairs) == ContentOf(raw.global.pairs) <==>
        Canonical(lib, ContentOf(raw.global.pairs) - {VERSION_KEY}))
    && |out.outputs| == |raw.outputs| && |out.inputs| == |raw.inputs|
    && (forall i :: 0 <= i < |raw.outputs| ==>
          (ContentOf(out.outputs[i].pairs) == ContentOf(raw.outputs[i].pairs) <==>
           Canonical(lib, ContentOf(raw.outputs[i].pairs))))
    && forall i :: 0 <= i < |raw.inputs| ==>
         (ContentOf(out.inputs[i].pairs) == ContentOf(raw.inputs[i].pairs) <==>
          forall p :: p in raw.inputs[i].pairs ==> Survives(lib, p))
  }

  lemma ExportedRestores(lib: Library, raw: RawPsbt, internal: RawPsbt)
    requires Faithful(lib) && WellFormed(raw, lib.decode) && InternalMaps(lib, raw.inputs, 0).Ok?
    requires internal == raw.(inputs := InternalMaps(lib, raw.inputs, 0).value)
    requires AllWellFormed(Exported(lib, UnifiedPsbt(NormalPsbt(lib, TypedOf(internal)), HasExplicitVersion(raw))).inputs)
    ensures Restored(lib, raw, Exported(lib, UnifiedPsbt(NormalPsbt(lib, TypedOf(internal)), HasExplicitVersion(raw))))
  {
    hide RequireV0, ShapeOf, OutwardAll, Survives, HasExplicitVersion, InternalMaps, ContentOf, Normal, Canonical;
    var out := Exported(lib, UnifiedPsbt(NormalPsbt(lib, TypedOf(internal)), HasExplicitVersion(raw)));
    GlobalRestored(lib, raw);
    var rest := Normal(lib, ContentOf(raw.global.pairs) - {VERSION_KEY});
    assert lib.layout(rest) + [] == lib.layout(rest);
    forall i | 0 <= i < |raw.outputs|
      ensures ContentOf(out.outputs[i].pairs) == ContentOf(raw.outputs[i].pairs) <==>
              Canonical(lib, ContentOf(raw.outputs[i].pairs))
    {
      var m := ContentOf(raw.outputs[i].pairs);
      assert LaysOut(lib.layout(Normal(lib, m)), Normal(lib, m));
      NormalFixed(lib, m);
    }
    forall i | 0 <= i < |raw.inputs|
      ensures ContentOf(out.inputs[i].pairs) == ContentOf(raw.inputs[i].pairs) <==>
              forall p :: p in raw.inputs[i].pairs ==> Survives(lib, p)
    {
      assert raw.inputs[i] in raw.inputs && out.inputs[i] in out.inputs;
      InputRestored(lib, raw, i);
      SameContent(out.inputs[i].pairs, raw.inputs[i].pairs);
    }
  }

  /** Exporting an import succeeds, and restores each map's content if and only if its values are
      canonical and, in an input, no record was reserved. */
  lemma ExportRestoresImport(lib: Library, b: seq<byte>)
    requires Faithful(lib) && Import(lib, b).Ok?
    ensures Parse(b, lib.decode).Ok? && Export(lib, Import(lib, b).value).Ok?
    ensures Parse(Export(lib, Import(lib, b).value).value, lib.decode).Ok?
    ensures Restored(lib, Parse(b, lib.decode).value,
                     Parse(Export(lib, Import(lib, b).value).value, lib.decode).value)
  {
    hide Encode, Parse, Serialize, ValidateTyped, Import, Export, WellFormedMap, RequireV0, ShapeOf, Restored,
         InternalList, Exported, Faithful, HasExplicitVersion, StandardMaps, InternalMaps, TypedOf, NormalPsbt;
    Imported(lib, b);
    var raw, u := Parse(b, lib.decode).value, Import(lib, b).value;
    ImportUndoesExport(lib, u);
    ExportedIsWellFormed(lib, u);
    Reprint(Exported(lib, u), lib.decode);
    ExportedRestores(lib, raw, raw.(inputs := InternalMaps(lib, raw.inputs, 0).value));
  }

  lemma ExportedIsWellFormed(lib: Library, u: UnifiedPsbt)
    requires Faithful(lib) && Valid(lib, u)
    ensures WellFormed(Exported(lib, u), lib.decode) && |Encode(Exported(lib, u))| <= MAX_PSBT_BYTES
  {
    hide Encode, WellFormed, Valid, InternalList, Faithful, Internal;
    ValidInternal(lib, u);
    ExportedWellFormed(lib, Internal(lib, u));
  }

  lemma OutputsRestored(lib: Library, ms: seq<Content>)
    requires Faithful(lib)
    ensures Contents(RawMapsOf(lib, ms)) == ms
  {
    forall i | 0 <= i < |ms| ensures Contents(RawMapsOf(lib, ms))[i] == ms[i] {
      assert LaysOut(lib.layout(ms[i]), ms[i]);
    }
  }
}
