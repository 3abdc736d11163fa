/** The unified PSBT adapter: typed PSBT content, its validation, and the two-way conversion
    between standard partial signatures and the reserved `coincube` records. */
module PsbtUnified {
  import opened Wrappers
  import opened Bytes
  import opened PsbtFormat

  const PARTIAL_SIG: byte := 0x02
  const SIGHASH_TYPE_KEY: seq<byte> := [0x03]
  const PROPRIETARY: byte := 0xfc
  const UNIFIED_ALL: byte := 0x21
  const LEGACY_ALL: byte := 0x01
  /** "coincube" */
  const PREFIX: seq<byte> := [0x63, 0x6f, 0x69, 0x6e, 0x63, 0x75, 0x62, 0x65]
  const SUBTYPE: byte := 0
  /** Proprietary type byte, compact-size prefix length, prefix, subtype. */
  const RESERVED: seq<byte> := [PROPRIETARY, 8] + PREFIX + [SUBTYPE]

  datatype AdapterError =
    | Raw(error: Error)
    | TypedPsbt
    | NonCanonicalTypedMap
    | UnsignedTransactionNotEmpty
    | UnsupportedTypedVersion(version: nat)
    | MapCountMismatch
    | InvalidPublicKey(input: nat)
    | InvalidDerSignature(input: nat)
    | UnsupportedUnifiedSighash(input: nat, sighash: byte)
    | AmbiguousSignatureEncoding(input: nat)
    | ReservedNamespaceInGlobal
    | ReservedNamespaceInOutput
    | UnsupportedSighashRequest(input: nat)
    | UnsupportedLegacySighash(input: nat)
    | InvalidReservedRecord(input: nat)
    | UnsignedTransactionMismatch
    | InputIndexOutOfBounds(index: nat, inputs: nat)
    | ConflictingSignature(input: nat)

  /** The calls into rust-bitcoin and secp256k1 that the adapter makes. A public key is its own
      serialisation, since decoding accepts only the two canonical lengths. A value need not be:
      `normal` is what an accepted field is written as after decoding. */
  datatype Library = Library(
    decode: TxDecoder,
    unsignedOk: seq<byte> -> bool,
    validKey: seq<byte> -> bool,
    strictDer: seq<byte> -> bool,
    globalOk: RawPair -> bool,
    inputOk: RawPair -> bool,
    outputOk: RawPair -> bool,
    normal: RawPair -> seq<byte>,
    layout: Content -> seq<RawPair>)

  /** One typed map: its fields by complete key. */
  type Content = map<seq<byte>, seq<byte>>

  datatype Psbt = Psbt(version: nat, global: Content, inputs: seq<Content>, outputs: seq<Content>)

  datatype UnifiedPsbt = UnifiedPsbt(psbt: Psbt, explicitGlobalVersion: bool)

  // ----- content of a list of pairs -----

  function ContentOf(ps: seq<RawPair>): Content {
    if ps == [] then map[] else ContentOf(ps[1..])[ps[0].key := ps[0].value]
  }

  function Contents(ms: seq<RawMap>): (r: seq<Content>)
    ensures |r| == |ms|
    ensures forall i :: 0 <= i < |ms| ==> r[i] == ContentOf(ms[i].pairs)
  {
    seq(|ms|, i requires 0 <= i < |ms| => ContentOf(ms[i].pairs))
  }

  /** The library writes every field of a typed map once, in an order of its own. */
  ghost predicate Faithful(lib: Library) {
    forall m: Content :: LaysOut(lib.layout(m), m)
  }

  ghost predicate LaysOut(ps: seq<RawPair>, m: Content) {
    DistinctKeys(ps) && ContentOf(ps) == m
  }

  lemma {:induction false} ContentIff(ps: seq<RawPair>, p: RawPair)
    requires DistinctKeys(ps)
    ensures p in ps <==> p.key in ContentOf(ps) && ContentOf(ps)[p.key] == p.value
    ensures p.key in ContentOf(ps) <==> exists q :: q in ps && q.key == p.key
  {
    if ps != [] {
      assert ps == [ps[0]] + ps[1..];
      ContentIff(ps[1..], p);
      if p.key == ps[0].key {
        assert forall q :: q in ps[1..] ==> q.key != p.key;
      }
    }
  }

  /** Two duplicate-free lists have one content exactly when they hold the same pairs. */
  lemma SameContent(ps: seq<RawPair>, qs: seq<RawPair>)
    requires DistinctKeys(ps) && DistinctKeys(qs)
    ensures ContentOf(ps) == ContentOf(qs) <==> (forall p :: p in ps <==> p in qs)
  {
    var a, b := ContentOf(ps), ContentOf(qs);
    if a == b {
      forall p ensures p in ps <==> p in qs {
        ContentIff(ps, p);
        ContentIff(qs, p);
      }
    }
    if forall p :: p in ps <==> p in qs {
      forall k ensures k in a <==> k in b ensures k in a ==> a[k] == b[k] {
        ContentIff(ps, RawPair(k, if k in a then a[k] else []));
        ContentIff(qs, RawPair(k, if k in a then a[k] else []));
        if k in b { ContentIff(qs, RawPair(k, b[k])); ContentIff(ps, RawPair(k, b[k])); }
      }
    }
  }

  // ----- typed decoding and encoding -----

  function RawMapOf(lib: Library, m: Content): RawMap {
    RawMap(lib.layout(m))
  }

  function RawMapsOf(lib: Library, ms: seq<Content>): (r: seq<RawMap>)
    ensures |r| == |ms|
    ensures forall i :: 0 <= i < |ms| ==> r[i] == RawMapOf(lib, ms[i])
  {
    seq(|ms|, i requires 0 <= i < |ms| => RawMapOf(lib, ms[i]))
  }

  /** What the library writes; version zero is never written. */
  function RawOf(lib: Library, p: Psbt): RawPsbt {
    RawPsbt(RawMapOf(lib, p.global), RawMapsOf(lib, p.inputs), RawMapsOf(lib, p.outputs))
  }

  /** The fields of a container, undecoded. */
  function TypedOf(r: RawPsbt): Psbt {
    Psbt(0, ContentOf(r.global.pairs) - {VERSION_KEY}, Contents(r.inputs), Contents(r.outputs))
  }

  predicate FieldsOk(ok: RawPair -> bool, m: Content) {
    forall k :: k in m ==> ok(RawPair(k, m[k]))
  }

  /** Typed input decoding also decodes proprietary keys, partial-signature keys and the four-byte
      sighash request. */
  predicate InputFieldsOk(lib: Library, m: Content) {
    forall k :: k in m ==>
      && lib.inputOk(RawPair(k, m[k])) && ReservedData(k).Ok?
      && (IsStandard(k) ==> lib.validKey(k[1..])) && (k == SIGHASH_TYPE_KEY ==> |m[k]| == 4)
  }

  predicate TypedFieldsOk(lib: Library, p: Psbt) {
    && FieldsOk(lib.globalOk, p.global)
    && (forall m :: m in p.inputs ==> InputFieldsOk(lib, m))
    && (forall m :: m in p.outputs ==> FieldsOk(lib.outputOk, m))
  }

  /** Every field as it is written after decoding. */
  function Normal(lib: Library, m: Content): Content {
    map k | k in m :: lib.normal(RawPair(k, m[k]))
  }

  function NormalAll(lib: Library, ms: seq<Content>): (r: seq<Content>)
    ensures |r| == |ms|
    ensures forall i :: 0 <= i < |ms| ==> r[i] == Normal(lib, ms[i])
  {
    seq(|ms|, i requires 0 <= i < |ms| => Normal(lib, ms[i]))
  }

  function NormalPsbt(lib: Library, p: Psbt): Psbt {
    Psbt(p.version, Normal(lib, p.global), NormalAll(lib, p.inputs), NormalAll(lib, p.outputs))
  }

  /** Every field is already written the way decoding writes it. */
  predicate Canonical(lib: Library, m: Content) {
    forall k :: k in m ==> lib.normal(RawPair(k, m[k])) == m[k]
  }

  lemma NormalFixed(lib: Library, m: Content)
    ensures Normal(lib, m) == m <==> Canonical(lib, m)
  {
    if Normal(lib, m) == m {
      forall k | k in m ensures lib.normal(RawPair(k, m[k])) == m[k] { assert Normal(lib, m)[k] == m[k]; }
    }
  }

  /** Typed decoding of a container the strict reader accepted. */
  function Deserialize(lib: Library, r: RawPsbt): Result<Psbt, AdapterError> {
    if TypedFieldsOk(lib, TypedOf(r)) then Ok(NormalPsbt(lib, TypedOf(r))) else Err(TypedPsbt)
  }

  function Lift<T>(r: Result<T, Error>): Result<T, AdapterError> {
    match r
    case Ok(v) => Ok(v)
    case Err(e) => Err(Raw(e))
  }

  // ----- records -----

  function StandardKey(pk: seq<byte>): seq<byte> { [PARTIAL_SIG] + pk }
  function ReservedKey(pk: seq<byte>): seq<byte> { RESERVED + pk }

  predicate IsStandard(key: seq<byte>) { key != [] && key[0] == PARTIAL_SIG }
  predicate IsReserved(key: seq<byte>) { RESERVED <= key }

  /** The key data of a reserved key, nothing for any other key, or the library's refusal of a
      proprietary key it cannot decode. */
  function ReservedData(key: seq<byte>): Result<Option<seq<byte>>, AdapterError> {
    if key == [] || key[0] != PROPRIETARY then Ok(None)
    else
      match ReadCompactSize(key, 1)
      case Err(_) => Err(TypedPsbt)
      case Ok((n, p)) =>
        if p + n >= |key| then Err(TypedPsbt)
        else if key[p..p + n] == PREFIX && key[p + n] == SUBTYPE then Ok(Some(key[p + n + 1..]))
        else Ok(None)
  }

  lemma ReservedShape(key: seq<byte>)
    ensures IsReserved(key) ==> ReservedData(key) == Ok(Some(key[|RESERVED|..]))
    ensures ReservedData(key).Ok? && ReservedData(key).value.Some? <==> IsReserved(key)
  {
    if IsReserved(key) {
      assert key[1] == 8 && key[2..10] == RESERVED[2..10] == PREFIX && key[10] == RESERVED[10];
    }
    if ReservedData(key).Ok? && ReservedData(key).value.Some? {
      CompactSizeSound(key, 1);
      assert key[1] == CompactSize(8)[0];
      assert key[..11] == [key[0], key[1]] + key[2..10] + [key[10]];
    }
  }

  function ValidateSignature(lib: Library, value: seq<byte>, input: nat): Result<(), AdapterError> {
    if value == [] then Err(InvalidDerSignature(input))
    else if value[|value| - 1] != UNIFIED_ALL then
      Err(UnsupportedUnifiedSighash(input, value[|value| - 1]))
    else if !lib.strictDer(value[..|value| - 1]) then Err(InvalidDerSignature(input))
    else Ok(())
  }

  function ReservedSignature(lib: Library, p: RawPair, input: nat)
    : Result<Option<seq<byte>>, AdapterError>
  {
    var data :- ReservedData(p.key);
    match data
    case None => Ok(None)
    case Some(pk) =>
      if !lib.validKey(pk) then Err(InvalidPublicKey(input))
      else
        var _ :- ValidateSignature(lib, p.value, input);
        Ok(Some(pk))
  }

  predicate EndsWith(value: seq<byte>, flag: byte) {
    value != [] && value[|value| - 1] == flag
  }

  // ----- standard to internal -----

  /** One pair's move into the reserved namespace. */
  function Inward(p: RawPair): RawPair {
    if IsStandard(p.key) && EndsWith(p.value, UNIFIED_ALL)
    then RawPair(ReservedKey(p.key[1..]), p.value) else p
  }

  function InwardAll(ps: seq<RawPair>): (r: seq<RawPair>)
    ensures |r| == |ps|
    ensures forall i :: 0 <= i < |ps| ==> r[i] == Inward(ps[i])
  {
    seq(|ps|, i requires 0 <= i < |ps| => Inward(ps[i]))
  }

  datatype Keys = Keys(standard: set<seq<byte>>, reserved: set<seq<byte>>)

  function CollectOne(lib: Library, p: RawPair, input: nat, seen: Keys): Result<Keys, AdapterError> {
    if IsStandard(p.key) then
      if !lib.validKey(p.key[1..]) then Err(InvalidPublicKey(input))
      else
        var sighash := if p.value == [] then 0 else p.value[|p.value| - 1];
        if sighash / 0x20 % 2 == 1 && sighash != UNIFIED_ALL then
          Err(UnsupportedUnifiedSighash(input, sighash))
        else
          var _ :- if sighash == UNIFIED_ALL then ValidateSignature(lib, p.value, input) else Ok(());
          Ok(seen.(standard := seen.standard + {p.key[1..]}))
    else
      var reserved :- ReservedSignature(lib, p, input);
      match reserved
      case None => Ok(seen)
      case Some(pk) => Ok(seen.(reserved := seen.reserved + {pk}))
  }

  function Collect(lib: Library, ps: seq<RawPair>, input: nat, seen: Keys): Result<Keys, AdapterError>
    decreases |ps|
  {
    if ps == [] then Ok(seen)
    else
      var next :- CollectOne(lib, ps[0], input, seen);
      Collect(lib, ps[1..], input, next)
  }

  function ToInternal(lib: Library, ps: seq<RawPair>, input: nat): Result<seq<RawPair>, AdapterError> {
    var keys :- Collect(lib, ps, input, Keys({}, {}));
    if keys.standard * keys.reserved != {} then Err(AmbiguousSignatureEncoding(input))
    else Ok(InwardAll(ps))
  }

  // ----- internal to standard -----

  /** One pair's move back out of the reserved namespace. */
  function Outward(p: RawPair): RawPair {
    if IsReserved(p.key) then RawPair(StandardKey(p.key[|RESERVED|..]), p.value) else p
  }

  function OutwardAll(ps: seq<RawPair>): (r: seq<RawPair>)
    ensures |r| == |ps|
    ensures forall i :: 0 <= i < |ps| ==> r[i] == Outward(ps[i])
  {
    seq(|ps|, i requires 0 <= i < |ps| => Outward(ps[i]))
  }

  function StandardKeys(lib: Library, ps: seq<RawPair>, input: nat, seen: set<seq<byte>>)
    : Result<set<seq<byte>>, AdapterError>
    decreases |ps|
  {
    if ps == [] then Ok(seen)
    else if !IsStandard(ps[0].key) then StandardKeys(lib, ps[1..], input, seen)
    else if !lib.validKey(ps[0].key[1..]) then Err(InvalidPublicKey(input))
    else StandardKeys(lib, ps[1..], input, seen + {ps[0].key[1..]})
  }

  function MoveOut(lib: Library, ps: seq<RawPair>, input: nat, seen: set<seq<byte>>)
    : Result<seq<RawPair>, AdapterError>
    decreases |ps|
  {
    if ps == [] then Ok([])
    else
      var reserved :- ReservedSignature(lib, ps[0], input);
      match reserved
      case None =>
        var rest :- MoveOut(lib, ps[1..], input, seen);
        Ok([ps[0]] + rest)
      case Some(pk) =>
        if pk in seen then Err(AmbiguousSignatureEncoding(input))
        else
          var rest :- MoveOut(lib, ps[1..], input, seen + {pk});
          Ok([RawPair(StandardKey(pk), ps[0].value)] + rest)
  }

  /** What is converted already, in front of what the rest gives. */
  function Glue(done: seq<RawPair>, r: Result<seq<RawPair>, AdapterError>): Result<seq<RawPair>, AdapterError> {
    match r
    case Ok(rest) => Ok(done + rest)
    case Err(e) => Err(e)
  }

  lemma MoveOutNone(lib: Library, input: nat, seen: set<seq<byte>>)
    ensures MoveOut(lib, [], input, seen) == Ok([])
  {
  }

  /** The pass, one pair at a time. */
  lemma MoveOutOne(lib: Library, ps: seq<RawPair>, input: nat, seen: set<seq<byte>>)
    requires ps != []
    ensures var one := ReservedSignature(lib, ps[0], input);
            var r := MoveOut(lib, ps, input, seen);
            if one.Err? then r == Err(one.error)
            else if one.value.None? then r == Glue([ps[0]], MoveOut(lib, ps[1..], input, seen))
            else if one.value.value in seen then r == Err(AmbiguousSignatureEncoding(input))
            else r == Glue([RawPair(StandardKey(one.value.value), ps[0].value)],
                           MoveOut(lib, ps[1..], input, seen + {one.value.value}))
  {
    hide ReservedSignature, StandardKey;
  }

  function ToStandard(lib: Library, ps: seq<RawPair>, input: nat): Result<seq<RawPair>, AdapterError> {
    var standard :- StandardKeys(lib, ps, input, {});
    MoveOut(lib, ps, input, standard)
  }

  /** Every input map moved inward. */
  function InternalMaps(lib: Library, ms: seq<RawMap>, first: nat): (r: Result<seq<RawMap>, AdapterError>)
    ensures r.Ok? <==> forall i :: 0 <= i < |ms| ==> ToInternal(lib, ms[i].pairs, first + i).Ok?
    ensures r.Ok? ==> |r.value| == |ms|
    ensures r.Ok? ==>
      forall i :: 0 <= i < |ms| ==> ToInternal(lib, ms[i].pairs, first + i) == Ok(r.value[i].pairs)
    decreases |ms|
  {
    if ms == [] then Ok([])
    else
      var head :- ToInternal(lib, ms[0].pairs, first);
      var rest :- InternalMaps(lib, ms[1..], first + 1);
      Ok([RawMap(head)] + rest)
  }

  /** Every input map moved outward. */
  function StandardMaps(lib: Library, ms: seq<RawMap>, first: nat): (r: Result<seq<RawMap>, AdapterError>)
    ensures r.Ok? <==> forall i :: 0 <= i < |ms| ==> ToStandard(lib, ms[i].pairs, first + i).Ok?
    ensures r.Ok? ==> |r.value| == |ms|
    ensures r.Ok? ==>
      forall i :: 0 <= i < |ms| ==> ToStandard(lib, ms[i].pairs, first + i) == Ok(r.value[i].pairs)
    decreases |ms|
  {
    if ms == [] then Ok([])
    else
      var head :- ToStandard(lib, ms[0].pairs, first);
      var rest :- StandardMaps(lib, ms[1..], first + 1);
      Ok([RawMap(head)] + rest)
  }

  // ----- validation -----

  /** One record of an input map, as validation judges it. */
  predicate RecordOk(lib: Library, m: Content, key: seq<byte>)
    requires key in m
  {
    && (key == SIGHASH_TYPE_KEY ==>
          FromLE(m[key]) == LEGACY_ALL || FromLE(m[key]) == UNIFIED_ALL)
    && (IsStandard(key) ==> EndsWith(m[key], LEGACY_ALL))
    && (IsReserved(key) ==>
          && lib.validKey(key[|RESERVED|..])
          && ValidateSignature(lib, m[key], 0).Ok?
          && StandardKey(key[|RESERVED|..]) !in m)
  }

  predicate InputOk(lib: Library, m: Content) {
    forall key :: key in m ==> RecordOk(lib, m, key)
  }

  /** The error an input is refused with; which record reports it is left open. */
  function ValidateInput(lib: Library, m: Content, input: nat): (r: Result<(), AdapterError>)
    ensures r.Ok? <==> InputOk(lib, m)
  {
    if SIGHASH_TYPE_KEY in m && !RecordOk(lib, m, SIGHASH_TYPE_KEY) then
      Err(UnsupportedSighashRequest(input))
    else if exists key :: key in m && IsStandard(key) && !RecordOk(lib, m, key) then
      Err(UnsupportedLegacySighash(input))
    else if exists key :: key in m && !RecordOk(lib, m, key) then Err(InvalidReservedRecord(input))
    else Ok(())
  }

  function ValidateInputs(lib: Library, ms: seq<Content>, first: nat): (r: Result<(), AdapterError>)
    ensures r.Ok? <==> forall m :: m in ms ==> InputOk(lib, m)
    decreases |ms|
  {
    if ms == [] then Ok(())
    else
      var _ :- ValidateInput(lib, ms[0], first);
      assert ms == [ms[0]] + ms[1..];
      ValidateInputs(lib, ms[1..], first + 1)
  }

  predicate HasReserved(m: Content) {
    exists key :: key in m && IsReserved(key)
  }

  /** Size of the typed serialisation of an accepted PSBT. */
  function ValidateTyped(lib: Library, p: Psbt): Result<nat, AdapterError> {
    if p.version != 0 then Err(UnsupportedTypedVersion(p.version))
    else if UNSIGNED_TX_KEY !in p.global || lib.decode(p.global[UNSIGNED_TX_KEY])
                                           != Some(TxShape(|p.inputs|, |p.outputs|)) then
      Err(MapCountMismatch)
    else if !lib.unsignedOk(p.global[UNSIGNED_TX_KEY]) then Err(UnsignedTransactionNotEmpty)
    else
      var serialized := Encode(RawOf(lib, p));
      var _ :- Lift(EnsureSize(|serialized|));
      var raw :- Lift(Parse(serialized, lib.decode));
      var canonical :- Deserialize(lib, raw);
      if canonical != p then Err(NonCanonicalTypedMap)
      else if HasReserved(p.global) then Err(ReservedNamespaceInGlobal)
      else if exists m :: m in p.outputs && HasReserved(m) then Err(ReservedNamespaceInOutput)
      else
        var _ :- ValidateInputs(lib, p.inputs, 0);
        Ok(|serialized|)
  }

  const EXPLICIT_VERSION_SIZE: nat := 7

  function ValidateInternal(lib: Library, u: UnifiedPsbt): Result<(), AdapterError> {
    var size :- ValidateTyped(lib, u.psbt);
    Lift(EnsureSize(size + if u.explicitGlobalVersion then EXPLICIT_VERSION_SIZE else 0))
  }

  predicate Valid(lib: Library, u: UnifiedPsbt) {
    ValidateInternal(lib, u).Ok?
  }

  // ----- import and export -----

  function HasExplicitVersion(r: RawPsbt): bool {
    Lookup(r.global.pairs, VERSION_KEY).Some?
  }

  /** Typed decoding and validation of a container already in internal form. */
  function Accept(lib: Library, internal: RawPsbt, explicit: bool): Result<UnifiedPsbt, AdapterError> {
    var psbt :- Deserialize(lib, internal);
    var _ :- ValidateInternal(lib, UnifiedPsbt(psbt, explicit));
    Ok(UnifiedPsbt(psbt, explicit))
  }

  function Reread(lib: Library, r: RawPsbt): Result<RawPsbt, AdapterError> {
    var bytes :- Lift(Serialize(r));
    Lift(Parse(bytes, lib.decode))
  }

  function ImportRaw(lib: Library, raw: RawPsbt): Result<UnifiedPsbt, AdapterError> {
    var inputs :- InternalMaps(lib, raw.inputs, 0);
    var internal :- Reread(lib, raw.(inputs := inputs));
    Accept(lib, internal, HasExplicitVersion(raw))
  }

  function Import(lib: Library, b: seq<byte>): Result<UnifiedPsbt, AdapterError> {
    var raw :- Lift(Parse(b, lib.decode));
    ImportRaw(lib, raw)
  }

  const VERSION_PAIR: RawPair := RawPair(VERSION_KEY, [0, 0, 0, 0])

  function WithVersion(r: RawPsbt, explicit: bool): RawPsbt {
    if explicit then r.(global := RawMap(r.global.pairs + [VERSION_PAIR])) else r
  }

  function ExportRaw(lib: Library, internal: RawPsbt): Result<seq<byte>, AdapterError> {
    var inputs :- StandardMaps(lib, internal.inputs, 0);
    Lift(Serialize(internal.(inputs := inputs)))
  }

  function Export(lib: Library, u: UnifiedPsbt): Result<seq<byte>, AdapterError> {
    var _ :- ValidateInternal(lib, u);
    var typed :- Lift(Parse(Encode(RawOf(lib, u.psbt)), lib.decode));
    var raw :- Reread(lib, WithVersion(typed, u.explicitGlobalVersion));
    ExportRaw(lib, raw)
  }
}
