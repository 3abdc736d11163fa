/** Merging partial signatures: what one merge keeps and adds, and why the order of a sequence
    of merges does not matter. */
module PsbtMerge {
  import opened Wrappers
  import opened Bytes
  import opened PsbtFormat
  import opened PsbtUnified
  import opened PsbtConversion
  import opened Sequences

  // ----- one input map -----

  predicate IsSignature(key: seq<byte>) {
    IsStandard(key) || IsReserved(key)
  }

  /** The same public key in the other encoding. */
  function Twin(key: seq<byte>): seq<byte>
    requires IsSignature(key)
  {
    if IsReserved(key) then StandardKey(key[|RESERVED|..]) else ReservedKey(key[1..])
  }

  function Signatures(d: Content): Content {
    map k | k in d && IsSignature(k) :: d[k]
  }

  /** Each signature of `d` is new to `m` or already there, and its key has no other encoding in `m`. */
  predicate Compatible(m: Content, d: Content) {
    forall k :: k in d && IsSignature(k) ==> (k in m ==> m[k] == d[k]) && Twin(k) !in m
  }

  lemma TwinTwin(key: seq<byte>)
    requires IsSignature(key)
    ensures IsSignature(Twin(key)) && Twin(Twin(key)) == key && Twin(key) != key
    ensures IsStandard(key) <==> IsReserved(Twin(key))
  {
    forall k: seq<byte> | IsReserved(k) ensures k[0] == PROPRIETARY { assert k[0] == RESERVED[0]; }
    if IsReserved(key) {
      assert key == RESERVED + key[|RESERVED|..];
      assert StandardKey(key[|RESERVED|..])[1..] == key[|RESERVED|..];
    } else {
      assert ReservedKey(key[1..])[|RESERVED|..] == key[1..];
      assert key == StandardKey(key[1..]);
    }
  }

  // ----- whole PSBTs -----

  function MergedInputs(ms: seq<Content>, ds: seq<Content>): (r: seq<Content>)
    requires |ms| == |ds|
    ensures |r| == |ms|
    ensures forall i :: 0 <= i < |ms| ==> r[i] == ms[i] + Signatures(ds[i])
  {
    seq(|ms|, i requires 0 <= i < |ms| => ms[i] + Signatures(ds[i]))
  }

  predicate SameTransaction(u: UnifiedPsbt, d: UnifiedPsbt) {
    && UNSIGNED_TX_KEY in u.psbt.global && UNSIGNED_TX_KEY in d.psbt.global
    && u.psbt.global[UNSIGNED_TX_KEY] == d.psbt.global[UNSIGNED_TX_KEY]
    && |u.psbt.inputs| == |d.psbt.inputs|
  }

  predicate AllCompatible(ms: seq<Content>, ds: seq<Content>)
    requires |ms| == |ds|
  {
    forall i :: 0 <= i < |ms| ==> Compatible(ms[i], ds[i])
  }

  function Merged(u: UnifiedPsbt, d: UnifiedPsbt): UnifiedPsbt
    requires |u.psbt.inputs| == |d.psbt.inputs|
  {
    u.(psbt := u.psbt.(inputs := MergedInputs(u.psbt.inputs, d.psbt.inputs)))
  }

  /** The destination after a successful merge, or nothing when the merge is refused. */
  function Merge(lib: Library, u: UnifiedPsbt, d: UnifiedPsbt): Option<UnifiedPsbt> {
    if && Valid(lib, u) && Valid(lib, d) && SameTransaction(u, d)
       && AllCompatible(u.psbt.inputs, d.psbt.inputs) && Valid(lib, Merged(u, d))
    then Some(Merged(u, d)) else None
  }

  // ----- validity is a property of the content and of the total size -----

  predicate GoodInput(lib: Library, m: Content) {
    [] !in m && InputFieldsOk(lib, m) && InputOk(lib, m) && Canonical(lib, m)
  }

  /** Everything validation asks for except the size limit and what it asks of the inputs. */
  predicate GoodFrame(lib: Library, p: Psbt) {
    && p.version == 0 && [] !in p.global && VERSION_KEY !in p.global
    && UNSIGNED_TX_KEY in p.global && lib.unsignedOk(p.global[UNSIGNED_TX_KEY])
    && lib.decode(p.global[UNSIGNED_TX_KEY]) == Some(TxShape(|p.inputs|, |p.outputs|))
    && FieldsOk(lib.globalOk, p.global) && !HasReserved(p.global) && Canonical(lib, p.global)
    && (forall m :: m in p.outputs ==> [] !in m && FieldsOk(lib.outputOk, m) && !HasReserved(m) && Canonical(lib, m))
  }

  predicate GoodContent(lib: Library, p: Psbt) {
    GoodFrame(lib, p) && forall m :: m in p.inputs ==> GoodInput(lib, m)
  }

  function Size(lib: Library, u: UnifiedPsbt): nat {
    |Encode(RawOf(lib, u.psbt))| + if u.explicitGlobalVersion then EXPLICIT_VERSION_SIZE else 0
  }

  /** Keyed content is written as a well-formed container. */
  lemma GoodIsWellFormed(lib: Library, p: Psbt)
    requires Faithful(lib) && GoodContent(lib, p)
    ensures WellFormed(RawOf(lib, p), lib.decode) && TypedOf(RawOf(lib, p)) == p && NormalPsbt(lib, p) == p
  {
    hide InputFieldsOk, InputOk, FieldsOk, WellFormedMap, ContentOf, HasReserved, Canonical, TypedOf;
    assert LaysOut(lib.layout(p.global), p.global);
    LookupIsContent(lib.layout(p.global), VERSION_KEY);
    LookupIsContent(lib.layout(p.global), UNSIGNED_TX_KEY);
    KeyedLayout(lib, p);
    LayoutTyped(lib, p);
    CanonicalPsbt(lib, p);
  }

  /** A PSBT is fixed by decoding exactly when each of its maps is canonical. */
  lemma CanonicalPsbt(lib: Library, p: Psbt)
    ensures NormalPsbt(lib, p) == p <==>
              Canonical(lib, p.global) && forall m :: m in p.inputs || m in p.outputs ==> Canonical(lib, m)
  {
    hide Normal, Canonical;
    NormalFixed(lib, p.global);
    forall m ensures Normal(lib, m) == m <==> Canonical(lib, m) { NormalFixed(lib, m); }
    if NormalPsbt(lib, p) == p {
      forall m | m in p.inputs || m in p.outputs ensures Normal(lib, m) == m {
        if m in p.inputs {
          var i :| 0 <= i < |p.inputs| && p.inputs[i] == m;
          assert NormalAll(lib, p.inputs)[i] == m;
        } else {
          var i :| 0 <= i < |p.outputs| && p.outputs[i] == m;
          assert NormalAll(lib, p.outputs)[i] == m;
        }
      }
    }
    if Canonical(lib, p.global) && forall m :: m in p.inputs || m in p.outputs ==> Canonical(lib, m) {
      assert NormalAll(lib, p.inputs) == p.inputs && NormalAll(lib, p.outputs) == p.outputs;
    }
  }

  lemma ValidIsGood(lib: Library, u: UnifiedPsbt)
    requires Faithful(lib) && Valid(lib, u)
    ensures GoodContent(lib, u.psbt) && Size(lib, u) <= MAX_PSBT_BYTES
  {
    hide Encode, Parse, InputFieldsOk, InputOk, FieldsOk, HasReserved, ContentOf, Canonical, NormalPsbt, TypedOf,
         Deserialize;
    var p := u.psbt;
    ValidTyped(lib, p);
    NormalKeys(lib, RawOf(lib, p), p);
    CanonicalPsbt(lib, p);
  }

  lemma GoodIsValid(lib: Library, u: UnifiedPsbt)
    requires Faithful(lib) && GoodContent(lib, u.psbt) && Size(lib, u) <= MAX_PSBT_BYTES
    ensures Valid(lib, u)
  {
    hide Encode, Parse, InputFieldsOk, InputOk, FieldsOk, HasReserved, ContentOf, WellFormed, NormalPsbt, TypedOf;
    GoodIsWellFormed(lib, u.psbt);
    ParseComplete(RawOf(lib, u.psbt), lib.decode);
  }

  // ----- sizes grow with content -----

  lemma {:induction false} EncodeWithout(ps: seq<RawPair>, i: nat)
    requires i < |ps|
    ensures |EncodePairs(ps)| == |EncodePair(ps[i])| + |EncodePairs(ps[..i] + ps[i + 1..])|
  {
    hide EncodePair;
    if i == 0 {
      assert ps[..0] + ps[1..] == ps[1..];
    } else {
      EncodeWithout(ps[1..], i - 1);
      assert ps[1..][..i - 1] + ps[1..][i..] == (ps[..i] + ps[i + 1..])[1..];
    }
  }

  /** A duplicate-free list of some of `qs`'s pairs is no longer than `qs` on the wire. */
  lemma {:induction false} EncodeSublist(ps: seq<RawPair>, qs: seq<RawPair>)
    requires DistinctKeys(ps) && forall p :: p in ps ==> p in qs
    ensures |EncodePairs(ps)| <= |EncodePairs(qs)|
  {
    hide EncodePair;
    if ps != [] {
      assert ps[0] in ps;
      var i :| 0 <= i < |qs| && qs[i] == ps[0];
      var rest := qs[..i] + qs[i + 1..];
      forall p | p in ps[1..] ensures p in rest {
        assert p in ps && p in qs && p.key != ps[0].key;
        var j :| 0 <= j < |qs| && qs[j] == p;
        assert rest[if j < i then j else j - 1] == p;
      }
      EncodeSublist(ps[1..], rest);
      EncodeWithout(qs, i);
    }
  }

  /** `n` holds every field of `m`. */
  predicate Extends(m: Content, n: Content) {
    forall k :: k in m ==> k in n && n[k] == m[k]
  }

  lemma {:induction false} MapsGrow(lib: Library, ms: seq<Content>, ns: seq<Content>)
    requires Faithful(lib) && |ms| == |ns|
    requires forall i :: 0 <= i < |ms| ==> Extends(ms[i], ns[i])
    ensures |EncodeMaps(RawMapsOf(lib, ms))| <= |EncodeMaps(RawMapsOf(lib, ns))|
  {
    hide EncodePairs;
    if ms != [] {
      var ps, qs := lib.layout(ms[0]), lib.layout(ns[0]);
      assert LaysOut(ps, ms[0]) && LaysOut(qs, ns[0]);
      forall p | p in ps ensures p in qs {
        Layout(lib, ms[0], p);
        Layout(lib, ns[0], p);
      }
      EncodeSublist(ps, qs);
      MapsGrow(lib, ms[1..], ns[1..]);
      assert RawMapsOf(lib, ms)[1..] == RawMapsOf(lib, ms[1..]);
      assert RawMapsOf(lib, ns)[1..] == RawMapsOf(lib, ns[1..]);
    }
  }

  /** A PSBT with more in its inputs and nothing else different is no smaller. */
  lemma SizeGrows(lib: Library, u: UnifiedPsbt, v: UnifiedPsbt)
    requires Faithful(lib) && v == u.(psbt := u.psbt.(inputs := v.psbt.inputs))
    requires |u.psbt.inputs| == |v.psbt.inputs|
    requires forall i :: 0 <= i < |u.psbt.inputs| ==> Extends(u.psbt.inputs[i], v.psbt.inputs[i])
    ensures Size(lib, u) <= Size(lib, v)
  {
    hide EncodeMap, EncodeMaps, Faithful;
    MapsGrow(lib, u.psbt.inputs, v.psbt.inputs);
  }

  // ----- one merge -----

  lemma MergedInputGood(lib: Library, m: Content, d: Content)
    requires GoodInput(lib, m) && GoodInput(lib, d) && Compatible(m, d)
    ensures GoodInput(lib, m + Signatures(d))
  {
    hide ValidateSignature, ReservedData;
    var n := m + Signatures(d);
    forall k | k in n
      ensures k != [] && RecordOk(lib, n, k) && lib.inputOk(RawPair(k, n[k]))
      ensures ReservedData(k).Ok? && (IsStandard(k) ==> lib.validKey(k[1..]))
      ensures (k == SIGHASH_TYPE_KEY ==> |n[k]| == 4) && lib.normal(RawPair(k, n[k])) == n[k]
    {
      var from := if k in Signatures(d) then d else m;
      assert RecordOk(lib, from, k);
      if IsReserved(k) { TwinTwin(k); }
    }
  }

  /** Only the size limit can refuse the result of a compatible merge. */
  lemma MergeIff(lib: Library, u: UnifiedPsbt, d: UnifiedPsbt)
    requires Faithful(lib)
    ensures Merge(lib, u, d).Some? <==>
              && Valid(lib, u) && Valid(lib, d) && SameTransaction(u, d)
              && AllCompatible(u.psbt.inputs, d.psbt.inputs) && Size(lib, Merged(u, d)) <= MAX_PSBT_BYTES
  {
    hide Valid, GoodFrame, GoodInput, Compatible, Size;
    if Valid(lib, u) && Valid(lib, d) && SameTransaction(u, d) && AllCompatible(u.psbt.inputs, d.psbt.inputs) {
      ValidIsGood(lib, u);
      ValidIsGood(lib, d);
      var v := Merged(u, d);
      forall i | 0 <= i < |v.psbt.inputs| ensures GoodInput(lib, v.psbt.inputs[i]) {
        assert u.psbt.inputs[i] in u.psbt.inputs && d.psbt.inputs[i] in d.psbt.inputs;
        MergedInputGood(lib, u.psbt.inputs[i], d.psbt.inputs[i]);
      }
      FrameKept(lib, u.psbt, v.psbt);
      if Size(lib, v) <= MAX_PSBT_BYTES { GoodIsValid(lib, v); }
      if Valid(lib, v) { ValidIsGood(lib, v); }
    }
  }

  lemma FrameKept(lib: Library, p: Psbt, q: Psbt)
    requires GoodFrame(lib, p) && q == p.(inputs := q.inputs) && |p.inputs| == |q.inputs|
    ensures GoodFrame(lib, q)
  {
  }

  /** A merge keeps every record, adds signature records only, and adds all of the delta's. */
  lemma MergeKeepsAndAdds(lib: Library, u: UnifiedPsbt, d: UnifiedPsbt, i: nat, key: seq<byte>)
    requires Merge(lib, u, d).Some? && i < |u.psbt.inputs|
    ensures var v := Merge(lib, u, d).value;
            && v == u.(psbt := u.psbt.(inputs := v.psbt.inputs)) && |v.psbt.inputs| == |u.psbt.inputs|
            && Valid(lib, v)
            && (key in u.psbt.inputs[i] ==>
                  key in v.psbt.inputs[i] && v.psbt.inputs[i][key] == u.psbt.inputs[i][key])
            && (key in d.psbt.inputs[i] && IsSignature(key) ==>
                  key in v.psbt.inputs[i] && v.psbt.inputs[i][key] == d.psbt.inputs[i][key])
            && (key in v.psbt.inputs[i] ==>
                  key in u.psbt.inputs[i] || (key in d.psbt.inputs[i] && IsSignature(key)))
  {
    hide Valid;
    assert Compatible(u.psbt.inputs[i], d.psbt.inputs[i]);
  }

  /** Merging the same delta again changes nothing. */
  lemma MergeIdempotent(lib: Library, u: UnifiedPsbt, d: UnifiedPsbt)
    requires Faithful(lib) && Merge(lib, u, d).Some?
    ensures Merge(lib, Merge(lib, u, d).value, d) == Merge(lib, u, d)
  {
    hide Valid, Faithful, GoodFrame, Compatible, InputOk, Signatures;
    ValidIsGood(lib, d);
    var v := Merge(lib, u, d).value;
    forall i | 0 <= i < |u.psbt.inputs|
      ensures Compatible(v.psbt.inputs[i], d.psbt.inputs[i])
      ensures v.psbt.inputs[i] + Signatures(d.psbt.inputs[i]) == v.psbt.inputs[i]
    {
      assert d.psbt.inputs[i] in d.psbt.inputs;
      AgainInput(lib, u.psbt.inputs[i], d.psbt.inputs[i]);
    }
    assert Merged(v, d).psbt.inputs == v.psbt.inputs;
  }

  lemma AgainInput(lib: Library, m: Content, d: Content)
    requires InputOk(lib, d) && Compatible(m, d)
    ensures Compatible(m + Signatures(d), d)
    ensures m + Signatures(d) + Signatures(d) == m + Signatures(d)
  {
    NoOwnTwin(lib, d);
  }

  lemma NoOwnTwin(lib: Library, d: Content)
    requires InputOk(lib, d)
    ensures forall k :: k in d && IsSignature(k) ==> Twin(k) !in d
  {
    forall r | r in d && IsReserved(r) ensures StandardKey(r[|RESERVED|..]) !in d {
      assert RecordOk(lib, d, r);
    }
    forall k | k in d && IsSignature(k) ensures Twin(k) !in d { TwinTwin(k); }
  }

  // ----- sequences of merges -----

  /** If `d` then `e` can be merged into one input, `e` then `d` can, with the same outcome. */
  lemma SwapInput(m: Content, d: Content, e: Content)
    requires Compatible(m, d) && Compatible(m + Signatures(d), e)
    ensures Compatible(m, e) && Compatible(m + Signatures(e), d)
    ensures m + Signatures(d) + Signatures(e) == m + Signatures(e) + Signatures(d)
    ensures Extends(m + Signatures(e), m + Signatures(d) + Signatures(e))
  {
    hide IsSignature, Twin, Compatible;
    SwapCompatible(m, d, e);
    SwapAgrees(m, d, e);
    assert m + Signatures(d) + Signatures(e) == m + Signatures(e) + Signatures(d);
  }

  lemma SwapCompatible(m: Content, d: Content, e: Content)
    requires Compatible(m, d) && Compatible(m + Signatures(d), e)
    ensures Compatible(m, e) && Compatible(m + Signatures(e), d)
  {
    hide IsSignature, Twin;
    forall k | k in d && IsSignature(k) ensures Twin(k) !in m + Signatures(e) {
      TwinTwin(k);
    }
  }

  lemma SwapAgrees(m: Content, d: Content, e: Content)
    requires Compatible(m, d) && Compatible(m + Signatures(d), e)
    ensures forall k :: k in Signatures(d) && k in m ==> m[k] == d[k]
    ensures forall k :: k in Signatures(e) && k in m + Signatures(d) ==> (m + Signatures(d))[k] == e[k]
  {
    hide IsSignature, Twin;
  }

  lemma Swap(lib: Library, u: UnifiedPsbt, d: UnifiedPsbt, e: UnifiedPsbt)
    requires Faithful(lib) && Merge(lib, u, d).Some? && Merge(lib, Merge(lib, u, d).value, e).Some?
    ensures Merge(lib, u, e).Some?
    ensures Merge(lib, Merge(lib, u, e).value, d) == Merge(lib, Merge(lib, u, d).value, e)
  {
    hide Valid, Faithful, Compatible, Size, Extends;
    var ud, ue := Merged(u, d), Merged(u, e);
    var ude, ued := Merged(ud, e), Merged(ue, d);
    forall i | 0 <= i < |u.psbt.inputs|
      ensures Compatible(u.psbt.inputs[i], e.psbt.inputs[i]) && Compatible(ue.psbt.inputs[i], d.psbt.inputs[i])
      ensures ude.psbt.inputs[i] == ued.psbt.inputs[i] && Extends(ue.psbt.inputs[i], ude.psbt.inputs[i])
    {
      assert Compatible(u.psbt.inputs[i], d.psbt.inputs[i]) && Compatible(ud.psbt.inputs[i], e.psbt.inputs[i]);
      SwapInput(u.psbt.inputs[i], d.psbt.inputs[i], e.psbt.inputs[i]);
    }
    assert ude.psbt.inputs == ued.psbt.inputs;
    MergeIff(lib, ud, e);
    SizeGrows(lib, ue, ude);
    MergeIff(lib, u, e);
    MergeIff(lib, ue, d);
  }

  /** Merging any deltas in any order reaches the same PSBT, or is refused in every order. */
  lemma MergeOrderIndependent(lib: Library, u: UnifiedPsbt, ds: seq<UnifiedPsbt>, es: seq<UnifiedPsbt>)
    requires Faithful(lib) && multiset(ds) == multiset(es)
    ensures var merge := (v, d) => Merge(lib, v, d);
            Run(merge, Some(u), ds) == Run(merge, Some(u), es)
  {
    hide Merge, Faithful;
    var merge := (v, d) => Merge(lib, v, d);
    forall v, d, e ensures Then(merge, merge(v, d), e) == Then(merge, merge(v, e), d) {
      if Merge(lib, v, d).Some? && Merge(lib, Merge(lib, v, d).value, e).Some? {
        Swap(lib, v, d, e);
      } else if Merge(lib, v, e).Some? && Merge(lib, Merge(lib, v, e).value, d).Some? {
        Swap(lib, v, e, d);
      }
    }
    RunPermuted(merge, Some(u), ds, es);
  }
}

/** Merging as the program does it: on a copy, input by input, assigned only at the end. */
module PsbtMergeLoops {
  import opened Wrappers
  import opened Bytes
  import opened PsbtUnified
  import opened PsbtMerge

  /** The standard signatures of `d`, in an arbitrary key order. */
  method MergeStandard(m: Content, d: Content, input: nat) returns (r: Result<Content, AdapterError>)
    ensures r.Ok? <==> forall k :: k in d && IsStandard(k) ==>
                         (k in m ==> m[k] == d[k]) && ReservedKey(k[1..]) !in m
    ensures r.Ok? ==> forall k :: k in r.value <==> k in m || (k in d && IsStandard(k))
    ensures r.Ok? ==> forall k :: k in r.value ==> r.value[k] == if k in m then m[k] else d[k]
    ensures r.Err? ==> r.error == AmbiguousSignatureEncoding(input) || r.error == ConflictingSignature(input)
  {
    hide ReservedKey;
    var out := m;
    var todo := set k | k in d && IsStandard(k);
    while todo != {}
      invariant forall k :: k in todo ==> k in d && IsStandard(k)
      invariant forall k :: k in out <==> k in m || (k in d && IsStandard(k) && k !in todo)
      invariant forall k :: k in out ==> out[k] == if k in m then m[k] else d[k]
      invariant forall k :: k in d && IsStandard(k) && k !in todo ==>
                  (k in m ==> m[k] == d[k]) && ReservedKey(k[1..]) !in m
      decreases |todo|
    {
      var k :| k in todo;
      if ReservedKey(k[1..]) in m { return Err(AmbiguousSignatureEncoding(input)); }
      if k in out && out[k] != d[k] { return Err(ConflictingSignature(input)); }
      out := out[k := d[k]];
      todo := todo - {k};
    }
    return Ok(out);
  }

  /** Then the reserved ones, into the map the first pass left. */
  method MergeReserved(m: Content, n: Content, d: Content, input: nat)
    returns (r: Result<Content, AdapterError>)
    requires forall k :: IsReserved(k) ==> (k in n <==> k in m) && (k in m ==> n[k] == m[k])
    ensures r.Ok? <==> forall k :: k in d && IsReserved(k) ==>
                         (k in m ==> m[k] == d[k]) && StandardKey(k[|RESERVED|..]) !in n
    ensures r.Ok? ==> forall k :: k in r.value <==> k in n || (k in d && IsReserved(k))
    ensures r.Ok? ==> forall k :: k in r.value ==> r.value[k] == if k in n then n[k] else d[k]
    ensures r.Err? ==> r.error == AmbiguousSignatureEncoding(input) || r.error == ConflictingSignature(input)
  {
    var out := n;
    var todo := set k | k in d && IsReserved(k);
    while todo != {}
      invariant forall k :: k in todo ==> k in d && IsReserved(k)
      invariant forall k :: k in out <==> k in n || (k in d && IsReserved(k) && k !in todo)
      invariant forall k :: k in out ==> out[k] == if k in n then n[k] else d[k]
      invariant forall k :: k in d && IsReserved(k) && k !in todo ==>
                  (k in m ==> m[k] == d[k]) && StandardKey(k[|RESERVED|..]) !in n
      decreases |todo|
    {
      var k :| k in todo;
      TwinTwin(k);
      if StandardKey(k[|RESERVED|..]) in out { return Err(AmbiguousSignatureEncoding(input)); }
      if k in m && m[k] != d[k] { return Err(ConflictingSignature(input)); }
      if k !in m { out := out[k := d[k]]; }
      todo := todo - {k};
    }
    return Ok(out);
  }

  /** One input's signatures; `d` came from a validated PSBT, so no key of it has both encodings. */
  method MergeOneInput(m: Content, d: Content, input: nat) returns (r: Result<Content, AdapterError>)
    requires forall k :: k in d && IsSignature(k) ==> Twin(k) !in d
    ensures r.Ok? <==> Compatible(m, d)
    ensures r.Ok? ==> r.value == m + Signatures(d)
    ensures r.Err? ==> r.error == AmbiguousSignatureEncoding(input) || r.error == ConflictingSignature(input)
  {
    CompatibleParts(m, d);
    hide StandardKey, ReservedKey, Compatible;
    var n :- MergeStandard(m, d, input);
    var out :- MergeReserved(m, n, d, input);
    CompatibleAgrees(m, d);
    BothPasses(m, n, d, out);
    return Ok(out);
  }

  lemma BothPasses(m: Content, n: Content, d: Content, out: Content)
    requires forall k :: k in n <==> k in m || (k in d && IsStandard(k))
    requires forall k :: k in n ==> n[k] == if k in m then m[k] else d[k]
    requires forall k :: k in out <==> k in n || (k in d && IsReserved(k))
    requires forall k :: k in out ==> out[k] == if k in n then n[k] else d[k]
    requires forall k :: k in m && k in Signatures(d) ==> m[k] == d[k]
    ensures out == m + Signatures(d)
  {
    hide IsStandard, IsReserved;
  }

  lemma CompatibleAgrees(m: Content, d: Content)
    requires Compatible(m, d)
    ensures forall k :: k in m && k in Signatures(d) ==> m[k] == d[k]
  {
  }

  /** Compatibility, pass by pass. */
  lemma CompatibleParts(m: Content, d: Content)
    ensures forall k: seq<byte> :: IsReserved(k) ==> !IsStandard(k) && IsStandard(StandardKey(k[|RESERVED|..]))
    ensures Compatible(m, d) <==>
              && (forall k :: k in d && IsStandard(k) ==> (k in m ==> m[k] == d[k]) && ReservedKey(k[1..]) !in m)
              && (forall k :: k in d && IsReserved(k) ==>
                    (k in m ==> m[k] == d[k]) && StandardKey(k[|RESERVED|..]) !in m)
    ensures (forall k :: k in d && IsSignature(k) ==> Twin(k) !in d) ==>
              forall k :: k in d && IsReserved(k) ==> StandardKey(k[|RESERVED|..]) !in d
  {
    forall k: seq<byte> | IsReserved(k) ensures !IsStandard(k) { assert k[0] == RESERVED[0]; }
    if forall k :: k in d && IsSignature(k) ==> Twin(k) !in d {
      forall k | k in d && IsReserved(k) ensures StandardKey(k[|RESERVED|..]) !in d { assert Twin(k) !in d; }
    }
  }

  /** A PSBT that later signatures are merged into. */
  class Destination {
    var value: UnifiedPsbt

    constructor (value: UnifiedPsbt)
      ensures this.value == value
    {
      this.value := value;
    }

    /** Succeeds exactly when `Merge` does, and otherwise leaves the destination as it was. */
    method MergeSignatures(lib: Library, delta: UnifiedPsbt) returns (r: Result<(), AdapterError>)
      requires Faithful(lib)
      modifies this
      ensures r.Ok? ==> Merge(lib, old(value), delta) == Some(value)
      ensures r.Err? ==> Merge(lib, old(value), delta) == None && value == old(value)
    {
      hide ValidateInternal, Compatible, Faithful;
      var _ :- ValidateInternal(lib, value);
      var _ :- ValidateInternal(lib, delta);
      if !SameTransaction(value, delta) { return Err(UnsignedTransactionMismatch); }
      var merged := value;
      var inputs := merged.psbt.inputs;
      for i := 0 to |inputs|
        invariant value == merged && |inputs| == |merged.psbt.inputs|
        invariant forall j :: 0 <= j < i ==>
                    && Compatible(merged.psbt.inputs[j], delta.psbt.inputs[j])
                    && inputs[j] == merged.psbt.inputs[j] + Signatures(delta.psbt.inputs[j])
        invariant forall j :: i <= j < |inputs| ==> inputs[j] == merged.psbt.inputs[j]
      {
        OwnTwins(lib, delta, i);
        var one :- MergeOneInput(inputs[i], delta.psbt.inputs[i], i);
        inputs := inputs[i := one];
      }
      assert inputs == MergedInputs(merged.psbt.inputs, delta.psbt.inputs);
      merged := merged.(psbt := merged.psbt.(inputs := inputs));
      var _ :- ValidateInternal(lib, merged);
      value := merged;
      return Ok(());
    }
  }

  lemma OwnTwins(lib: Library, d: UnifiedPsbt, i: nat)
    requires Faithful(lib) && Valid(lib, d) && i < |d.psbt.inputs|
    ensures forall k :: k in d.psbt.inputs[i] && IsSignature(k) ==> Twin(k) !in d.psbt.inputs[i]
  {
    hide Valid, Faithful;
    ValidIsGood(lib, d);
    assert d.psbt.inputs[i] in d.psbt.inputs;
    NoOwnTwin(lib, d.psbt.inputs[i]);
  }
}
