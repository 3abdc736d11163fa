/** Rounds of unified signing. Each signer adds its own deterministic records through the checked
    merge; the order in which signers act does not matter. */
module PsbtSigning {
  import opened Wrappers
  import opened Bytes
  import opened PsbtFormat
  import opened PsbtUnified
  import opened PsbtMerge
  import opened Sequences

  /** The request field value for ALL|UNIFIED. */
  const UNIFIED_REQUEST: seq<byte> := LE(UNIFIED_ALL, 4)

  /** Signature verification against an input's own prevouts and script, which signing never touches. */
  type Verifier = (nat, seq<byte>, seq<byte>) -> bool

  /** One signer's records: for each input, reserved records for the keys it controls there. */
  type Records = seq<Content>

  /** Key types a signature delta copies: both UTXO forms, witness script, derivations. */
  predicate IsBase(key: seq<byte>) {
    key != [] && (key[0] == 0x00 || key[0] == 0x01 || key[0] == 0x05 || key[0] == 0x06)
  }

  function Base(m: Content): Content {
    map k | k in m && IsBase(k) :: m[k]
  }

  predicate RequestCompatible(m: Content) {
    SIGHASH_TYPE_KEY in m ==> FromLE(m[SIGHASH_TYPE_KEY]) == UNIFIED_ALL
  }

  /** Every unified record verifies, beside a compatible request. */
  predicate InputVerified(verifies: Verifier, i: nat, m: Content) {
    forall k :: k in m && IsReserved(k) ==>
      RequestCompatible(m) && verifies(i, k[|RESERVED|..], m[k])
  }

  predicate Verified(verifies: Verifier, u: UnifiedPsbt) {
    forall i :: 0 <= i < |u.psbt.inputs| ==> InputVerified(verifies, i, u.psbt.inputs[i])
  }

  function Delta(u: UnifiedPsbt, records: Records): UnifiedPsbt
    requires UNSIGNED_TX_KEY in u.psbt.global && |records| == |u.psbt.inputs|
  {
    var inputs := seq(|records|, i requires 0 <= i < |records| => Base(u.psbt.inputs[i]) + records[i]);
    var outputs := seq(|u.psbt.outputs|, i => map[]);
    UnifiedPsbt(Psbt(0, map[UNSIGNED_TX_KEY := u.psbt.global[UNSIGNED_TX_KEY]], inputs, outputs), false)
  }

  /** The request set on an input that received a signature. */
  function SetRequest(m: Content, records: Content): Content {
    if records == map[] then m else m[SIGHASH_TYPE_KEY := UNIFIED_REQUEST]
  }

  function WithRequests(u: UnifiedPsbt, records: Records): UnifiedPsbt
    requires |records| == |u.psbt.inputs|
  {
    u.(psbt := u.psbt.(inputs :=
      seq(|records|, i requires 0 <= i < |records| => SetRequest(u.psbt.inputs[i], records[i]))))
  }

  predicate NothingToSign(records: Records) {
    forall r :: r in records ==> r == map[]
  }

  predicate CanRequest(u: UnifiedPsbt, records: Records)
    requires |records| == |u.psbt.inputs|
  {
    forall i :: 0 <= i < |records| && records[i] != map[] ==> RequestCompatible(u.psbt.inputs[i])
  }

  /** Records as a signer makes them: reserved records only. */
  predicate Proper(records: Records) {
    forall r, k :: r in records && k in r ==> IsReserved(k)
  }

  /** One signer's turn: the signed PSBT, or nothing when any check refuses. */
  function Sign(lib: Library, verifies: Verifier, u: UnifiedPsbt, records: Records): Option<UnifiedPsbt> {
    if !(Valid(lib, u) && Verified(verifies, u) && UNSIGNED_TX_KEY in u.psbt.global
         && Proper(records) && |records| == |u.psbt.inputs| && CanRequest(u, records)) then None
    else if NothingToSign(records) then Some(u)
    else
      match Merge(lib, u, Delta(u, records))
      case None => None
      case Some(merged) =>
        var result := WithRequests(merged, records);
        if Valid(lib, result) && Verified(verifies, result) then Some(result) else None
  }

  // ----- one input -----

  /** An input after one signer's turn. */
  function Signed(m: Content, r: Content): Content {
    SetRequest(m + r, r)
  }

  lemma SignedOnce(m: Content, r: Content)
    requires forall k :: k in r ==> IsReserved(k)
    ensures SetRequest(m + Signatures(Base(m) + r), r) == Signed(m, r)
    ensures Signatures(Base(m) + r) == r && Base(Signed(m, r)) == Base(m)
  {
    hide IsReserved;
    RequestKeyFree(r);
    BaseUnsigned(m);
    ReservedIsSignature(r);
    assert Signatures(Base(m) + r) == r;
  }

  lemma BaseUnsigned(m: Content)
    ensures forall k :: k in Base(m) ==> !IsSignature(k)
  {
  }

  lemma ReservedIsSignature(r: Content)
    requires forall k :: k in r ==> IsReserved(k)
    ensures forall k :: k in r ==> IsSignature(k) && !IsBase(k)
  {
    forall k | k in r ensures !IsBase(k) { assert k[0] == RESERVED[0]; }
  }

  /** A compatible request is the unified one, byte for byte. */
  lemma RequestValue(m: Content)
    ensures FromLE(UNIFIED_REQUEST) == UNIFIED_ALL
    ensures RequestCompatible(m) && SIGHASH_TYPE_KEY in m && |m[SIGHASH_TYPE_KEY]| == 4 ==>
              m[SIGHASH_TYPE_KEY] == UNIFIED_REQUEST
  {
    Widths();
    LERoundTrip(UNIFIED_ALL, 4);
    if SIGHASH_TYPE_KEY in m { FromLERoundTrip(m[SIGHASH_TYPE_KEY]); }
  }

  /** `r` can be added to `m`: same values where both speak, and the request not replaced. */
  predicate Joins(m: Content, r: Content) {
    && (forall k :: k in r ==> IsReserved(k))
    && (forall k :: k in m && k in r ==> m[k] == r[k])
    && (r != map[] && SIGHASH_TYPE_KEY in m ==> m[SIGHASH_TYPE_KEY] == UNIFIED_REQUEST)
  }

  lemma RequestKeyFree(r: Content)
    requires forall k :: k in r ==> IsReserved(k)
    ensures SIGHASH_TYPE_KEY !in r
  {
    forall k: seq<byte> | IsReserved(k) ensures k[0] == PROPRIETARY { assert k[0] == RESERVED[0]; }
  }

  lemma SignedExtends(m: Content, r: Content)
    requires Joins(m, r)
    ensures Extends(m, Signed(m, r)) && forall k :: k in r ==> k in Signed(m, r) && Signed(m, r)[k] == r[k]
  {
    hide IsReserved;
    RequestKeyFree(r);
  }

  /** Two turns on one input commute. */
  lemma TwoTurns(m: Content, r: Content, s: Content)
    requires Joins(m, r) && Joins(Signed(m, r), s)
    ensures Joins(m, s) && Joins(Signed(m, s), r)
    ensures Signed(Signed(m, s), r) == Signed(Signed(m, r), s)
  {
    hide IsReserved, Joins, Signed;
    JoinsSwap(m, r, s);
    if r == map[] {
      IdleSigned(m);
      IdleSigned(Signed(m, s));
    } else if s == map[] {
      IdleSigned(m);
      IdleSigned(Signed(m, r));
    } else {
      BothSigned(m, r, s);
    }
  }

  lemma IdleSigned(m: Content)
    ensures Signed(m, map[]) == m
  {
    assert m + map[] == m;
  }

  lemma JoinsSwap(m: Content, r: Content, s: Content)
    requires Joins(m, r) && Joins(Signed(m, r), s)
    ensures Joins(m, s) && Joins(Signed(m, s), r)
    ensures forall k :: k in r && k in s ==> r[k] == s[k]
    ensures SIGHASH_TYPE_KEY !in r && SIGHASH_TYPE_KEY !in s
  {
    hide IsReserved;
    RequestKeyFree(r);
    RequestKeyFree(s);
    SignedExtends(m, r);
  }

  lemma BothSigned(m: Content, r: Content, s: Content)
    requires r != map[] && s != map[] && forall k :: k in r && k in s ==> r[k] == s[k]
    requires SIGHASH_TYPE_KEY !in r && SIGHASH_TYPE_KEY !in s
    ensures Signed(Signed(m, s), r) == Signed(Signed(m, r), s)
  {
    assert m + r + s == m + s + r;
  }

  // ----- downward closure: whatever lies below a good final state is good -----

  lemma GoodBelow(lib: Library, m: Content, n: Content)
    requires Extends(m, n) && GoodInput(lib, n)
    ensures GoodInput(lib, m)
  {
    hide ReservedData, ValidateSignature;
    forall k | k in m ensures RecordOk(lib, m, k) { assert RecordOk(lib, n, k); }
  }

  lemma VerifiedBelow(verifies: Verifier, i: nat, m: Content, n: Content)
    requires Extends(m, n) && InputVerified(verifies, i, n)
    ensures InputVerified(verifies, i, m)
  {
  }

  lemma CompatibleBelow(m: Content, n: Content, d: Content)
    requires Extends(m, n) && Compatible(n, d)
    ensures Compatible(m, d)
  {
  }

  /** A good input already holding `r` admits a delta that brings `r`. */
  lemma CompatibleWithin(lib: Library, n: Content, b: Content, r: Content)
    requires GoodInput(lib, n) && (forall k :: k in r ==> IsReserved(k))
    requires forall k :: k in r ==> k in n && n[k] == r[k]
    ensures Compatible(n, Base(b) + r)
  {
    SignedOnce(b, r);
    forall k | k in Base(b) + r && IsSignature(k) ensures k in r && Twin(k) !in n {
      assert k in Signatures(Base(b) + r);
      assert RecordOk(lib, n, k);
    }
  }

  // ----- whole turns -----

  function SignedInputs(ms: seq<Content>, rs: Records): (r: seq<Content>)
    requires |ms| == |rs|
    ensures |r| == |ms|
    ensures forall i :: 0 <= i < |ms| ==> r[i] == Signed(ms[i], rs[i])
  {
    seq(|ms|, i requires 0 <= i < |ms| => Signed(ms[i], rs[i]))
  }

  function After(u: UnifiedPsbt, rs: Records): UnifiedPsbt
    requires |rs| == |u.psbt.inputs|
  {
    u.(psbt := u.psbt.(inputs := SignedInputs(u.psbt.inputs, rs)))
  }

  predicate AllJoin(ms: seq<Content>, rs: Records)
    requires |ms| == |rs|
  {
    forall i :: 0 <= i < |ms| ==> Joins(ms[i], rs[i])
  }

  /** `n` is `u` with more in its inputs. */
  predicate Below(u: UnifiedPsbt, n: UnifiedPsbt) {
    && |u.psbt.inputs| == |n.psbt.inputs| && n == u.(psbt := u.psbt.(inputs := n.psbt.inputs))
    && forall i :: 0 <= i < |u.psbt.inputs| ==> Extends(u.psbt.inputs[i], n.psbt.inputs[i])
  }

  lemma MergedIsAfter(u: UnifiedPsbt, rs: Records)
    requires Proper(rs) && |rs| == |u.psbt.inputs| && UNSIGNED_TX_KEY in u.psbt.global
    ensures WithRequests(Merged(u, Delta(u, rs)), rs) == After(u, rs)
    ensures Delta(After(u, rs), rs) == Delta(u, rs)
  {
    hide Signed, Base, Signatures, SetRequest;
    forall i | 0 <= i < |rs|
      ensures SetRequest(u.psbt.inputs[i] + Signatures(Base(u.psbt.inputs[i]) + rs[i]), rs[i])
           == Signed(u.psbt.inputs[i], rs[i])
      ensures Base(Signed(u.psbt.inputs[i], rs[i])) == Base(u.psbt.inputs[i])
    {
      assert rs[i] in rs;
      SignedOnce(u.psbt.inputs[i], rs[i]);
    }
    assert WithRequests(Merged(u, Delta(u, rs)), rs).psbt.inputs == After(u, rs).psbt.inputs;
    assert Delta(After(u, rs), rs).psbt.inputs == Delta(u, rs).psbt.inputs;
  }

  /** A delta depends only on what signing leaves alone. */
  lemma SameDelta(u: UnifiedPsbt, rs: Records, ss: Records)
    requires Proper(rs) && |rs| == |ss| == |u.psbt.inputs| && UNSIGNED_TX_KEY in u.psbt.global
    ensures Delta(After(u, rs), ss) == Delta(u, ss)
  {
    hide Signed, Base;
    forall i | 0 <= i < |rs| ensures Base(Signed(u.psbt.inputs[i], rs[i])) == Base(u.psbt.inputs[i]) {
      assert rs[i] in rs;
      SignedOnce(u.psbt.inputs[i], rs[i]);
    }
    assert Delta(After(u, rs), ss).psbt.inputs == Delta(u, ss).psbt.inputs;
  }

  /** What a successful turn with something to sign establishes. */
  lemma SignSound(lib: Library, verifies: Verifier, u: UnifiedPsbt, rs: Records)
    requires Faithful(lib) && Sign(lib, verifies, u, rs).Some? && !NothingToSign(rs)
    ensures UNSIGNED_TX_KEY in u.psbt.global && |rs| == |u.psbt.inputs| && Proper(rs)
    ensures Sign(lib, verifies, u, rs) == Some(After(u, rs)) && AllJoin(u.psbt.inputs, rs)
    ensures Valid(lib, After(u, rs)) && Verified(verifies, After(u, rs)) && Valid(lib, Delta(u, rs))
  {
    hide Valid, Faithful, Signed, Base, SetRequest, Verified, Compatible, GoodFrame, Joins;
    MergedIsAfter(u, rs);
    ValidIsGood(lib, u);
    forall i | 0 <= i < |rs| ensures Joins(u.psbt.inputs[i], rs[i]) {
      assert rs[i] in rs && u.psbt.inputs[i] in u.psbt.inputs;
      assert Compatible(u.psbt.inputs[i], Delta(u, rs).psbt.inputs[i]);
      JoinsFromChecks(lib, u.psbt.inputs[i], rs[i]);
    }
  }

  lemma JoinsFromChecks(lib: Library, m: Content, r: Content)
    requires GoodInput(lib, m) && Compatible(m, Base(m) + r) && (forall k :: k in r ==> IsReserved(k))
    requires r != map[] ==> RequestCompatible(m)
    ensures Joins(m, r)
  {
    hide InputOk, ReservedData;
    RequestValue(m);
    forall k | k in m && k in r ensures m[k] == r[k] { assert IsSignature(k) && k in Base(m) + r; }
  }

  /** A turn whose outcome lies below a valid, verified PSBT is never refused. */
  lemma SignComplete(lib: Library, verifies: Verifier, u: UnifiedPsbt, rs: Records, n: UnifiedPsbt)
    requires Faithful(lib) && Valid(lib, n) && Verified(verifies, n)
    requires Proper(rs) && |rs| == |u.psbt.inputs| && UNSIGNED_TX_KEY in u.psbt.global
    requires AllJoin(u.psbt.inputs, rs) && Below(u, After(u, rs)) && Below(After(u, rs), n) && Below(u, n)
    requires Valid(lib, Delta(u, rs)) && !NothingToSign(rs)
    ensures Sign(lib, verifies, u, rs) == Some(After(u, rs))
  {
    hide Valid, Faithful, Signed, Base, Verified, Compatible, Extends, GoodFrame, GoodInput, Size, Joins;
    var v, d := After(u, rs), Delta(u, rs);
    ValidBelow(lib, u, n);
    ValidBelow(lib, v, n);
    VerifiedAllBelow(verifies, u, n);
    VerifiedAllBelow(verifies, v, n);
    ValidIsGood(lib, n);
    forall i | 0 <= i < |rs|
      ensures Compatible(u.psbt.inputs[i], d.psbt.inputs[i])
      ensures rs[i] != map[] ==> RequestCompatible(u.psbt.inputs[i])
    {
      assert rs[i] in rs && n.psbt.inputs[i] in n.psbt.inputs;
      assert Joins(u.psbt.inputs[i], rs[i]);
      TurnFits(lib, u.psbt.inputs[i], rs[i], n.psbt.inputs[i]);
    }
    MergedIsAfter(u, rs);
    forall i | 0 <= i < |rs| ensures Extends(Merged(u, d).psbt.inputs[i], v.psbt.inputs[i]) {
      assert rs[i] in rs && Joins(u.psbt.inputs[i], rs[i]);
      MergedBelowSigned(u.psbt.inputs[i], rs[i]);
    }
    SizeGrows(lib, Merged(u, d), v);
    ValidIsGood(lib, v);
    MergeIff(lib, u, d);
  }

  lemma TurnFits(lib: Library, m: Content, r: Content, n: Content)
    requires Joins(m, r) && Extends(m, n) && Extends(Signed(m, r), n) && GoodInput(lib, n)
    ensures Compatible(m, Base(m) + r) && (r != map[] ==> RequestCompatible(m))
  {
    hide GoodInput, Compatible;
    SignedExtends(m, r);
    RequestValue(m);
    CompatibleWithin(lib, n, m, r);
    CompatibleBelow(m, n, Base(m) + r);
  }

  lemma MergedBelowSigned(m: Content, r: Content)
    requires Joins(m, r)
    ensures Extends(m + Signatures(Base(m) + r), Signed(m, r))
  {
    hide IsReserved;
    SignedOnce(m, r);
    RequestKeyFree(r);
  }

  lemma ValidBelow(lib: Library, u: UnifiedPsbt, n: UnifiedPsbt)
    requires Faithful(lib) && Below(u, n) && Valid(lib, n)
    ensures Valid(lib, u)
  {
    hide Valid, Faithful, GoodFrame, GoodInput, Extends, Size;
    ValidIsGood(lib, n);
    forall i | 0 <= i < |u.psbt.inputs| ensures GoodInput(lib, u.psbt.inputs[i]) {
      assert n.psbt.inputs[i] in n.psbt.inputs;
      GoodBelow(lib, u.psbt.inputs[i], n.psbt.inputs[i]);
    }
    FrameKept(lib, n.psbt, u.psbt);
    SizeGrows(lib, u, n);
    GoodIsValid(lib, u);
  }

  lemma VerifiedAllBelow(verifies: Verifier, u: UnifiedPsbt, n: UnifiedPsbt)
    requires Below(u, n) && Verified(verifies, n)
    ensures Verified(verifies, u)
  {
    hide InputVerified, Extends;
    forall i | 0 <= i < |u.psbt.inputs| ensures InputVerified(verifies, i, u.psbt.inputs[i]) {
      VerifiedBelow(verifies, i, u.psbt.inputs[i], n.psbt.inputs[i]);
    }
  }

  /** Two turns, as inputs: they commute, through states that only grow. */
  lemma TwoTurnsAll(u: UnifiedPsbt, rs: Records, ss: Records)
    requires |rs| == |ss| == |u.psbt.inputs|
    requires AllJoin(u.psbt.inputs, rs) && AllJoin(After(u, rs).psbt.inputs, ss)
    ensures AllJoin(u.psbt.inputs, ss) && AllJoin(After(u, ss).psbt.inputs, rs)
    ensures After(After(u, ss), rs) == After(After(u, rs), ss)
    ensures Below(u, After(u, ss)) && Below(After(u, ss), After(After(u, ss), rs))
    ensures Below(u, After(After(u, ss), rs))
  {
    hide Joins, Signed, Extends;
    var v, w := After(u, rs), After(u, ss);
    forall i | 0 <= i < |rs|
      ensures Joins(u.psbt.inputs[i], ss[i]) && Joins(w.psbt.inputs[i], rs[i])
      ensures Signed(w.psbt.inputs[i], rs[i]) == Signed(v.psbt.inputs[i], ss[i])
      ensures Extends(u.psbt.inputs[i], w.psbt.inputs[i])
      ensures Extends(w.psbt.inputs[i], Signed(w.psbt.inputs[i], rs[i]))
      ensures Extends(u.psbt.inputs[i], Signed(w.psbt.inputs[i], rs[i]))
    {
      assert Joins(u.psbt.inputs[i], rs[i]) && Joins(v.psbt.inputs[i], ss[i]);
      TwoTurns(u.psbt.inputs[i], rs[i], ss[i]);
      SignedExtends(u.psbt.inputs[i], ss[i]);
      SignedExtends(w.psbt.inputs[i], rs[i]);
      ExtendsTransitive(u.psbt.inputs[i], w.psbt.inputs[i], Signed(w.psbt.inputs[i], rs[i]));
    }
    assert After(w, rs).psbt.inputs == After(v, ss).psbt.inputs;
  }

  lemma ExtendsTransitive(a: Content, b: Content, c: Content)
    requires Extends(a, b) && Extends(b, c)
    ensures Extends(a, c)
  {
  }

  lemma SignSwapIdle(lib: Library, verifies: Verifier, u: UnifiedPsbt, rs: Records, ss: Records)
    requires Faithful(lib) && Sign(lib, verifies, u, rs).Some?
    requires Sign(lib, verifies, Sign(lib, verifies, u, rs).value, ss).Some?
    requires NothingToSign(rs) || NothingToSign(ss)
    ensures Sign(lib, verifies, u, ss).Some?
    ensures Sign(lib, verifies, Sign(lib, verifies, u, ss).value, rs)
         == Sign(lib, verifies, Sign(lib, verifies, u, rs).value, ss)
  {
    hide Valid, Faithful, Merge, Verified, Delta, WithRequests, Proper;
    var v := Sign(lib, verifies, u, rs).value;
    SignFrame(lib, verifies, u, rs);
    SignFrame(lib, verifies, v, ss);
    if NothingToSign(ss) {
      IdleTurn(lib, verifies, u, ss);
      IdleTurn(lib, verifies, v, ss);
    } else {
      IdleTurn(lib, verifies, Sign(lib, verifies, v, ss).value, rs);
    }
  }

  lemma IdleTurn(lib: Library, verifies: Verifier, u: UnifiedPsbt, rs: Records)
    requires Valid(lib, u) && Verified(verifies, u) && UNSIGNED_TX_KEY in u.psbt.global
    requires Proper(rs) && |rs| == |u.psbt.inputs| && NothingToSign(rs)
    ensures Sign(lib, verifies, u, rs) == Some(u)
  {
    hide Valid, Verified, Merge, Delta, WithRequests;
    forall i | 0 <= i < |rs| ensures rs[i] == map[] { assert rs[i] in rs; }
  }

  lemma SignSwapBusy(lib: Library, verifies: Verifier, u: UnifiedPsbt, rs: Records, ss: Records)
    requires Faithful(lib) && Sign(lib, verifies, u, rs).Some?
    requires Sign(lib, verifies, Sign(lib, verifies, u, rs).value, ss).Some?
    requires !NothingToSign(rs) && !NothingToSign(ss)
    ensures Sign(lib, verifies, u, ss).Some?
    ensures Sign(lib, verifies, Sign(lib, verifies, u, ss).value, rs)
         == Sign(lib, verifies, Sign(lib, verifies, u, rs).value, ss)
  {
    hide Valid, Faithful, Sign, Verified, Delta, After, AllJoin, Below, NothingToSign, Proper;
    var v := Sign(lib, verifies, u, rs).value;
    var n := Sign(lib, verifies, v, ss).value;
    SignSound(lib, verifies, u, rs);
    SignSound(lib, verifies, v, ss);
    AfterFrame(u, rs);
    AfterFrame(u, ss);
    TwoTurnsAll(u, rs, ss);
    SameDelta(u, rs, ss);
    SameDelta(u, ss, rs);
    SignComplete(lib, verifies, u, ss, n);
    SelfBelow(n);
    SignComplete(lib, verifies, After(u, ss), rs, n);
  }

  lemma SignSwap(lib: Library, verifies: Verifier, u: UnifiedPsbt, rs: Records, ss: Records)
    requires Faithful(lib) && Sign(lib, verifies, u, rs).Some?
    requires Sign(lib, verifies, Sign(lib, verifies, u, rs).value, ss).Some?
    ensures Sign(lib, verifies, u, ss).Some?
    ensures Sign(lib, verifies, Sign(lib, verifies, u, ss).value, rs)
         == Sign(lib, verifies, Sign(lib, verifies, u, rs).value, ss)
  {
    hide Faithful, Sign, NothingToSign;
    if NothingToSign(rs) || NothingToSign(ss) {
      SignSwapIdle(lib, verifies, u, rs, ss);
    } else {
      SignSwapBusy(lib, verifies, u, rs, ss);
    }
  }

  lemma AfterFrame(u: UnifiedPsbt, rs: Records)
    requires |rs| == |u.psbt.inputs|
    ensures After(u, rs).psbt.global == u.psbt.global && |After(u, rs).psbt.inputs| == |u.psbt.inputs|
  {
  }

  lemma SelfBelow(n: UnifiedPsbt)
    ensures Below(n, n)
  {
  }

  /** A turn leaves the global map and the number of inputs alone and ends valid and verified. */
  lemma SignFrame(lib: Library, verifies: Verifier, u: UnifiedPsbt, rs: Records)
    requires Sign(lib, verifies, u, rs).Some?
    ensures var v := Sign(lib, verifies, u, rs).value;
            && v.psbt.global == u.psbt.global && |v.psbt.inputs| == |u.psbt.inputs|
            && Valid(lib, v) && Verified(verifies, v)
  {
    hide Valid, Verified;
  }

  /** Any order of the same signers reaches the same PSBT, or is refused in every order. */
  lemma SignersOrderIndependent(lib: Library, verifies: Verifier, u: UnifiedPsbt, rs: seq<Records>, ss: seq<Records>)
    requires Faithful(lib) && multiset(rs) == multiset(ss)
    ensures var sign := (v, r) => Sign(lib, verifies, v, r);
            Run(sign, Some(u), rs) == Run(sign, Some(u), ss)
  {
    hide Sign, Faithful;
    var sign := (v, r) => Sign(lib, verifies, v, r);
    forall v, a, b ensures Then(sign, sign(v, a), b) == Then(sign, sign(v, b), a) {
      if Then(sign, sign(v, a), b).Some? {
        SignSwap(lib, verifies, v, a, b);
      } else if Then(sign, sign(v, b), a).Some? {
        SignSwap(lib, verifies, v, b, a);
      }
    }
    RunPermuted(sign, Some(u), rs, ss);
  }

  /** Every record present before a run of signers is still present, unchanged, after it. */
  lemma {:induction false} SignersKeepRecords(lib: Library, verifies: Verifier, u: UnifiedPsbt, rs: seq<Records>)
    requires Faithful(lib) && Run((v, r) => Sign(lib, verifies, v, r), Some(u), rs).Some?
    ensures Below(u, Run((v, r) => Sign(lib, verifies, v, r), Some(u), rs).value)
    decreases |rs|
  {
    hide Sign, Faithful;
    var sign := (v, r) => Sign(lib, verifies, v, r);
    if rs == [] {
      SelfBelow(u);
    } else {
      if sign(u, rs[0]) == None { RunRefused(sign, rs[1..]); }
      var v := sign(u, rs[0]).value;
      SignKeeps(lib, verifies, u, rs[0]);
      SignersKeepRecords(lib, verifies, v, rs[1..]);
      BelowTransitive(u, v, Run(sign, Some(u), rs).value);
    }
  }

  lemma {:induction false} RunRefused<S, A>(step: (S, A) -> Option<S>, xs: seq<A>)
    ensures Run(step, None, xs) == None
    decreases |xs|
  {
    if xs != [] { RunRefused(step, xs[1..]); }
  }

  lemma BelowTransitive(u: UnifiedPsbt, v: UnifiedPsbt, w: UnifiedPsbt)
    requires Below(u, v) && Below(v, w)
    ensures Below(u, w)
  {
  }

  lemma SignKeeps(lib: Library, verifies: Verifier, u: UnifiedPsbt, rs: Records)
    requires Faithful(lib) && Sign(lib, verifies, u, rs).Some?
    ensures Below(u, Sign(lib, verifies, u, rs).value)
  {
    hide Valid, Verified, Faithful, Merge, Delta, WithRequests, Joins, Extends, Signed;
    if NothingToSign(rs) {
      SelfBelow(u);
    } else {
      SignSound(lib, verifies, u, rs);
      forall i | 0 <= i < |rs| ensures Extends(u.psbt.inputs[i], Signed(u.psbt.inputs[i], rs[i])) {
        assert Joins(u.psbt.inputs[i], rs[i]);
        SignedExtends(u.psbt.inputs[i], rs[i]);
      }
    }
  }
}
