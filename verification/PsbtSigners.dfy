/** Who signs what: a signer's records follow from the derivations an input carries, which no signature
    touches, so they are the same in whatever order the signers act. */
module PsbtSigners {
  import opened Wrappers
  import opened Bytes
  import opened PsbtFormat
  import opened PsbtUnified
  import opened PsbtMerge
  import opened PsbtSigning
  import opened Sequences

  const DERIVATION: byte := 0x06
  const MAX_DEPTH: nat := 255

  type Fingerprint = s: seq<byte> | |s| == 4 witness [0, 0, 0, 0]

  /** A key holder: its fingerprint, the derivations its target authorises, the key it derives at a
      path, whether an input's witness script uses a key, and its deterministic signature for an input
      of this unsigned transaction with these previous outputs and scripts. */
  datatype Signer = Signer(
    fingerprint: Fingerprint,
    authorizes: (seq<byte>, seq<byte>) -> bool,
    derive: seq<byte> -> seq<byte>,
    usesKey: (Content, seq<byte>) -> bool,
    sign: (seq<byte>, seq<Content>, nat, seq<byte>) -> seq<byte>)

  function Bases(u: UnifiedPsbt): (r: seq<Content>)
    ensures |r| == |u.psbt.inputs|
    ensures forall i :: 0 <= i < |r| ==> r[i] == Base(u.psbt.inputs[i])
  {
    seq(|u.psbt.inputs|, i requires 0 <= i < |u.psbt.inputs| => Base(u.psbt.inputs[i]))
  }

  /** A derivation of this signer that its target authorises. */
  predicate Mine(s: Signer, base: Content, k: seq<byte>) {
    && k in base && k != [] && k[0] == DERIVATION
    && |base[k]| >= 4 && base[k][..4] == s.fingerprint && s.authorizes(base[k][4..], k[1..])
  }

  /** The path leads to the stated key, and the script uses that key. */
  predicate Sound(s: Signer, base: Content, k: seq<byte>)
    requires Mine(s, base, k)
  {
    && |base[k][4..]| / 4 <= MAX_DEPTH && s.derive(base[k][4..]) == k[1..] && s.usesKey(base, k[1..])
  }

  function RecordAt(s: Signer, tx: seq<byte>, bases: seq<Content>, i: nat, k: seq<byte>): seq<byte>
    requires i < |bases| && Mine(s, bases[i], k)
  {
    s.sign(tx, bases, i, bases[i][k][4..]) + [UNIFIED_ALL]
  }

  lemma KeysApart(base: Content, s: Signer)
    ensures forall j, k :: Mine(s, base, j) && Mine(s, base, k) && ReservedKey(j[1..]) == ReservedKey(k[1..]) ==> j == k
  {
    forall j, k | Mine(s, base, j) && Mine(s, base, k) && ReservedKey(j[1..]) == ReservedKey(k[1..]) ensures j == k {
      assert ReservedKey(j[1..])[|RESERVED|..] == j[1..] && ReservedKey(k[1..])[|RESERVED|..] == k[1..];
      assert j == [DERIVATION] + j[1..] && k == [DERIVATION] + k[1..];
    }
  }

  /** The signer's records for these fields of one input. */
  function RecordsOn(s: Signer, tx: seq<byte>, bases: seq<Content>, i: nat, fields: set<seq<byte>>): Content
    requires i < |bases|
  {
    KeysApart(bases[i], s);
    map k | k in fields && Mine(s, bases[i], k) :: ReservedKey(k[1..]) := RecordAt(s, tx, bases, i, k)
  }

  /** The signer's records for one input, or a refusal if one of its derivations is unsound. */
  function RecordsFor(s: Signer, tx: seq<byte>, bases: seq<Content>, i: nat): Option<Content>
    requires i < |bases|
  {
    if exists k :: k in bases[i] && Mine(s, bases[i], k) && !Sound(s, bases[i], k) then None
    else Some(RecordsOn(s, tx, bases, i, bases[i].Keys))
  }

  /** The signer's records for every input from `i` on. */
  function RecordsFrom(s: Signer, tx: seq<byte>, bases: seq<Content>, i: nat): (r: Option<Records>)
    requires i <= |bases|
    ensures r.Some? ==> |r.value| == |bases| - i
    ensures r.Some? ==> forall j :: i <= j < |bases| ==> RecordsFor(s, tx, bases, j) == Some(r.value[j - i])
    decreases |bases| - i
  {
    if i == |bases| then Some([])
    else
      match (RecordsFor(s, tx, bases, i), RecordsFrom(s, tx, bases, i + 1))
      case (Some(one), Some(rest)) => Some([one] + rest)
      case (_, _) => None
  }

  /** One signer's turn on its own keys. */
  function SignAs(lib: Library, verifies: Verifier, u: UnifiedPsbt, s: Signer): Option<UnifiedPsbt> {
    if UNSIGNED_TX_KEY !in u.psbt.global then None
    else
      match RecordsFrom(s, u.psbt.global[UNSIGNED_TX_KEY], Bases(u), 0)
      case None => None
      case Some(records) => Sign(lib, verifies, u, records)
  }

  // ----- a turn leaves what signers read alone -----

  lemma TurnKeepsBases(lib: Library, verifies: Verifier, u: UnifiedPsbt, rs: Records)
    requires Faithful(lib) && Sign(lib, verifies, u, rs).Some?
    ensures var v := Sign(lib, verifies, u, rs).value;
            Bases(v) == Bases(u) && v.psbt.global == u.psbt.global && UNSIGNED_TX_KEY in u.psbt.global
  {
    hide Valid, Verified, Faithful, Merge, Delta, WithRequests, Signed, Base, Joins, CanRequest, Proper;
    var v := Sign(lib, verifies, u, rs).value;
    if !NothingToSign(rs) {
      SignSound(lib, verifies, u, rs);
      forall i | 0 <= i < |rs| ensures Base(Signed(u.psbt.inputs[i], rs[i])) == Base(u.psbt.inputs[i]) {
        ProperAt(rs, i);
        SignedOnce(u.psbt.inputs[i], rs[i]);
      }
      assert Bases(v) == Bases(u);
    }
  }

  lemma ProperAt(rs: Records, i: nat)
    requires Proper(rs) && i < |rs|
    ensures forall k :: k in rs[i] ==> IsReserved(k)
  {
    hide IsReserved;
    assert rs[i] in rs;
  }

  lemma TurnsSwap(lib: Library, verifies: Verifier, u: UnifiedPsbt, a: Signer, b: Signer)
    requires Faithful(lib) && SignAs(lib, verifies, u, a).Some?
    requires SignAs(lib, verifies, SignAs(lib, verifies, u, a).value, b).Some?
    ensures SignAs(lib, verifies, u, b).Some?
    ensures SignAs(lib, verifies, SignAs(lib, verifies, u, b).value, a)
         == SignAs(lib, verifies, SignAs(lib, verifies, u, a).value, b)
  {
    hide Sign, Faithful, RecordsFrom, Bases;
    var tx := u.psbt.global[UNSIGNED_TX_KEY];
    var rs := RecordsFrom(a, tx, Bases(u), 0).value;
    TurnKeepsBases(lib, verifies, u, rs);
    var ss := RecordsFrom(b, tx, Bases(u), 0).value;
    SignSwap(lib, verifies, u, rs, ss);
    TurnKeepsBases(lib, verifies, u, ss);
  }

  /** Any order of the same signers reaches the same PSBT, or is refused in every order. */
  lemma SignersInAnyOrder(lib: Library, verifies: Verifier, u: UnifiedPsbt, xs: seq<Signer>, ys: seq<Signer>)
    requires Faithful(lib) && multiset(xs) == multiset(ys)
    ensures var turn := (v, s) => SignAs(lib, verifies, v, s);
            Run(turn, Some(u), xs) == Run(turn, Some(u), ys)
  {
    hide SignAs, Faithful;
    var turn := (v, s) => SignAs(lib, verifies, v, s);
    forall v, a, b ensures Then(turn, turn(v, a), b) == Then(turn, turn(v, b), a) {
      if Then(turn, turn(v, a), b).Some? {
        TurnsSwap(lib, verifies, v, a, b);
      } else if Then(turn, turn(v, b), a).Some? {
        TurnsSwap(lib, verifies, v, b, a);
      }
    }
    RunPermuted(turn, Some(u), xs, ys);
  }

  // ----- what a turn adds -----

  /** The record a signer makes for a derivation of input `i`. */
  lemma OwnRecord(s: Signer, tx: seq<byte>, bases: seq<Content>, i: nat, k: seq<byte>)
    requires i < |bases| && RecordsFor(s, tx, bases, i).Some? && Mine(s, bases[i], k)
    ensures Sound(s, bases[i], k)
    ensures var r := RecordsFor(s, tx, bases, i).value;
            ReservedKey(k[1..]) in r && r[ReservedKey(k[1..])] == RecordAt(s, tx, bases, i, k)
  {
    hide Sound, RecordAt, ReservedKey;
    KeysApart(bases[i], s);
  }

  lemma OnlyOwnRecords(s: Signer, tx: seq<byte>, bases: seq<Content>, i: nat, key: seq<byte>) returns (k: seq<byte>)
    requires i < |bases| && RecordsFor(s, tx, bases, i).Some? && key in RecordsFor(s, tx, bases, i).value
    ensures Mine(s, bases[i], k) && key == ReservedKey(k[1..])
  {
    hide Sound, RecordAt, ReservedKey;
    k :| k in bases[i] && Mine(s, bases[i], k) && key == ReservedKey(k[1..]);
  }

  /** The input lists this key under the signer's fingerprint at a path its target authorises. */
  predicate Lists(s: Signer, m: Content, key: seq<byte>) {
    && key in m && |key| >= 1 && key[0] == 0x06 && |m[key]| >= 4
    && m[key][0] == s.fingerprint[0] && m[key][1] == s.fingerprint[1]
    && m[key][2] == s.fingerprint[2] && m[key][3] == s.fingerprint[3]
    && s.authorizes(m[key][4..], key[1..])
  }

  /** Such derivations are among the fields a signer reads, and they are its own. */
  lemma MineIff(s: Signer, m: Content, k: seq<byte>)
    ensures Mine(s, Base(m), k) <==> Lists(s, m, k)
    ensures Mine(s, Base(m), k) ==> k != [] && Base(m)[k] == m[k]
  {
    if Lists(s, m, k) {
      assert m[k][..4] == [m[k][0], m[k][1], m[k][2], m[k][3]];
      assert s.fingerprint == [s.fingerprint[0], s.fingerprint[1], s.fingerprint[2], s.fingerprint[3]];
    }
    if Mine(s, Base(m), k) {
      assert forall j :: 0 <= j < 4 ==> m[k][j] == m[k][..4][j];
    }
  }

  /** A successful turn signs exactly the keys the input lists for the signer: each path has at most 255
      steps and leads to that key, the script uses it, and its signature is added, verified, with the
      byte 0x21; an input that gets one asks for 0x21; and nothing else is added or changed. */
  lemma SignsItsKeys(lib: Library, verifies: Verifier, u: UnifiedPsbt, s: Signer, i: nat, key: seq<byte>)
    requires Faithful(lib) && SignAs(lib, verifies, u, s).Some? && i < |u.psbt.inputs|
    ensures var tx, v := u.psbt.global[UNSIGNED_TX_KEY], SignAs(lib, verifies, u, s).value;
            var before := u.psbt.inputs[i];
            && |v.psbt.inputs| == |u.psbt.inputs| && v == u.(psbt := u.psbt.(inputs := v.psbt.inputs))
            && (Lists(s, before, key) ==>
                  var path, pk := before[key][4..], key[1..];
                  var record := s.sign(tx, Bases(u), i, path) + [0x21];
                  && |path| / 4 <= 255 && s.derive(path) == pk && s.usesKey(Bases(u)[i], pk)
                  && ReservedKey(pk) in v.psbt.inputs[i] && v.psbt.inputs[i][ReservedKey(pk)] == record
                  && verifies(i, pk, record)
                  && [0x03] in v.psbt.inputs[i] && v.psbt.inputs[i][[0x03]] == [0x21, 0, 0, 0])
            && (key in before ==> key in v.psbt.inputs[i] && v.psbt.inputs[i][key] == before[key])
            && (key in v.psbt.inputs[i] && key !in before ==>
                  exists k :: Lists(s, before, k) && (key == [0x03] || key == ReservedKey(k[1..])))
  {
    hide Valid, Faithful, Verified, Sign, RecordsFor, ReservedKey, Base, Mine, Lists;
    var tx := u.psbt.global[UNSIGNED_TX_KEY];
    var rs := RecordsFrom(s, tx, Bases(u), 0).value;
    var v := SignAs(lib, verifies, u, s).value;
    assert RecordsFor(s, tx, Bases(u), i) == Some(rs[i]);
    SignKeeps(lib, verifies, u, rs);
    TurnInput(lib, verifies, u, rs, i);
    RequestBytes();
    if key in v.psbt.inputs[i] && key !in u.psbt.inputs[i] {
      var one :| one in rs[i] && (key == SIGHASH_TYPE_KEY || key == one);
      var k := OnlyOwnRecords(s, tx, Bases(u), i, one);
      MineIff(s, u.psbt.inputs[i], k);
    }
    MineIff(s, u.psbt.inputs[i], key);
    if Mine(s, Bases(u)[i], key) {
      OwnRecord(s, tx, Bases(u), i, key);
      VerifiedAt(verifies, v, i, key[1..]);
    }
  }

  lemma RequestBytes()
    ensures UNIFIED_REQUEST == [0x21, 0, 0, 0]
  {
    assert LE(0, 2) == [0, 0];
    assert LE(0, 3) == [0, 0, 0];
  }

  /** One input after a turn: the old records, the signer's, and the request. */
  lemma TurnInput(lib: Library, verifies: Verifier, u: UnifiedPsbt, rs: Records, i: nat)
    requires Faithful(lib) && Sign(lib, verifies, u, rs).Some? && i < |u.psbt.inputs|
    ensures |rs| == |u.psbt.inputs|
    ensures var v := Sign(lib, verifies, u, rs).value;
            && |v.psbt.inputs| == |u.psbt.inputs| && v == u.(psbt := u.psbt.(inputs := v.psbt.inputs))
            && Verified(verifies, v)
            && (forall k :: k in rs[i] ==> k in v.psbt.inputs[i] && v.psbt.inputs[i][k] == rs[i][k])
            && (rs[i] != map[] ==>
                  SIGHASH_TYPE_KEY in v.psbt.inputs[i] && v.psbt.inputs[i][SIGHASH_TYPE_KEY] == UNIFIED_REQUEST)
            && (forall k :: k in v.psbt.inputs[i] && k !in u.psbt.inputs[i] ==>
                  k in rs[i] || (k == SIGHASH_TYPE_KEY && exists one :: one in rs[i]))
  {
    hide Valid, Verified, Faithful, Merge, Delta, Joins, CanRequest, Proper, WithRequests;
    SignFrame(lib, verifies, u, rs);
    if NothingToSign(rs) {
      assert rs[i] in rs;
    } else {
      SignSound(lib, verifies, u, rs);
      assert Joins(u.psbt.inputs[i], rs[i]);
      SignedExtends(u.psbt.inputs[i], rs[i]);
    }
  }

  lemma VerifiedAt(verifies: Verifier, v: UnifiedPsbt, i: nat, pk: seq<byte>)
    requires Verified(verifies, v) && i < |v.psbt.inputs| && ReservedKey(pk) in v.psbt.inputs[i]
    ensures verifies(i, pk, v.psbt.inputs[i][ReservedKey(pk)])
  {
    assert InputVerified(verifies, i, v.psbt.inputs[i]);
    assert IsReserved(ReservedKey(pk)) && ReservedKey(pk)[|RESERVED|..] == pk;
  }

  // ----- the loop -----

  lemma OneMoreField(s: Signer, tx: seq<byte>, bases: seq<Content>, i: nat, fields: set<seq<byte>>, k: seq<byte>)
    requires i < |bases|
    ensures RecordsOn(s, tx, bases, i, fields + {k}) ==
              if Mine(s, bases[i], k) then RecordsOn(s, tx, bases, i, fields)[ReservedKey(k[1..]) := RecordAt(s, tx, bases, i, k)]
              else RecordsOn(s, tx, bases, i, fields)
  {
    hide RecordAt, ReservedKey;
    KeysApart(bases[i], s);
  }

  /** The records of one input, derivation by derivation. */
  method InputRecords(s: Signer, tx: seq<byte>, bases: seq<Content>, i: nat) returns (r: Option<Content>)
    requires i < |bases|
    ensures r == RecordsFor(s, tx, bases, i)
  {
    hide RecordsOn, RecordAt, Sound;
    var out: Content := map[];
    var todo, fields := bases[i].Keys, bases[i].Keys;
    assert RecordsOn(s, tx, bases, i, {}) == map[] by { NoFields(s, tx, bases, i); }
    assert fields - todo == {};
    while todo != {}
      invariant todo <= fields == bases[i].Keys
      invariant out == RecordsOn(s, tx, bases, i, fields - todo)
      invariant forall k :: k in fields - todo && Mine(s, bases[i], k) ==> Sound(s, bases[i], k)
      decreases todo
    {
      var k :| k in todo;
      OneMoreField(s, tx, bases, i, fields - todo, k);
      assert fields - (todo - {k}) == fields - todo + {k};
      if Mine(s, bases[i], k) {
        if !Sound(s, bases[i], k) { return None; }
        out := out[ReservedKey(k[1..]) := RecordAt(s, tx, bases, i, k)];
      }
      todo := todo - {k};
    }
    assert fields - todo == fields;
    return Some(out);
  }

  lemma NoFields(s: Signer, tx: seq<byte>, bases: seq<Content>, i: nat)
    requires i < |bases|
    ensures RecordsOn(s, tx, bases, i, {}) == map[]
  {
  }
}
