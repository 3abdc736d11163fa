/** Multisig witnesses of unified signatures, and the consensus loop that matches them to keys. */
module Multisig {
  import opened Wrappers
  import opened Bytes

  type Key = seq<byte>
  type Element = seq<byte>

  /** A verified unified signature record. */
  datatype Record = Record(input: nat, publicKey: Key, signature: Element)

  datatype AssemblyError = Unsatisfiable(have: nat, need: nat)

  // ----- choosing keys -----

  /** The first `k` keys, in list order, that are signed. */
  function FirstSigned<K>(keys: seq<K>, signed: K -> bool, k: nat): (r: seq<K>)
    ensures |r| <= k
  {
    if keys == [] || k == 0 then []
    else if signed(keys[0]) then [keys[0]] + FirstSigned(keys[1..], signed, k - 1)
    else FirstSigned(keys[1..], signed, k)
  }

  function CountSigned<K>(keys: seq<K>, signed: K -> bool): nat {
    if keys == [] then 0 else (if signed(keys[0]) then 1 else 0) + CountSigned(keys[1..], signed)
  }

  lemma {:induction false} FirstSignedLength<K>(keys: seq<K>, signed: K -> bool, k: nat)
    ensures |FirstSigned(keys, signed, k)| == if CountSigned(keys, signed) < k then CountSigned(keys, signed) else k
  {
    if keys != [] && k > 0 {
      FirstSignedLength(keys[1..], signed, if signed(keys[0]) then k - 1 else k);
    }
  }

  predicate Increasing(places: seq<nat>, bound: nat) {
    && (forall i :: 0 <= i < |places| ==> places[i] < bound)
    && forall i, j :: 0 <= i < j < |places| ==> places[i] < places[j]
  }

  /** `r` is what stands at these increasing places, and it is signed. */
  predicate SignedAt<K(==)>(keys: seq<K>, signed: K -> bool, r: seq<K>, places: seq<nat>) {
    && |places| == |r| && Increasing(places, |keys|)
    && forall i :: 0 <= i < |r| ==> r[i] == keys[places[i]] && signed(r[i])
  }

  /** The same places after one more key in front. */
  lemma ShiftPlaces<K>(keys: seq<K>, signed: K -> bool, r: seq<K>, places: seq<nat>) returns (after: seq<nat>)
    requires keys != [] && SignedAt(keys[1..], signed, r, places)
    ensures SignedAt(keys, signed, r, after) && forall i :: 0 <= i < |after| ==> after[i] > 0
  {
    after := seq(|places|, i requires 0 <= i < |places| => places[i] + 1);
    forall i | 0 <= i < |r| ensures r[i] == keys[after[i]] {
      assert keys[1..][places[i]] == keys[places[i] + 1];
    }
  }

  /** And with that key taken too. */
  lemma TakePlace<K>(keys: seq<K>, signed: K -> bool, r: seq<K>, after: seq<nat>)
    requires keys != [] && signed(keys[0]) && SignedAt(keys, signed, r, after)
    requires forall i :: 0 <= i < |after| ==> after[i] > 0
    ensures SignedAt(keys, signed, [keys[0]] + r, [0] + after)
  {
  }

  /** The chosen keys are signed, and they come from increasing places in the list. */
  lemma {:induction false} FirstSignedPlaces<K>(keys: seq<K>, signed: K -> bool, k: nat) returns (places: seq<nat>)
    ensures SignedAt(keys, signed, FirstSigned(keys, signed, k), places)
  {
    hide SignedAt;
    if keys == [] || k == 0 {
      places := [];
      assert SignedAt(keys, signed, [], []) by { NoPlaces(keys, signed); }
    } else {
      var rest := FirstSignedPlaces(keys[1..], signed, if signed(keys[0]) then k - 1 else k);
      var r := FirstSigned(keys[1..], signed, if signed(keys[0]) then k - 1 else k);
      places := ShiftPlaces(keys, signed, r, rest);
      if signed(keys[0]) {
        TakePlace(keys, signed, r, places);
        places := [0] + places;
      }
    }
  }

  lemma NoPlaces<K>(keys: seq<K>, signed: K -> bool)
    ensures SignedAt(keys, signed, [], [])
  {
  }

  // ----- assembly -----

  function RecordFor(records: seq<Record>, input: nat, key: Key): (r: Option<Record>)
    ensures r.Some? ==> r.value in records && r.value.input == input && r.value.publicKey == key
    ensures r.None? ==> forall x :: x in records ==> x.input != input || x.publicKey != key
  {
    if records == [] then None
    else if records[0].input == input && records[0].publicKey == key then Some(records[0])
    else
      assert records == [records[0]] + records[1..];
      RecordFor(records[1..], input, key)
  }

  function Signed(records: seq<Record>, input: nat): Key -> bool {
    key => RecordFor(records, input, key).Some?
  }

  function SignaturesOf(records: seq<Record>, input: nat, keys: seq<Key>): (r: seq<Element>)
    requires forall i :: 0 <= i < |keys| ==> RecordFor(records, input, keys[i]).Some?
    ensures |r| == |keys|
    ensures forall i :: 0 <= i < |keys| ==> r[i] == RecordFor(records, input, keys[i]).value.signature
  {
    seq(|keys|, i requires 0 <= i < |keys| => RecordFor(records, input, keys[i]).value.signature)
  }

  /** What assembly has to return. */
  ghost predicate Assembled(records: seq<Record>, input: nat, threshold: nat, keys: seq<Key>, script: Element,
                            r: Result<seq<Element>, AssemblyError>) {
    var have := CountSigned(keys, Signed(records, input));
    && (r.Err? <==> have < threshold)
    && (r.Err? ==> r.error == Unsatisfiable(have, threshold))
    && (r.Ok? ==>
          var chosen := FirstSigned(keys, Signed(records, input), threshold);
          && (forall i :: 0 <= i < |chosen| ==> RecordFor(records, input, chosen[i]).Some?)
          && r.value == [[]] + SignaturesOf(records, input, chosen) + [script])
  }

  /** One signature per chosen key, after the dummy element; refused exactly when fewer than
      `threshold` script keys are signed. */
  method Assemble(records: seq<Record>, input: nat, threshold: nat, keys: seq<Key>, script: Element)
    returns (r: Result<seq<Element>, AssemblyError>)
    ensures Assembled(records, input, threshold, keys, script, r)
  {
    var signed := Signed(records, input);
    var elements: seq<Element> := [[]];
    ghost var chosen: seq<Key> := [];
    ghost var all := FirstSigned(keys, signed, threshold);
    FirstSignedLength(keys, signed, threshold);
    var i := 0;
    while i < |keys| && |elements| <= threshold
      invariant 0 <= i <= |keys| && |elements| == |chosen| + 1 <= threshold + 1
      invariant all == chosen + FirstSigned(keys[i..], signed, threshold - |chosen|)
      invariant forall j :: 0 <= j < |chosen| ==> RecordFor(records, input, chosen[j]).Some?
      invariant elements == [[]] + SignaturesOf(records, input, chosen)
    {
      assert keys[i..][1..] == keys[i + 1..];
      var record := RecordFor(records, input, keys[i]);
      if record.Some? {
        elements := elements + [record.value.signature];
        chosen := chosen + [keys[i]];
      }
      i := i + 1;
    }
    assert all == chosen;
    var have := |elements| - 1;
    if have < threshold { return Err(Unsatisfiable(have, threshold)); }
    return Ok(elements + [script]);
  }

  // ----- CHECKMULTISIG -----

  type Verify = (Key, Element) -> bool

  /** The signatures belong, in order, to keys at increasing places. */
  ghost predicate Embeds(verify: Verify, signatures: seq<Element>, keys: seq<Key>) {
    exists places: seq<nat> :: PlacedAt(verify, signatures, keys, places)
  }

  ghost predicate PlacedAt(verify: Verify, signatures: seq<Element>, keys: seq<Key>, places: seq<nat>) {
    && |places| == |signatures| && Increasing(places, |keys|)
    && forall i :: 0 <= i < |places| ==> verify(keys[places[i]], signatures[i])
  }

  /** The last signature and the last key are compared; the key is dropped, and the signature too when
      they match. */
  predicate Matching(verify: Verify, signatures: seq<Element>, keys: seq<Key>)
    decreases |keys|
  {
    if signatures == [] then true
    else if |signatures| > |keys| then false
    else
      var n, m := |keys| - 1, |signatures| - 1;
      if verify(keys[n], signatures[m]) then Matching(verify, signatures[..m], keys[..n])
      else Matching(verify, signatures, keys[..n])
  }

  /** The greedy loop accepts exactly when some assignment exists. */
  lemma {:induction false} MatchingIff(verify: Verify, signatures: seq<Element>, keys: seq<Key>)
    ensures Matching(verify, signatures, keys) <==> Embeds(verify, signatures, keys)
    decreases |keys|
  {
    hide Embeds;
    if signatures == [] || |signatures| > |keys| {
      NoChoice(verify, signatures, keys);
    } else {
      var n, m := |keys| - 1, |signatures| - 1;
      LastKey(verify, signatures, keys);
      if verify(keys[n], signatures[m]) {
        MatchingIff(verify, signatures[..m], keys[..n]);
      } else {
        MatchingIff(verify, signatures, keys[..n]);
      }
    }
  }

  lemma NoChoice(verify: Verify, signatures: seq<Element>, keys: seq<Key>)
    requires signatures == [] || |signatures| > |keys|
    ensures Embeds(verify, signatures, keys) <==> signatures == []
  {
    if signatures == [] {
      assert PlacedAt(verify, signatures, keys, []);
    } else {
      forall places: seq<nat> ensures !PlacedAt(verify, signatures, keys, places) {
        if |places| > |keys| && Increasing(places, |keys|) { TooMany(places, |keys|); }
      }
    }
  }

  /** If the last key fits the last signature, nothing is lost by matching them; if not, nothing by
      dropping the key. */
  lemma LastKey(verify: Verify, signatures: seq<Element>, keys: seq<Key>)
    requires signatures != [] && keys != []
    ensures var n, m := |keys| - 1, |signatures| - 1;
            Embeds(verify, signatures, keys) <==>
              if verify(keys[n], signatures[m]) then Embeds(verify, signatures[..m], keys[..n])
              else Embeds(verify, signatures, keys[..n])
  {
    var n, m := |keys| - 1, |signatures| - 1;
    if verify(keys[n], signatures[m]) {
      if Embeds(verify, signatures[..m], keys[..n]) {
        var places :| PlacedAt(verify, signatures[..m], keys[..n], places);
        assert PlacedAt(verify, signatures, keys, places + [n]);
      }
      if Embeds(verify, signatures, keys) {
        var places :| PlacedAt(verify, signatures, keys, places);
        assert PlacedAt(verify, signatures[..m], keys[..n], places[..m]);
      }
    } else {
      if Embeds(verify, signatures, keys[..n]) {
        var places :| PlacedAt(verify, signatures, keys[..n], places);
        assert PlacedAt(verify, signatures, keys, places);
      }
      if Embeds(verify, signatures, keys) {
        var places :| PlacedAt(verify, signatures, keys, places);
        assert PlacedAt(verify, signatures, keys[..n], places);
      }
    }
  }

  lemma {:induction false} TooMany(places: seq<nat>, bound: nat)
    requires Increasing(places, bound)
    ensures |places| <= bound
  {
    if places != [] {
      var n := |places| - 1;
      TooMany(places[..n], places[n]);
    }
  }

  /** The loop as the interpreter runs it, with one pointer into each list. */
  method CheckMultisig(verify: Verify, signatures: seq<Element>, keys: seq<Key>) returns (accepted: bool)
    ensures accepted <==> Embeds(verify, signatures, keys)
  {
    hide Embeds;
    MatchingIff(verify, signatures, keys);
    var sigsLeft, keysLeft := |signatures|, |keys|;
    accepted := sigsLeft <= keysLeft;
    assert signatures[..sigsLeft] == signatures && keys[..keysLeft] == keys;
    while accepted && sigsLeft > 0
      invariant 0 <= sigsLeft <= |signatures| && 0 <= keysLeft <= |keys|
      invariant accepted ==> sigsLeft <= keysLeft
      invariant accepted ==> Matching(verify, signatures, keys)
                             == Matching(verify, signatures[..sigsLeft], keys[..keysLeft])
      invariant !accepted ==> !Matching(verify, signatures, keys)
      decreases keysLeft
    {
      assert keys[..keysLeft][..keysLeft - 1] == keys[..keysLeft - 1];
      assert signatures[..sigsLeft][..sigsLeft - 1] == signatures[..sigsLeft - 1];
      if verify(keys[keysLeft - 1], signatures[sigsLeft - 1]) { sigsLeft := sigsLeft - 1; }
      keysLeft := keysLeft - 1;
      if sigsLeft > keysLeft { accepted := false; }
    }
  }

  /** An assembled witness is accepted: for every threshold and key list, whatever else the
      signatures happen to verify under, the loop matches all of them. */
  lemma AssembledAccepted(verify: Verify, records: seq<Record>, input: nat, threshold: nat, keys: seq<Key>,
                          script: Element, r: Result<seq<Element>, AssemblyError>)
    requires Assembled(records, input, threshold, keys, script, r) && r.Ok?
    requires forall x :: x in records && x.input == input ==> verify(x.publicKey, x.signature)
    ensures |r.value| == threshold + 2 && r.value[0] == [] && r.value[threshold + 1] == script
    ensures Embeds(verify, r.value[1..threshold + 1], keys)
  {
    var signed := Signed(records, input);
    FirstSignedLength(keys, signed, threshold);
    var places := FirstSignedPlaces(keys, signed, threshold);
    assert PlacedAt(verify, r.value[1..threshold + 1], keys, places);
  }
}
