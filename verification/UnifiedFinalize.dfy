/** Finalisation that never lets a legacy signature crowd out a usable unified one. The script's
    satisfier is a parameter: every result here holds for any satisfier. */
module UnifiedFinalize {
  import opened Wrappers
  import opened Bytes
  import opened Transactions

  const MAX_LEGACY_KEYS_FOR_SEARCH: nat := 12
  const SIGHASH_ALL: byte := 0x01

  /** A public key, named by its place in key order. */
  type Key = nat
  type Element = seq<byte>

  /** A verified signature and the bytes it must appear as in the witness. */
  datatype Signature = Signature(der: seq<byte>, witnessBytes: Element, unified: bool)

  type Offers = map<Key, Signature>

  datatype Report = Report(unifiedUsed: nat, legacyUsed: nat)

  datatype Done = Done(stack: seq<Element>, report: Report)

  datatype FinalizeError =
    | Unsatisfiable
    | UnexpectedWitnessElement
    | RefusedToDropUnified(legacyCandidates: nat)
    | UnsafeLegacyAlternative(legacySignatures: nat)

  /** One input: its script, what satisfies it under this transaction's locks, and the DER decoder. */
  datatype Input = Input(script: Element, satisfy: Offers -> Option<seq<Element>>, isDer: seq<byte> -> bool)

  // ----- one satisfaction -----

  function Placeholder(s: Signature): Element {
    s.der + [SIGHASH_ALL]
  }

  predicate Least(k: Key, keys: set<Key>) {
    k in keys && forall x :: x in keys ==> k <= x
  }

  lemma {:induction false} LeastExists(keys: set<Key>)
    requires keys != {}
    ensures exists k :: Least(k, keys)
  {
    var x :| x in keys;
    var rest := keys - {x};
    assert forall z :: z in keys ==> z == x || z in rest;
    if rest == {} {
      assert Least(x, keys);
    } else {
      LeastExists(rest);
      var y :| Least(y, rest);
      assert Least(if x < y then x else y, keys);
    }
  }

  /** The keys in ascending order. */
  function Ascending(keys: set<Key>): seq<Key> {
    if keys == {} then []
    else
      LeastExists(keys);
      var k :| Least(k, keys);
      [k] + Ascending(keys - {k})
  }

  predicate Increasing(keys: seq<Key>) {
    forall i, j :: 0 <= i < j < |keys| ==> keys[i] < keys[j]
  }

  lemma {:induction false} AscendingFacts(keys: set<Key>)
    ensures |Ascending(keys)| == |keys| && Increasing(Ascending(keys))
    ensures forall k :: k in Ascending(keys) <==> k in keys
  {
    if keys != {} {
      LeastExists(keys);
      var r := Ascending(keys);
      assert Least(r[0], keys) && r == [r[0]] + Ascending(keys - {r[0]});
      var rest := Ascending(keys - {r[0]});
      AscendingFacts(keys - {r[0]});
      forall j | 0 < j < |r| ensures r[0] < r[j] {
        assert r[j] == rest[j - 1] && rest[j - 1] in rest;
      }
    }
  }

  /** Placeholder to signature, collected in key order: a later key replaces an earlier one. */
  function Table(offers: Offers, keys: seq<Key>): (r: map<Element, Signature>)
    requires forall k :: k in keys ==> k in offers
    ensures forall e :: e in r ==> exists k :: k in keys && Placeholder(offers[k]) == e && offers[k] == r[e]
    ensures forall k :: k in keys ==> Placeholder(offers[k]) in r
  {
    if keys == [] then map[]
    else
      var n := |keys| - 1;
      assert keys == keys[..n] + [keys[n]];
      Table(offers, keys[..n])[Placeholder(offers[keys[n]]) := offers[keys[n]]]
  }

  predicate LooksLikeSignature(input: Input, e: Element) {
    |e| > 9 && e[0] == 0x30 && input.isDer(e[..|e| - 1])
  }

  /** Each placeholder gives way to the bytes its key's signature must carry. */
  function Substitute(input: Input, table: map<Element, Signature>, stack: seq<Element>, acc: Done)
    : Result<Done, FinalizeError>
    decreases |stack|
  {
    if stack == [] then Ok(acc)
    else if stack[0] in table then
      var s := table[stack[0]];
      var report := if s.unified then acc.report.(unifiedUsed := acc.report.unifiedUsed + 1)
                    else acc.report.(legacyUsed := acc.report.legacyUsed + 1);
      Substitute(input, table, stack[1..], Done(acc.stack + [s.witnessBytes], report))
    else if LooksLikeSignature(input, stack[0]) then Err(UnexpectedWitnessElement)
    else Substitute(input, table, stack[1..], acc.(stack := acc.stack + [stack[0]]))
  }

  function SatisfyInput(input: Input, offers: Offers): Result<Done, FinalizeError> {
    match input.satisfy(offers)
    case None => Err(Unsatisfiable)
    case Some(stack) =>
      AscendingFacts(offers.Keys);
      var done :- Substitute(input, Table(offers, Ascending(offers.Keys)), stack, Done([], Report(0, 0)));
      Ok(done.(stack := done.stack + [input.script]))
  }

  // ----- what substitution does -----

  /** The bytes an element of a satisfaction stands as in the witness. */
  function Swapped(table: map<Element, Signature>, e: Element): Element {
    if e in table then table[e].witnessBytes else e
  }

  function SwappedAll(table: map<Element, Signature>, stack: seq<Element>): (r: seq<Element>)
    ensures |r| == |stack|
    ensures forall i :: 0 <= i < |stack| ==> r[i] == Swapped(table, stack[i])
  {
    seq(|stack|, i requires 0 <= i < |stack| => Swapped(table, stack[i]))
  }

  /** How many elements stand for signatures of this kind. */
  function Tally(table: map<Element, Signature>, stack: seq<Element>, unified: bool): nat {
    if stack == [] then 0
    else (if stack[0] in table && table[stack[0]].unified == unified then 1 else 0) + Tally(table, stack[1..], unified)
  }

  lemma {:induction false} TallyPositive(table: map<Element, Signature>, stack: seq<Element>, unified: bool)
    ensures Tally(table, stack, unified) > 0 <==> exists e :: e in stack && e in table && table[e].unified == unified
  {
    if stack != [] {
      assert stack == [stack[0]] + stack[1..];
      TallyPositive(table, stack[1..], unified);
    }
  }

  /** Every element is a known placeholder or does not look like a signature. */
  ghost predicate Expected(input: Input, table: map<Element, Signature>, stack: seq<Element>) {
    forall i :: 0 <= i < |stack| ==> stack[i] in table || !SignatureShaped(input, stack[i])
  }

  /** Ten bytes or more: the tag of a DER sequence, a DER signature, and any one byte after it. */
  ghost predicate SignatureShaped(input: Input, e: Element) {
    && |e| >= 10 && e[0] == 0x30
    && exists der: seq<byte>, last: byte :: e == der + [last] && input.isDer(der)
  }

  lemma ShapedIff(input: Input, e: Element)
    ensures SignatureShaped(input, e) <==> LooksLikeSignature(input, e)
  {
    if LooksLikeSignature(input, e) {
      var n := |e| - 1;
      assert e == e[..n] + [e[n]];
    }
    if SignatureShaped(input, e) {
      var der: seq<byte>, last: byte :| e == der + [last] && input.isDer(der);
      assert e[..|e| - 1] == der;
    }
  }

  lemma ExpectedCons(input: Input, table: map<Element, Signature>, stack: seq<Element>)
    requires stack != []
    ensures Expected(input, table, stack) <==>
              (stack[0] in table || !LooksLikeSignature(input, stack[0])) && Expected(input, table, stack[1..])
  {
    hide LooksLikeSignature, SignatureShaped;
    ShapedIff(input, stack[0]);
    assert stack == [stack[0]] + stack[1..];
    if Expected(input, table, stack) {
      forall i | 0 <= i < |stack[1..]| ensures stack[1..][i] in table || !SignatureShaped(input, stack[1..][i]) {
        assert stack[1..][i] == stack[i + 1];
      }
    }
  }

  lemma SwappedCons(table: map<Element, Signature>, done: seq<Element>, stack: seq<Element>)
    requires stack != []
    ensures done + SwappedAll(table, stack) == done + [Swapped(table, stack[0])] + SwappedAll(table, stack[1..])
  {
    hide Swapped;
  }

  /** Substitution swaps the placeholders, counts their kinds, and refuses exactly a stray signature. */
  lemma {:induction false} SubstituteIs(input: Input, table: map<Element, Signature>, stack: seq<Element>, acc: Done)
    ensures var r := Substitute(input, table, stack, acc);
            && (r.Ok? <==> Expected(input, table, stack)) && (r.Err? ==> r.error == UnexpectedWitnessElement)
            && (r.Ok? ==> r.value == Done(acc.stack + SwappedAll(table, stack),
                                          Report(acc.report.unifiedUsed + Tally(table, stack, true),
                                                 acc.report.legacyUsed + Tally(table, stack, false))))
    decreases |stack|
  {
    hide LooksLikeSignature, Expected, SwappedAll;
    if stack == [] {
      assert Expected(input, table, []) by { NothingUnexpected(input, table); }
      assert acc.stack + SwappedAll(table, []) == acc.stack;
    } else {
      ExpectedCons(input, table, stack);
      SwappedCons(table, acc.stack, stack);
      if stack[0] in table {
        var s := table[stack[0]];
        var report := if s.unified then acc.report.(unifiedUsed := acc.report.unifiedUsed + 1)
                      else acc.report.(legacyUsed := acc.report.legacyUsed + 1);
        SubstituteIs(input, table, stack[1..], Done(acc.stack + [s.witnessBytes], report));
      } else {
        SubstituteIs(input, table, stack[1..], acc.(stack := acc.stack + [stack[0]]));
      }
    }
  }

  /** The placeholders of all offers. */
  function FullTable(offers: Offers): map<Element, Signature> {
    AscendingFacts(offers.Keys);
    Table(offers, Ascending(offers.Keys))
  }

  /** The witness shows an offered signature for its placeholder, and any other element as it is. */
  ghost predicate Stands(offers: Offers, e: Element, shown: Element) {
    || (exists k :: k in offers && e == Placeholder(offers[k]) && shown == offers[k].witnessBytes)
    || (shown == e && forall k :: k in offers ==> e != Placeholder(offers[k]))
  }

  lemma SwapStands(offers: Offers, e: Element)
    ensures Stands(offers, e, Swapped(FullTable(offers), e))
  {
    hide Ascending, Table, Placeholder;
    AscendingFacts(offers.Keys);
    var table := FullTable(offers);
    if e in table {
      var k :| k in Ascending(offers.Keys) && Placeholder(offers[k]) == e && offers[k] == table[e];
    }
  }

  lemma WitnessStack(input: Input, offers: Offers)
    requires SatisfyInput(input, offers).Ok?
    ensures input.satisfy(offers).Some?
    ensures SatisfyInput(input, offers).value.stack
         == SwappedAll(FullTable(offers), input.satisfy(offers).value) + [input.script]
  {
    hide Ascending, Table, Substitute, Expected, Tally, SwappedAll;
    SubstituteIs(input, FullTable(offers), input.satisfy(offers).value, Done([], Report(0, 0)));
    var swapped := SwappedAll(FullTable(offers), input.satisfy(offers).value);
    assert [] + swapped == swapped;
  }

  /** A witness holds each element of the satisfaction at its own place, a placeholder as its key's
      signature, and then the script. */
  lemma WitnessInPlace(input: Input, offers: Offers)
    requires SatisfyInput(input, offers).Ok?
    ensures input.satisfy(offers).Some?
    ensures var stack, out := input.satisfy(offers).value, SatisfyInput(input, offers).value.stack;
            && |out| == |stack| + 1 && out[|stack|] == input.script
            && forall i :: 0 <= i < |stack| ==> Stands(offers, stack[i], out[i])
  {
    hide SatisfyInput, FullTable, Swapped, Stands;
    WitnessStack(input, offers);
    var stack := input.satisfy(offers).value;
    forall i | 0 <= i < |stack| ensures Stands(offers, stack[i], Swapped(FullTable(offers), stack[i])) {
      SwapStands(offers, stack[i]);
    }
  }

  lemma NothingUnexpected(input: Input, table: map<Element, Signature>)
    ensures Expected(input, table, [])
  {
  }

  // ----- the search -----

  function Pow2(n: nat): (p: nat)
    ensures p > 0
  {
    if n == 0 then 1 else 2 * Pow2(n - 1)
  }

  predicate Bit(mask: nat, bit: nat) {
    if bit == 0 then mask % 2 == 1 else Bit(mask / 2, bit - 1)
  }

  /** The keys whose bit is set. */
  function Masked(mask: nat, keys: seq<Key>): set<Key> {
    set i | 0 <= i < |keys| && Bit(mask, i) :: keys[i]
  }

  function Restrict(offers: Offers, keys: set<Key>): Offers {
    map k | k in offers && k in keys :: offers[k]
  }

  /** All unified signatures and the legacy signatures of one mask. */
  function OfferedBy(unified: Offers, legacy: Offers, mask: nat): Offers {
    unified + Restrict(legacy, Masked(mask, Ascending(legacy.Keys)))
  }

  /** More unified signatures, or as many in a smaller witness. */
  predicate Beats(a: Done, b: Done) {
    || a.report.unifiedUsed > b.report.unifiedUsed
    || (a.report.unifiedUsed == b.report.unifiedUsed && WitnessSize(a.stack) < WitnessSize(b.stack))
  }

  function Improve(best: Option<Done>, r: Result<Done, FinalizeError>): Option<Done> {
    if r.Ok? && r.value.report.unifiedUsed > 0 && (best.None? || Beats(r.value, best.value)) then Some(r.value)
    else best
  }

  /** The best of the masks below `n`, in order. */
  function Best(input: Input, unified: Offers, legacy: Offers, n: nat): Option<Done> {
    if n == 0 then None
    else Improve(Best(input, unified, legacy, n - 1), SatisfyInput(input, OfferedBy(unified, legacy, n - 1)))
  }

  function Prefer(input: Input, unified: Offers, legacy: Offers): Result<Done, FinalizeError> {
    var all :- SatisfyInput(input, unified + legacy);
    if unified == map[] || all.report.unifiedUsed > 0 then Ok(all)
    else if |legacy| > MAX_LEGACY_KEYS_FOR_SEARCH then Err(RefusedToDropUnified(|legacy|))
    else
      match Best(input, unified, legacy, Pow2(|legacy|))
      case Some(done) => Ok(done)
      case None => Ok(all)
  }

  /** Unified signatures alone, and legacy ones only when that is impossible. */
  function FinalizeInput(input: Input, unified: Offers, legacy: Offers): Result<Done, FinalizeError> {
    var first := SatisfyInput(input, unified);
    if first == Err(Unsatisfiable) then Prefer(input, unified, legacy) else first
  }

  // ----- masks are subsets -----

  /** Every subset has a mask. */
  lemma {:induction false} MaskOf(keys: seq<Key>, subset: set<Key>) returns (mask: nat)
    requires Increasing(keys)
    ensures mask < Pow2(|keys|)
    ensures forall i :: 0 <= i < |keys| ==> (Bit(mask, i) <==> keys[i] in subset)
  {
    mask := 0;
    if keys != [] {
      var rest := MaskOf(keys[1..], subset);
      mask := 2 * rest + (if keys[0] in subset then 1 else 0);
      assert mask / 2 == rest;
      forall i | 0 <= i < |keys| ensures Bit(mask, i) <==> keys[i] in subset {
        if i > 0 { assert Bit(mask, i) == Bit(rest, i - 1) && keys[i] == keys[1..][i - 1]; }
      }
    }
  }

  lemma SubsetOffered(unified: Offers, legacy: Offers, subset: set<Key>) returns (mask: nat)
    ensures mask < Pow2(|legacy|) && OfferedBy(unified, legacy, mask) == unified + Restrict(legacy, subset)
  {
    hide Ascending;
    var keys := Ascending(legacy.Keys);
    AscendingFacts(legacy.Keys);
    mask := MaskOf(keys, subset);
    assert |legacy.Keys| == |legacy|;
    forall k | k in legacy ensures k in Masked(mask, keys) <==> k in subset {
      var i :| 0 <= i < |keys| && keys[i] == k;
    }
    assert Restrict(legacy, Masked(mask, keys)) == Restrict(legacy, subset);
  }

  // ----- the search finds the best -----

  /** A satisfaction of these offers that uses a unified signature. */
  ghost predicate UsesUnified(input: Input, offers: Offers) {
    var r := SatisfyInput(input, offers);
    r.Ok? && r.value.report.unifiedUsed > 0
  }

  /** The search result: some mask's, never beaten, and first among equals; none if no mask has one. */
  lemma {:induction false} BestIsBest(input: Input, unified: Offers, legacy: Offers, n: nat)
    ensures var best := Best(input, unified, legacy, n);
            && (best.None? <==> forall m: nat :: m < n ==> !UsesUnified(input, OfferedBy(unified, legacy, m)))
            && (best.Some? ==>
                  && (forall m: nat :: m < n && UsesUnified(input, OfferedBy(unified, legacy, m)) ==>
                        !Beats(SatisfyInput(input, OfferedBy(unified, legacy, m)).value, best.value))
                  && exists m: nat :: m < n && FirstBest(input, unified, legacy, m, best.value))
  {
    hide SatisfyInput, OfferedBy, WitnessSize;
    if n > 0 {
      BestIsBest(input, unified, legacy, n - 1);
      var before, best := Best(input, unified, legacy, n - 1), Best(input, unified, legacy, n);
      if best == before {
        if best.Some? {
          var m: nat :| m < n - 1 && FirstBest(input, unified, legacy, m, best.value);
          assert m < n;
        }
      } else {
        assert FirstBest(input, unified, legacy, n - 1, best.value);
      }
    }
  }

  /** Mask `m` gives `done`, and `done` beats every earlier mask that uses a unified signature. */
  ghost predicate FirstBest(input: Input, unified: Offers, legacy: Offers, m: nat, done: Done) {
    && SatisfyInput(input, OfferedBy(unified, legacy, m)) == Ok(done) && done.report.unifiedUsed > 0
    && forall k: nat :: k < m && UsesUnified(input, OfferedBy(unified, legacy, k)) ==>
         Beats(done, SatisfyInput(input, OfferedBy(unified, legacy, k)).value)
  }

  // ----- which signatures a witness holds -----

  predicate AllUnified(offers: Offers) {
    forall k :: k in offers ==> offers[k].unified
  }

  predicate NoneUnified(offers: Offers) {
    forall k :: k in offers ==> !offers[k].unified
  }

  /** A witness holds no kind of signature that was not offered. */
  lemma UsedWasOffered(input: Input, offers: Offers)
    requires SatisfyInput(input, offers).Ok?
    ensures AllUnified(offers) ==> SatisfyInput(input, offers).value.report.legacyUsed == 0
    ensures NoneUnified(offers) ==> SatisfyInput(input, offers).value.report.unifiedUsed == 0
  {
    hide Ascending, Substitute, Tally, Expected;
    AscendingFacts(offers.Keys);
    var table, stack := Table(offers, Ascending(offers.Keys)), input.satisfy(offers).value;
    SubstituteIs(input, table, stack, Done([], Report(0, 0)));
    TallyPositive(table, stack, true);
    TallyPositive(table, stack, false);
  }

  // ----- the rule -----

  /** The verified signatures of one input: unified records, and legacy ones of other keys. */
  ghost predicate Verified(unified: Offers, legacy: Offers) {
    AllUnified(unified) && NoneUnified(legacy)
  }

  /** The script cannot be satisfied from unified signatures without using one of them. */
  ghost predicate NeedsSignature(input: Input, unified: Offers) {
    var r := SatisfyInput(input, unified);
    r.Ok? ==> r.value.report.unifiedUsed + r.value.report.legacyUsed > 0
  }

  /** Some legacy subset, offered with every unified signature, has a witness with a unified one. */
  ghost predicate Usable(input: Input, unified: Offers, legacy: Offers) {
    exists subset: set<Key> :: UsesUnified(input, unified + Restrict(legacy, subset))
  }

  lemma UsableByMask(input: Input, unified: Offers, legacy: Offers)
    ensures Usable(input, unified, legacy) <==>
              exists m: nat :: m < Pow2(|legacy|) && UsesUnified(input, OfferedBy(unified, legacy, m))
  {
    hide UsesUnified;
    if Usable(input, unified, legacy) {
      var subset: set<Key> :| UsesUnified(input, unified + Restrict(legacy, subset));
      var m := SubsetOffered(unified, legacy, subset);
    }
    if exists m: nat :: m < Pow2(|legacy|) && UsesUnified(input, OfferedBy(unified, legacy, m)) {
      var m: nat :| m < Pow2(|legacy|) && UsesUnified(input, OfferedBy(unified, legacy, m));
      assert UsesUnified(input, unified + Restrict(legacy, Masked(m, Ascending(legacy.Keys))));
    }
  }

  lemma WholeSubset(unified: Offers, legacy: Offers)
    ensures unified + Restrict(legacy, legacy.Keys) == unified + legacy
    ensures unified + Restrict(legacy, {}) == unified
  {
  }

  lemma NothingUnified(input: Input, legacy: Offers)
    requires NoneUnified(legacy)
    ensures !Usable(input, map[], legacy)
  {
    hide SatisfyInput;
    forall subset: set<Key> ensures !UsesUnified(input, map[] + Restrict(legacy, subset)) {
      var offers: Offers := map[] + Restrict(legacy, subset);
      if SatisfyInput(input, offers).Ok? { UsedWasOffered(input, offers); }
    }
  }

  /** A usable unified signature is never dropped: a finalised witness holds a unified signature
      exactly when some legacy subset, offered with all the unified ones, allows it. */
  lemma NeverDropped(input: Input, unified: Offers, legacy: Offers)
    requires Verified(unified, legacy) && NeedsSignature(input, unified)
    requires FinalizeInput(input, unified, legacy).Ok?
    ensures FinalizeInput(input, unified, legacy).value.report.unifiedUsed > 0 <==> Usable(input, unified, legacy)
  {
    hide SatisfyInput, OfferedBy, Best, Beats;
    WholeSubset(unified, legacy);
    var first, all := SatisfyInput(input, unified), SatisfyInput(input, unified + legacy);
    if first.Ok? {
      UsedWasOffered(input, unified);
      assert UsesUnified(input, unified + Restrict(legacy, {}));
    } else if all.value.report.unifiedUsed > 0 {
      assert UsesUnified(input, unified + Restrict(legacy, legacy.Keys));
    } else if unified == map[] {
      NothingUnified(input, legacy);
    } else {
      BestIsBest(input, unified, legacy, Pow2(|legacy|));
      UsableByMask(input, unified, legacy);
    }
  }

  /** Legacy signatures are in a witness only when the unified ones alone satisfy nothing. */
  lemma LegacyOnlyWhenNeeded(input: Input, unified: Offers, legacy: Offers)
    requires Verified(unified, legacy) && FinalizeInput(input, unified, legacy).Ok?
    ensures FinalizeInput(input, unified, legacy).value.report.legacyUsed > 0 ==>
              SatisfyInput(input, unified) == Err(Unsatisfiable)
  {
    hide SatisfyInput, Prefer;
    if SatisfyInput(input, unified).Ok? { UsedWasOffered(input, unified); }
  }

  /** The search is refused exactly when more than twelve legacy signatures would crowd out every unified
      one. */
  lemma RefusalIff(input: Input, unified: Offers, legacy: Offers, n: nat)
    ensures FinalizeInput(input, unified, legacy) == Err(RefusedToDropUnified(n)) <==>
              && n == |legacy| > 12 && unified != map[] && SatisfyInput(input, unified) == Err(Unsatisfiable)
              && var all := SatisfyInput(input, unified + legacy);
              && all.Ok? && all.value.report.unifiedUsed == 0
  {
    hide SatisfyInput, Best;
    NoSuchError(input, unified);
    NoSuchError(input, unified + legacy);
  }

  /** A completed search keeps the most unified signatures any legacy subset allows, and among those
      the smallest witness. */
  lemma SearchIsMaximal(input: Input, unified: Offers, legacy: Offers, subset: set<Key>)
    requires Prefer(input, unified, legacy).Ok? && unified != map[]
    requires SatisfyInput(input, unified + legacy).value.report.unifiedUsed == 0
    requires SatisfyInput(input, unified + Restrict(legacy, subset)).Ok?
    ensures SatisfyInput(input, unified + Restrict(legacy, subset)).value.report.unifiedUsed
              <= Prefer(input, unified, legacy).value.report.unifiedUsed
    ensures var a, b := SatisfyInput(input, unified + Restrict(legacy, subset)).value, Prefer(input, unified, legacy).value;
            a.report.unifiedUsed == b.report.unifiedUsed > 0 ==> WitnessSize(b.stack) <= WitnessSize(a.stack)
  {
    hide SatisfyInput, OfferedBy, Best, WitnessSize;
    BestIsBest(input, unified, legacy, Pow2(|legacy|));
    var m := SubsetOffered(unified, legacy, subset);
  }

  // ----- retention -----

  /** Refuses an input whose retained legacy signatures satisfy it alone beside a usable unified one. */
  function Retention(input: Input, unified: Offers, legacy: Offers): Result<(), FinalizeError> {
    if unified == map[] || legacy == map[] then Ok(())
    else
      match FinalizeInput(input, unified, legacy)
      case Err(Unsatisfiable) => Ok(())
      case Err(e) => Err(e)
      case Ok(done) =>
        if done.report.unifiedUsed == 0 then Ok(())
        else
          match SatisfyInput(input, legacy)
          case Ok(_) => Err(UnsafeLegacyAlternative(|legacy|))
          case Err(Unsatisfiable) => Ok(())
          case Err(e) => Err(e)
  }

  /** The refusal is exact: a unified witness is usable and the legacy signatures satisfy alone. */
  lemma RetentionExact(input: Input, unified: Offers, legacy: Offers)
    requires Verified(unified, legacy) && NeedsSignature(input, unified) && legacy != map[]
    requires FinalizeInput(input, unified, legacy).Ok?
    ensures Retention(input, unified, legacy) == Err(UnsafeLegacyAlternative(|legacy|)) <==>
              Usable(input, unified, legacy) && SatisfyInput(input, legacy).Ok?
  {
    hide SatisfyInput, FinalizeInput;
    NeverDropped(input, unified, legacy);
    if unified == map[] { NothingUnified(input, legacy); }
    NoSuchError(input, legacy);
  }

  lemma NoSuchError(input: Input, offers: Offers)
    ensures SatisfyInput(input, offers).Ok? || SatisfyInput(input, offers).error in {Unsatisfiable, UnexpectedWitnessElement}
  {
    hide Ascending, Table, Substitute, Expected, Tally;
    AscendingFacts(offers.Keys);
    if input.satisfy(offers).Some? {
      SubstituteIs(input, Table(offers, Ascending(offers.Keys)), input.satisfy(offers).value, Done([], Report(0, 0)));
    }
  }

  // ----- every input -----

  datatype SignedInput = SignedInput(input: Input, unified: Offers, legacy: Offers)

  /** Every input's witness and report, or the first refusal. */
  function FinalizeAll(inputs: seq<SignedInput>): (r: Result<seq<Done>, FinalizeError>)
    ensures r.Ok? ==> |r.value| == |inputs|
    ensures r.Ok? ==> forall i :: 0 <= i < |inputs| ==>
                        FinalizeInput(inputs[i].input, inputs[i].unified, inputs[i].legacy) == Ok(r.value[i])
  {
    if inputs == [] then Ok([])
    else
      var head :- FinalizeInput(inputs[0].input, inputs[0].unified, inputs[0].legacy);
      var rest :- FinalizeAll(inputs[1..]);
      Ok([head] + rest)
  }
}

/** The finaliser's loops. */
module UnifiedFinalizeLoops {
  import opened Wrappers
  import opened Bytes
  import opened Sequences
  import opened UnifiedFinalize

  method SubstituteLoop(input: Input, table: map<Element, Signature>, stack: seq<Element>)
    returns (r: Result<Done, FinalizeError>)
    ensures r == Substitute(input, table, stack, Done([], Report(0, 0)))
  {
    hide LooksLikeSignature;
    var unifiedUsed, legacyUsed := 0, 0;
    var out: seq<Element> := [];
    for i := 0 to |stack|
      invariant unifiedUsed >= 0 && legacyUsed >= 0
      invariant Substitute(input, table, stack, Done([], Report(0, 0)))
                == Substitute(input, table, stack[i..], Done(out, Report(unifiedUsed, legacyUsed)))
    {
      assert stack[i..][1..] == stack[i + 1..];
      if stack[i] in table {
        var s := table[stack[i]];
        if s.unified { unifiedUsed := unifiedUsed + 1; } else { legacyUsed := legacyUsed + 1; }
        out := out + [s.witnessBytes];
      } else if LooksLikeSignature(input, stack[i]) {
        return Err(UnexpectedWitnessElement);
      } else {
        out := out + [stack[i]];
      }
    }
    return Ok(Done(out, Report(unifiedUsed, legacyUsed)));
  }

  lemma {:induction false} BitIs(mask: nat, bit: nat)
    ensures Pow2(bit) > 0 && (Bit(mask, bit) <==> (mask / Pow2(bit)) % 2 == 1)
  {
    if bit > 0 {
      BitIs(mask / 2, bit - 1);
      DivideTwice(mask, Pow2(bit - 1));
    }
  }

  lemma DivideTwice(mask: nat, p: nat)
    requires p > 0
    ensures mask / 2 / p == mask / (2 * p)
  {
    var q := mask / 2 / p;
    assert p * q <= mask / 2 < p * q + p;
    assert 2 * p * q <= mask < 2 * p * q + 2 * p;
    Quotient(mask, 2 * p, q);
  }

  /** One mask's offers, key by key. */
  method OfferMask(unified: Offers, legacy: Offers, mask: nat) returns (subset: Offers)
    ensures subset == OfferedBy(unified, legacy, mask)
  {
    var keys := Ascending(legacy.Keys);
    AscendingFacts(legacy.Keys);
    hide Ascending;
    hide Masked, Restrict, Pow2;
    subset := unified;
    NoBits(unified, legacy, mask);
    var power := 1;
    assert keys[..0] == [] && keys[..|keys|] == keys && power == Pow2(0) by { Doubled(0); }
    for bit := 0 to |keys|
      invariant power == Pow2(bit)
      invariant subset == unified + Restrict(legacy, Masked(mask, keys[..bit]))
    {
      BitIs(mask, bit);
      OneMoreBit(mask, keys, bit);
      assert keys[bit] in keys;
      if mask / power % 2 == 1 {
        OneMoreOffer(unified, legacy, Masked(mask, keys[..bit]), keys[bit]);
        subset := subset[keys[bit] := legacy[keys[bit]]];
      } else {
        assert Masked(mask, keys[..bit]) + {} == Masked(mask, keys[..bit]);
      }
      power := 2 * power;
      assert power == Pow2(bit + 1) by { Doubled(bit); }
    }
  }

  /** The keys before this one in key order. */
  function Before(keys: set<Key>, k: Key): set<Key> {
    set j | j in keys && j < k
  }

  /** A key's place in key order is the number of keys before it. */
  lemma RankIs(keys: set<Key>, i: nat)
    requires i < |Ascending(keys)|
    ensures |Before(keys, Ascending(keys)[i])| == i
  {
    hide Ascending;
    AscendingFacts(keys);
    var all, first := Ascending(keys), Ascending(keys)[..i];
    forall j | j in Before(keys, all[i]) ensures j in first {
      var k :| 0 <= k < |all| && all[k] == j;
      assert k < i && first[k] == j;
    }
    forall j | j in first ensures j in Before(keys, all[i]) {
      var k :| 0 <= k < |first| && first[k] == j;
      assert all[k] == j && all[k] in all;
    }
    DistinctCount(first);
    assert Before(keys, all[i]) == Elements(first);
  }

  /** A mask offers every unified signature, and the legacy one of each key whose bit is set: the bit
      numbered by how many legacy keys come before it. */
  lemma MaskOffers(unified: Offers, legacy: Offers, mask: nat, k: Key)
    ensures var offers := OfferedBy(unified, legacy, mask);
            var masked := k in legacy && mask / Pow2(|Before(legacy.Keys, k)|) % 2 == 1;
            && (k in offers <==> k in unified || masked)
            && (k in offers ==> offers[k] == if masked then legacy[k] else unified[k])
  {
    hide Ascending, Masked, Bit, Pow2, Before;
    var keys := Ascending(legacy.Keys);
    AscendingFacts(legacy.Keys);
    if k in legacy {
      assert k in keys;
      var i :| 0 <= i < |keys| && keys[i] == k;
      RankIs(legacy.Keys, i);
      BitIs(mask, i);
      if Bit(mask, i) { InMasked(mask, keys, i); }
      if k in Masked(mask, keys) {
        var m := MaskedAt(mask, keys, k);
        assert m == i;
      }
    }
  }

  lemma Doubled(n: nat)
    ensures Pow2(n + 1) == 2 * Pow2(n) && Pow2(0) == 1
  {
  }

  lemma NoBits(unified: Offers, legacy: Offers, mask: nat)
    ensures unified + Restrict(legacy, Masked(mask, [])) == unified
  {
  }

  lemma OneMoreOffer(unified: Offers, legacy: Offers, keys: set<Key>, k: Key)
    requires k in legacy
    ensures unified + Restrict(legacy, keys + {k}) == (unified + Restrict(legacy, keys))[k := legacy[k]]
  {
  }

  lemma InMasked(mask: nat, keys: seq<Key>, i: nat)
    requires i < |keys| && Bit(mask, i)
    ensures keys[i] in Masked(mask, keys)
  {
    hide Bit;
  }

  lemma MaskedAt(mask: nat, keys: seq<Key>, k: Key) returns (i: nat)
    requires k in Masked(mask, keys)
    ensures i < |keys| && Bit(mask, i) && keys[i] == k
  {
    hide Bit;
    i :| 0 <= i < |keys| && Bit(mask, i) && keys[i] == k;
  }

  lemma OneMoreBit(mask: nat, keys: seq<Key>, bit: nat)
    requires bit < |keys|
    ensures Masked(mask, keys[..bit + 1]) == Masked(mask, keys[..bit]) + (if Bit(mask, bit) then {keys[bit]} else {})
  {
    hide Bit, Masked;
    var a, b := keys[..bit], keys[..bit + 1];
    forall k | k in Masked(mask, a) ensures k in Masked(mask, b) {
      var i := MaskedAt(mask, a, k);
      assert b[i] == k;
      InMasked(mask, b, i);
    }
    if Bit(mask, bit) {
      assert b[bit] == keys[bit];
      InMasked(mask, b, bit);
    }
    forall k | k in Masked(mask, b) ensures k in Masked(mask, a) || (Bit(mask, bit) && k == keys[bit]) {
      var i := MaskedAt(mask, b, k);
      if i < bit {
        assert a[i] == k;
        InMasked(mask, a, i);
      }
    }
  }

  method SatisfyPreferringUnified(input: Input, unified: Offers, legacy: Offers)
    returns (r: Result<Done, FinalizeError>)
    ensures r == Prefer(input, unified, legacy)
  {
    hide SatisfyInput, OfferedBy, Beats;
    var all := SatisfyInput(input, unified + legacy);
    if all.Err? { return all; }
    if unified == map[] || all.value.report.unifiedUsed > 0 { return all; }
    if |legacy| > MAX_LEGACY_KEYS_FOR_SEARCH { return Err(RefusedToDropUnified(|legacy|)); }
    var best: Option<Done> := None;
    for mask := 0 to Pow2(|legacy|)
      invariant best == Best(input, unified, legacy, mask)
    {
      var subset := OfferMask(unified, legacy, mask);
      var one := SatisfyInput(input, subset);
      if one.Ok? && one.value.report.unifiedUsed != 0 && (best.None? || Beats(one.value, best.value)) {
        best := Some(one.value);
      }
    }
    return if best.Some? then Ok(best.value) else all;
  }

  lemma {:induction false} AllDone(inputs: seq<SignedInput>, done: seq<Done>)
    requires |done| == |inputs|
    requires forall i :: 0 <= i < |inputs| ==>
               FinalizeInput(inputs[i].input, inputs[i].unified, inputs[i].legacy) == Ok(done[i])
    ensures FinalizeAll(inputs) == Ok(done)
  {
    hide FinalizeInput;
    if inputs != [] {
      assert done == [done[0]] + done[1..];
      AllDone(inputs[1..], done[1..]);
    }
  }

  lemma {:induction false} FirstRefusal(inputs: seq<SignedInput>, i: nat)
    requires i < |inputs| && FinalizeInput(inputs[i].input, inputs[i].unified, inputs[i].legacy).Err?
    requires forall j :: 0 <= j < i ==> FinalizeInput(inputs[j].input, inputs[j].unified, inputs[j].legacy).Ok?
    ensures FinalizeAll(inputs) == Err(FinalizeInput(inputs[i].input, inputs[i].unified, inputs[i].legacy).error)
  {
    hide FinalizeInput;
    if i > 0 { FirstRefusal(inputs[1..], i - 1); }
  }

  method FinalizeInputs(inputs: seq<SignedInput>) returns (r: Result<seq<Done>, FinalizeError>)
    ensures r == FinalizeAll(inputs)
  {
    hide SatisfyInput, Prefer, FinalizeAll;
    var done: seq<Done> := [];
    for i := 0 to |inputs|
      invariant |done| == i
      invariant forall j :: 0 <= j < i ==>
                  FinalizeInput(inputs[j].input, inputs[j].unified, inputs[j].legacy) == Ok(done[j])
    {
      var one := SatisfyInput(inputs[i].input, inputs[i].unified);
      if one == Err(Unsatisfiable) {
        one := SatisfyPreferringUnified(inputs[i].input, inputs[i].unified, inputs[i].legacy);
      }
      if one.Err? {
        FirstRefusal(inputs, i);
        return Err(one.error);
      }
      done := done + [one.value];
    }
    AllDone(inputs, done);
    return Ok(done);
  }
}
