/** A created step 1 is reconstructed exactly, from its coins in any order. */
module SplitRoundTrip {
  import opened Wrappers
  import opened Bytes
  import opened Transactions
  import opened Sequences
  import opened OutPoints
  import opened SplitPoison
  import opened ForeignSplit

  predicate DistinctCoins(coins: seq<SplitCoin>) {
    forall i, j :: 0 <= i < j < |coins| ==> coins[i].outpoint != coins[j].outpoint
  }

  predicate Sorted(coins: seq<SplitCoin>) {
    forall i, j :: 0 <= i < j < |coins| ==> !Less(coins[j].outpoint, coins[i].outpoint)
  }

  lemma SortedCons(c: SplitCoin, s: seq<SplitCoin>)
    ensures Sorted([c] + s) <==> Sorted(s) && forall x :: x in s ==> !Less(x.outpoint, c.outpoint)
  {
    hide Less;
    var t := [c] + s;
    if Sorted(t) {
      assert s == t[1..] && t[0] == c;
      forall x | x in s ensures !Less(x.outpoint, c.outpoint) {
        var i :| 0 <= i < |s| && s[i] == x;
        assert t[i + 1] == x && !Less(t[i + 1].outpoint, t[0].outpoint);
      }
    }
  }

  lemma {:induction false} InsertSorts(c: SplitCoin, s: seq<SplitCoin>)
    requires Sorted(s)
    ensures Sorted(InsertCoin(c, s)) && multiset(InsertCoin(c, s)) == multiset{c} + multiset(s)
  {
    hide Less, Sorted;
    SortedCons(c, s);
    if s != [] {
      var head, tail := s[0], s[1..];
      assert s == [head] + tail;
      SortedCons(head, tail);
      if Less(head.outpoint, c.outpoint) {
        var rest := InsertCoin(c, tail);
        InsertSorts(c, tail);
        LessTotal(head.outpoint, c.outpoint);
        forall x | x in rest ensures !Less(x.outpoint, head.outpoint) { assert x in multiset(rest); }
        SortedCons(head, rest);
      } else {
        forall x | x in s ensures !Less(x.outpoint, c.outpoint) {
          NotBefore(x.outpoint, head.outpoint, c.outpoint, x == head);
        }
      }
    }
  }

  lemma NotBefore(a: OutPoint, b: OutPoint, c: OutPoint, same: bool)
    requires !Less(b, c) && if same then a == b else !Less(a, b)
    ensures !Less(a, c)
  {
    LessTotal(a, b);
    LessTotal(b, c);
  }

  /** Sorting keeps the coins and puts them in order. */
  lemma {:induction false} SortSorts(coins: seq<SplitCoin>)
    ensures Sorted(SortCoins(coins)) && multiset(SortCoins(coins)) == multiset(coins)
  {
    hide Sorted;
    if coins == [] {
      assert Sorted([]) by { EmptySorted(); }
    } else {
      SortSorts(coins[1..]);
      InsertSorts(coins[0], SortCoins(coins[1..]));
      assert coins == [coins[0]] + coins[1..];
    }
  }

  lemma EmptySorted()
    ensures Sorted([])
  {
  }

  /** Coins at distinct outpoints have one order. */
  lemma {:induction false} SortedUnique(s: seq<SplitCoin>, t: seq<SplitCoin>)
    requires Sorted(s) && Sorted(t) && multiset(s) == multiset(t) && DistinctCoins(s)
    ensures s == t
    decreases |s|
  {
    hide Less, Sorted, DistinctCoins;
    PermutedLength(s, t);
    if s != [] {
      SameHead(s, t);
      Tails(s);
      Tails(t);
      assert s == [s[0]] + s[1..] && t == [t[0]] + t[1..];
      assert multiset(s[1..]) == multiset(s) - multiset{s[0]};
      assert multiset(t[1..]) == multiset(t) - multiset{t[0]};
      SortedUnique(s[1..], t[1..]);
    }
  }

  lemma Tails(s: seq<SplitCoin>)
    requires s != []
    ensures Sorted(s) ==> Sorted(s[1..])
    ensures DistinctCoins(s) ==> DistinctCoins(s[1..])
  {
  }

  lemma SameHead(s: seq<SplitCoin>, t: seq<SplitCoin>)
    requires s != [] && t != [] && Sorted(s) && Sorted(t) && multiset(s) == multiset(t) && DistinctCoins(s)
    ensures s[0] == t[0]
  {
    hide Less;
    assert t[0] in multiset(s) && s[0] in multiset(t);
    var k :| 0 <= k < |s| && s[k] == t[0];
    var i :| 0 <= i < |t| && t[i] == s[0];
    LessTotal(s[0].outpoint, t[0].outpoint);
  }

  lemma DistinctPermuted(s: seq<SplitCoin>, t: seq<SplitCoin>)
    requires multiset(s) == multiset(t) && DistinctCoins(s)
    ensures DistinctCoins(t)
  {
    forall i, j | 0 <= i < j < |t| ensures t[i].outpoint != t[j].outpoint {
      TwoIn(t, i, j);
      if t[i].outpoint == t[j].outpoint {
        var a :| 0 <= a < |s| && s[a] == t[i] by { assert t[i] in multiset(s); }
        var b :| 0 <= b < |s| && s[b] == t[j] by { assert t[j] in multiset(s); }
        assert a == b && t[i] == t[j];
        OnceIn(s, a);
      }
    }
  }

  lemma TwoIn(t: seq<SplitCoin>, i: nat, j: nat)
    requires i < j < |t|
    ensures t[i] == t[j] ==> multiset(t)[t[i]] >= 2
  {
    assert t == t[..j] + [t[j]] + t[j + 1..] && t[i] in t[..j];
  }

  lemma OnceIn(s: seq<SplitCoin>, a: nat)
    requires DistinctCoins(s) && a < |s|
    ensures multiset(s)[s[a]] == 1
  {
    assert s == s[..a] + [s[a]] + s[a + 1..];
    assert s[a] !in s[..a] && s[a] !in s[a + 1..];
  }

  /** The answer, refusals included, does not depend on the order of coins at distinct outpoints. */
  lemma SelectPermuted(env: Env, source: SplitSource, coins: seq<SplitCoin>, other: seq<SplitCoin>, forkHeight: u64)
    requires multiset(coins) == multiset(other) && DistinctCoins(coins)
    ensures Select(env, source, coins, forkHeight) == Select(env, source, other, forkHeight)
  {
    hide SelectFrom, Sorted, DistinctCoins;
    PermutedLength(coins, other);
    SortSorts(coins);
    SortSorts(other);
    DistinctPermuted(coins, SortCoins(coins));
    SortedUnique(SortCoins(coins), SortCoins(other));
  }

  // ----- what is selected -----

  /** One coin may be split: the chains agree on its block below the fork, and its previous
      transaction pays the stated script of the source wallet. */
  predicate SharedAndOwned(env: Env, source: SplitSource, forkHeight: u64, c: SplitCoin) {
    && c.bitcoinBlock.Some? && c.btcb2Block == c.bitcoinBlock && c.bitcoinBlock.value.height < forkHeight
    && env.txid(c.previous) == c.outpoint.txid && c.outpoint.vout < |c.previous.outputs|
    && c.previous.outputs[c.outpoint.vout].value <= MAX_MONEY
    && Derive(source, c.branch, c.index).Ok?
    && Derive(source, c.branch, c.index).value.script == c.previous.outputs[c.outpoint.vout].script
  }

  lemma SelectOneIff(env: Env, source: SplitSource, c: SplitCoin, forkHeight: u64)
    ensures SelectOne(env, source, c, forkHeight).Ok? <==> SharedAndOwned(env, source, forkHeight, c)
    ensures SelectOne(env, source, c, forkHeight).Ok? ==>
              SelectOne(env, source, c, forkHeight).value.outpoint == c.outpoint
              && SelectOne(env, source, c, forkHeight).value.output == c.previous.outputs[c.outpoint.vout]
  {
    hide Derive;
  }

  function ValueOf(c: SplitCoin): nat {
    if c.outpoint.vout < |c.previous.outputs| then c.previous.outputs[c.outpoint.vout].value else 0
  }

  function Total(coins: seq<SplitCoin>): nat {
    Sum(ValueOf, coins)
  }

  /** Distinct coins, new to what is selected, all shared and owned. */
  ghost predicate Selectable(env: Env, source: SplitSource, forkHeight: u64, coins: seq<SplitCoin>,
                             taken: seq<OutPoint>) {
    && DistinctCoins(coins)
    && forall c :: c in coins ==> SharedAndOwned(env, source, forkHeight, c) && c.outpoint !in taken
  }

  lemma SelectableCons(env: Env, source: SplitSource, forkHeight: u64, coins: seq<SplitCoin>, taken: seq<OutPoint>,
                       next: seq<OutPoint>)
    requires coins != [] && forall o :: o in next <==> o in taken || o == coins[0].outpoint
    ensures Selectable(env, source, forkHeight, coins, taken) <==>
              && SharedAndOwned(env, source, forkHeight, coins[0]) && coins[0].outpoint !in taken
              && Selectable(env, source, forkHeight, coins[1..], next)
  {
    hide SharedAndOwned;
    var head, tail := coins[0], coins[1..];
    assert coins == [head] + tail;
    if Selectable(env, source, forkHeight, coins, taken) {
      forall c | c in tail ensures c.outpoint !in next {
        var i :| 0 <= i < |tail| && tail[i] == c;
        assert coins[i + 1] == c;
      }
    }
    if Selectable(env, source, forkHeight, tail, next) {
      forall i | 0 < i < |coins| ensures coins[0].outpoint != coins[i].outpoint { assert coins[i] == tail[i - 1]; }
    }
  }

  /** The outpoints of a list, in order. */
  function PointsOf<T>(at: T -> OutPoint, xs: seq<T>): (r: seq<OutPoint>)
    ensures |r| == |xs| && forall i :: 0 <= i < |r| ==> r[i] == at(xs[i])
  {
    seq(|xs|, i requires 0 <= i < |xs| => at(xs[i]))
  }

  function SelectedPoint(s: Selected): OutPoint { s.outpoint }
  function CoinPoint(c: SplitCoin): OutPoint { c.outpoint }

  lemma {:induction false} SelectFromIff(env: Env, source: SplitSource, coins: seq<SplitCoin>, forkHeight: u64,
                                         acc: Selection)
    requires Increasing(acc.outpoints) && acc.total <= MAX_MONEY
    ensures SelectFrom(env, source, coins, forkHeight, acc).Ok? <==>
              Selectable(env, source, forkHeight, coins, acc.outpoints) && acc.total + Total(coins) <= MAX_MONEY
    decreases |coins|
  {
    hide SelectOne, Increasing, Insert, SharedAndOwned, Selectable, ValueOf, LE;
    if coins == [] {
      NoneToSelect(env, source, forkHeight, acc.outpoints);
    } else {
      var c, next := coins[0], Insert(acc.outpoints, coins[0].outpoint);
      SelectOneIff(env, source, c, forkHeight);
      InsertIncreasing(acc.outpoints, c.outpoint);
      SelectableCons(env, source, forkHeight, coins, acc.outpoints, next);
      var one := SelectOne(env, source, c, forkHeight);
      if one.Ok? {
        OwnedValue(env, source, forkHeight, c);
        if acc.total + one.value.output.value <= MAX_MONEY {
          SelectFromIff(env, source, coins[1..], forkHeight,
                        Selection(acc.selected + [one.value], next, acc.total + one.value.output.value));
        }
      }
    }
  }

  lemma {:induction false} SelectFromContents(env: Env, source: SplitSource, coins: seq<SplitCoin>, forkHeight: u64,
                                              acc: Selection)
    requires SelectFrom(env, source, coins, forkHeight, acc).Ok?
    ensures var r := SelectFrom(env, source, coins, forkHeight, acc).value;
            && PointsOf(SelectedPoint, r.selected) == PointsOf(SelectedPoint, acc.selected) + PointsOf(CoinPoint, coins)
            && r.total == acc.total + Total(coins)
    decreases |coins|
  {
    hide SelectOne, Insert, SharedAndOwned, ValueOf, PointsOf, LE;
    if coins == [] {
      assert PointsOf(CoinPoint, []) == [] && PointsOf(SelectedPoint, acc.selected) + [] == PointsOf(SelectedPoint, acc.selected);
    } else {
      var c := coins[0];
      SelectOneIff(env, source, c, forkHeight);
      OwnedValue(env, source, forkHeight, c);
      var one := SelectOne(env, source, c, forkHeight).value;
      SelectFromContents(env, source, coins[1..], forkHeight,
                         Selection(acc.selected + [one], Insert(acc.outpoints, one.outpoint),
                                   acc.total + one.output.value));
      assert PointsOf(SelectedPoint, acc.selected + [one]) == PointsOf(SelectedPoint, acc.selected) + [c.outpoint];
      assert PointsOf(CoinPoint, coins) == [c.outpoint] + PointsOf(CoinPoint, coins[1..]);
    }
  }

  lemma NoneToSelect(env: Env, source: SplitSource, forkHeight: u64, taken: seq<OutPoint>)
    ensures Selectable(env, source, forkHeight, [], taken)
  {
  }

  lemma OwnedValue(env: Env, source: SplitSource, forkHeight: u64, c: SplitCoin)
    requires SharedAndOwned(env, source, forkHeight, c)
    ensures ValueOf(c) == c.previous.outputs[c.outpoint.vout].value
  {
    hide Derive;
  }

  /** Selection accepts exactly a non-empty list of distinct shared and owned coins within the money
      range, and returns them all, ordered by outpoint, with their total. */
  lemma SelectIff(env: Env, source: SplitSource, coins: seq<SplitCoin>, forkHeight: u64)
    ensures Select(env, source, coins, forkHeight).Ok? <==>
              && coins != [] && DistinctCoins(coins) && Total(coins) <= MAX_MONEY
              && forall c :: c in coins ==> SharedAndOwned(env, source, forkHeight, c)
    ensures Select(env, source, coins, forkHeight).Ok? ==>
              var r := Select(env, source, coins, forkHeight).value;
              && PointsOf(SelectedPoint, r.selected) == PointsOf(CoinPoint, SortCoins(coins)) && r.total == Total(coins)
  {
    hide SelectFrom, SharedAndOwned, Sum, DistinctCoins, SortCoins, Sorted, ValueOf;
    var sorted := SortCoins(coins);
    SortSorts(coins);
    SelectFromIff(env, source, sorted, forkHeight, Selection([], [], 0));
    SumPermuted(ValueOf, sorted, coins);
    if DistinctCoins(coins) { DistinctPermuted(coins, sorted); }
    if DistinctCoins(sorted) { DistinctPermuted(sorted, coins); }
    forall c ensures c in coins <==> c in sorted { assert c in multiset(coins) <==> c in multiset(sorted); }
    if SelectFrom(env, source, sorted, forkHeight, Selection([], [], 0)).Ok? {
      SelectFromContents(env, source, sorted, forkHeight, Selection([], [], 0));
      assert PointsOf(SelectedPoint, []) + PointsOf(CoinPoint, sorted) == PointsOf(CoinPoint, sorted);
    }
  }

  lemma PlanAnyOrder(env: Env, inputs: SplitInputs, coins: seq<SplitCoin>, marker: Hash)
    requires multiset(coins) == multiset(inputs.coins) && MakePlan(env, inputs, marker).Ok?
    ensures MakePlan(env, inputs.(coins := coins), marker) == MakePlan(env, inputs, marker)
  {
    hide Select, MaximumSignedVbytes, PoisonScript, Derive, DistinctCoins, SharedAndOwned;
    SelectIff(env, inputs.source, inputs.coins, inputs.forkHeight);
    SelectPermuted(env, inputs.source, inputs.coins, coins, inputs.forkHeight);
  }

  /** Split step 1 round trip: reconstructing a created step from its coins in any order, at any tip
      not below the locktime, returns the identical construction. */
  lemma RoundTrip(env: Env, inputs: SplitInputs, feerate: nat, lockTime: u32, tip: u32, marker: Hash,
                  coins: seq<SplitCoin>, laterTip: u32)
    requires Create(env, inputs, feerate, lockTime, tip, marker).Ok?
    requires multiset(coins) == multiset(inputs.coins)
    ensures var s := Create(env, inputs, feerate, lockTime, tip, marker).value;
            Reconstruct(env, inputs.(coins := coins), s.psbt.tx, laterTip) == Ok(s) <==> lockTime <= laterTip
  {
    hide MakePlan, CheckEconomics, InputsFor, UnsignedTransaction, ForkMarker;
    var s := Create(env, inputs, feerate, lockTime, tip, marker).value;
    var plan := MakePlan(env, inputs, marker).value;
    PlanPoison(env, inputs, marker);
    PlanAnyOrder(env, inputs, coins, marker);
    Shape(plan, plan.total - plan.maximumSignedVbytes * feerate, lockTime);
  }

  lemma Shape(plan: Plan, value: u64, lockTime: u32)
    ensures var tx := UnsignedTransaction(plan.selected, Step1Outputs(plan.poison, plan.destination.script, value), lockTime);
            tx.outputs == Step1Outputs(plan.poison, plan.destination.script, value) && tx.lockTime == lockTime
  {
  }

  /** The plan's poison is read back as the marker. */
  lemma PlanPoison(env: Env, inputs: SplitInputs, marker: Hash)
    requires MakePlan(env, inputs, marker).Ok?
    ensures ForkMarker(MakePlan(env, inputs, marker).value.poison) == Some(marker)
  {
    hide Select, MaximumSignedVbytes, Derive;
    var s := Select(env, inputs.source, inputs.coins, inputs.forkHeight).value;
    PoisonShape(env.sha, inputs.chain, marker, s.outpoints);
  }
}

/** Size and fee bounds of step 1. */
module SplitSize {
  import opened Wrappers
  import opened Bytes
  import opened Transactions
  import opened SplitPoison
  import opened ForeignSplit

  /** The same transaction with signatures: script sigs and witnesses may differ, nothing else. */
  ghost predicate SignedForm(signed: Transaction, tx: Transaction) {
    && signed.version == tx.version && signed.lockTime == tx.lockTime && signed.outputs == tx.outputs
    && |signed.inputs| == |tx.inputs|
    && forall i :: 0 <= i < |tx.inputs| ==>
         signed.inputs[i].prevout == tx.inputs[i].prevout && signed.inputs[i].sequence == tx.inputs[i].sequence
  }

  function EncodeTxIn(input: TxIn): seq<byte> {
    EncodeOutPoint(input.prevout) + VarBytes(input.scriptSig) + LE(input.sequence, 4)
  }

  lemma {:induction false} InputsLength(inputs: seq<TxIn>)
    ensures InputsSize(inputs) == |Concat(EncodeTxIn, inputs)|
  {
    hide VarBytes;
    if inputs != [] { InputsLength(inputs[1..]); }
  }

  lemma {:induction false} OutputsLength(outputs: seq<TxOut>)
    ensures OutputsSize(outputs) == |Concat(EncodeTxOut, outputs)|
  {
    hide VarBytes;
    if outputs != [] { OutputsLength(outputs[1..]); }
  }

  /** A transaction without its witnesses. */
  function EncodeBase(tx: Transaction): seq<byte> {
    EncodeI32(tx.version) + CompactSize(|tx.inputs|) + Concat(EncodeTxIn, tx.inputs)
    + CompactSize(|tx.outputs|) + Concat(EncodeTxOut, tx.outputs) + EncodeU32(tx.lockTime)
  }

  function EncodeWitness(input: TxIn): seq<byte> {
    CompactSize(|input.witnessStack|) + Concat(EncodeScript, input.witnessStack)
  }

  /** BIP 144: marker and flag after the version, the witnesses before the lock time. */
  function EncodeFull(tx: Transaction): seq<byte> {
    EncodeI32(tx.version) + [0, 1] + CompactSize(|tx.inputs|) + Concat(EncodeTxIn, tx.inputs)
    + CompactSize(|tx.outputs|) + Concat(EncodeTxOut, tx.outputs) + Concat(EncodeWitness, tx.inputs)
    + EncodeU32(tx.lockTime)
  }

  /** The size counted is the length of the consensus encoding without witnesses. */
  lemma BaseSizeIsLength(tx: Transaction)
    ensures BaseSize(tx) == |EncodeBase(tx)|
  {
    InputsLength(tx.inputs);
    OutputsLength(tx.outputs);
  }

  lemma {:induction false} ItemsLength(stack: seq<Script>)
    ensures ItemsSize(stack) == |Concat(EncodeScript, stack)|
  {
    hide VarBytes;
    if stack != [] { ItemsLength(stack[1..]); }
  }

  lemma {:induction false} WitnessesLength(inputs: seq<TxIn>)
    ensures WitnessesSize(inputs) == |Concat(EncodeWitness, inputs)|
  {
    hide CompactSize;
    if inputs != [] {
      ItemsLength(inputs[0].witnessStack);
      WitnessesLength(inputs[1..]);
    }
  }

  /** BIP 141: weight is three times the base length and once the length with witnesses, if there are
      any; a virtual byte is four units, rounded up. */
  lemma WeightIsLength(tx: Transaction)
    ensures Weight(tx) == 3 * |EncodeBase(tx)| + |if HasWitness(tx) then EncodeFull(tx) else EncodeBase(tx)|
    ensures 4 * Vsize(tx) - 3 <= Weight(tx) <= 4 * Vsize(tx)
  {
    hide CompactSize, Concat, InputsSize, OutputsSize, WitnessesSize;
    BaseSizeIsLength(tx);
    InputsLength(tx.inputs);
    OutputsLength(tx.outputs);
    WitnessesLength(tx.inputs);
  }

  /** What a satisfaction adds to the weight of an input counted with an empty witness. */
  function Satisfaction(input: TxIn): int {
    4 * (|VarBytes(input.scriptSig)| - 1) + WitnessSize(input.witnessStack) - 1
  }

  function Satisfactions(inputs: seq<TxIn>): int {
    if inputs == [] then 0 else Satisfaction(inputs[0]) + Satisfactions(inputs[1..])
  }

  /** Every input keeps to its descriptor's bound, and only segwit inputs carry a witness. */
  ghost predicate WithinBounds(selected: seq<Selected>, inputs: seq<TxIn>) {
    && |selected| == |inputs|
    && forall i :: 0 <= i < |selected| ==>
         && selected[i].definite.maxWeight.Some?
         && Satisfaction(inputs[i]) <= selected[i].definite.maxWeight.value
         && (!IsSegwit(selected[i].definite) ==> inputs[i].witnessStack == [])
  }

  lemma {:induction false} SignedSize(inputs: seq<TxIn>)
    ensures 4 * InputsSize(inputs) + WitnessesSize(inputs) == 4 * 41 * |inputs| + |inputs| + Satisfactions(inputs)
  {
    hide WitnessSize, VarBytes;
    if inputs != [] { SignedSize(inputs[1..]); }
  }

  lemma {:induction false} UnsignedSize(inputs: seq<TxIn>)
    requires forall i :: 0 <= i < |inputs| ==> inputs[i].scriptSig == []
    ensures InputsSize(inputs) == 41 * |inputs|
  {
    if inputs != [] {
      assert |VarBytes([])| == 1;
      UnsignedSize(inputs[1..]);
    }
  }

  lemma {:induction false} NoWitnessSize(inputs: seq<TxIn>)
    requires forall i :: 0 <= i < |inputs| ==> inputs[i].witnessStack == []
    ensures WitnessesSize(inputs) == |inputs|
  {
    if inputs != [] { NoWitnessSize(inputs[1..]); }
  }

  lemma {:induction false} BoundHolds(selected: seq<Selected>, inputs: seq<TxIn>, sum: nat)
    requires WithinBounds(selected, inputs) && SatisfactionBound(selected, sum).Ok?
    ensures sum + Satisfactions(inputs) <= SatisfactionBound(selected, sum).value
    decreases |selected|
  {
    hide Satisfaction;
    if selected != [] {
      BoundHolds(selected[1..], inputs[1..], sum + selected[0].definite.maxWeight.value);
    }
  }

  lemma {:induction false} ScriptsSize(a: seq<TxOut>, b: seq<TxOut>)
    requires |a| == |b| && forall i :: 0 <= i < |a| ==> a[i].script == b[i].script
    ensures OutputsSize(a) == OutputsSize(b)
  {
    hide VarBytes;
    if a != [] { ScriptsSize(a[1..], b[1..]); }
  }

  /** What signing adds to the base size and the witnesses: one byte per input and the satisfactions. */
  lemma SignedWeight(selected: seq<Selected>, priced: seq<TxOut>, outputs: seq<TxOut>, lockTime: u32, signed: Transaction)
    requires |priced| == |outputs| && forall i :: 0 <= i < |priced| ==> priced[i].script == outputs[i].script
    requires SignedForm(signed, UnsignedTransaction(selected, outputs, lockTime))
    ensures 4 * BaseSize(signed) + WitnessesSize(signed.inputs)
         == Weight(UnsignedTransaction(selected, priced, 0)) + |selected| + Satisfactions(signed.inputs)
    ensures |signed.inputs| == |selected|
  {
    hide InputsSize, OutputsSize, WitnessesSize, Satisfactions, CompactSize;
    var unsigned := UnsignedTransaction(selected, priced, 0);
    UnsignedSize(unsigned.inputs);
    SignedSize(signed.inputs);
    ScriptsSize(priced, outputs);
    assert !HasWitness(unsigned);
  }

  lemma WeightOf(tx: Transaction)
    ensures Weight(tx) == if HasWitness(tx) then 4 * BaseSize(tx) + 2 + WitnessesSize(tx.inputs)
                          else 4 * BaseSize(tx) + WitnessesSize(tx.inputs) - |tx.inputs|
  {
    hide BaseSize, WitnessesSize;
    if !HasWitness(tx) { NoWitnessSize(tx.inputs); }
  }

  /** The worst case covers every signed form, whatever its output amounts and locktime. */
  lemma SizeBound(selected: seq<Selected>, priced: seq<TxOut>, outputs: seq<TxOut>, lockTime: u32, signed: Transaction)
    requires MaximumSignedVbytes(selected, priced).Ok?
    requires |priced| == |outputs| && forall i :: 0 <= i < |priced| ==> priced[i].script == outputs[i].script
    requires SignedForm(signed, UnsignedTransaction(selected, outputs, lockTime)) && WithinBounds(selected, signed.inputs)
    ensures Vsize(signed) <= MaximumSignedVbytes(selected, priced).value
  {
    hide Weight, BaseSize, WitnessesSize, Satisfactions, SatisfactionBound, UnsignedTransaction, Satisfaction, SignedForm;
    SignedWeight(selected, priced, outputs, lockTime, signed);
    WeightOf(signed);
    BoundHolds(selected, signed.inputs, 0);
    assert HasWitness(signed) ==> AnySegwit(selected);
  }

  /** Every satisfaction is as large as its descriptor's bound, and a segwit input has its witness. */
  ghost predicate AtBounds(selected: seq<Selected>, inputs: seq<TxIn>) {
    && WithinBounds(selected, inputs)
    && (forall i :: 0 <= i < |selected| ==> Satisfaction(inputs[i]) == selected[i].definite.maxWeight.value)
    && (AnySegwit(selected) ==> exists i :: 0 <= i < |inputs| && inputs[i].witnessStack != [])
  }

  lemma {:induction false} BoundMet(selected: seq<Selected>, inputs: seq<TxIn>, sum: nat)
    requires WithinBounds(selected, inputs) && SatisfactionBound(selected, sum).Ok?
    requires forall i :: 0 <= i < |selected| ==> Satisfaction(inputs[i]) == selected[i].definite.maxWeight.value
    ensures sum + Satisfactions(inputs) == SatisfactionBound(selected, sum).value
    decreases |selected|
  {
    hide Satisfaction;
    if selected != [] {
      BoundMet(selected[1..], inputs[1..], sum + selected[0].definite.maxWeight.value);
    }
  }

  /** Nothing is charged beyond the worst case: a form at its bounds has exactly the size charged. */
  lemma SizeTight(selected: seq<Selected>, priced: seq<TxOut>, outputs: seq<TxOut>, lockTime: u32, signed: Transaction)
    requires MaximumSignedVbytes(selected, priced).Ok?
    requires |priced| == |outputs| && forall i :: 0 <= i < |priced| ==> priced[i].script == outputs[i].script
    requires SignedForm(signed, UnsignedTransaction(selected, outputs, lockTime)) && AtBounds(selected, signed.inputs)
    ensures Vsize(signed) == MaximumSignedVbytes(selected, priced).value
  {
    hide Weight, BaseSize, WitnessesSize, Satisfactions, SatisfactionBound, UnsignedTransaction, Satisfaction, SignedForm;
    SignedWeight(selected, priced, outputs, lockTime, signed);
    WeightOf(signed);
    BoundMet(selected, signed.inputs, 0);
    assert HasWitness(signed) <==> AnySegwit(selected);
  }

  lemma PlanFacts(env: Env, inputs: SplitInputs, marker: Hash)
    requires MakePlan(env, inputs, marker).Ok?
    ensures var plan := MakePlan(env, inputs, marker).value;
            MaximumSignedVbytes(plan.selected, Step1Outputs(plan.poison, plan.destination.script, 0))
              == Ok(plan.maximumSignedVbytes)
  {
    hide Select, MaximumSignedVbytes, PoisonScript, Derive;
  }

  lemma BuiltFee(inputs: SplitInputs, plan: Plan, value: u64, lockTime: u32, marker: Hash)
    requires Build(inputs, plan, value, lockTime, marker).Ok? && value <= plan.total
    ensures var s := Build(inputs, plan, value, lockTime, marker).value;
            && FeeOf(s) == plan.total - value && s.maximumSignedVbytes == plan.maximumSignedVbytes
            && s.psbt.tx == UnsignedTransaction(plan.selected, Step1Outputs(plan.poison, plan.destination.script, value),
                                                lockTime)
            && s.total == SumValues(s.psbt.tx.outputs) + FeeOf(s)
  {
    hide InputsFor;
    var s := Build(inputs, plan, value, lockTime, marker).value;
    var outs := Step1Outputs(plan.poison, plan.destination.script, value);
    assert outs[1..] == [TxOut(value, plan.destination.script)] && SumValues(outs[1..]) == value;
    assert SumValues(outs) == value;
  }

  /** Every signed form of a created step is no larger than the size it was charged for, so the fee is
      at least the requested rate times the real size, and never above the ceiling. */
  lemma CreatedFee(env: Env, inputs: SplitInputs, feerate: nat, lockTime: u32, tip: u32, marker: Hash,
                   signed: Transaction)
    requires Create(env, inputs, feerate, lockTime, tip, marker).Ok?
    requires SignedForm(signed, Create(env, inputs, feerate, lockTime, tip, marker).value.psbt.tx)
    requires MakePlan(env, inputs, marker).Ok? && WithinBounds(MakePlan(env, inputs, marker).value.selected, signed.inputs)
    ensures var s := Create(env, inputs, feerate, lockTime, tip, marker).value;
            && Vsize(signed) <= s.maximumSignedVbytes
            && FeeOf(s) == feerate * s.maximumSignedVbytes
            && 0 <= feerate * Vsize(signed) <= FeeOf(s) <= Ceiling(s.maximumSignedVbytes) <= Spend.MAX_FEE
            && s.total == SumValues(s.psbt.tx.outputs) + FeeOf(s)
  {
    hide MakePlan, Build, WithinBounds, Vsize, Ceiling, UnsignedTransaction, SignedForm, MaximumSignedVbytes, FeeOf,
         SumValues;
    var plan := MakePlan(env, inputs, marker).value;
    var value := plan.total - plan.maximumSignedVbytes * feerate;
    BuiltFee(inputs, plan, value, lockTime, marker);
    PlanFacts(env, inputs, marker);
    SizeBound(plan.selected, Step1Outputs(plan.poison, plan.destination.script, 0),
              Step1Outputs(plan.poison, plan.destination.script, value), lockTime, signed);
    Scaled(feerate, Vsize(signed), plan.maximumSignedVbytes);
    assert Ceiling(plan.maximumSignedVbytes) <= Spend.MAX_FEE by { CeilingBound(plan.maximumSignedVbytes); }
  }

  lemma Scaled(rate: nat, a: nat, b: nat)
    requires a <= b
    ensures rate * a <= rate * b
  {
  }

  lemma CeilingBound(vbytes: nat)
    ensures Ceiling(vbytes) <= Spend.MAX_FEE
  {
  }

  /** A reconstructed step keeps the bounds at one satoshi per virtual byte. */
  lemma ReconstructedFee(env: Env, inputs: SplitInputs, recorded: Transaction, tip: u32, marker: Hash,
                         signed: Transaction)
    requires Reconstruct(env, inputs, recorded, tip).Ok? && ForkMarker(recorded.outputs[0].script) == Some(marker)
    requires SignedForm(signed, recorded)
    requires MakePlan(env, inputs, marker).Ok? && WithinBounds(MakePlan(env, inputs, marker).value.selected, signed.inputs)
    ensures var s := Reconstruct(env, inputs, recorded, tip).value;
            && s.psbt.tx == recorded && Vsize(signed) <= s.maximumSignedVbytes
            && 0 <= Vsize(signed) <= FeeOf(s) <= Ceiling(s.maximumSignedVbytes) <= Spend.MAX_FEE
            && s.total == SumValues(recorded.outputs) + FeeOf(s)
  {
    hide MakePlan, Build, WithinBounds, Vsize, Ceiling, UnsignedTransaction, SignedForm, ForkMarker;
    var plan := MakePlan(env, inputs, marker).value;
    var value := recorded.outputs[1].value;
    BuiltFee(inputs, plan, value, recorded.lockTime, marker);
    PlanFacts(env, inputs, marker);
    SizeBound(plan.selected, Step1Outputs(plan.poison, plan.destination.script, 0),
              Step1Outputs(plan.poison, plan.destination.script, value), recorded.lockTime, signed);
    assert Ceiling(plan.maximumSignedVbytes) <= Spend.MAX_FEE by { CeilingBound(plan.maximumSignedVbytes); }
  }
}
