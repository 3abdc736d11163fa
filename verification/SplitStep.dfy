/** The transaction of split step 1, created or reconstructed, in terms of the request alone. */
module SplitStep {
  import opened Wrappers
  import opened Transactions
  import opened Sequences
  import opened OutPoints
  import opened Sighash
  import opened SplitPoison
  import opened ForeignSplit
  import opened SplitRoundTrip
  import Spend

  // ----- the selected coins -----

  lemma {:induction false} InsertLast(s: seq<OutPoint>, o: OutPoint)
    requires Increasing(s + [o])
    ensures Insert(s, o) == s + [o]
  {
    hide Less;
    if s != [] {
      var t := s + [o];
      assert Less(t[0], t[|s|]);
      LessTotal(s[0], o);
      assert s[1..] + [o] == t[1..];
      InsertLast(s[1..], o);
    }
  }

  /** Coins in outpoint order are selected one by one, and so are their outpoints. */
  lemma {:induction false} SelectedInOrder(env: Env, source: SplitSource, coins: seq<SplitCoin>, forkHeight: u64,
                                           acc: Selection)
    requires SelectFrom(env, source, coins, forkHeight, acc).Ok?
    requires Increasing(acc.outpoints + PointsOf(CoinPoint, coins))
    ensures var r := SelectFrom(env, source, coins, forkHeight, acc).value;
            && r.outpoints == acc.outpoints + PointsOf(CoinPoint, coins)
            && |r.selected| == |acc.selected| + |coins| && r.selected[..|acc.selected|] == acc.selected
            && forall i :: 0 <= i < |coins| ==>
                 SelectOne(env, source, coins[i], forkHeight) == Ok(r.selected[|acc.selected| + i])
    decreases |coins|
  {
    hide SelectOne, Less, Insert;
    if coins == [] {
      assert acc.outpoints + PointsOf(CoinPoint, []) == acc.outpoints;
    } else {
      var one := SelectOne(env, source, coins[0], forkHeight).value;
      var points, all := acc.outpoints, acc.outpoints + PointsOf(CoinPoint, coins);
      assert one.outpoint == coins[0].outpoint by { SelectOneIff(env, source, coins[0], forkHeight); }
      assert all == points + [one.outpoint] + PointsOf(CoinPoint, coins[1..]);
      assert points + [one.outpoint] == all[..|points| + 1];
      InsertLast(points, one.outpoint);
      SelectedInOrder(env, source, coins[1..], forkHeight,
                      Selection(acc.selected + [one], Insert(points, one.outpoint), acc.total + one.output.value));
      var r := SelectFrom(env, source, coins, forkHeight, acc).value;
      forall i | 0 <= i < |coins|
        ensures SelectOne(env, source, coins[i], forkHeight) == Ok(r.selected[|acc.selected| + i])
      {
        if i == 0 {
          assert r.selected[|acc.selected|] == r.selected[..|acc.selected| + 1][|acc.selected|] == one;
        } else {
          assert coins[i] == coins[1..][i - 1];
        }
      }
      assert r.selected[..|acc.selected|] == r.selected[..|acc.selected| + 1][..|acc.selected|];
    }
  }

  lemma SortedPoints(coins: seq<SplitCoin>)
    requires Sorted(coins) && DistinctCoins(coins)
    ensures Increasing(PointsOf(CoinPoint, coins))
  {
    hide Less;
    var points := PointsOf(CoinPoint, coins);
    forall i, j | 0 <= i < j < |points| ensures Less(points[i], points[j]) {
      LessTotal(coins[i].outpoint, coins[j].outpoint);
    }
  }

  /** The coins of a successful selection, in the order of its answer. */
  lemma SelectedCoins(env: Env, inputs: SplitInputs) returns (coins: seq<SplitCoin>)
    requires Select(env, inputs.source, inputs.coins, inputs.forkHeight).Ok?
    ensures multiset(coins) == multiset(inputs.coins) && Increasing(PointsOf(CoinPoint, coins))
    ensures var s := Select(env, inputs.source, inputs.coins, inputs.forkHeight).value;
            && s.outpoints == PointsOf(CoinPoint, coins) && |s.selected| == |coins| && s.total == Total(coins)
            && forall i :: 0 <= i < |coins| ==>
                 SelectOne(env, inputs.source, coins[i], inputs.forkHeight) == Ok(s.selected[i])
  {
    hide SelectFrom, SelectOne, SortCoins, Increasing, PointsOf, Select, Total;
    coins := SortCoins(inputs.coins);
    OrderedCoins(env, inputs);
    SelectIs(env, inputs);
    SelectedAll(env, inputs.source, coins, inputs.forkHeight);
  }

  lemma OrderedCoins(env: Env, inputs: SplitInputs)
    requires Select(env, inputs.source, inputs.coins, inputs.forkHeight).Ok?
    ensures inputs.coins != [] && multiset(SortCoins(inputs.coins)) == multiset(inputs.coins)
    ensures Increasing(PointsOf(CoinPoint, SortCoins(inputs.coins)))
  {
    hide SharedAndOwned, SortCoins, Sorted, DistinctCoins, Increasing, PointsOf, Select, Total;
    SortSorts(inputs.coins);
    SelectIff(env, inputs.source, inputs.coins, inputs.forkHeight);
    DistinctPermuted(inputs.coins, SortCoins(inputs.coins));
    SortedPoints(SortCoins(inputs.coins));
  }

  lemma SelectedAll(env: Env, source: SplitSource, coins: seq<SplitCoin>, forkHeight: u64)
    requires SelectFrom(env, source, coins, forkHeight, Selection([], [], 0)).Ok? && Increasing(PointsOf(CoinPoint, coins))
    ensures var s := SelectFrom(env, source, coins, forkHeight, Selection([], [], 0)).value;
            && s.outpoints == PointsOf(CoinPoint, coins) && |s.selected| == |coins| && s.total == Total(coins)
            && forall i :: 0 <= i < |coins| ==> SelectOne(env, source, coins[i], forkHeight) == Ok(s.selected[i])
  {
    hide SelectFrom, SelectOne, Increasing, PointsOf, Total;
    SelectedTotal(env, source, coins, forkHeight);
    assert [] + PointsOf(CoinPoint, coins) == PointsOf(CoinPoint, coins);
    SelectedInOrder(env, source, coins, forkHeight, Selection([], [], 0));
  }

  lemma SelectedTotal(env: Env, source: SplitSource, coins: seq<SplitCoin>, forkHeight: u64)
    requires SelectFrom(env, source, coins, forkHeight, Selection([], [], 0)).Ok?
    ensures SelectFrom(env, source, coins, forkHeight, Selection([], [], 0)).value.total == Total(coins)
  {
    hide SelectFrom, PointsOf, Total;
    SelectFromContents(env, source, coins, forkHeight, Selection([], [], 0));
  }

  lemma SelectIs(env: Env, inputs: SplitInputs)
    requires inputs.coins != []
    ensures Select(env, inputs.source, inputs.coins, inputs.forkHeight)
         == SelectFrom(env, inputs.source, SortCoins(inputs.coins), inputs.forkHeight, Selection([], [], 0))
  {
  }

  // ----- the step -----

  /** What the source wallet's descriptor says at this place; never a taproot or hardened one. */
  predicate DerivedAs(source: SplitSource, branch: Branch, index: u32, d: Definite) {
    && index < 0x8000_0000 && d.shape != Tr
    && (branch == External ==> source.external(index) == Some(d))
    && (branch == Internal ==> source.internal.Some? && source.internal.value(index) == Some(d))
  }

  lemma DeriveIff(source: SplitSource, branch: Branch, index: u32, d: Definite)
    ensures Derive(source, branch, index) == Ok(d) <==> DerivedAs(source, branch, index, d)
  {
  }

  /** One coin's input: the coin is confirmed in one block below the fork on both chains, its previous
      transaction pays the stated script of the wallet, and the PSBT carries that transaction, the
      output exactly when it is a segwit one, and the wallet's derivations. */
  ghost predicate InputOf(env: Env, inputs: SplitInputs, c: SplitCoin, txin: TxIn, input: Spend.PsbtInput) {
    && txin == TxIn(c.outpoint, [], 0xffff_fffd, [])
    && c.bitcoinBlock.Some? && c.btcb2Block == c.bitcoinBlock && c.bitcoinBlock.value.height < inputs.forkHeight
    && env.txid(c.previous) == c.outpoint.txid && c.outpoint.vout < |c.previous.outputs|
    && exists d :: DerivedAs(inputs.source, c.branch, c.index, d)
                   && c.previous.outputs[c.outpoint.vout].script == d.script && d.origins.Some?
                   && input == Spend.PsbtInput(Some(c.previous),
                                               if d.shape == Pkh then None else Some(c.previous.outputs[c.outpoint.vout]),
                                               true, d.origins.value)
  }

  /** Step 1 for this request and marker spends exactly the coins, in outpoint order, to a worthless
      poison that commits to those inputs and to the wallet's external script at the asked index, which
      no spent output has. */
  ghost predicate StepFor(env: Env, inputs: SplitInputs, marker: Hash, coins: seq<SplitCoin>, s: Step1) {
    var tx := s.psbt.tx;
    && multiset(coins) == multiset(inputs.coins) && Increasing(PointsOf(CoinPoint, coins))
    && tx.version == 2 && |tx.inputs| == |s.psbt.inputs| == |s.inputs| == |coins| && |tx.outputs| == 2
    && (forall i :: 0 <= i < |coins| ==>
          && InputOf(env, inputs, coins[i], tx.inputs[i], s.psbt.inputs[i])
          && s.inputs[i] == (coins[i].branch, coins[i].index)
          && coins[i].previous.outputs[coins[i].outpoint.vout].script != tx.outputs[1].script)
    && tx.outputs[0].value == 0
    && Decode(tx.outputs[0].script)
         == Some(Details(1, inputs.chain, marker, env.sha(Concat(EncodeOutPoint, Prevouts(tx)))))
    && (exists d :: DerivedAs(inputs.source, External, inputs.destination, d) && tx.outputs[1].script == d.script
                    && d.origins.Some? && s.psbt.outputs == [[], d.origins.value])
    && s.chain == inputs.chain && s.destination == inputs.destination && s.forkHeight == inputs.forkHeight
    && s.forkMarker == marker && s.total == Total(coins)
  }

  lemma {:induction false} InputsForAre(selected: seq<Selected>, i: nat)
    requires InputsFor(selected).Ok? && i < |selected|
    ensures selected[i].definite.origins.Some?
    ensures InputsFor(selected).value[i] ==
              Spend.PsbtInput(Some(selected[i].previous),
                              if selected[i].definite.shape == Pkh then None else Some(selected[i].output), true,
                              selected[i].definite.origins.value)
  {
    if i > 0 { InputsForAre(selected[1..], i - 1); }
  }

  lemma SelectedInput(env: Env, inputs: SplitInputs, c: SplitCoin, one: Selected, input: Spend.PsbtInput)
    requires SelectOne(env, inputs.source, c, inputs.forkHeight) == Ok(one) && one.definite.origins.Some?
    requires input == Spend.PsbtInput(Some(one.previous), if one.definite.shape == Pkh then None else Some(one.output),
                                      true, one.definite.origins.value)
    ensures InputOf(env, inputs, c, ForeignSplit.TxInFor(one), input)
    ensures one.branch == c.branch && one.index == c.index && one.outpoint == c.outpoint
    ensures c.outpoint.vout < |c.previous.outputs| && one.output == c.previous.outputs[c.outpoint.vout]
  {
    hide Derive, DerivedAs;
    DeriveIff(inputs.source, c.branch, c.index, one.definite);
  }

  lemma PlanDecoded(env: Env, inputs: SplitInputs, marker: Hash)
    requires MakePlan(env, inputs, marker).Ok? && Select(env, inputs.source, inputs.coins, inputs.forkHeight).Ok?
    ensures var points := Select(env, inputs.source, inputs.coins, inputs.forkHeight).value.outpoints;
            Decode(MakePlan(env, inputs, marker).value.poison)
              == Some(Details(1, inputs.chain, marker, env.sha(Concat(EncodeOutPoint, points))))
  {
    hide Select, MaximumSignedVbytes, Derive, Decode, PoisonScript;
    var points := Select(env, inputs.source, inputs.coins, inputs.forkHeight).value.outpoints;
    DecoderInvertsEncoder(env.sha, MakePlan(env, inputs, marker).value.poison,
                          Details(1, inputs.chain, marker, SplitPoison.InputCommitment(env.sha, points)), points);
  }

  lemma PlanParts(env: Env, inputs: SplitInputs, marker: Hash)
    requires MakePlan(env, inputs, marker).Ok?
    ensures var plan, s := MakePlan(env, inputs, marker).value, Select(env, inputs.source, inputs.coins, inputs.forkHeight);
            && s.Ok? && plan.selected == s.value.selected && plan.total == s.value.total
            && DerivedAs(inputs.source, External, inputs.destination, plan.destination)
            && forall i :: 0 <= i < |plan.selected| ==> plan.selected[i].output.script != plan.destination.script
  {
    hide Select, MaximumSignedVbytes, Derive, PoisonScript, DerivedAs;
    DeriveIff(inputs.source, External, inputs.destination, MakePlan(env, inputs, marker).value.destination);
  }

  lemma BuildParts(inputs: SplitInputs, plan: Plan, value: u64, lockTime: u32, marker: Hash)
    requires Build(inputs, plan, value, lockTime, marker).Ok?
    ensures var s := Build(inputs, plan, value, lockTime, marker).value;
            && s.psbt.tx == UnsignedTransaction(plan.selected, Step1Outputs(plan.poison, plan.destination.script, value),
                                                lockTime)
            && InputsFor(plan.selected) == Ok(s.psbt.inputs) && plan.destination.origins.Some?
            && s.psbt.outputs == [[], plan.destination.origins.value]
            && |s.inputs| == |plan.selected|
            && (forall i :: 0 <= i < |plan.selected| ==> s.inputs[i] == (plan.selected[i].branch, plan.selected[i].index))
            && s == Step1(s.psbt, inputs.chain, s.inputs, inputs.destination, inputs.forkHeight, marker,
                          plan.maximumSignedVbytes, plan.total)
  {
    hide InputsFor, UnsignedTransaction;
  }

  lemma BuiltStep(env: Env, inputs: SplitInputs, value: u64, lockTime: u32, marker: Hash)
    returns (coins: seq<SplitCoin>)
    requires MakePlan(env, inputs, marker).Ok? && Build(inputs, MakePlan(env, inputs, marker).value, value, lockTime, marker).Ok?
    ensures var s := Build(inputs, MakePlan(env, inputs, marker).value, value, lockTime, marker).value;
            && StepFor(env, inputs, marker, coins, s)
            && s.psbt.tx.lockTime == lockTime && s.psbt.tx.outputs[1].value == value
  {
    hide MakePlan, Build, Select, InputsFor, SelectOne, DerivedAs, Decode, Concat, InputOf;
    var plan := MakePlan(env, inputs, marker).value;
    var s := Build(inputs, plan, value, lockTime, marker).value;
    PlanParts(env, inputs, marker);
    BuildParts(inputs, plan, value, lockTime, marker);
    PlanDecoded(env, inputs, marker);
    coins := SelectedCoins(env, inputs);
    assert s.psbt.tx.outputs == Step1Outputs(plan.poison, plan.destination.script, value);
    assert Prevouts(s.psbt.tx) == PointsOf(CoinPoint, coins) by {
      forall i | 0 <= i < |coins| ensures s.psbt.tx.inputs[i].prevout == coins[i].outpoint {
        SelectOneIff(env, inputs.source, coins[i], inputs.forkHeight);
      }
    }
    forall i | 0 <= i < |coins|
      ensures InputOf(env, inputs, coins[i], s.psbt.tx.inputs[i], s.psbt.inputs[i])
      ensures plan.selected[i].branch == coins[i].branch && plan.selected[i].index == coins[i].index
      ensures coins[i].outpoint.vout < |coins[i].previous.outputs|
      ensures plan.selected[i].output == coins[i].previous.outputs[coins[i].outpoint.vout]
    {
      InputsForAre(plan.selected, i);
      SelectedInput(env, inputs, coins[i], plan.selected[i], s.psbt.inputs[i]);
    }
  }

  /** Amount and lock time of a step: a height not above the tip, both dust floors, and a fee of one to
      a thousand satoshis per worst-case vbyte and at most one bitcoin. */
  predicate Final(env: Env, s: Step1, tip: u32) {
    var tx := s.psbt.tx;
    && tx.lockTime < 500_000_000 && tx.lockTime <= tip && |tx.outputs| == 2
    && tx.outputs[1].value >= 500 && tx.outputs[1].value >= env.dust(tx.outputs[1].script)
    && var fee := s.total - tx.outputs[1].value;
    && s.maximumSignedVbytes <= fee <= 1000 * s.maximumSignedVbytes && fee <= 100_000_000
  }

  /** A created step is the request's, with the amount the fee leaves and the given lock time. */
  lemma CreatedStep(env: Env, inputs: SplitInputs, feerate: nat, lockTime: u32, tip: u32, marker: Hash)
    returns (coins: seq<SplitCoin>)
    requires Create(env, inputs, feerate, lockTime, tip, marker).Ok?
    ensures var s := Create(env, inputs, feerate, lockTime, tip, marker).value;
            && StepFor(env, inputs, marker, coins, s) && Final(env, s, tip)
            && s.psbt.tx.lockTime == lockTime && 1 <= feerate <= 1000
            && s.psbt.tx.outputs[1].value == Total(coins) - feerate * s.maximumSignedVbytes
  {
    hide MakePlan, Build, StepFor, Total;
    var s := Create(env, inputs, feerate, lockTime, tip, marker).value;
    var plan := MakePlan(env, inputs, marker).value;
    var value := plan.total - plan.maximumSignedVbytes * feerate;
    coins := BuiltStep(env, inputs, value, lockTime, marker);
    StepParts(env, inputs, marker, coins, s);
    BuildParts(inputs, plan, value, lockTime, marker);
    SplitRoundTrip.Shape(plan, value, lockTime);
  }

  /** So is a reconstructed one, with the amount, lock time and marker of the recorded transaction. */
  lemma ReconstructedStep(env: Env, inputs: SplitInputs, recorded: Transaction, tip: u32)
    returns (coins: seq<SplitCoin>)
    requires Reconstruct(env, inputs, recorded, tip).Ok?
    ensures var s := Reconstruct(env, inputs, recorded, tip).value;
            && s.psbt.tx == recorded && Final(env, s, tip)
            && Decode(recorded.outputs[0].script).Some?
            && StepFor(env, inputs, Decode(recorded.outputs[0].script).value.forkMarker, coins, s)
  {
    hide MakePlan, Build, StepFor, Decode;
    var marker := ForkMarker(recorded.outputs[0].script).value;
    var plan := MakePlan(env, inputs, marker).value;
    coins := BuiltStep(env, inputs, recorded.outputs[1].value, recorded.lockTime, marker);
    BuildParts(inputs, plan, recorded.outputs[1].value, recorded.lockTime, marker);
    SplitRoundTrip.Shape(plan, recorded.outputs[1].value, recorded.lockTime);
  }

  lemma StepParts(env: Env, inputs: SplitInputs, marker: Hash, coins: seq<SplitCoin>, s: Step1)
    requires StepFor(env, inputs, marker, coins, s)
    ensures |s.psbt.tx.outputs| == 2 && s.total == Total(coins)
  {
    hide InputOf, DerivedAs, Decode, Concat;
  }

  // ----- exactly when -----

  lemma SamePoints(coins: seq<SplitCoin>, other: seq<SplitCoin>)
    requires multiset(coins) == multiset(other) && Increasing(PointsOf(CoinPoint, coins))
    ensures DistinctCoins(other) && SortCoins(other) == coins
  {
    hide Less, SortCoins;
    var points := PointsOf(CoinPoint, coins);
    forall i, j | 0 <= i < j < |coins|
      ensures coins[i].outpoint != coins[j].outpoint && !Less(coins[j].outpoint, coins[i].outpoint)
    {
      assert Less(points[i], points[j]);
      LessTotal(points[i], points[j]);
    }
    DistinctPermuted(coins, other);
    SortSorts(other);
    SortedUnique(coins, SortCoins(other));
  }

  /** The coins as selection describes them. */
  ghost predicate Describes(inputs: SplitInputs, coins: seq<SplitCoin>, selected: seq<Selected>) {
    && |selected| == |coins|
    && forall i :: 0 <= i < |coins| ==>
         && coins[i].outpoint.vout < |coins[i].previous.outputs|
         && selected[i] == Selected(coins[i].outpoint, coins[i].branch, coins[i].index, coins[i].previous,
                                    coins[i].previous.outputs[coins[i].outpoint.vout], selected[i].definite)
         && DerivedAs(inputs.source, coins[i].branch, coins[i].index, selected[i].definite)
  }

  /** Two steps for one request, with one amount, lock time and size, are the same step. */
  lemma StepUnique(env: Env, inputs: SplitInputs, marker: Hash, coins: seq<SplitCoin>, s: Step1, t: Step1)
    requires StepFor(env, inputs, marker, coins, s) && StepFor(env, inputs, marker, coins, t)
    requires s.maximumSignedVbytes == t.maximumSignedVbytes && s.psbt.tx.lockTime == t.psbt.tx.lockTime
    requires s.psbt.tx.outputs[1].value == t.psbt.tx.outputs[1].value
    ensures s == t
  {
    hide Decode, Concat;
    forall i | 0 <= i < |coins|
      ensures s.psbt.tx.inputs[i] == t.psbt.tx.inputs[i] && s.psbt.inputs[i] == t.psbt.inputs[i] && s.inputs[i] == t.inputs[i]
    {
    }
    assert s.psbt.tx.inputs == t.psbt.tx.inputs && s.psbt.inputs == t.psbt.inputs && s.inputs == t.inputs;
    assert Prevouts(s.psbt.tx) == Prevouts(t.psbt.tx);
    var a, b := s.psbt.tx.outputs, t.psbt.tx.outputs;
    SamePoison(env.sha, a[0].script, b[0].script, Prevouts(s.psbt.tx));
    assert a == [a[0], a[1]] && b == [b[0], b[1]];
  }

  lemma SamePoison(sha: Sha256, a: Script, b: Script, points: seq<OutPoint>)
    requires Decode(a).Some? && Decode(a) == Decode(b) && Decode(a).value.commitment == sha(Concat(EncodeOutPoint, points))
    requires Decode(a).value.version == 1
    ensures a == b
    ensures PoisonScript(sha, Decode(a).value.chain, Decode(a).value.forkMarker, points) == Some(a)
  {
    hide Decode, Concat, PoisonScript;
    DecoderInvertsEncoder(sha, a, Decode(a).value, points);
    DecoderInvertsEncoder(sha, b, Decode(a).value, points);
  }

  lemma OneDefinite(source: SplitSource, branch: Branch, index: u32, d: Definite, e: Definite)
    requires DerivedAs(source, branch, index, d) && DerivedAs(source, branch, index, e)
    ensures d == e
  {
  }

  /** A described coin is selected as described. */
  lemma DescribedCoin(env: Env, inputs: SplitInputs, c: SplitCoin, one: Selected, txin: TxIn, input: Spend.PsbtInput)
    requires InputOf(env, inputs, c, txin, input) && c.previous.outputs[c.outpoint.vout].value <= MAX_MONEY
    requires one == Selected(c.outpoint, c.branch, c.index, c.previous, c.previous.outputs[c.outpoint.vout], one.definite)
    requires DerivedAs(inputs.source, c.branch, c.index, one.definite)
    ensures SelectOne(env, inputs.source, c, inputs.forkHeight) == Ok(one) && one.definite.origins.Some?
    ensures SharedAndOwned(env, inputs.source, inputs.forkHeight, c)
  {
    hide Derive, DerivedAs;
    var d :| DerivedAs(inputs.source, c.branch, c.index, d) && c.previous.outputs[c.outpoint.vout].script == d.script
             && d.origins.Some?;
    OneDefinite(inputs.source, c.branch, c.index, d, one.definite);
    DeriveIff(inputs.source, c.branch, c.index, d);
  }

  lemma {:induction false} EachBelow(coins: seq<SplitCoin>, i: nat)
    requires i < |coins|
    ensures ValueOf(coins[i]) <= Total(coins)
  {
    hide ValueOf;
    if i > 0 { EachBelow(coins[1..], i - 1); }
  }

  /** Selection's answer for a described step. */
  lemma SelectedStep(env: Env, inputs: SplitInputs, marker: Hash, coins: seq<SplitCoin>, selected: seq<Selected>, s: Step1)
    requires StepFor(env, inputs, marker, coins, s) && Describes(inputs, coins, selected)
    requires coins != [] && Total(coins) <= MAX_MONEY
    ensures Select(env, inputs.source, inputs.coins, inputs.forkHeight)
         == Ok(Selection(selected, PointsOf(CoinPoint, coins), Total(coins)))
    ensures forall i :: 0 <= i < |selected| ==> selected[i].definite.origins.Some?
  {
    hide SelectFrom, SelectOne, Select, Decode, Concat, InputOf, SharedAndOwned, DerivedAs, SortCoins, DistinctCoins,
         Increasing, Total, ValueOf;
    forall i | 0 <= i < |coins|
      ensures SelectOne(env, inputs.source, coins[i], inputs.forkHeight) == Ok(selected[i])
      ensures SharedAndOwned(env, inputs.source, inputs.forkHeight, coins[i]) && selected[i].definite.origins.Some?
    {
      EachBelow(coins, i);
      ValueIs(coins[i]);
      DescribedCoin(env, inputs, coins[i], selected[i], s.psbt.tx.inputs[i], s.psbt.inputs[i]);
    }
    SamePoints(coins, inputs.coins);
    TotalPermuted(coins, inputs.coins);
    forall c | c in inputs.coins ensures SharedAndOwned(env, inputs.source, inputs.forkHeight, c) {
      assert c in multiset(coins);
    }
    SelectIff(env, inputs.source, inputs.coins, inputs.forkHeight);
    SelectIs(env, inputs);
    SelectedAll(env, inputs.source, coins, inputs.forkHeight);
    assert Select(env, inputs.source, inputs.coins, inputs.forkHeight).value.selected == selected;
  }

  lemma ValueIs(c: SplitCoin)
    requires c.outpoint.vout < |c.previous.outputs|
    ensures ValueOf(c) == c.previous.outputs[c.outpoint.vout].value
  {
  }

  lemma TotalPermuted(coins: seq<SplitCoin>, other: seq<SplitCoin>)
    requires multiset(coins) == multiset(other)
    ensures Total(coins) == Total(other) && (coins == [] <==> other == [])
  {
    SumPermuted(ValueOf, coins, other);
    PermutedLength(coins, other);
  }

  lemma {:induction false} InputsForOk(selected: seq<Selected>)
    requires forall i :: 0 <= i < |selected| ==> selected[i].definite.origins.Some?
    ensures InputsFor(selected).Ok?
  {
    if selected != [] { InputsForOk(selected[1..]); }
  }

  /** The outputs before the amount is known. */
  function Unpriced(tx: Transaction): seq<TxOut>
    requires |tx.outputs| == 2
  {
    [TxOut(0, tx.outputs[0].script), TxOut(0, tx.outputs[1].script)]
  }

  lemma PlannedStep(env: Env, inputs: SplitInputs, marker: Hash, coins: seq<SplitCoin>, selected: seq<Selected>, s: Step1)
    requires StepFor(env, inputs, marker, coins, s) && Describes(inputs, coins, selected)
    requires coins != [] && Total(coins) <= MAX_MONEY
    requires MaximumSignedVbytes(selected, Unpriced(s.psbt.tx)) == Ok(s.maximumSignedVbytes)
    ensures var plan := MakePlan(env, inputs, marker);
            && plan.Ok? && plan.value.selected == selected && plan.value.total == Total(coins)
            && plan.value.maximumSignedVbytes == s.maximumSignedVbytes
            && plan.value.destination.script == s.psbt.tx.outputs[1].script && plan.value.destination.origins.Some?
            && InputsFor(selected).Ok?
  {
    hide Select, Decode, Concat, InputOf, DerivedAs, Increasing, Total, MaximumSignedVbytes, PoisonScript, Derive, InputsFor;
    SelectedStep(env, inputs, marker, coins, selected, s);
    InputsForOk(selected);
    var tx := s.psbt.tx;
    var d :| DerivedAs(inputs.source, External, inputs.destination, d) && tx.outputs[1].script == d.script && d.origins.Some?;
    DeriveIff(inputs.source, External, inputs.destination, d);
    assert Prevouts(tx) == PointsOf(CoinPoint, coins) by { SpentPoints(env, inputs, marker, coins, s); }
    DecodedChain(tx.outputs[0].script);
    SamePoison(env.sha, tx.outputs[0].script, tx.outputs[0].script, PointsOf(CoinPoint, coins));
  }

  lemma SpentPoints(env: Env, inputs: SplitInputs, marker: Hash, coins: seq<SplitCoin>, s: Step1)
    requires StepFor(env, inputs, marker, coins, s)
    ensures Prevouts(s.psbt.tx) == PointsOf(CoinPoint, coins)
  {
    hide Decode, Concat, DerivedAs;
  }

  lemma DecodedChain(script: Script)
    requires Decode(script).Some?
    ensures Decode(script).value.chain == Bitcoin || Decode(script).value.chain == Testnet4
  {
  }

  /** Step 1 is created exactly when the coins are within the money range, the rate is allowed and the
      step is final at the tip; and it is the only step of that amount, lock time and size. */
  lemma CreateIff(env: Env, inputs: SplitInputs, feerate: nat, lockTime: u32, tip: u32, marker: Hash,
                  coins: seq<SplitCoin>, selected: seq<Selected>, s: Step1)
    requires StepFor(env, inputs, marker, coins, s) && Describes(inputs, coins, selected)
    requires MaximumSignedVbytes(selected, Unpriced(s.psbt.tx)) == Ok(s.maximumSignedVbytes)
    requires s.psbt.tx.lockTime == lockTime
    requires s.psbt.tx.outputs[1].value == Total(coins) - feerate * s.maximumSignedVbytes
    ensures Create(env, inputs, feerate, lockTime, tip, marker) == Ok(s) <==>
              Total(coins) <= MAX_MONEY && 1 <= feerate <= 1000 && Final(env, s, tip)
  {
    hide MakePlan, Build, StepFor, Describes, Total, MaximumSignedVbytes;
    StepParts(env, inputs, marker, coins, s);
    var r := Create(env, inputs, feerate, lockTime, tip, marker);
    if r.Ok? {
      var found := CreatedStep(env, inputs, feerate, lockTime, tip, marker);
      assert found == coins by { OneOrder(env, inputs, marker, found, coins, r.value, s); }
      assert Total(coins) <= MAX_MONEY by { CreatedTotal(env, inputs, feerate, lockTime, tip, marker, coins, s); }
    }
    if Total(coins) <= MAX_MONEY && 1 <= feerate <= 1000 && Final(env, s, tip) {
      CreateOk(env, inputs, feerate, lockTime, tip, marker, coins, selected, s);
      StepUnique(env, inputs, marker, coins, r.value, s);
    }
  }

  lemma OneOrder(env: Env, inputs: SplitInputs, marker: Hash, a: seq<SplitCoin>, b: seq<SplitCoin>, s: Step1, t: Step1)
    requires StepFor(env, inputs, marker, a, s) && StepFor(env, inputs, marker, b, t)
    ensures a == b
  {
    hide Decode, Concat, DerivedAs, InputOf, Increasing;
    SamePoints(a, inputs.coins);
    SamePoints(b, inputs.coins);
  }

  lemma CreatedTotal(env: Env, inputs: SplitInputs, feerate: nat, lockTime: u32, tip: u32, marker: Hash,
                     coins: seq<SplitCoin>, s: Step1)
    requires Create(env, inputs, feerate, lockTime, tip, marker).Ok? && StepFor(env, inputs, marker, coins, s)
    ensures Total(coins) <= MAX_MONEY
  {
    hide Build, Select, DerivedAs, Decode, Concat, InputOf, Total, Increasing, SharedAndOwned, DistinctCoins;
    PlanParts(env, inputs, marker);
    SelectIff(env, inputs.source, inputs.coins, inputs.forkHeight);
    TotalPermuted(coins, inputs.coins);
  }

  lemma CreateOk(env: Env, inputs: SplitInputs, feerate: nat, lockTime: u32, tip: u32, marker: Hash,
                 coins: seq<SplitCoin>, selected: seq<Selected>, s: Step1)
    requires StepFor(env, inputs, marker, coins, s) && Describes(inputs, coins, selected)
    requires MaximumSignedVbytes(selected, Unpriced(s.psbt.tx)) == Ok(s.maximumSignedVbytes)
    requires s.psbt.tx.lockTime == lockTime
    requires s.psbt.tx.outputs[1].value == Total(coins) - feerate * s.maximumSignedVbytes
    requires Total(coins) <= MAX_MONEY && 1 <= feerate <= 1000 && Final(env, s, tip)
    ensures var r := Create(env, inputs, feerate, lockTime, tip, marker);
            && r.Ok? && StepFor(env, inputs, marker, coins, r.value)
            && r.value.maximumSignedVbytes == s.maximumSignedVbytes && r.value.psbt.tx.lockTime == lockTime
            && r.value.psbt.tx.outputs[1].value == s.psbt.tx.outputs[1].value
  {
    hide MakePlan, StepFor, Describes, Total, MaximumSignedVbytes, InputsFor, UnsignedTransaction;
    StepParts(env, inputs, marker, coins, s);
    assert coins != [] by { if coins == [] { NoCoins(); } }
    PlannedStep(env, inputs, marker, coins, selected, s);
    var plan := MakePlan(env, inputs, marker).value;
    var value := plan.total - plan.maximumSignedVbytes * feerate;
    assert Build(inputs, plan, value, lockTime, marker).Ok?;
    var r := Create(env, inputs, feerate, lockTime, tip, marker);
    assert r == Build(inputs, plan, value, lockTime, marker);
    hide Build;
    var found := BuiltStep(env, inputs, value, lockTime, marker);
    BuildParts(inputs, plan, value, lockTime, marker);
    OneOrder(env, inputs, marker, found, coins, r.value, s);
  }

  lemma NoCoins()
    ensures Total([]) == 0
  {
  }
}
