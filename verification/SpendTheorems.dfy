/** What the spend builder builds and what the pre-broadcast check accepts. */
module SpendTheorems {
  import opened Wrappers
  import opened Bytes
  import opened Transactions
  import opened Spend

  // ----- the check -----

  /** The input carries the previous transaction its outpoint names, with that output, within the money
      range and as any witness UTXO says, and the wallet's derivations. */
  predicate Proven(env: Env, p: Psbt, i: nat)
    requires |p.inputs| == |p.tx.inputs| && i < |p.inputs|
  {
    var o, input := p.tx.inputs[i].prevout, p.inputs[i];
    && input.hasOrigins && input.previous.Some? && env.txid(input.previous.value) == o.txid
    && o.vout < |input.previous.value.outputs| && input.previous.value.outputs[o.vout].value <= MAX_MONEY
    && (input.witnessUtxo.Some? ==> input.witnessUtxo.value == input.previous.value.outputs[o.vout])
  }

  /** The value that input's outpoint had when it was created. */
  function ProvenValue(env: Env, p: Psbt, i: nat): nat
    requires |p.inputs| == |p.tx.inputs| && i < |p.inputs|
  {
    if Proven(env, p, i) then p.inputs[i].previous.value.outputs[p.tx.inputs[i].prevout.vout].value else 0
  }

  function ProvenTotal(env: Env, p: Psbt, i: nat): nat
    requires |p.inputs| == |p.tx.inputs| && i <= |p.inputs|
    decreases |p.inputs| - i
  {
    if i == |p.inputs| then 0 else ProvenValue(env, p, i) + ProvenTotal(env, p, i + 1)
  }

  lemma {:induction false} AddInputsIff(env: Env, p: Psbt, i: nat, sum: nat)
    requires |p.inputs| == |p.tx.inputs| && i <= |p.inputs| && sum < U64_LIMIT
    ensures AddInputs(env, p, i, sum).Ok? <==>
              (forall j :: i <= j < |p.inputs| ==> Proven(env, p, j)) && sum + ProvenTotal(env, p, i) < U64_LIMIT
    ensures AddInputs(env, p, i, sum).Ok? ==> AddInputs(env, p, i, sum).value == sum + ProvenTotal(env, p, i)
    decreases |p.inputs| - i
  {
    if i < |p.inputs| && Proven(env, p, i) && sum + ProvenValue(env, p, i) < U64_LIMIT {
      AddInputsIff(env, p, i + 1, sum + ProvenValue(env, p, i));
    }
  }

  /** The economics of a spend along one path: outputs added as a release build adds them, a fee of at
      most one bitcoin at one to a thousand satoshis per worst-case vbyte, and no dust. */
  predicate Sound(env: Env, desc: Descriptor, p: Psbt, primary: bool) {
    && |p.inputs| == |p.tx.inputs| && |p.outputs| == |p.tx.outputs| > 0
    && (forall i :: 0 <= i < |p.inputs| ==> Proven(env, p, i)) && ProvenTotal(env, p, 0) < U64_LIMIT
    && var fee, size := ProvenTotal(env, p, 0) - SumValues(p.tx.outputs) % U64_LIMIT, desc.maxVbytes(p.tx, primary);
    && 0 <= fee <= 100_000_000 && size > 0 && size <= fee < 1001 * size
    && forall i :: 0 <= i < |p.tx.outputs| ==> p.tx.outputs[i].value >= env.dust(p.tx.outputs[i].script)
  }

  lemma RateBounds(fee: nat, size: nat)
    requires size > 0
    ensures 1 <= fee / size <= 1000 <==> size <= fee < 1001 * size
  {
    var q := fee / size;
    assert fee == size * q + fee % size;
    assert q >= 1 ==> size * q >= size;
    assert q <= 1000 ==> size * q <= size * 1000;
    assert q >= 1001 ==> size * q >= size * 1001;
  }

  lemma SanityIff(env: Env, desc: Descriptor, p: Psbt, primary: bool)
    ensures SanityCheck(env, desc, p, primary).Ok? <==> Sound(env, desc, p, primary)
  {
    hide AddInputs, Proven, SumValues, Authenticate;
    if |p.inputs| == |p.tx.inputs| {
      AddInputsIff(env, p, 0, 0);
      var fee, size := ProvenTotal(env, p, 0) - SumValues(p.tx.outputs) % U64_LIMIT, desc.maxVbytes(p.tx, primary);
      if fee >= 0 && size > 0 { RateBounds(fee, size); }
    }
  }

  /** The pre-broadcast check accepts exactly the PSBTs that are sound along one of the two paths. */
  lemma ReverifyIff(env: Env, desc: Descriptor, p: Psbt)
    ensures Reverify(env, desc, p).Ok? <==> Sound(env, desc, p, true) || Sound(env, desc, p, false)
  {
    hide SanityCheck, Sound;
    SanityIff(env, desc, p, true);
    SanityIff(env, desc, p, false);
  }

  // ----- the builder -----

  /** The wallet's transaction pays this coin's amount to the script the descriptor derives for it. */
  predicate Owned(env: Env, desc: Descriptor, c: Coin) {
    var previous := env.getTx(c.outpoint.txid);
    && previous.Some? && env.txid(previous.value) == c.outpoint.txid && c.outpoint.vout < |previous.value.outputs|
    && previous.value.outputs[c.outpoint.vout] == TxOut(c.amount, desc.derive(c.isChange, c.index))
    && c.amount <= MAX_MONEY
  }

  lemma InputForIff(env: Env, desc: Descriptor, c: Coin)
    ensures InputFor(env, desc, c).Ok? <==> Owned(env, desc, c)
    ensures InputFor(env, desc, c).Ok? ==>
              InputFor(env, desc, c).value == PsbtInput(env.getTx(c.outpoint.txid),
                                                        Some(TxOut(c.amount, desc.derive(c.isChange, c.index))), true, [])
  {
  }

  lemma {:induction false} InputsForIff(env: Env, desc: Descriptor, coins: seq<Coin>)
    ensures InputsFor(env, desc, coins).Ok? <==> forall i :: 0 <= i < |coins| ==> Owned(env, desc, coins[i])
  {
    hide Owned, InputFor;
    if coins != [] {
      InputForIff(env, desc, coins[0]);
      InputsForIff(env, desc, coins[1..]);
      assert forall i :: 0 < i < |coins| ==> coins[i] == coins[1..][i - 1];
    }
  }

  /** The transaction spends these coins in order, each with its own sequence or else the replaceable
      one, unsigned, and its PSBT input carries the wallet's transaction and the output it spends. */
  predicate SpendsCoins(env: Env, desc: Descriptor, p: Psbt, coins: seq<Coin>) {
    && |p.tx.inputs| == |p.inputs| == |coins|
    && forall i :: 0 <= i < |coins| ==>
         && p.tx.inputs[i] == TxIn(coins[i].outpoint, [],
                                   if coins[i].sequence.Some? then coins[i].sequence.value else 0xffff_fffd, [])
         && Owned(env, desc, coins[i])
         && p.inputs[i].previous == env.getTx(coins[i].outpoint.txid) && p.inputs[i].hasOrigins
         && p.inputs[i].witnessUtxo == Some(TxOut(coins[i].amount, desc.derive(coins[i].isChange, coins[i].index)))
  }

  /** The recipients as asked for, then a worthless poison output if there is one, then the change if
      there is any, and nothing else. */
  predicate Pays(outputs: seq<TxOut>, destinations: seq<TxOut>, poison: Option<Script>, change: u64, changeScript: Script) {
    var n := |destinations|;
    var k := if poison.Some? then n + 1 else n;
    && |outputs| == (if change > 0 then k + 1 else k)
    && (forall i :: 0 <= i < n ==> outputs[i] == destinations[i])
    && (poison.Some? ==> outputs[n].value == 0 && outputs[n].script == poison.value)
    && (change > 0 ==> outputs[k].value == change && outputs[k].script == changeScript)
  }

  predicate Payable(value: u64) { 500 <= value <= MAX_MONEY }

  lemma {:induction false} OutputValuesIff(outs: seq<TxOut>)
    ensures CheckOutputValues(outs).Ok? <==> forall i :: 0 <= i < |outs| ==> Payable(outs[i].value)
  {
    if outs != [] {
      OutputValuesIff(outs[1..]);
      assert forall i :: 0 < i < |outs| ==> outs[i] == outs[1..][i - 1];
    }
  }

  /** What the request must be for a spend to be attempted. */
  predicate Requested(env: Env, desc: Descriptor, destinations: seq<TxOut>, feerate: nat, selection: Option<Selection>) {
    && 1 <= feerate < 0x1_0000 && (forall i :: 0 <= i < |destinations| ==> Payable(destinations[i].value))
    && selection.Some? && (selection.value.change > 0 ==> Payable(selection.value.change))
    && forall i :: 0 <= i < |selection.value.selected| ==> Owned(env, desc, selection.value.selected[i])
  }

  /** No candidate has a relative lock. */
  predicate NoRelativeLock(candidates: seq<Coin>) {
    forall i :: 0 <= i < |candidates| ==> candidates[i].sequence.Some? ==> candidates[i].sequence.value >= 0x8000_0000
  }

  /** The transaction the builder is asked for is the only one it can return, and it returns it exactly
      when the request is payable, every coin is the wallet's and the spend is sound along its path. */
  lemma CreateSpendIff(env: Env, desc: Descriptor, destinations: seq<TxOut>, candidates: seq<Coin>, feerate: nat,
                       changeScript: Script, lockTime: u32, poison: Option<Script>, selection: Option<Selection>, p: Psbt)
    requires p.tx.version == 2 && p.tx.lockTime == lockTime && p.outputs == Blank(|p.tx.outputs|)
    requires selection.Some? ==>
               && SpendsCoins(env, desc, p, selection.value.selected)
               && (forall i :: 0 <= i < |p.inputs| ==> p.inputs[i].metadata == [])
               && Pays(p.tx.outputs, destinations, poison, selection.value.change, changeScript)
    ensures CreateSpend(env, desc, destinations, candidates, feerate, changeScript, lockTime, poison, selection) == Ok(p) <==>
              && Requested(env, desc, destinations, feerate, selection)
              && Sound(env, desc, p, NoRelativeLock(candidates))
  {
    hide InputsFor, CheckOutputValues, SanityCheck, Sound, Owned, InputFor;
    OutputValuesIff(destinations);
    if selection.Some? {
      var s := selection.value;
      InputsForIff(env, desc, s.selected);
      SanityIff(env, desc, p, NoRelativeLock(candidates));
      SamePath(candidates);
      if InputsFor(env, desc, s.selected).Ok? { SamePsbt(env, desc, p, s.selected); }
      assert p.tx.inputs == TxInsFor(s.selected);
      assert p.tx.outputs == OutputsFor(destinations, poison, TxOut(s.change, changeScript));
      assert p.tx == Transaction(2, lockTime, TxInsFor(s.selected), p.tx.outputs);
    }
  }

  lemma SamePath(candidates: seq<Coin>)
    ensures UsesPrimaryPath(candidates) <==> NoRelativeLock(candidates)
  {
    if NoRelativeLock(candidates) {
      forall c | c in candidates ensures c.sequence.Some? ==> c.sequence.value >= 0x8000_0000 {
        var i :| 0 <= i < |candidates| && candidates[i] == c;
      }
    }
  }

  lemma SamePsbt(env: Env, desc: Descriptor, p: Psbt, coins: seq<Coin>)
    requires SpendsCoins(env, desc, p, coins) && InputsFor(env, desc, coins).Ok?
    requires forall i :: 0 <= i < |p.inputs| ==> p.inputs[i].metadata == []
    ensures InputsFor(env, desc, coins).value == p.inputs
  {
    hide InputsFor, InputFor, Owned;
    forall i | 0 <= i < |coins| ensures InputsFor(env, desc, coins).value[i] == p.inputs[i] {
      InputForIff(env, desc, coins[i]);
      assert InputFor(env, desc, coins[i]) == Ok(InputsFor(env, desc, coins).value[i]);
    }
  }

  /** Every spend the builder returns pays each recipient its amount at its own script, spends the
      selected coins in order, and conserves value whenever the output total fits 64 bits. */
  lemma BuiltSpend(env: Env, desc: Descriptor, destinations: seq<TxOut>, candidates: seq<Coin>, feerate: nat,
                   changeScript: Script, lockTime: u32, poison: Option<Script>, selection: Option<Selection>)
    requires CreateSpend(env, desc, destinations, candidates, feerate, changeScript, lockTime, poison, selection).Ok?
    ensures selection.Some?
    ensures var s := selection.value;
            var p := CreateSpend(env, desc, destinations, candidates, feerate, changeScript, lockTime, poison, selection).value;
            && p.tx.version == 2 && p.tx.lockTime == lockTime && |p.outputs| == |p.tx.outputs|
            && SpendsCoins(env, desc, p, s.selected) && Pays(p.tx.outputs, destinations, poison, s.change, changeScript)
            && Sound(env, desc, p, NoRelativeLock(candidates)) && Reverify(env, desc, p).Ok?
            && SumValues(p.tx.outputs) == SumValues(destinations) + s.change
            && (SumAmounts(s.selected) == SumValues(destinations) + s.change + Fee(env, desc, p) <==>
                  SumValues(p.tx.outputs) < U64_LIMIT)
  {
    hide InputsFor, CheckOutputValues, SanityCheck, Sound, Owned, InputFor, Reverify, SumValues, Pays;
    var s := selection.value;
    var p := CreateSpend(env, desc, destinations, candidates, feerate, changeScript, lockTime, poison, selection).value;
    InputsForIff(env, desc, s.selected);
    BuiltSpends(env, desc, p, s.selected);
    assert Pays(p.tx.outputs, destinations, poison, s.change, changeScript) by {
      BuiltPays(destinations, poison, s.change, changeScript);
    }
    SanityIff(env, desc, p, NoRelativeLock(candidates));
    SamePath(candidates);
    BuiltPassesCheck(env, desc, destinations, candidates, feerate, changeScript, lockTime, poison, selection);
    OutputsTotal(destinations, poison, TxOut(s.change, changeScript));
    FeeConserved(env, desc, p);
    InputsCounted(env, desc, p, s.selected);
  }

  lemma InputsCounted(env: Env, desc: Descriptor, p: Psbt, coins: seq<Coin>)
    requires Reverify(env, desc, p).Ok? && p.tx.inputs == TxInsFor(coins) && InputsFor(env, desc, coins) == Ok(p.inputs)
    ensures InputTotal(env, desc, p) == SumAmounts(coins)
  {
    hide InputsFor, AddInputs, Economics;
    BuiltInputs(env, p, coins, desc, 0, 0);
    assert coins[0..] == coins;
  }

  lemma BuiltSpends(env: Env, desc: Descriptor, p: Psbt, coins: seq<Coin>)
    requires p.tx.inputs == TxInsFor(coins) && InputsFor(env, desc, coins) == Ok(p.inputs)
    ensures SpendsCoins(env, desc, p, coins)
  {
    hide InputsFor, InputFor, Owned;
    forall i | 0 <= i < |coins|
      ensures InputFor(env, desc, coins[i]) == Ok(p.inputs[i]) && p.tx.inputs[i] == TxInFor(coins[i])
      ensures Owned(env, desc, coins[i]) && p.inputs[i] == InputFor(env, desc, coins[i]).value
    {
      InputForIff(env, desc, coins[i]);
    }
    forall i | 0 <= i < |coins| ensures p.inputs[i].previous == env.getTx(coins[i].outpoint.txid) && p.inputs[i].hasOrigins
      && p.inputs[i].witnessUtxo == Some(TxOut(coins[i].amount, desc.derive(coins[i].isChange, coins[i].index)))
    {
      InputForIff(env, desc, coins[i]);
    }
  }

  lemma BuiltPays(destinations: seq<TxOut>, poison: Option<Script>, change: u64, changeScript: Script)
    ensures Pays(OutputsFor(destinations, poison, TxOut(change, changeScript)), destinations, poison, change, changeScript)
  {
  }

  lemma {:induction false} SumConcat(a: seq<TxOut>, b: seq<TxOut>)
    ensures SumValues(a + b) == SumValues(a) + SumValues(b)
  {
    if a == [] {
      assert a + b == b;
    } else {
      assert (a + b)[1..] == a[1..] + b;
      SumConcat(a[1..], b);
    }
  }

  lemma OutputsTotal(destinations: seq<TxOut>, poison: Option<Script>, change: TxOut)
    ensures SumValues(OutputsFor(destinations, poison, change)) == SumValues(destinations) + change.value
  {
    var a := if poison.Some? then [TxOut(0, poison.value)] else [];
    var b := if change.value > 0 then [change] else [];
    SumConcat(destinations + a, b);
    SumConcat(destinations, a);
  }
}
