/** When the claim builders succeed, and what their records say about the transactions they hold. */
module ClaimRecords {
  import opened Wrappers
  import opened Bytes
  import opened Transactions
  import opened OutPoints
  import opened Sequences
  import opened Ledger
  import opened Sighash
  import opened SplitPoison
  import opened Spend
  import opened Ancestry
  import opened ClaimSpend
  import opened ClaimPair
  import opened ClaimDecision

  // ----- when a side is built -----

  lemma {:induction false} CountOne(coins: seq<Coin>, o: OutPoint)
    requires DistinctPoints(coins)
    ensures Count(coins, o) == if o in Points(coins) then 1 else 0
  {
    hide Points, DistinctPoints;
    if coins == [] {
      NoPoints();
    } else {
      HeadPoint(coins);
      CountOne(coins[1..], o);
    }
  }

  /** The funding coin alone covers what the outputs leave of the coins. */
  predicate Covers(coins: seq<Coin>, funding: OutPoint, tx: Transaction) {
    Find(coins, funding).Some? && 0 <= SumAmounts(coins) - SumValues(tx.outputs) <= Find(coins, funding).value.amount
  }

  lemma FundingIff(coins: seq<Coin>, funding: OutPoint, tx: Transaction, chain: ChainId)
    requires SumAmounts(coins) < U64_LIMIT
    ensures CheckFunding(coins, funding, tx, chain).Ok? <==> Covers(coins, funding, tx)
  {
    hide SumAmounts, SumValues, Find;
  }

  /** The Bitcoin side is built exactly for two or more good coins with B among them, which the builder
      can sweep at a fee that B covers. */
  lemma AncestryIff(sha: Sha256, env: Env, chain: ChainId, desc: Descriptor, req: Request, dep: Dependency)
    ensures CreateAncestry(sha, env, chain, desc, req, dep).Ok? <==>
              && chain == Bitcoin && !desc.taproot && !req.changeHardened
              && |req.coins| >= 2 && dep.selected in Points(req.coins) && SumAmounts(req.coins) <= MAX_MONEY
              && GoodCoins(desc, desc.derive(true, req.changeIndex), [], req.coins)
              && Sweep(env, desc, req, None).Ok? && Covers(req.coins, dep.selected, Sweep(env, desc, req, None).value.tx)
  {
    hide Sweep, CheckCoins, CheckFunding, Points, Others, Count, Covers, SumAmounts, DistinctPoints, Find;
    CheckCoinsIff(desc, Destination(desc, req), req.coins, [], 0);
    if GoodCoins(desc, Destination(desc, req), [], req.coins) { CountOne(req.coins, dep.selected); }
    if Sweep(env, desc, req, None).Ok? && SumAmounts(req.coins) <= MAX_MONEY {
      FundingIff(req.coins, dep.selected, Sweep(env, desc, req, None).value.tx, Bitcoin);
    }
  }

  /** A self-transfer, poisoned or not, is built exactly on a Bitcoin chain for good coins that the builder
      can sweep with the poison for their ordered outpoints. */
  lemma TransferIff(sha: Sha256, env: Env, chain: ChainId, desc: Descriptor, req: Request, marker: Option<Hash>)
    returns (points: seq<OutPoint>)
    ensures var poison := if marker.Some? then PoisonScript(sha, chain, marker.value, points) else None;
            CreateSelfTransfer(sha, env, chain, desc, req, marker).Ok? <==>
              && (chain == Bitcoin || chain == Testnet4) && !desc.taproot && !req.changeHardened && req.coins != []
              && GoodCoins(desc, desc.derive(true, req.changeIndex), [], req.coins) && SumAmounts(req.coins) <= MAX_MONEY
              && OutPoints.Increasing(points) && (forall o :: o in points <==> o in Points(req.coins))
              && Sweep(env, desc, req, poison).Ok?
    ensures CreateSelfTransfer(sha, env, chain, desc, req, marker).Ok? ==>
              var t := CreateSelfTransfer(sha, env, chain, desc, req, marker).value;
              t.chain == chain && t.descriptor == desc && t.changeIndex == req.changeIndex
  {
    hide Sweep, CheckCoins, Points, SumAmounts, PoisonScript, GoodCoins;
    CheckCoinsIff(desc, Destination(desc, req), req.coins, [], 0);
    var seen := CheckCoins(desc, Destination(desc, req), req.coins, [], 0);
    points := if seen.Ok? then seen.value else [];
  }

  /** A coin of the fork side: F, or a coin the Bitcoin side spends, worth and locked as it says there;
      and in either case none at the destination. */
  predicate ForkCoin(source: SelfTransfer, destination: Script, added: Option<OutPoint>, c: Coin)
    requires |source.psbt.inputs| == |source.psbt.tx.inputs|
  {
    var script := source.descriptor.derive(c.isChange, c.index);
    && !c.hardened && script != destination
    && (added == Some(c.outpoint)
        || exists i :: 0 <= i < |source.psbt.inputs| && source.psbt.tx.inputs[i].prevout == c.outpoint
                       && source.psbt.inputs[i].witnessUtxo == Some(TxOut(c.amount, script)))
  }

  lemma {:induction false} PositionFound(inputs: seq<TxIn>, i: nat)
    requires i < |inputs|
    ensures Position(inputs, inputs[i].prevout).Some?
  {
    if i > 0 { PositionFound(inputs[1..], i - 1); }
  }

  lemma ForkCoinIff(source: SelfTransfer, destination: Script, added: Option<OutPoint>, c: Coin)
    requires |source.psbt.inputs| == |source.psbt.tx.inputs| && Distinct(Prevouts(source.psbt.tx))
    ensures CheckForkCoin(source, destination, added, c).Ok? <==> ForkCoin(source, destination, added, c)
  {
    hide Position;
    var points := Prevouts(source.psbt.tx);
    forall i | 0 <= i < |source.psbt.inputs| && source.psbt.tx.inputs[i].prevout == c.outpoint
      ensures Position(source.psbt.tx.inputs, c.outpoint) == Some(i)
    {
      PositionFound(source.psbt.tx.inputs, i);
      var k := Position(source.psbt.tx.inputs, c.outpoint).value;
      assert points[i] == points[k];
    }
  }

  /** The fork side is built exactly for the coins the Bitcoin side spends without B, and F, each as the
      Bitcoin side has it, which the builder can sweep at a fee that F covers. */
  lemma ForkSweepIff(env: Env, source: SelfTransfer, excluded: OutPoint, added: OutPoint, fork: ChainId, req: Request)
    requires |source.psbt.inputs| == |source.psbt.tx.inputs| && Distinct(Prevouts(source.psbt.tx))
    requires SumAmounts(req.coins) < U64_LIMIT
    ensures CreateForkSweep(env, source, Some(excluded), Some(added), fork, req).Ok? <==>
              && ((source.chain == Bitcoin && fork == BitcoinBlake2b)
                  || (source.chain == Testnet4 && fork == BitcoinBlake2bTestnet4))
              && !req.changeHardened && added != NULL_OUTPOINT && added !in Spends(source.psbt.tx)
              && DistinctPoints(req.coins) && Points(req.coins) == Spends(source.psbt.tx) - {excluded} + {added}
              && (forall c :: c in req.coins ==>
                    ForkCoin(source, source.descriptor.derive(true, req.changeIndex), Some(added), c))
              && Sweep(env, source.descriptor, req, None).Ok?
              && Covers(req.coins, added, Sweep(env, source.descriptor, req, None).value.tx)
  {
    hide Sweep, CheckFunding, Points, Covers, SumAmounts, DistinctPoints, Spends, CheckForkCoin, ForkCoin, LE;
    CardinalDistinct(req.coins);
    assert Claimed(source.psbt.tx, Some(excluded), Some(added)) == Spends(source.psbt.tx) - {excluded} + {added};
    if req.coins == [] { NoPoints(); }
    forall c ensures CheckForkCoin(source, source.descriptor.derive(true, req.changeIndex), Some(added), c).Ok? <==>
                       ForkCoin(source, source.descriptor.derive(true, req.changeIndex), Some(added), c)
    {
      ForkCoinIff(source, source.descriptor.derive(true, req.changeIndex), Some(added), c);
    }
    if Sweep(env, source.descriptor, req, None).Ok? {
      FundingIff(req.coins, added, Sweep(env, source.descriptor, req, None).value.tx, BitcoinBlake2b);
    }
  }

  // ----- what the records say -----

  lemma {:induction false} OthersIs(points: seq<OutPoint>, o: OutPoint, k: nat)
    requires Distinct(points) && k < |points| && points[k] == o
    ensures Others(points, o) == points[..k] + points[k + 1..]
  {
    assert points == [points[0]] + points[1..];
    if k == 0 {
      OthersNone(points[1..], o);
    } else {
      OthersIs(points[1..], o, k - 1);
      assert points[..k] == [points[0]] + points[1..][..k - 1] && points[1..][k..] == points[k + 1..];
    }
  }

  lemma {:induction false} OthersNone(points: seq<OutPoint>, o: OutPoint)
    requires forall i :: 0 <= i < |points| ==> points[i] != o
    ensures Others(points, o) == points
  {
    if points != [] {
      OthersNone(points[1..], o);
      assert points == [points[0]] + points[1..];
    }
  }

  /** The prevouts of a sweep of distinct coins are distinct, and the funding coin is one of them. */
  lemma DistinctSweep(env: Env, desc: Descriptor, coins: seq<Coin>, p: Psbt, o: OutPoint) returns (k: nat)
    requires BuiltFrom(env, desc, coins, p) && DistinctPoints(coins) && o in Points(coins)
    ensures Distinct(Prevouts(p.tx)) && k < |p.tx.inputs| && Prevouts(p.tx)[k] == o
  {
    hide BuiltFrom, Points, DistinctPoints, Spends;
    BuiltSpends(env, desc, coins, p);
    CardinalDistinct(coins);
    SpendsPrevouts(p.tx);
    DistinctCount(Prevouts(p.tx));
    assert o in Prevouts(p.tx);
    k :| 0 <= k < |Prevouts(p.tx)| && Prevouts(p.tx)[k] == o;
  }

  /** The Bitcoin side's record, created or reconstructed: B as it was asked for, and the claimed
      outpoints, which are the other inputs in their order. */
  lemma AncestryRecord(sha: Sha256, chain: ChainId, desc: Descriptor, b: Build) returns (k: nat, c: Coin)
    requires HonestAnswer(b.req) && BitcoinSide(sha, chain, desc, b).Ok?
    ensures var t := BitcoinSide(sha, chain, desc, b).value;
            var tx, points := t.transfer.psbt.tx, Prevouts(t.transfer.psbt.tx);
            && Distinct(points) && k < |points| && points[k] == b.dep.selected
            && t.claimedPrevouts == points[..k] + points[k + 1..]
            && c in b.req.coins && c.outpoint == b.dep.selected
            && t.poisonInput == b.dep.selected && t.poisonIndex == c.index && t.poisonChange == c.isChange
            && t.transfer.chain == Bitcoin && t.transfer.changeIndex == b.req.changeIndex && t.transfer.descriptor == desc
            && tx.version == 2 && (if b.recorded.Some? then tx == b.recorded.value else tx.lockTime == b.req.lockTime)
  {
    hide CreateAncestry, CheckFunding, Reverify, BuiltFrom, Points, DistinctPoints, Revalued, GoodCoins, Others;
    var t := BitcoinSide(sha, chain, desc, b).value;
    BitcoinShape(sha, chain, desc, b);
    k := DistinctSweep(b.env, desc, b.req.coins, t.transfer.psbt, b.dep.selected);
    OthersIs(Prevouts(t.transfer.psbt.tx), b.dep.selected, k);
    match b.recorded
    case None => c := CreatedRecord(sha, b.env, chain, desc, b.req, b.dep);
    case Some(tx) =>
      var again := b.req.(feerate := 1, lockTime := tx.lockTime);
      c := CreatedRecord(sha, b.env, chain, desc, again, b.dep);
      RevaluedInputs(CreateAncestry(sha, b.env, chain, desc, again, b.dep).value.transfer.psbt, tx.outputs[0].value);
  }

  lemma RevaluedInputs(p: Psbt, value: u64)
    requires p.tx.outputs != []
    ensures Prevouts(Revalued(p, value).tx) == Prevouts(p.tx) && Revalued(p, value).tx.version == p.tx.version
  {
  }

  lemma CreatedRecord(sha: Sha256, env: Env, chain: ChainId, desc: Descriptor, req: Request, dep: Dependency)
    returns (c: Coin)
    requires CreateAncestry(sha, env, chain, desc, req, dep).Ok?
    ensures var t := CreateAncestry(sha, env, chain, desc, req, dep).value;
            && t.claimedPrevouts == Others(Prevouts(t.transfer.psbt.tx), dep.selected)
            && c in req.coins && c.outpoint == dep.selected && t.poisonIndex == c.index && t.poisonChange == c.isChange
            && t.transfer.changeIndex == req.changeIndex && t.transfer.psbt.tx.outputs != []
            && t.transfer.psbt.tx.version == 2 && t.transfer.psbt.tx.lockTime == req.lockTime
  {
    hide Sweep, CheckCoins, CheckFunding, Others, Count;
    c := Find(req.coins, dep.selected).value;
    SweepVersion(env, desc, req);
  }

  lemma SweepVersion(env: Env, desc: Descriptor, req: Request)
    requires Sweep(env, desc, req, None).Ok?
    ensures var tx := Sweep(env, desc, req, None).value.tx; tx.version == 2 && tx.lockTime == req.lockTime && tx.outputs != []
  {
    hide InputsFor, SanityCheck, CheckOutputValues, Destination;
    SweepHasOutput(env, desc, req, None);
  }

  /** The fork side's record: its chain, the identifier of the Bitcoin side, F and the change index. */
  lemma ForkRecord(source: AncestryTransfer, fork: ChainId, f: Build)
    requires |source.transfer.psbt.inputs| == |source.transfer.psbt.tx.inputs| && ForkSide(source, fork, f).Ok?
    ensures var s := ForkSide(source, fork, f).value;
            && s.chain == fork && s.step1 == f.env.txid(source.transfer.psbt.tx) && s.marker == Some(f.dep.selected)
            && s.changeIndex == f.req.changeIndex && s.psbt.tx.version == 2
            && (if f.recorded.Some? then s.psbt.tx == f.recorded.value else s.psbt.tx.lockTime == f.req.lockTime)
  {
    hide Sweep, CheckForkCoins, CheckFunding, Reverify, Points, Claimed, Spends;
    var desc := source.transfer.descriptor;
    match f.recorded
    case None => SweepVersion(f.env, desc, f.req);
    case Some(tx) => SweepVersion(f.env, desc, f.req.(feerate := 1, lockTime := tx.lockTime));
  }
}
