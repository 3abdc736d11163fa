/** What the paired claim transactions guarantee, and the two ledgers they run on. */
module ClaimPair {
  import opened Wrappers
  import opened Bytes
  import opened Transactions
  import opened Sequences
  import opened OutPoints
  import opened Ledger
  import opened Sighash
  import opened Spend
  import opened Ancestry
  import opened ClaimSpend
  import opened SplitPoison
  import ClaimAssess

  /** Coin selection kept to its contract. */
  ghost predicate HonestAnswer(req: Request) {
    req.selection.Some? ==> Honest(Marked(req.coins), req.selection.value)
  }

  /** The PSBT's inputs are these coins, in some order, authenticated for this wallet. */
  ghost predicate BuiltFrom(env: Env, desc: Descriptor, coins: seq<Coin>, p: Psbt) {
    exists selected :: OrderOf(env, desc, coins, p, selected)
  }

  ghost predicate OrderOf(env: Env, desc: Descriptor, coins: seq<Coin>, p: Psbt, selected: seq<Coin>) {
    && multiset(selected) == multiset(Marked(coins))
    && p.tx.inputs == TxInsFor(selected) && InputsFor(env, desc, selected) == Ok(p.inputs)
  }

  // ----- sums and sets of coins -----

  lemma {:induction false} SumMarked(coins: seq<Coin>)
    ensures SumAmounts(Marked(coins)) == SumAmounts(coins)
  {
    if coins != [] {
      SumMarked(coins[1..]);
      assert Marked(coins)[1..] == Marked(coins[1..]);
    }
  }

  lemma MemberIndex<T>(x: T, s: seq<T>) returns (i: nat)
    requires x in s
    ensures i < |s| && s[i] == x
  {
    i :| 0 <= i < |s| && s[i] == x;
  }

  lemma PermutedPoints(selected: seq<Coin>, coins: seq<Coin>)
    requires multiset(selected) == multiset(Marked(coins))
    ensures Points(selected) == Points(coins) && |selected| == |coins|
  {
    PermutedLength(selected, Marked(coins));
    forall o | o in Points(selected) ensures o in Points(coins) {
      var i :| 0 <= i < |selected| && selected[i].outpoint == o;
      assert selected[i] in multiset(Marked(coins));
      var k := MemberIndex(selected[i], Marked(coins));
      assert coins[k].outpoint == o;
    }
    forall o | o in Points(coins) ensures o in Points(selected) {
      var k :| 0 <= k < |coins| && coins[k].outpoint == o;
      assert Marked(coins)[k] in multiset(selected);
      var i := MemberIndex(Marked(coins)[k], selected);
      assert selected[i].outpoint == o;
    }
  }

  lemma SpendsPoints(tx: Transaction, selected: seq<Coin>)
    requires tx.inputs == TxInsFor(selected)
    ensures Spends(tx) == Points(selected)
  {
    forall o | o in Points(selected) ensures o in Spends(tx) {
      var i :| 0 <= i < |selected| && selected[i].outpoint == o;
      assert tx.inputs[i].prevout == o;
    }
    forall o | o in Spends(tx) ensures o in Points(selected) {
      var i :| 0 <= i < |tx.inputs| && tx.inputs[i].prevout == o;
      assert selected[i].outpoint == o;
    }
  }

  /** Such a PSBT spends exactly the coins. */
  lemma BuiltSpends(env: Env, desc: Descriptor, coins: seq<Coin>, p: Psbt)
    requires BuiltFrom(env, desc, coins, p)
    ensures Spends(p.tx) == Points(coins) && |p.tx.inputs| == |coins| == |p.inputs|
  {
    hide InputsFor;
    var selected :| OrderOf(env, desc, coins, p, selected);
    PermutedPoints(selected, coins);
    SpendsPoints(p.tx, selected);
  }

  /** Such a PSBT's authenticated input total is the coins' total. */
  lemma BuiltTotal(env: Env, desc: Descriptor, coins: seq<Coin>, p: Psbt)
    requires BuiltFrom(env, desc, coins, p) && |p.inputs| == |p.tx.inputs|
    requires AddInputs(env, p, 0, 0).Ok?
    ensures AddInputs(env, p, 0, 0) == Ok(SumAmounts(coins))
  {
    hide InputsFor, AddInputs;
    var selected :| OrderOf(env, desc, coins, p, selected);
    BuiltInputs(env, p, selected, desc, 0, 0);
    assert selected[0..] == selected;
    SumPermuted(AmountOf, selected, Marked(coins));
    SumMarked(coins);
  }

  /** A sweep without poison has one output, at the destination, and spends exactly the coins. */
  lemma SweepShape(env: Env, desc: Descriptor, req: Request)
    requires HonestAnswer(req) && Sweep(env, desc, req, None).Ok?
    ensures var p := Sweep(env, desc, req, None).value;
            && BuiltFrom(env, desc, req.coins, p) && Reverify(env, desc, p).Ok?
            && |p.tx.outputs| == 1 && p.tx.outputs[0].script == Destination(desc, req)
  {
    hide InputsFor, SanityCheck, MustSelect, CheckOutputValues, Destination;
    var marked := Marked(req.coins);
    var p := Sweep(env, desc, req, None).value;
    SweepHasOutput(env, desc, req, None);
    BuiltPassesCheck(env, desc, [], marked, req.feerate, Destination(desc, req), req.lockTime, None, req.selection);
    AllMust(marked);
    assert OrderOf(env, desc, req.coins, p, req.selection.value.selected);
  }

  // ----- distinct outpoints -----

  predicate GoodCoin(desc: Descriptor, destination: Script, seen: seq<OutPoint>, c: Coin) {
    && c.outpoint != NULL_OUTPOINT && c.outpoint !in seen && !c.hardened
    && desc.derive(c.isChange, c.index) != destination
  }

  /** What the coin check asks: new, distinct, non-null, normal coins, none at the destination. */
  ghost predicate GoodCoins(desc: Descriptor, destination: Script, seen: seq<OutPoint>, coins: seq<Coin>) {
    DistinctPoints(coins) && forall c :: c in coins ==> GoodCoin(desc, destination, seen, c)
  }

  lemma GoodCons(desc: Descriptor, destination: Script, seen: seq<OutPoint>, next: seq<OutPoint>, coins: seq<Coin>)
    requires coins != [] && forall x :: x in next <==> x in seen || x == coins[0].outpoint
    ensures GoodCoins(desc, destination, seen, coins) <==>
              GoodCoin(desc, destination, seen, coins[0]) && GoodCoins(desc, destination, next, coins[1..])
  {
    hide DistinctPoints;
    var o, rest := coins[0].outpoint, coins[1..];
    HeadPoint(coins);
    assert coins == [coins[0]] + rest;
    if o in Points(rest) {
      var i :| 0 <= i < |rest| && rest[i].outpoint == o;
      assert rest[i] in rest && !GoodCoin(desc, destination, next, rest[i]);
    } else {
      forall d | d in rest ensures GoodCoin(desc, destination, next, d) == GoodCoin(desc, destination, seen, d) {
        var i := MemberIndex(d, rest);
        assert d.outpoint in Points(rest);
      }
    }
  }

  /** The coin check accepts exactly good coins within the money range, and returns their outpoints
      as an ordered set. */
  lemma {:induction false} CheckCoinsIff(desc: Descriptor, destination: Script, coins: seq<Coin>, seen: seq<OutPoint>,
                                         total: nat)
    requires Increasing(seen) && total <= MAX_MONEY
    ensures CheckCoins(desc, destination, coins, seen, total).Ok? <==>
              GoodCoins(desc, destination, seen, coins) && total + SumAmounts(coins) <= MAX_MONEY
    ensures CheckCoins(desc, destination, coins, seen, total).Ok? ==>
              var r := CheckCoins(desc, destination, coins, seen, total).value;
              Increasing(r) && forall o :: o in r <==> o in seen || o in Points(coins)
    decreases |coins|
  {
    hide Increasing, GoodCoins, Insert, Points, LE;
    if coins == [] {
      assert GoodCoins(desc, destination, seen, []) by { NoCoins(desc, destination, seen); }
      assert Points([]) == {} by { NoCoins(desc, destination, seen); }
    } else {
      var c, next := coins[0], Insert(seen, coins[0].outpoint);
      InsertIncreasing(seen, c.outpoint);
      GoodCons(desc, destination, seen, next, coins);
      HeadPoint(coins);
      if total + c.amount <= MAX_MONEY {
        CheckCoinsIff(desc, destination, coins[1..], next, total + c.amount);
      }
    }
  }

  lemma NoCoins(desc: Descriptor, destination: Script, seen: seq<OutPoint>)
    ensures GoodCoins(desc, destination, seen, []) && Points([]) == {}
  {
  }

  lemma HeadPoint(coins: seq<Coin>)
    requires coins != []
    ensures Points(coins) == {coins[0].outpoint} + Points(coins[1..])
    ensures DistinctPoints(coins) <==> DistinctPoints(coins[1..]) && coins[0].outpoint !in Points(coins[1..])
  {
    var rest := coins[1..];
    assert forall i :: 0 < i < |coins| ==> coins[i] == rest[i - 1];
    forall o | o in Points(coins) ensures o in {coins[0].outpoint} + Points(rest) {
      var i :| 0 <= i < |coins| && coins[i].outpoint == o;
      assert i > 0 ==> rest[i - 1].outpoint == o;
    }
    forall o | o in Points(rest) ensures o in Points(coins) {
      var i :| 0 <= i < |rest| && rest[i].outpoint == o;
      assert coins[i + 1].outpoint == o;
    }
  }

  lemma {:induction false} CardinalDistinct(coins: seq<Coin>)
    ensures |Points(coins)| <= |coins|
    ensures |Points(coins)| == |coins| <==> DistinctPoints(coins)
  {
    if coins != [] {
      HeadPoint(coins);
      CardinalDistinct(coins[1..]);
    }
  }

  // ----- the poison transfer -----

  /** A poison transfer's first output is worth nothing, is over the fork's script limit, and reads back
      as the marker and as a commitment to exactly the spent outpoints in order. */
  lemma PoisonBindsInputs(sha: Sha256, env: Env, chain: ChainId, desc: Descriptor, req: Request, marker: Hash)
    returns (outpoints: seq<OutPoint>)
    requires HonestAnswer(req) && CreateSelfTransfer(sha, env, chain, desc, req, Some(marker)).Ok?
    ensures var tx := CreateSelfTransfer(sha, env, chain, desc, req, Some(marker)).value.psbt.tx;
            && ClaimAssess.HasPoison(tx) && tx.outputs != [] && tx.outputs[0].value == 0
            && Decode(tx.outputs[0].script)
                 == Some(Details(PAYLOAD_VERSION, chain, marker, SplitPoison.InputCommitment(sha, outpoints)))
            && Increasing(outpoints) && (forall o :: o in outpoints <==> o in Spends(tx))
            && |tx.inputs| == |req.coins| && |tx.outputs| <= 2
            && forall i :: 0 < i < |tx.outputs| ==> tx.outputs[i].script == desc.derive(true, req.changeIndex)
  {
    hide Sweep, CheckCoins, Payload, Decode, Spends, Points, SplitPoison.InputCommitment;
    CheckCoinsIff(desc, Destination(desc, req), req.coins, [], 0);
    outpoints := CheckCoins(desc, Destination(desc, req), req.coins, [], 0).value;
    PoisonShape(sha, chain, marker, outpoints);
    var poison := PoisonScript(sha, chain, marker, outpoints).value;
    DecoderInvertsEncoder(sha, poison, Details(PAYLOAD_VERSION, chain, marker, SplitPoison.InputCommitment(sha, outpoints)), outpoints);
    PoisonedOutputs(env, desc, req, poison);
    PoisonedShape(env, desc, req, poison);
  }

  /** A sweep with poison puts it first, with at most the change after it. */
  lemma PoisonedOutputs(env: Env, desc: Descriptor, req: Request, poison: Script)
    requires Sweep(env, desc, req, Some(poison)).Ok?
    ensures var outs := Sweep(env, desc, req, Some(poison)).value.tx.outputs;
            && 1 <= |outs| <= 2 && outs[0] == TxOut(0, poison)
            && forall i :: 0 < i < |outs| ==> outs[i].script == Destination(desc, req)
  {
    hide InputsFor, SanityCheck, CheckOutputValues, Destination, TxInsFor, Marked;
  }

  /** And it spends exactly the coins. */
  lemma PoisonedShape(env: Env, desc: Descriptor, req: Request, poison: Script)
    requires HonestAnswer(req) && Sweep(env, desc, req, Some(poison)).Ok?
    ensures var p := Sweep(env, desc, req, Some(poison)).value;
            Spends(p.tx) == Points(req.coins) && |p.tx.inputs| == |req.coins|
  {
    hide InputsFor, SanityCheck, MustSelect, CheckOutputValues, Destination, Spends, Points, OutputsFor;
    var marked := Marked(req.coins);
    var p := Sweep(env, desc, req, Some(poison)).value;
    AllMust(marked);
    assert OrderOf(env, desc, req.coins, p, req.selection.value.selected);
    BuiltSpends(env, desc, req.coins, p);
  }

  // ----- both ways to obtain each side -----

  /** One side's arguments; with `recorded` set the side is reconstructed, else created. */
  datatype Build = Build(env: Env, req: Request, dep: Dependency, recorded: Option<Transaction>)

  function BitcoinSide(sha: Sha256, chain: ChainId, desc: Descriptor, b: Build): Result<AncestryTransfer, ClaimError> {
    match b.recorded
    case None => CreateAncestry(sha, b.env, chain, desc, b.req, b.dep)
    case Some(tx) => ReconstructAncestry(sha, b.env, chain, desc, b.req, b.dep, tx)
  }

  function ForkSide(source: AncestryTransfer, fork: ChainId, b: Build): Result<ForkSweep, ClaimError>
    requires |source.transfer.psbt.inputs| == |source.transfer.psbt.tx.inputs|
  {
    match b.recorded
    case None =>
      CreateForkSweep(b.env, source.transfer, Some(source.poisonInput), Some(b.dep.selected), fork, b.req)
    case Some(tx) =>
      ReconstructForkSweep(b.env, source.transfer, Some(source.poisonInput), Some(b.dep.selected), fork, b.req, tx)
  }

  /** What both sides share: distinct coins, all spent, one output, a fee the funding coin covers. */
  ghost predicate FundedSweep(env: Env, desc: Descriptor, coins: seq<Coin>, funding: OutPoint, changeIndex: nat,
                              p: Psbt) {
    && BuiltFrom(env, desc, coins, p) && Reverify(env, desc, p).Ok?
    && |p.tx.outputs| == 1 && p.tx.outputs[0].script == desc.derive(true, changeIndex)
    && DistinctPoints(coins) && funding in Points(coins)
    && CheckFunding(coins, funding, p.tx, Bitcoin).Ok?
  }

  lemma FundingChain(coins: seq<Coin>, funding: OutPoint, tx: Transaction, a: ChainId, b: ChainId)
    ensures CheckFunding(coins, funding, tx, a).Ok? == CheckFunding(coins, funding, tx, b).Ok?
    ensures CheckFunding(coins, funding, tx, a).Ok? ==> funding in Points(coins)
  {
    hide OwnedSpendFee;
    var c := Find(coins, funding);
    if c.Some? { var i := MemberIndex(c.value, coins); }
  }

  lemma CreatedAncestry(sha: Sha256, env: Env, chain: ChainId, desc: Descriptor, req: Request, dep: Dependency)
    requires HonestAnswer(req) && CreateAncestry(sha, env, chain, desc, req, dep).Ok?
    ensures var t := CreateAncestry(sha, env, chain, desc, req, dep).value;
            && FundedSweep(env, desc, req.coins, dep.selected, req.changeIndex, t.transfer.psbt)
            && t.poisonInput == dep.selected && t.transfer.descriptor == desc && t.transfer.chain == Bitcoin
            && |req.coins| >= 2 && GoodCoins(desc, Destination(desc, req), [], req.coins)
  {
    hide Sweep, CheckCoins, CheckFunding, Reverify, BuiltFrom, Points, DistinctPoints, Others, Count;
    SweepShape(env, desc, req);
    CheckCoinsIff(desc, Destination(desc, req), req.coins, [], 0);
    var t := CreateAncestry(sha, env, chain, desc, req, dep).value;
    FundingChain(req.coins, dep.selected, t.transfer.psbt.tx, Bitcoin, Bitcoin);
  }

  lemma CreatedFork(env: Env, source: SelfTransfer, excluded: Option<OutPoint>, funding: OutPoint, fork: ChainId,
                    req: Request)
    requires |source.psbt.inputs| == |source.psbt.tx.inputs| && HonestAnswer(req)
    requires CreateForkSweep(env, source, excluded, Some(funding), fork, req).Ok?
    ensures var s := CreateForkSweep(env, source, excluded, Some(funding), fork, req).value;
            && FundedSweep(env, source.descriptor, req.coins, funding, req.changeIndex, s.psbt)
            && Points(req.coins) == Claimed(source.psbt.tx, excluded, Some(funding))
            && funding !in Spends(source.psbt.tx)
            && CheckForkCoins(source, Destination(source.descriptor, req), Some(funding), req.coins).Ok?
  {
    hide Sweep, CheckForkCoins, CheckFunding, Reverify, BuiltFrom, Points, DistinctPoints, Claimed, Spends;
    SweepShape(env, source.descriptor, req);
    CardinalDistinct(req.coins);
    var s := CreateForkSweep(env, source, excluded, Some(funding), fork, req).value;
    FundingChain(req.coins, funding, s.psbt.tx, Bitcoin, BitcoinBlake2b);
  }

  /** Writing the recorded amount keeps everything but the amount. */
  lemma RevaluedKeeps(env: Env, desc: Descriptor, coins: seq<Coin>, p: Psbt, value: u64)
    requires BuiltFrom(env, desc, coins, p) && |p.tx.outputs| == 1
    ensures BuiltFrom(env, desc, coins, Revalued(p, value)) && |Revalued(p, value).tx.outputs| == 1
    ensures Revalued(p, value).tx.outputs[0].script == p.tx.outputs[0].script
  {
    hide InputsFor;
    var selected :| OrderOf(env, desc, coins, p, selected);
    assert OrderOf(env, desc, coins, Revalued(p, value), selected);
  }

  lemma BitcoinShape(sha: Sha256, chain: ChainId, desc: Descriptor, b: Build)
    requires HonestAnswer(b.req) && BitcoinSide(sha, chain, desc, b).Ok?
    ensures var t := BitcoinSide(sha, chain, desc, b).value;
            && FundedSweep(b.env, desc, b.req.coins, b.dep.selected, b.req.changeIndex, t.transfer.psbt)
            && t.poisonInput == b.dep.selected && t.transfer.descriptor == desc && t.transfer.chain == Bitcoin
            && |b.req.coins| >= 2 && GoodCoins(desc, Destination(desc, b.req), [], b.req.coins)
  {
    hide CreateAncestry, CheckFunding, Reverify, BuiltFrom, Points, DistinctPoints;
    match b.recorded
    case None => CreatedAncestry(sha, b.env, chain, desc, b.req, b.dep);
    case Some(tx) =>
      var again := b.req.(feerate := 1, lockTime := tx.lockTime);
      CreatedAncestry(sha, b.env, chain, desc, again, b.dep);
      var t := CreateAncestry(sha, b.env, chain, desc, again, b.dep).value;
      RevaluedKeeps(b.env, desc, b.req.coins, t.transfer.psbt, tx.outputs[0].value);
  }

  lemma ForkShape(source: AncestryTransfer, fork: ChainId, b: Build)
    requires |source.transfer.psbt.inputs| == |source.transfer.psbt.tx.inputs| && HonestAnswer(b.req)
    requires ForkSide(source, fork, b).Ok?
    ensures var s := ForkSide(source, fork, b).value;
            && FundedSweep(b.env, source.transfer.descriptor, b.req.coins, b.dep.selected, b.req.changeIndex, s.psbt)
            && Points(b.req.coins) == Claimed(source.transfer.psbt.tx, Some(source.poisonInput), Some(b.dep.selected))
            && b.dep.selected !in Spends(source.transfer.psbt.tx)
            && forall c :: c in b.req.coins ==>
                 CheckForkCoin(source.transfer, Destination(source.transfer.descriptor, b.req),
                               Some(b.dep.selected), c).Ok?
  {
    hide CreateForkSweep, CheckFunding, Reverify, BuiltFrom, Points, DistinctPoints, Claimed, Spends, CheckForkCoin;
    var excluded, funding := Some(source.poisonInput), b.dep.selected;
    match b.recorded
    case None => CreatedFork(b.env, source.transfer, excluded, funding, fork, b.req);
    case Some(tx) =>
      var again := b.req.(feerate := 1, lockTime := tx.lockTime);
      CreatedFork(b.env, source.transfer, excluded, funding, fork, again);
      var s := CreateForkSweep(b.env, source.transfer, excluded, Some(funding), fork, again).value;
      RevaluedKeeps(b.env, source.transfer.descriptor, b.req.coins, s.psbt, tx.outputs[0].value);
      FundingChain(b.req.coins, funding, tx, Bitcoin, BitcoinBlake2b);
  }

  // ----- shared value never pays the fee -----

  /** The coins other than the funding coin. */
  function Shared(coins: seq<Coin>, funding: OutPoint): seq<Coin> {
    if coins == [] then []
    else (if coins[0].outpoint == funding then [] else [coins[0]]) + Shared(coins[1..], funding)
  }

  lemma {:induction false} SharedFacts(coins: seq<Coin>, o: OutPoint)
    ensures Points(Shared(coins, o)) == Points(coins) - {o}
    ensures forall c :: c in Shared(coins, o) ==> c in coins && c.outpoint != o
    ensures DistinctPoints(coins) ==> DistinctPoints(Shared(coins, o))
  {
    hide Points, DistinctPoints;
    if coins == [] {
      assert Points([]) == {} by { NoPoints(); }
    } else {
      var rest := coins[1..];
      SharedFacts(rest, o);
      HeadPoint(coins);
      assert coins == [coins[0]] + rest;
      if coins[0].outpoint != o {
        assert Shared(coins, o)[1..] == Shared(rest, o);
        HeadPoint(Shared(coins, o));
      } else {
        assert Shared(coins, o) == Shared(rest, o);
      }
    }
  }

  lemma NoPoints()
    ensures Points([]) == {}
  {
  }

  lemma {:induction false} NothingShared(coins: seq<Coin>, o: OutPoint)
    requires o !in Points(coins)
    ensures Shared(coins, o) == coins
  {
    hide Points;
    if coins != [] {
      HeadPoint(coins);
      NothingShared(coins[1..], o);
      assert coins == [coins[0]] + coins[1..];
    }
  }

  lemma {:induction false} SumSplit(coins: seq<Coin>, o: OutPoint)
    requires DistinctPoints(coins) && Find(coins, o).Some?
    ensures SumAmounts(coins) == Find(coins, o).value.amount + SumAmounts(Shared(coins, o))
  {
    hide Points, DistinctPoints;
    HeadPoint(coins);
    var rest := coins[1..];
    if coins[0].outpoint == o {
      NothingShared(rest, o);
      assert Shared(coins, o) == rest;
    } else {
      SumSplit(rest, o);
      assert Shared(coins, o)[1..] == Shared(rest, o);
    }
  }

  /** One output, worth at least the shared coins, and inputs equal output plus fee. */
  lemma FundingPays(env: Env, desc: Descriptor, coins: seq<Coin>, funding: OutPoint, changeIndex: nat, p: Psbt)
    requires FundedSweep(env, desc, coins, funding, changeIndex, p)
    ensures p.tx.outputs[0].value >= SumAmounts(Shared(coins, funding))
    ensures InputTotal(env, desc, p) == SumAmounts(coins) == p.tx.outputs[0].value + Fee(env, desc, p)
  {
    hide BuiltFrom, AddInputs, DistinctPoints, Points, Economics;
    BuiltTotal(env, desc, coins, p);
    assert SumValues(p.tx.outputs) == p.tx.outputs[0].value;
    SumSplit(coins, funding);
  }

  // ----- the pair -----

  lemma {:induction false} SumByPoints(xs: seq<Coin>, ys: seq<Coin>)
    requires DistinctPoints(xs) && DistinctPoints(ys) && Points(xs) == Points(ys)
    requires forall x, y :: x in xs && y in ys && x.outpoint == y.outpoint ==> x.amount == y.amount
    ensures SumAmounts(xs) == SumAmounts(ys)
    decreases |xs|
  {
    hide Points, DistinctPoints;
    if xs == [] {
      assert Points(ys) == {} by { NoPoints(); }
      assert ys != [] ==> ys[0].outpoint in Points(ys) by { if ys != [] { HeadPoint(ys); } }
    } else {
      var o := xs[0].outpoint;
      HeadPoint(xs);
      assert Find(ys, o).Some? && xs[0] in xs;
      SumSplit(ys, o);
      SharedFacts(ys, o);
      SumByPoints(xs[1..], Shared(ys, o));
    }
  }

  /** A built PSBT says what each coin is worth. */
  lemma BuiltAmount(env: Env, desc: Descriptor, coins: seq<Coin>, p: Psbt, i: nat, c: Coin)
    requires BuiltFrom(env, desc, coins, p) && DistinctPoints(coins) && c in coins
    requires i < |p.tx.inputs| == |p.inputs| && p.tx.inputs[i].prevout == c.outpoint
    ensures p.inputs[i].witnessUtxo == Some(TxOut(c.amount, desc.derive(c.isChange, c.index)))
  {
    hide InputsFor;
    var selected :| OrderOf(env, desc, coins, p, selected);
    assert InputFor(env, desc, selected[i]) == Ok(p.inputs[i]);
    assert selected[i] in multiset(Marked(coins));
    var k := MemberIndex(selected[i], Marked(coins));
    var j := MemberIndex(c, coins);
    assert coins[k].outpoint == coins[j].outpoint;
  }

  /** Every pair the builders return, created or reconstructed: the fork inputs are the Bitcoin
      inputs without B and with F, and something is shared. */
  lemma PairInputs(sha: Sha256, chain: ChainId, desc: Descriptor, b: Build, fork: ChainId, f: Build)
    requires HonestAnswer(b.req) && HonestAnswer(f.req) && BitcoinSide(sha, chain, desc, b).Ok?
    ensures var t := BitcoinSide(sha, chain, desc, b).value;
            |t.transfer.psbt.inputs| == |t.transfer.psbt.tx.inputs|
    ensures var t := BitcoinSide(sha, chain, desc, b).value;
            ForkSide(t, fork, f).Ok? ==>
              var bitcoinTx, forkTx := t.transfer.psbt.tx, ForkSide(t, fork, f).value.psbt.tx;
              && Spends(forkTx) == Spends(bitcoinTx) - {b.dep.selected} + {f.dep.selected}
              && b.dep.selected in Spends(bitcoinTx) && f.dep.selected !in Spends(bitcoinTx)
              && Spends(bitcoinTx) - {b.dep.selected} != {}
              && |bitcoinTx.inputs| == |forkTx.inputs| >= 2
  {
    hide BitcoinSide, ForkSide, BuiltFrom, CheckFunding, Reverify, CheckForkCoin, Spends, Points;
    var t := BitcoinSide(sha, chain, desc, b).value;
    BitcoinShape(sha, chain, desc, b);
    BuiltSpends(b.env, desc, b.req.coins, t.transfer.psbt);
    if ForkSide(t, fork, f).Ok? {
      ForkShape(t, fork, f);
      BuiltSpends(f.env, desc, f.req.coins, ForkSide(t, fork, f).value.psbt);
      CardinalDistinct(b.req.coins);
      CardinalDistinct(f.req.coins);
      SwapOne(Spends(t.transfer.psbt.tx), b.dep.selected, f.dep.selected);
    }
  }

  lemma SwapOne(s: set<OutPoint>, b: OutPoint, f: OutPoint)
    requires b in s && f !in s && |s| >= 2
    ensures s - {b} != {} && |s - {b} + {f}| == |s|
    ensures (set o | o in s && Some(b) != Some(o)) + {f} == s - {b} + {f}
  {
    assert |s - {b}| == |s| - 1;
  }

  /** On both chains the single output returns at least the shared value, which is the same amount on
      both, and each transaction's inputs equal its output plus its fee. */
  lemma SharedValueKept(sha: Sha256, chain: ChainId, desc: Descriptor, b: Build, fork: ChainId, f: Build)
    requires HonestAnswer(b.req) && HonestAnswer(f.req) && BitcoinSide(sha, chain, desc, b).Ok?
    requires var t := BitcoinSide(sha, chain, desc, b).value;
             |t.transfer.psbt.inputs| == |t.transfer.psbt.tx.inputs| && ForkSide(t, fork, f).Ok?
    ensures var t := BitcoinSide(sha, chain, desc, b).value;
            var p, q := t.transfer.psbt, ForkSide(t, fork, f).value.psbt;
            var shared := SumAmounts(Shared(b.req.coins, b.dep.selected));
            && |p.tx.outputs| == |q.tx.outputs| == 1 && Reverify(b.env, desc, p).Ok? && Reverify(f.env, desc, q).Ok?
            && shared == SumAmounts(Shared(f.req.coins, f.dep.selected))
            && shared <= p.tx.outputs[0].value && shared <= q.tx.outputs[0].value
            && InputTotal(b.env, desc, p) == SumAmounts(b.req.coins) == p.tx.outputs[0].value + Fee(b.env, desc, p)
            && InputTotal(f.env, desc, q) == SumAmounts(f.req.coins) == q.tx.outputs[0].value + Fee(f.env, desc, q)
  {
    hide BitcoinSide, ForkSide, BuiltFrom, CheckFunding, Reverify, CheckForkCoin, Spends, Points, InputTotal, Fee,
         Shared, SumAmounts, DistinctPoints, Claimed;
    var t := BitcoinSide(sha, chain, desc, b).value;
    BitcoinShape(sha, chain, desc, b);
    ForkShape(t, fork, f);
    FundingPays(b.env, desc, b.req.coins, b.dep.selected, b.req.changeIndex, t.transfer.psbt);
    FundingPays(f.env, desc, f.req.coins, f.dep.selected, f.req.changeIndex,
                ForkSide(t, fork, f).value.psbt);
    SameShared(b.env, t, Destination(desc, f.req), b.req.coins, b.dep.selected, f.req.coins, f.dep.selected);
  }

  /** The fork coins other than F are worth what the Bitcoin coins other than B are. */
  lemma SameShared(env: Env, source: AncestryTransfer, destination: Script, bs: seq<Coin>, b: OutPoint, fs: seq<Coin>,
                   f: OutPoint)
    requires |source.transfer.psbt.inputs| == |source.transfer.psbt.tx.inputs| && source.poisonInput == b
    requires BuiltFrom(env, source.transfer.descriptor, bs, source.transfer.psbt)
    requires DistinctPoints(bs) && DistinctPoints(fs) && b in Points(bs) && f !in Spends(source.transfer.psbt.tx)
    requires Points(fs) == Claimed(source.transfer.psbt.tx, Some(b), Some(f))
    requires forall c :: c in fs ==> CheckForkCoin(source.transfer, destination, Some(f), c).Ok?
    ensures SumAmounts(Shared(bs, b)) == SumAmounts(Shared(fs, f))
  {
    hide BuiltFrom, Spends, Points, SumAmounts, Shared, CheckForkCoin, DistinctPoints;
    var p := source.transfer.psbt;
    BuiltSpends(env, source.transfer.descriptor, bs, p);
    SharedFacts(bs, b);
    SharedFacts(fs, f);
    assert Points(Shared(bs, b)) == Points(Shared(fs, f));
    forall x, y | x in Shared(bs, b) && y in Shared(fs, f) && x.outpoint == y.outpoint ensures x.amount == y.amount {
      SameCoin(env, source.transfer, destination, bs, f, x, y);
    }
    SumByPoints(Shared(bs, b), Shared(fs, f));
  }

  lemma SameCoin(env: Env, source: SelfTransfer, destination: Script, bs: seq<Coin>, f: OutPoint, x: Coin, y: Coin)
    requires |source.psbt.inputs| == |source.psbt.tx.inputs| && BuiltFrom(env, source.descriptor, bs, source.psbt)
    requires DistinctPoints(bs) && x in bs && y.outpoint != f && x.outpoint == y.outpoint
    requires CheckForkCoin(source, destination, Some(f), y).Ok?
    ensures x.amount == y.amount
  {
    hide BuiltFrom, DistinctPoints, Position;
    var i := Position(source.psbt.tx.inputs, y.outpoint).value;
    BuiltAmount(env, source.descriptor, bs, source.psbt, i, x);
  }

  /** Both outputs return to the wallet, at the requested change index, and to a script that none of
      the spent coins has. */
  lemma FreshReturn(sha: Sha256, chain: ChainId, desc: Descriptor, b: Build, fork: ChainId, f: Build)
    requires HonestAnswer(b.req) && HonestAnswer(f.req) && BitcoinSide(sha, chain, desc, b).Ok?
    requires var t := BitcoinSide(sha, chain, desc, b).value;
             |t.transfer.psbt.inputs| == |t.transfer.psbt.tx.inputs| && ForkSide(t, fork, f).Ok?
    ensures var t := BitcoinSide(sha, chain, desc, b).value;
            var p, q := t.transfer.psbt.tx, ForkSide(t, fork, f).value.psbt.tx;
            && |p.outputs| == |q.outputs| == 1
            && p.outputs[0].script == desc.derive(true, b.req.changeIndex)
            && q.outputs[0].script == desc.derive(true, f.req.changeIndex)
            && (forall c :: c in b.req.coins ==> desc.derive(c.isChange, c.index) != p.outputs[0].script)
            && (forall c :: c in f.req.coins ==> desc.derive(c.isChange, c.index) != q.outputs[0].script)
  {
    hide BitcoinSide, ForkSide, BuiltFrom, CheckFunding, Reverify, Points, DistinctPoints, Claimed, Spends, Position;
    var t := BitcoinSide(sha, chain, desc, b).value;
    BitcoinShape(sha, chain, desc, b);
    ForkShape(t, fork, f);
  }

  // ----- reconstruction returns what was created -----

  /** Two sweeps of the same coins in the same order differ in the output's amount only. */
  lemma SweepTwice(env: Env, desc: Descriptor, req: Request, again: Request)
    requires Sweep(env, desc, req, None).Ok? && Sweep(env, desc, again, None).Ok?
    requires req.coins == again.coins && req.changeIndex == again.changeIndex && req.lockTime == again.lockTime
    requires req.selection.value.selected == again.selection.value.selected
    ensures var p, q := Sweep(env, desc, req, None).value, Sweep(env, desc, again, None).value;
            && |p.tx.outputs| == |q.tx.outputs| == 1 && p.tx.lockTime == req.lockTime
            && Revalued(q, p.tx.outputs[0].value) == p && Reverify(env, desc, p).Ok?
  {
    hide InputsFor, SanityCheck, CheckOutputValues;
    SweepHasOutput(env, desc, req, None);
    SweepHasOutput(env, desc, again, None);
    var p, q := Sweep(env, desc, req, None).value, Sweep(env, desc, again, None).value;
    assert p.outputs == q.outputs && Revalued(q, p.tx.outputs[0].value).tx.outputs == p.tx.outputs;
    BuiltPassesCheck(env, desc, [], Marked(req.coins), req.feerate, Destination(desc, req), req.lockTime, None,
                     req.selection);
  }

  lemma SweepLock(env: Env, desc: Descriptor, req: Request)
    requires Sweep(env, desc, req, None).Ok?
    ensures req.selection.Some? && Sweep(env, desc, req, None).value.tx.lockTime == req.lockTime
    ensures |Sweep(env, desc, req, None).value.tx.outputs| == 1
  {
    hide InputsFor, SanityCheck, CheckOutputValues, Destination;
    SweepHasOutput(env, desc, req, None);
  }

  /** Sizes do not depend on what outputs are worth. */
  ghost predicate SizeIgnoresAmounts(desc: Descriptor) {
    forall tx: Transaction, v: u64, w: u64, script: Script, primary: bool ::
      desc.maxVbytes(tx.(outputs := [TxOut(v, script)]), primary)
      == desc.maxVbytes(tx.(outputs := [TxOut(w, script)]), primary)
  }

  /** What coin selection has to answer for a sweep of `total` to be built: change that is no dust, and
      a fee of at least one satoshi per worst-case byte, within the limits and the funding coin. */
  predicate AnswerFits(env: Env, total: nat, change: u64, script: Script, size: nat, cover: Option<u64>) {
    && DUST_OUTPUT_SATS <= change <= MAX_MONEY && env.dust(script) <= change
    && 0 < size && size <= total - change <= MAX_FEE && (total - change) / size <= MAX_FEERATE
    && (cover.Some? ==> total - change <= cover.value)
  }

  lemma {:induction false} SameTotal(env: Env, p: Psbt, q: Psbt, i: nat, sum: nat)
    requires |p.inputs| == |p.tx.inputs| && p.inputs == q.inputs && p.tx.inputs == q.tx.inputs && i <= |p.inputs|
    ensures AddInputs(env, p, i, sum) == AddInputs(env, q, i, sum)
    decreases |p.inputs| - i
  {
    hide Authenticate;
    if i < |p.inputs| {
      var out := Authenticate(env.txid, p.tx.inputs[i].prevout, p.inputs[i].previous, p.inputs[i].witnessUtxo);
      if out.Ok? { SameTotal(env, p, q, i + 1, sum + out.value.value); }
    }
  }

  lemma OneOutputEconomics(env: Env, desc: Descriptor, p: Psbt, total: nat, primary: bool, change: u64, script: Script)
    requires p.tx.outputs == [TxOut(change, script)] && DUST_OUTPUT_SATS <= change <= MAX_MONEY
    ensures Economics(env, desc, p, total, primary).Ok? <==>
              AnswerFits(env, total, change, script, desc.maxVbytes(p.tx, primary), None)
  {
    assert SumValues(p.tx.outputs) == change;
    assert p.tx.outputs[0] in p.tx.outputs;
    var size := desc.maxVbytes(p.tx, primary);
    if size > 0 && total >= change { AtLeastOne(total - change, size); }
  }

  lemma AtLeastOne(fee: nat, size: nat)
    requires size > 0
    ensures fee / size >= 1 <==> fee >= size
  {
    assert fee == size * (fee / size) + fee % size;
  }

  /** Which answers of coin selection let a sweep of the same coins, in the same order, be built. */
  lemma SweepFits(env: Env, desc: Descriptor, req: Request, again: Request)
    requires HonestAnswer(req) && Sweep(env, desc, req, None).Ok? && SizeIgnoresAmounts(desc)
    requires again == req.(feerate := 1, selection := again.selection) && req.selection.Some? && again.selection.Some?
    requires again.selection.value.selected == req.selection.value.selected
    ensures Sweep(env, desc, again, None).Ok? <==>
              AnswerFits(env, SumAmounts(req.coins), again.selection.value.change, Destination(desc, req),
                         desc.maxVbytes(Sweep(env, desc, req, None).value.tx, UsesPrimaryPath(Marked(req.coins))), None)
    ensures Sweep(env, desc, again, None).Ok? ==>
              Sweep(env, desc, again, None).value.tx.outputs
                == [TxOut(again.selection.value.change, Destination(desc, req))]
  {
    hide InputsFor, AddInputs, Economics, AnswerFits, SumAmounts, BuiltFrom, UsesPrimaryPath, SizeIgnoresAmounts,
         HonestAnswer, Reverify;
    var p := Sweep(env, desc, req, None).value;
    SweepShape(env, desc, req);
    var change, script := again.selection.value.change, Destination(desc, req);
    var primary := UsesPrimaryPath(Marked(req.coins));
    var q := p.(tx := p.tx.(outputs := [TxOut(change, script)]));
    SweepParts(env, desc, req);
    BuiltTotal(env, desc, req.coins, p);
    SameTotal(env, p, q, 0, 0);
    assert desc.maxVbytes(q.tx, primary) == desc.maxVbytes(p.tx, primary) by {
      SameSize(desc, p.tx, change, script, primary);
    }
    if DUST_OUTPUT_SATS <= change <= MAX_MONEY {
      OneOutputEconomics(env, desc, q, SumAmounts(req.coins), primary, change, script);
      assert OutputsFor([], None, TxOut(change, script)) == [TxOut(change, script)];
    } else {
      NoFit(env, SumAmounts(req.coins), change, script, desc.maxVbytes(p.tx, primary));
    }
  }

  lemma NoFit(env: Env, total: nat, change: u64, script: Script, size: nat)
    requires !(DUST_OUTPUT_SATS <= change <= MAX_MONEY)
    ensures !AnswerFits(env, total, change, script, size, None)
  {
  }

  lemma SameSize(desc: Descriptor, tx: Transaction, change: u64, script: Script, primary: bool)
    requires SizeIgnoresAmounts(desc) && |tx.outputs| == 1 && tx.outputs[0].script == script
    ensures desc.maxVbytes(tx.(outputs := [TxOut(change, script)]), primary) == desc.maxVbytes(tx, primary)
  {
    assert tx == tx.(outputs := [TxOut(tx.outputs[0].value, script)]);
  }

  /** The parts of a built sweep. */
  lemma SweepParts(env: Env, desc: Descriptor, req: Request)
    requires Sweep(env, desc, req, None).Ok?
    ensures var p := Sweep(env, desc, req, None).value;
            && req.selection.Some? && InputsFor(env, desc, req.selection.value.selected) == Ok(p.inputs)
            && |p.tx.outputs| == 1 && |p.inputs| == |p.tx.inputs| && p.outputs == Blank(1)
            && p.tx == Transaction(2, req.lockTime, TxInsFor(req.selection.value.selected), p.tx.outputs)
            && AddInputs(env, p, 0, 0).Ok?
  {
    hide InputsFor, AddInputs, Economics, CheckOutputValues;
    SweepHasOutput(env, desc, req, None);
  }

  /** With one output of `change`, the funding coin covers the fee exactly when the answer says so. */
  lemma FundingFits(coins: seq<Coin>, funding: OutPoint, tx: Transaction, change: u64, script: Script, chain: ChainId)
    requires tx.outputs == [TxOut(change, script)] && change <= SumAmounts(coins) < U64_LIMIT && Find(coins, funding).Some?
    ensures CheckFunding(coins, funding, tx, chain).Ok? <==>
              SumAmounts(coins) - change <= Find(coins, funding).value.amount
  {
    assert SumValues(tx.outputs) == change;
  }

  lemma CoverFits(env: Env, total: nat, change: u64, script: Script, size: nat, cover: u64)
    ensures AnswerFits(env, total, change, script, size, Some(cover)) <==>
              AnswerFits(env, total, change, script, size, None) && total - change <= cover
    ensures AnswerFits(env, total, change, script, size, None) ==> change <= total
  {
  }

  lemma AncestryRebuilt(sha: Sha256, env: Env, chain: ChainId, desc: Descriptor, req: Request, dep: Dependency,
                        again: Request)
    requires CreateAncestry(sha, env, chain, desc, req, dep).Ok?
    requires again == req.(feerate := 1, selection := again.selection) && req.selection.Some? && again.selection.Some?
    requires again.selection.value.selected == req.selection.value.selected
    ensures var t := CreateAncestry(sha, env, chain, desc, req, dep).value;
            && t.transfer.psbt == Sweep(env, desc, req, None).value
            && (ReconstructAncestry(sha, env, chain, desc, again, dep, t.transfer.psbt.tx) == Ok(t) <==>
                  && Sweep(env, desc, again, None).Ok?
                  && CheckFunding(req.coins, dep.selected, Sweep(env, desc, again, None).value.tx, Bitcoin).Ok?)
  {
    hide Sweep, CheckCoins, CheckFunding, Reverify, Others, Count;
    var t := CreateAncestry(sha, env, chain, desc, req, dep).value;
    SweepLock(env, desc, req);
    assert again.(feerate := 1, lockTime := t.transfer.psbt.tx.lockTime) == again;
    if Sweep(env, desc, again, None).Ok? {
      SweepTwice(env, desc, req, again);
    }
  }

  /** Reconstructing a created transfer returns it unchanged, whatever its feerate was, exactly when
      coin selection's answer at the minimum rate fits. */
  lemma AncestryRoundTrip(sha: Sha256, env: Env, chain: ChainId, desc: Descriptor, req: Request, dep: Dependency,
                          again: Request)
    requires HonestAnswer(req) && SizeIgnoresAmounts(desc) && CreateAncestry(sha, env, chain, desc, req, dep).Ok?
    requires again == req.(feerate := 1, selection := again.selection) && req.selection.Some? && again.selection.Some?
    requires again.selection.value.selected == req.selection.value.selected
    ensures var t := CreateAncestry(sha, env, chain, desc, req, dep).value;
            && Find(req.coins, dep.selected).Some?
            && (ReconstructAncestry(sha, env, chain, desc, again, dep, t.transfer.psbt.tx) == Ok(t) <==>
                  AnswerFits(env, SumAmounts(req.coins), again.selection.value.change, Destination(desc, req),
                             desc.maxVbytes(t.transfer.psbt.tx, UsesPrimaryPath(Marked(req.coins))),
                             Some(Find(req.coins, dep.selected).value.amount)))
  {
    hide Sweep, CreateAncestry, ReconstructAncestry, AnswerFits, HonestAnswer, SizeIgnoresAmounts, SumAmounts, Find,
         UsesPrimaryPath, Destination;
    AncestryRebuilt(sha, env, chain, desc, req, dep, again);
    AncestrySwept(sha, env, chain, desc, req, dep);
    SweepFits(env, desc, req, again);
    Funded(env, desc, req, again, dep.selected, Bitcoin);
  }

  lemma AncestrySwept(sha: Sha256, env: Env, chain: ChainId, desc: Descriptor, req: Request, dep: Dependency)
    requires CreateAncestry(sha, env, chain, desc, req, dep).Ok?
    ensures Sweep(env, desc, req, None).Ok?
    ensures CheckFunding(req.coins, dep.selected, Sweep(env, desc, req, None).value.tx, Bitcoin).Ok?
  {
    hide Sweep, CheckCoins, CheckFunding, Others, Count;
  }

  /** The funding check on a rebuilt sweep, as a condition on the answer. */
  lemma Funded(env: Env, desc: Descriptor, req: Request, again: Request, funding: OutPoint, chain: ChainId)
    requires Sweep(env, desc, req, None).Ok? && again.selection.Some?
    requires CheckFunding(req.coins, funding, Sweep(env, desc, req, None).value.tx, chain).Ok?
    requires var size := desc.maxVbytes(Sweep(env, desc, req, None).value.tx, UsesPrimaryPath(Marked(req.coins)));
             Sweep(env, desc, again, None).Ok? <==>
               AnswerFits(env, SumAmounts(req.coins), again.selection.value.change, Destination(desc, req), size, None)
    requires Sweep(env, desc, again, None).Ok? ==>
               Sweep(env, desc, again, None).value.tx.outputs
                 == [TxOut(again.selection.value.change, Destination(desc, req))]
    ensures Find(req.coins, funding).Some?
    ensures var size := desc.maxVbytes(Sweep(env, desc, req, None).value.tx, UsesPrimaryPath(Marked(req.coins)));
            (Sweep(env, desc, again, None).Ok?
             && CheckFunding(req.coins, funding, Sweep(env, desc, again, None).value.tx, chain).Ok?) <==>
              AnswerFits(env, SumAmounts(req.coins), again.selection.value.change, Destination(desc, req), size,
                         Some(Find(req.coins, funding).value.amount))
  {
    hide Sweep, AnswerFits, SumAmounts, Find, UsesPrimaryPath, Destination;
    var change, script := again.selection.value.change, Destination(desc, req);
    var size := desc.maxVbytes(Sweep(env, desc, req, None).value.tx, UsesPrimaryPath(Marked(req.coins)));
    CoverFits(env, SumAmounts(req.coins), change, script, size, Find(req.coins, funding).value.amount);
    if Sweep(env, desc, again, None).Ok? {
      FundingFits(req.coins, funding, Sweep(env, desc, again, None).value.tx, change, script, chain);
    }
  }

  lemma ForkRebuilt(env: Env, source: SelfTransfer, excluded: Option<OutPoint>, added: Option<OutPoint>,
                    fork: ChainId, req: Request, again: Request)
    requires |source.psbt.inputs| == |source.psbt.tx.inputs|
    requires CreateForkSweep(env, source, excluded, added, fork, req).Ok?
    requires again == req.(feerate := 1, selection := again.selection) && req.selection.Some? && again.selection.Some?
    requires again.selection.value.selected == req.selection.value.selected
    ensures var s, desc := CreateForkSweep(env, source, excluded, added, fork, req).value, source.descriptor;
            && Sweep(env, desc, req, None) == Ok(s.psbt)
            && (added.Some? ==> CheckFunding(req.coins, added.value, s.psbt.tx, BitcoinBlake2b).Ok?)
            && (ReconstructForkSweep(env, source, excluded, added, fork, again, s.psbt.tx) == Ok(s) <==>
                  && Sweep(env, desc, again, None).Ok?
                  && (added.Some? ==>
                        CheckFunding(req.coins, added.value, Sweep(env, desc, again, None).value.tx, BitcoinBlake2b).Ok?))
  {
    hide Sweep, CheckForkCoins, CheckFunding, Reverify, Points, Claimed, Spends;
    var s := CreateForkSweep(env, source, excluded, added, fork, req).value;
    SweepLock(env, source.descriptor, req);
    assert again.(feerate := 1, lockTime := s.psbt.tx.lockTime) == again;
    if Sweep(env, source.descriptor, again, None).Ok? {
      SweepTwice(env, source.descriptor, req, again);
    }
  }

  /** The same for a fork sweep, with or without a funding coin. */
  lemma ForkRoundTrip(env: Env, source: SelfTransfer, excluded: Option<OutPoint>, added: Option<OutPoint>,
                      fork: ChainId, req: Request, again: Request)
    requires |source.psbt.inputs| == |source.psbt.tx.inputs| && HonestAnswer(req)
    requires SizeIgnoresAmounts(source.descriptor) && CreateForkSweep(env, source, excluded, added, fork, req).Ok?
    requires again == req.(feerate := 1, selection := again.selection) && req.selection.Some? && again.selection.Some?
    requires again.selection.value.selected == req.selection.value.selected
    ensures var s, desc := CreateForkSweep(env, source, excluded, added, fork, req).value, source.descriptor;
            && (added.Some? ==> Find(req.coins, added.value).Some?)
            && (ReconstructForkSweep(env, source, excluded, added, fork, again, s.psbt.tx) == Ok(s) <==>
                  AnswerFits(env, SumAmounts(req.coins), again.selection.value.change, Destination(desc, req),
                             desc.maxVbytes(s.psbt.tx, UsesPrimaryPath(Marked(req.coins))),
                             if added.Some? then Some(Find(req.coins, added.value).value.amount) else None))
  {
    hide Sweep, CreateForkSweep, ReconstructForkSweep, AnswerFits, HonestAnswer, SizeIgnoresAmounts, SumAmounts, Find,
         UsesPrimaryPath, Destination, CheckFunding;
    ForkRebuilt(env, source, excluded, added, fork, req, again);
    SweepFits(env, source.descriptor, req, again);
    if added.Some? { Funded(env, source.descriptor, req, again, added.value, BitcoinBlake2b); }
  }

  // ----- two ledgers -----

  datatype Step = OnBitcoin(tx: Transaction) | OnFork(tx: Transaction)

  datatype Ledgers = Ledgers(bitcoin: seq<Transaction>, fork: seq<Transaction>)

  function Apply(l: Ledgers, s: Step): Ledgers {
    match s
    case OnBitcoin(tx) => l.(bitcoin := l.bitcoin + [tx])
    case OnFork(tx) => l.(fork := l.fork + [tx])
  }

  predicate Enabled(txid: TxidOf, l: Ledgers, s: Step) {
    match s
    case OnBitcoin(tx) => CanInclude(txid, l.bitcoin, tx)
    case OnFork(tx) => CanInclude(txid, l.fork, tx)
  }

  /** Any interleaving of inclusions on the two ledgers. */
  predicate Interleaving(txid: TxidOf, l: Ledgers, steps: seq<Step>)
    decreases |steps|
  {
    steps == [] || (Enabled(txid, l, steps[0]) && Interleaving(txid, Apply(l, steps[0]), steps[1..]))
  }

  function End(l: Ledgers, steps: seq<Step>): Ledgers
    decreases |steps|
  {
    if steps == [] then l else End(Apply(l, steps[0]), steps[1..])
  }

  lemma {:induction false} BothHistories(txid: TxidOf, l: Ledgers, steps: seq<Step>)
    requires History(txid, l.bitcoin) && History(txid, l.fork) && Interleaving(txid, l, steps)
    ensures History(txid, End(l, steps).bitcoin) && History(txid, End(l, steps).fork)
    decreases |steps|
  {
    hide CanInclude;
    if steps != [] {
      var next := Apply(l, steps[0]);
      match steps[0]
      case OnBitcoin(tx) =>
        assert next.bitcoin[..|l.bitcoin|] == l.bitcoin && next.bitcoin[|l.bitcoin|] == tx;
        BothHistories(txid, next, steps[1..]);
      case OnFork(tx) =>
        assert next.fork[..|l.fork|] == l.fork && next.fork[|l.fork|] == tx;
        BothHistories(txid, next, steps[1..]);
    }
  }

  /** A chain that lacks the dependency's coinbase never includes a transaction that spends the
      selected output, whatever its witnesses. */
  lemma Excluded(c: Codec, selected: OutPoint, links: seq<Link>, txs: seq<Transaction>, tx: Transaction)
    requires Verify(c, selected, links).Ok? && History(c.txid, txs)
    requires TxidBinds(c.txid, Elements(txs) + PathTransactions(c, links) + {tx})
    requires !Contains(c.txid, txs, c.txid(Verify(c, selected, links).value.coinbase))
    requires selected in Spends(tx) && |tx.inputs| >= 2
    ensures !Contains(c.txid, txs, c.txid(tx))
  {
    hide Verify, PathTransactions, History;
    AncestrySound(c, selected, links, txs);
    if Contains(c.txid, txs, c.txid(tx)) {
      var other :| other in txs && c.txid(other) == c.txid(tx);
      assert Strip(other) == Strip(tx) by { assert other in Elements(txs); }
      StripKeeps(other, tx);
      var i :| 0 <= i < |tx.inputs| && tx.inputs[i].prevout == selected;
      IncludedSpends(c.txid, txs, other, i);
    }
  }

  /** Paired exclusion: take any pair the builders return for verified dependencies, and any
      interleaving of inclusions on two ledgers that grew from a common history. While B's coinbase
      is not on the fork and F's is not on Bitcoin, S+B is not on the fork and S+F not on Bitcoin. */
  lemma PairedExclusion(c: Codec, sha: Sha256, chain: ChainId, desc: Descriptor, fork: ChainId, b: Build, f: Build,
                        bLinks: seq<Link>, fLinks: seq<Link>, common: seq<Transaction>, steps: seq<Step>)
    requires HonestAnswer(b.req) && HonestAnswer(f.req) && BitcoinSide(sha, chain, desc, b).Ok?
    requires var t := BitcoinSide(sha, chain, desc, b).value;
             |t.transfer.psbt.inputs| == |t.transfer.psbt.tx.inputs| && ForkSide(t, fork, f).Ok?
    requires Verify(c, b.dep.selected, bLinks) == Ok(b.dep) && Verify(c, f.dep.selected, fLinks) == Ok(f.dep)
    requires History(c.txid, common) && Interleaving(c.txid, Ledgers(common, common), steps)
    requires var t := BitcoinSide(sha, chain, desc, b).value;
             var end := End(Ledgers(common, common), steps);
             && TxidBinds(c.txid, Elements(end.fork) + PathTransactions(c, bLinks) + {t.transfer.psbt.tx})
             && TxidBinds(c.txid, Elements(end.bitcoin) + PathTransactions(c, fLinks)
                                  + {ForkSide(t, fork, f).value.psbt.tx})
             && !Contains(c.txid, end.fork, c.txid(b.dep.coinbase))
             && !Contains(c.txid, end.bitcoin, c.txid(f.dep.coinbase))
    ensures var t := BitcoinSide(sha, chain, desc, b).value;
            var end := End(Ledgers(common, common), steps);
            && !Contains(c.txid, end.fork, c.txid(t.transfer.psbt.tx))
            && !Contains(c.txid, end.bitcoin, c.txid(ForkSide(t, fork, f).value.psbt.tx))
  {
    hide BitcoinSide, ForkSide, Verify, PathTransactions, History, Interleaving, Spends, TxidBinds, Contains, End;
    var t := BitcoinSide(sha, chain, desc, b).value;
    PairInputs(sha, chain, desc, b, fork, f);
    BothHistories(c.txid, Ledgers(common, common), steps);
    var end := End(Ledgers(common, common), steps);
    Excluded(c, b.dep.selected, bLinks, end.fork, t.transfer.psbt.tx);
    Excluded(c, f.dep.selected, fLinks, end.bitcoin, ForkSide(t, fork, f).value.psbt.tx);
  }
}
