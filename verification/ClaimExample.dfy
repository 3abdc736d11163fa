/** A pair that satisfies every hypothesis of the paired exclusion theorem, so that it is not empty. */
module ClaimExample {
  import opened Wrappers
  import opened Bytes
  import opened Transactions
  import opened Sequences
  import opened OutPoints
  import opened Ledger
  import opened Sighash
  import opened Spend
  import opened Ancestry
  import opened ClaimSpend
  import opened ClaimPair

  // ----- a tiny world -----

  /** Transactions told apart by their lock time. */
  function Txid(tx: Transaction): Hash {
    LE(tx.lockTime, 32)
  }

  const OWN: Script := [0]
  const RETURN: Script := [1]

  /** A coinbase that pays the wallet. */
  function Mined(id: u32, value: u64): Transaction {
    Transaction(2, id, [TxIn(NULL_OUTPOINT, [], 0, [])], [TxOut(value, OWN)])
  }

  const B_TX: Transaction := Mined(1, 50_000)
  const F_TX: Transaction := Mined(2, 50_000)
  const S_TX: Transaction := Mined(3, 20_000)

  function GetTx(id: Hash): Option<Transaction> {
    if id == LE(1, 32) then Some(B_TX) else if id == LE(2, 32) then Some(F_TX)
    else if id == LE(3, 32) then Some(S_TX) else None
  }

  const ENV: Env := Env(Txid, script => 0, GetTx)
  const DESC: Descriptor := Descriptor(false, (change, index) => if change then RETURN else OWN, (tx, primary) => 200)
  const CODEC: Codec := Codec(bytes => if bytes == [1] then Some(B_TX) else if bytes == [2] then Some(F_TX) else None, Txid)

  function CoinOf(id: u32, amount: u64): Coin {
    Coin(OutPoint(LE(id, 32), 0), amount, 0, false, false, false, None)
  }

  /** The funding coin and the shared coin, swept for a fee of 1000. */
  function RequestFor(id: u32, lockTime: u32): Request {
    var coins := [CoinOf(id, 50_000), CoinOf(3, 20_000)];
    Request(coins, 0, false, 1, lockTime, Some(Selection(Marked(coins), 69_000)))
  }

  lemma FirstByte(n: nat, w: nat)
    requires w > 0
    ensures LE(n, w)[0] == n % 256
  {
  }

  lemma DifferentIds(m: nat, n: nat)
    requires m < 256 && n < 256 && m != n
    ensures LE(m, 32) != LE(n, 32)
  {
    hide LE;
    FirstByte(m, 32);
    FirstByte(n, 32);
  }

  lemma Ids()
    ensures LE(1, 32) != LE(2, 32) && LE(1, 32) != LE(3, 32) && LE(2, 32) != LE(3, 32)
    ensures forall n :: 0 < n < 10 ==> OutPoint(LE(n, 32), 0) != NULL_OUTPOINT
  {
    DifferentIds(1, 2);
    DifferentIds(1, 3);
    DifferentIds(2, 3);
  }

  // ----- both sides -----

  function Paid(id: u32): Transaction {
    if id == 1 then B_TX else if id == 2 then F_TX else S_TX
  }

  function Known(id: u32, amount: u64): PsbtInput {
    PsbtInput(Some(Paid(id)), Some(TxOut(amount, OWN)), true, [])
  }

  lemma InputWorks(id: u32, amount: u64)
    requires ((id == 1 || id == 2) && amount == 50_000) || (id == 3 && amount == 20_000)
    ensures InputFor(ENV, DESC, CoinOf(id, amount).(mustSelect := true)) == Ok(Known(id, amount))
    ensures Authenticate(Txid, OutPoint(LE(id, 32), 0), Some(Paid(id)), Some(TxOut(amount, OWN)))
         == Ok(TxOut(amount, OWN))
  {
    hide LE;
    Ids();
  }

  lemma TwoInputs(env: Env, desc: Descriptor, a: Coin, b: Coin, x: PsbtInput, y: PsbtInput)
    requires InputFor(env, desc, a) == Ok(x) && InputFor(env, desc, b) == Ok(y)
    ensures InputsFor(env, desc, [a, b]) == Ok([x, y])
  {
    hide InputFor;
    assert [a, b][1..] == [b] && [b][1..] == [];
    assert [y] + [] == [y] && [x] + [y] == [x, y];
    assert InputsFor(env, desc, []) == Ok([]);
    assert InputsFor(env, desc, [b]) == Ok([y]);
  }

  lemma TwoTotal(env: Env, p: Psbt, u: TxOut, v: TxOut)
    requires |p.inputs| == |p.tx.inputs| == 2 && p.inputs[0].hasOrigins && p.inputs[1].hasOrigins
    requires Authenticate(env.txid, p.tx.inputs[0].prevout, p.inputs[0].previous, p.inputs[0].witnessUtxo) == Ok(u)
    requires Authenticate(env.txid, p.tx.inputs[1].prevout, p.inputs[1].previous, p.inputs[1].witnessUtxo) == Ok(v)
    requires u.value + v.value < U64_LIMIT
    ensures AddInputs(env, p, 0, 0) == Ok(u.value + v.value)
  {
    hide Authenticate;
    assert AddInputs(env, p, 2, u.value + v.value) == Ok(u.value + v.value);
    assert AddInputs(env, p, 1, u.value) == Ok(u.value + v.value);
  }

  lemma EconomicsWork(p: Psbt, primary: bool)
    requires p.tx.outputs == [TxOut(69_000, RETURN)]
    ensures Economics(ENV, DESC, p, 70_000, primary).Ok?
  {
    assert SumValues(p.tx.outputs) == 69_000;
  }

  /** The sweep's PSBT. */
  function Swept(id: u32, lockTime: u32): Psbt {
    Psbt(Transaction(2, lockTime, TxInsFor(Marked(RequestFor(id, lockTime).coins)), [TxOut(69_000, RETURN)]),
         [Known(id, 50_000), Known(3, 20_000)], Blank(1))
  }

  lemma CheckWorks(id: u32, lockTime: u32, primary: bool)
    requires id == 1 || id == 2
    ensures SanityCheck(ENV, DESC, Swept(id, lockTime), primary).Ok?
  {
    hide LE, Authenticate, Economics, AddInputs;
    var p := Swept(id, lockTime);
    InputWorks(id, 50_000);
    InputWorks(3, 20_000);
    TwoTotal(ENV, p, TxOut(50_000, OWN), TxOut(20_000, OWN));
    EconomicsWork(p, primary);
  }

  lemma HonestWorks(id: u32, lockTime: u32)
    ensures HonestAnswer(RequestFor(id, lockTime))
  {
    hide LE, MustSelect;
    AllMust(Marked(RequestFor(id, lockTime).coins));
  }

  lemma InputsWork(id: u32, lockTime: u32)
    requires id == 1 || id == 2
    ensures InputsFor(ENV, DESC, Marked(RequestFor(id, lockTime).coins)) == Ok([Known(id, 50_000), Known(3, 20_000)])
  {
    hide LE, InputsFor, InputFor, Known;
    var marked := Marked(RequestFor(id, lockTime).coins);
    InputWorks(id, 50_000);
    InputWorks(3, 20_000);
    assert marked == [marked[0], marked[1]];
    TwoInputs(ENV, DESC, marked[0], marked[1], Known(id, 50_000), Known(3, 20_000));
  }

  lemma SweepWorks(id: u32, lockTime: u32)
    requires id == 1 || id == 2
    ensures var req := RequestFor(id, lockTime);
            HonestAnswer(req) && Sweep(ENV, DESC, req, None) == Ok(Swept(id, lockTime))
  {
    hide LE, SanityCheck, InputsFor, Known, HonestAnswer, UsesPrimaryPath;
    var req := RequestFor(id, lockTime);
    HonestWorks(id, lockTime);
    InputsWork(id, lockTime);
    assert OutputsFor([], None, TxOut(69_000, RETURN)) == [TxOut(69_000, RETURN)];
    CheckWorks(id, lockTime, UsesPrimaryPath(Marked(req.coins)));
  }

  // ----- dependencies -----

  const B_LINKS: seq<Link> := [Link([1], None)]
  const F_LINKS: seq<Link> := [Link([2], None)]

  function Dep(id: u32): Dependency {
    var o := OutPoint(LE(id, 32), 0);
    Dependency(o, o, Paid(id), [LE(id, 32)])
  }

  lemma DependencyWorks()
    ensures Verify(CODEC, Dep(1).selected, B_LINKS) == Ok(Dep(1))
    ensures Verify(CODEC, Dep(2).selected, F_LINKS) == Ok(Dep(2))
  {
    hide LE;
    Ids();
    assert [] + [LE(1, 32)] == [LE(1, 32)] && [] + [LE(2, 32)] == [LE(2, 32)];
    assert IsCoinbase(B_TX) && IsCoinbase(F_TX);
    assert CheckBytes(B_LINKS, 0).Ok? && CheckBytes(F_LINKS, 0).Ok?;
    assert Walk(CODEC, B_LINKS, 0, Dep(1).selected, Dep(1).selected, []) == Ok(Dep(1));
    assert Walk(CODEC, F_LINKS, 0, Dep(2).selected, Dep(2).selected, []) == Ok(Dep(2));
  }

  // ----- the pair -----

  lemma CoinsWork(id: u32, lockTime: u32)
    requires id == 1 || id == 2
    ensures CheckCoins(DESC, RETURN, RequestFor(id, lockTime).coins, [], 0).Ok?
    ensures Count(RequestFor(id, lockTime).coins, OutPoint(LE(id, 32), 0)) == 1
    ensures Find(RequestFor(id, lockTime).coins, OutPoint(LE(id, 32), 0)) == Some(CoinOf(id, 50_000))
    ensures SumAmounts(RequestFor(id, lockTime).coins) == 70_000
  {
    hide LE;
    Ids();
    var a, b := CoinOf(id, 50_000), CoinOf(3, 20_000);
    assert [a, b][1..] == [b] && [b][1..] == [];
    assert Insert([], a.outpoint) == [a.outpoint];
    assert CheckCoins(DESC, RETURN, [b], [a.outpoint], 50_000).Ok?;
    assert Count([b], a.outpoint) == 0;
    assert Sequences.Sum(AmountOf, [b]) == 20_000;
  }

  lemma FundingWorks(id: u32, lockTime: u32, chain: ChainId)
    requires id == 1 || id == 2
    ensures CheckFunding(RequestFor(id, lockTime).coins, OutPoint(LE(id, 32), 0), Swept(id, lockTime).tx, chain).Ok?
  {
    hide LE, Find, SumAmounts;
    CoinsWork(id, lockTime);
    assert SumValues(Swept(id, lockTime).tx.outputs) == 69_000;
  }

  const SHA: Sha256 := bytes => LE(0, 32)
  const B_SIDE: Build := Build(ENV, RequestFor(1, 4), Dep(1), None)
  const F_SIDE: Build := Build(ENV, RequestFor(2, 5), Dep(2), None)

  lemma BitcoinWorks()
    ensures BitcoinSide(SHA, Bitcoin, DESC, B_SIDE).Ok?
    ensures var t := BitcoinSide(SHA, Bitcoin, DESC, B_SIDE).value;
            t.transfer == SelfTransfer(Swept(1, 4), DESC, Bitcoin, 0) && t.poisonInput == Dep(1).selected
  {
    hide LE, Sweep, CheckCoins, Count, Find, CheckFunding, Others, Swept;
    SweepWorks(1, 4);
    CoinsWork(1, 4);
    FundingWorks(1, 4, Bitcoin);
  }

  function Point(id: u32): OutPoint {
    OutPoint(LE(id, 32), 0)
  }

  lemma Sets(id: u32, lockTime: u32)
    requires id == 1 || id == 2
    ensures Points(RequestFor(id, lockTime).coins) == {Point(id), Point(3)}
    ensures Spends(Swept(id, lockTime).tx) == {Point(id), Point(3)} && |Swept(id, lockTime).tx.inputs| == 2
  {
    hide LE;
    var coins := RequestFor(id, lockTime).coins;
    assert coins[0].outpoint == Point(id) && coins[1].outpoint == Point(3);
    var tx := Swept(id, lockTime).tx;
    assert tx.inputs[0].prevout == Point(id) && tx.inputs[1].prevout == Point(3);
  }

  lemma SharedCoin(source: SelfTransfer)
    requires source == SelfTransfer(Swept(1, 4), DESC, Bitcoin, 0)
    ensures CheckForkCoins(source, RETURN, Some(Point(2)), RequestFor(2, 5).coins).Ok?
  {
    hide LE;
    Ids();
    var inputs := source.psbt.tx.inputs;
    assert inputs[0].prevout == Point(1) && inputs[1].prevout == Point(3);
    assert Position(inputs[1..], Point(3)) == Some(0) && Position(inputs, Point(3)) == Some(1);
    assert CheckForkCoin(source, RETURN, Some(Point(2)), CoinOf(3, 20_000)).Ok?;
    assert CheckForkCoin(source, RETURN, Some(Point(2)), CoinOf(2, 50_000)).Ok?;
  }

  lemma ForkWorks()
    ensures BitcoinSide(SHA, Bitcoin, DESC, B_SIDE).Ok?
    ensures var t := BitcoinSide(SHA, Bitcoin, DESC, B_SIDE).value;
            && |t.transfer.psbt.inputs| == |t.transfer.psbt.tx.inputs| && t.transfer.psbt == Swept(1, 4)
            && ForkSide(t, BitcoinBlake2b, F_SIDE).Ok? && ForkSide(t, BitcoinBlake2b, F_SIDE).value.psbt == Swept(2, 5)
  {
    hide LE, BitcoinSide, Sweep, CheckFunding, Points, Spends, Swept, CheckForkCoins, Claimed, HonestAnswer;
    BitcoinWorks();
    var t := BitcoinSide(SHA, Bitcoin, DESC, B_SIDE).value;
    Shapes();
    ForkInputs();
    SharedCoin(t.transfer);
    SweepWorks(2, 5);
    FundingWorks(2, 5, BitcoinBlake2b);
  }

  lemma ForkInputs()
    ensures Point(2) != NULL_OUTPOINT && Point(2) !in Spends(Swept(1, 4).tx)
    ensures Points(RequestFor(2, 5).coins) == Claimed(Swept(1, 4).tx, Some(Point(1)), Some(Point(2)))
    ensures |Points(RequestFor(2, 5).coins)| == 2
  {
    hide LE, Points, Spends, Swept;
    Ids();
    Sets(1, 4);
    Sets(2, 5);
    assert Claimed(Swept(1, 4).tx, Some(Point(1)), Some(Point(2))) == {Point(2), Point(3)};
  }

  lemma Shapes()
    ensures |Swept(1, 4).inputs| == |Swept(1, 4).tx.inputs| == 2
  {
  }

  // ----- both confirm on their own chain -----

  const COMMON: seq<Transaction> := [S_TX]

  /** Each chain mines its own coinbase and confirms its own transaction. */
  function Steps(): seq<Step> {
    [OnBitcoin(B_TX), OnFork(F_TX), OnBitcoin(Swept(1, 4).tx), OnFork(Swept(2, 5).tx)]
  }

  lemma CanConfirm(id: u32, lockTime: u32)
    requires id == 1 || id == 2
    ensures CanInclude(Txid, [S_TX, Paid(id)], Swept(id, lockTime).tx)
  {
    hide LE, Swept;
    Sets(id, lockTime);
    assert Created(Txid, S_TX) == {Point(3)} by { OneOutput(S_TX, 3); }
    assert Created(Txid, Paid(id)) == {Point(id)} by { OneOutput(Paid(id), id); }
    var txs := [S_TX, Paid(id)];
    assert txs[..1] == [S_TX] && txs[1] == Paid(id) && [S_TX][..0] == [];
    assert Unspent(Txid, [S_TX]) == {Point(3)};
    assert Spends(Paid(id)) == {NULL_OUTPOINT} by { assert Paid(id).inputs[0].prevout == NULL_OUTPOINT; }
    Ids();
    assert Unspent(Txid, txs) == {Point(3), Point(id)};
  }

  lemma OneOutput(tx: Transaction, id: u32)
    requires tx.lockTime == id && |tx.outputs| == 1
    ensures Created(Txid, tx) == {Point(id)}
  {
    hide LE;
    assert OutPoint(Txid(tx), 0) in Created(Txid, tx);
  }

  lemma RunWorks()
    ensures History(Txid, COMMON) && Interleaving(Txid, Ledgers(COMMON, COMMON), Steps())
    ensures End(Ledgers(COMMON, COMMON), Steps())
         == Ledgers([S_TX, B_TX, Swept(1, 4).tx], [S_TX, F_TX, Swept(2, 5).tx])
  {
    hide LE, Swept, Unspent, Spends;
    CanConfirm(1, 4);
    CanConfirm(2, 5);
    assert COMMON[..0] == [] && History(Txid, []) && IsCoinbase(S_TX) && IsCoinbase(B_TX) && IsCoinbase(F_TX);
    var x, y := Swept(1, 4).tx, Swept(2, 5).tx;
    var l0 := Ledgers([S_TX], [S_TX]);
    var l1 := Ledgers([S_TX, B_TX], [S_TX]);
    var l2 := Ledgers([S_TX, B_TX], [S_TX, F_TX]);
    var l3 := Ledgers([S_TX, B_TX, x], [S_TX, F_TX]);
    var l4 := Ledgers([S_TX, B_TX, x], [S_TX, F_TX, y]);
    assert Apply(l0, OnBitcoin(B_TX)) == l1 && Apply(l1, OnFork(F_TX)) == l2;
    assert Apply(l2, OnBitcoin(x)) == l3 && Apply(l3, OnFork(y)) == l4;
    var steps := Steps();
    assert steps[1..][1..][1..] == [OnFork(y)] && [OnFork(y)][1..] == [];
    assert steps[1..][1..] == [OnBitcoin(x), OnFork(y)];
    assert End(l3, [OnFork(y)]) == l4 && Interleaving(Txid, l3, [OnFork(y)]);
    assert End(l2, steps[1..][1..]) == l4 && Interleaving(Txid, l2, steps[1..][1..]);
    assert End(l1, steps[1..]) == l4 && Interleaving(Txid, l1, steps[1..]);
  }

  /** Small, distinct lock times make distinct identifiers. */
  lemma BindsByLock(txs: set<Transaction>)
    requires forall a, b :: a in txs && b in txs ==> a.lockTime < 256 && (a.lockTime == b.lockTime ==> a == b)
    ensures TxidBinds(Txid, txs)
  {
    hide LE, Strip;
    forall a, b | a in txs && b in txs && Txid(a) == Txid(b) ensures Strip(a) == Strip(b) {
      if a.lockTime != b.lockTime { DifferentIds(a.lockTime, b.lockTime); }
    }
  }

  lemma FiveBind(links: seq<Link>, id: u32, txs: seq<Transaction>, tx: Transaction)
    requires PathTransactions(CODEC, links) == {Paid(id)} && (id == 1 || id == 2)
    requires txs == [S_TX, Paid(3 - id), Swept(3 - id, 6 - id).tx] && tx == Swept(id, 3 + id).tx
    ensures TxidBinds(Txid, Elements(txs) + PathTransactions(CODEC, links) + {tx})
    ensures !Contains(Txid, txs, Txid(Paid(id)))
  {
    hide LE, TxidBinds;
    assert forall x :: x in Elements(txs) <==> x == txs[0] || x == txs[1] || x == txs[2];
    BindsByLock(Elements(txs) + {Paid(id)} + {tx});
    forall x | x in txs ensures Txid(x) != Txid(Paid(id)) { DifferentIds(x.lockTime, id); }
  }

  lemma Paths()
    ensures PathTransactions(CODEC, B_LINKS) == {B_TX} && PathTransactions(CODEC, F_LINKS) == {F_TX}
  {
    assert B_LINKS[0] in B_LINKS && F_LINKS[0] in F_LINKS;
  }

  /** The builders return a pair, and the hypotheses of the paired exclusion hold in a run in which both
      transactions confirm, each on its own chain; so each is on one chain and not on the other. */
  lemma PairConfirms()
    ensures BitcoinSide(SHA, Bitcoin, DESC, B_SIDE).Ok?
    ensures var t := BitcoinSide(SHA, Bitcoin, DESC, B_SIDE).value;
            && |t.transfer.psbt.inputs| == |t.transfer.psbt.tx.inputs| && t.transfer.psbt == Swept(1, 4)
            && ForkSide(t, BitcoinBlake2b, F_SIDE).Ok? && ForkSide(t, BitcoinBlake2b, F_SIDE).value.psbt == Swept(2, 5)
    ensures Interleaving(Txid, Ledgers(COMMON, COMMON), Steps())
    ensures var end := End(Ledgers(COMMON, COMMON), Steps());
            && Contains(Txid, end.bitcoin, Txid(Swept(1, 4).tx)) && Contains(Txid, end.fork, Txid(Swept(2, 5).tx))
            && !Contains(Txid, end.fork, Txid(Swept(1, 4).tx)) && !Contains(Txid, end.bitcoin, Txid(Swept(2, 5).tx))
  {
    hide LE, Swept, BitcoinSide, ForkSide, Verify, Interleaving, History, End, TxidBinds, PathTransactions, Elements,
         HonestAnswer, Txid, Steps;
    RunWorks();
    ForkWorks();
    DependencyWorks();
    Paths();
    var end := End(Ledgers(COMMON, COMMON), Steps());
    FiveBind(B_LINKS, 1, end.fork, Swept(1, 4).tx);
    FiveBind(F_LINKS, 2, end.bitcoin, Swept(2, 5).tx);
    SweepWorks(1, 4);
    SweepWorks(2, 5);
    assert end.bitcoin[2] in end.bitcoin && end.fork[2] in end.fork;
    PairedExclusion(CODEC, SHA, Bitcoin, DESC, BitcoinBlake2b, B_SIDE, F_SIDE, B_LINKS, F_LINKS, COMMON, Steps());
  }
}
