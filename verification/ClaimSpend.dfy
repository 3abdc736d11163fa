/** The builders of a claim's paired transactions: a Bitcoin self-transfer of the shared coins S and
    a Bitcoin-only coin B, and a fork sweep of S and a fork-only coin F. */
module ClaimSpend {
  import opened Wrappers
  import opened Bytes
  import opened Transactions
  import opened OutPoints
  import opened Ledger
  import opened Sighash
  import opened SplitPoison
  import opened Spend
  import opened Ancestry

  datatype ClaimError = InvalidRequest | FundingBelowFee(chain: ChainId) | SpendFailed(error: SpendError)

  /** What every builder is asked for; `selection` is coin selection's answer for these coins. */
  datatype Request = Request(
    coins: seq<Coin>, changeIndex: nat, changeHardened: bool, feerate: nat, lockTime: u32,
    selection: Option<Selection>)

  datatype SelfTransfer = SelfTransfer(psbt: Psbt, descriptor: Descriptor, chain: ChainId, changeIndex: nat)

  datatype AncestryTransfer = AncestryTransfer(
    transfer: SelfTransfer, poisonInput: OutPoint, poisonIndex: nat, poisonChange: bool,
    claimedPrevouts: seq<OutPoint>)

  datatype ForkSweep = ForkSweep(psbt: Psbt, chain: ChainId, step1: Hash, marker: Option<OutPoint>, changeIndex: nat)

  // ----- coins -----

  /** Every coin must be selected. */
  function Marked(coins: seq<Coin>): (r: seq<Coin>)
    ensures |r| == |coins|
    ensures forall i :: 0 <= i < |coins| ==> r[i] == coins[i].(mustSelect := true)
  {
    seq(|coins|, i requires 0 <= i < |coins| => coins[i].(mustSelect := true))
  }

  function Points(coins: seq<Coin>): set<OutPoint> {
    set i | 0 <= i < |coins| :: coins[i].outpoint
  }

  function Count(coins: seq<Coin>, o: OutPoint): nat {
    if coins == [] then 0 else (if coins[0].outpoint == o then 1 else 0) + Count(coins[1..], o)
  }

  function Find(coins: seq<Coin>, o: OutPoint): (r: Option<Coin>)
    ensures r.Some? ==> r.value in coins && r.value.outpoint == o
    ensures r.None? ==> o !in Points(coins)
  {
    if coins == [] then None
    else if coins[0].outpoint == o then Some(coins[0])
    else
      assert forall i :: 0 < i < |coins| ==> coins[i] == coins[1..][i - 1];
      Find(coins[1..], o)
  }

  predicate DistinctPoints(coins: seq<Coin>) {
    forall i, j :: 0 <= i < j < |coins| ==> coins[i].outpoint != coins[j].outpoint
  }

  function Destination(desc: Descriptor, req: Request): Script {
    desc.derive(true, req.changeIndex)
  }

  // ----- the builders -----

  /** Each coin is new, normal, within the money range and not at the destination script; the
      outpoints are collected in order. */
  function CheckCoins(desc: Descriptor, destination: Script, coins: seq<Coin>, seen: seq<OutPoint>, total: nat)
    : Result<seq<OutPoint>, ClaimError>
    decreases |coins|
  {
    if coins == [] then Ok(seen)
    else
      var c := coins[0];
      if c.outpoint == NULL_OUTPOINT || c.outpoint in seen || c.hardened then Err(InvalidRequest)
      else if total + c.amount > MAX_MONEY then Err(InvalidRequest)
      else if desc.derive(c.isChange, c.index) == destination then Err(InvalidRequest)
      else CheckCoins(desc, destination, coins[1..], Insert(seen, c.outpoint), total + c.amount)
  }

  /** A spend of every coin, with no recipient, to the wallet's own change script. */
  function Sweep(env: Env, desc: Descriptor, req: Request, poison: Option<Script>): Result<Psbt, ClaimError> {
    match CreateSpend(env, desc, [], Marked(req.coins), req.feerate, Destination(desc, req), req.lockTime, poison,
                      req.selection)
    case Ok(p) => Ok(p)
    case Err(e) => Err(SpendFailed(e))
  }

  function CreateSelfTransfer(sha: Sha256, env: Env, chain: ChainId, desc: Descriptor, req: Request,
                              marker: Option<Hash>): Result<SelfTransfer, ClaimError>
  {
    if chain != Bitcoin && chain != Testnet4 then Err(InvalidRequest)
    else if desc.taproot || req.changeHardened || req.coins == [] then Err(InvalidRequest)
    else
      var seen :- CheckCoins(desc, Destination(desc, req), req.coins, [], 0);
      var poison := if marker.Some? then PoisonScript(sha, chain, marker.value, seen) else None;
      var p :- Sweep(env, desc, req, poison);
      Ok(SelfTransfer(p, desc, chain, req.changeIndex))
  }

  /** Inputs less outputs, in checked 64-bit arithmetic. */
  function OwnedSpendFee(coins: seq<Coin>, tx: Transaction): Result<nat, ClaimError> {
    if SumAmounts(coins) >= U64_LIMIT || SumValues(tx.outputs) >= U64_LIMIT || SumAmounts(coins) < SumValues(tx.outputs)
    then Err(InvalidRequest)
    else Ok(SumAmounts(coins) - SumValues(tx.outputs))
  }

  /** The funding coin alone covers the fee. */
  function CheckFunding(coins: seq<Coin>, funding: OutPoint, tx: Transaction, chain: ChainId)
    : Result<(), ClaimError>
  {
    match Find(coins, funding)
    case None => Err(InvalidRequest)
    case Some(c) =>
      var fee :- OwnedSpendFee(coins, tx);
      if c.amount < fee then Err(FundingBelowFee(chain)) else Ok(())
  }

  function Others(points: seq<OutPoint>, o: OutPoint): seq<OutPoint> {
    if points == [] then []
    else (if points[0] == o then [] else [points[0]]) + Others(points[1..], o)
  }

  function CreateAncestry(sha: Sha256, env: Env, chain: ChainId, desc: Descriptor, req: Request, dep: Dependency)
    : Result<AncestryTransfer, ClaimError>
  {
    if chain != Bitcoin || |req.coins| < 2 || Count(req.coins, dep.selected) != 1 then Err(InvalidRequest)
    else
      var t :- CreateSelfTransfer(sha, env, chain, desc, req, None);
      var claimed := Others(Prevouts(t.psbt.tx), dep.selected);
      match Find(req.coins, dep.selected)
      case None => Err(InvalidRequest)
      case Some(c) =>
        var _ :- CheckFunding(req.coins, dep.selected, t.psbt.tx, Bitcoin);
        Ok(AncestryTransfer(t, dep.selected, c.index, c.isChange, claimed))
  }

  function Position(inputs: seq<TxIn>, o: OutPoint): (r: Option<nat>)
    ensures r.Some? ==> r.value < |inputs| && inputs[r.value].prevout == o
  {
    if inputs == [] then None
    else if inputs[0].prevout == o then Some(0)
    else
      match Position(inputs[1..], o)
      case None => None
      case Some(i) => Some(i + 1)
  }

  /** A shared coin has the amount and script it has on Bitcoin; no coin pays the destination script. */
  function CheckForkCoin(source: SelfTransfer, destination: Script, added: Option<OutPoint>, c: Coin)
    : Result<(), ClaimError>
    requires |source.psbt.inputs| == |source.psbt.tx.inputs|
  {
    var i := Position(source.psbt.tx.inputs, c.outpoint);
    var script := source.descriptor.derive(c.isChange, c.index);
    if added != Some(c.outpoint) && (i.None? || source.psbt.inputs[i.value].witnessUtxo.None?) then Err(InvalidRequest)
    else if c.hardened then Err(InvalidRequest)
    else if added != Some(c.outpoint) && source.psbt.inputs[i.value].witnessUtxo.value != TxOut(c.amount, script) then
      Err(InvalidRequest)
    else if destination == script then Err(InvalidRequest)
    else Ok(())
  }

  function CheckForkCoins(source: SelfTransfer, destination: Script, added: Option<OutPoint>, coins: seq<Coin>)
    : (r: Result<(), ClaimError>)
    requires |source.psbt.inputs| == |source.psbt.tx.inputs|
    ensures r.Ok? <==> forall c :: c in coins ==> CheckForkCoin(source, destination, added, c).Ok?
  {
    if coins == [] then Ok(())
    else
      assert coins == [coins[0]] + coins[1..];
      var _ :- CheckForkCoin(source, destination, added, coins[0]);
      CheckForkCoins(source, destination, added, coins[1..])
  }

  /** The outpoints a fork sweep has to spend. */
  function Claimed(source: Transaction, excluded: Option<OutPoint>, added: Option<OutPoint>): set<OutPoint> {
    (set o | o in Spends(source) && excluded != Some(o)) + (if added.Some? then {added.value} else {})
  }

  function CreateForkSweep(env: Env, source: SelfTransfer, excluded: Option<OutPoint>, added: Option<OutPoint>,
                           fork: ChainId, req: Request): Result<ForkSweep, ClaimError>
    requires |source.psbt.inputs| == |source.psbt.tx.inputs|
  {
    var original := source.psbt.tx;
    if !ForkPair(source.chain, fork) || req.changeHardened then Err(InvalidRequest)
    else if added.Some? && (added.value == NULL_OUTPOINT || added.value in Spends(original)) then Err(InvalidRequest)
    else if req.coins == [] || |Points(req.coins)| != |req.coins|
            || Points(req.coins) != Claimed(original, excluded, added) then Err(InvalidRequest)
    else
      var _ :- CheckForkCoins(source, Destination(source.descriptor, req), added, req.coins);
      var p :- Sweep(env, source.descriptor, req, None);
      var _ :- if added.Some? then CheckFunding(req.coins, added.value, p.tx, BitcoinBlake2b) else Ok(());
      Ok(ForkSweep(p, fork, env.txid(original), added, req.changeIndex))
  }

  // ----- reconstruction -----

  /** The recorded amount written over the only output. */
  function Revalued(p: Psbt, value: u64): Psbt
    requires p.tx.outputs != []
  {
    p.(tx := p.tx.(outputs := p.tx.outputs[0 := p.tx.outputs[0].(value := value)]))
  }

  function Recheck(env: Env, desc: Descriptor, p: Psbt): Result<(), ClaimError> {
    match Reverify(env, desc, p)
    case Ok(_) => Ok(())
    case Err(e) => Err(SpendFailed(e))
  }

  function ReconstructAncestry(sha: Sha256, env: Env, chain: ChainId, desc: Descriptor, req: Request,
                               dep: Dependency, recorded: Transaction): Result<AncestryTransfer, ClaimError>
  {
    if |recorded.outputs| != 1 then Err(InvalidRequest)
    else
      var t :- CreateAncestry(sha, env, chain, desc, req.(feerate := 1, lockTime := recorded.lockTime), dep);
      SweepHasOutput(env, desc, req.(feerate := 1, lockTime := recorded.lockTime), None);
      var p := Revalued(t.transfer.psbt, recorded.outputs[0].value);
      if p.tx != recorded then Err(InvalidRequest)
      else
        var _ :- CheckFunding(req.coins, dep.selected, p.tx, Bitcoin);
        var _ :- Recheck(env, desc, p);
        Ok(t.(transfer := t.transfer.(psbt := p)))
  }

  function ReconstructForkSweep(env: Env, source: SelfTransfer, excluded: Option<OutPoint>, added: Option<OutPoint>,
                                fork: ChainId, req: Request, recorded: Transaction): Result<ForkSweep, ClaimError>
    requires |source.psbt.inputs| == |source.psbt.tx.inputs|
  {
    if |recorded.outputs| != 1 then Err(InvalidRequest)
    else
      var s :- CreateForkSweep(env, source, excluded, added, fork,
                               req.(feerate := 1, lockTime := recorded.lockTime));
      SweepHasOutput(env, source.descriptor, req.(feerate := 1, lockTime := recorded.lockTime), None);
      var p := Revalued(s.psbt, recorded.outputs[0].value);
      if p.tx != recorded then Err(InvalidRequest)
      else
        var _ :- if added.Some? then CheckFunding(req.coins, added.value, p.tx, BitcoinBlake2b) else Ok(());
        var _ :- Recheck(env, source.descriptor, p);
        Ok(s.(psbt := p))
  }

  /** A checked spend has an output, so the recorded amount has a place. */
  lemma SweepHasOutput(env: Env, desc: Descriptor, req: Request, poison: Option<Script>)
    ensures Sweep(env, desc, req, poison).Ok? ==> Sweep(env, desc, req, poison).value.tx.outputs != []
  {
    hide InputsFor, OutputsFor, CheckOutputValues, AddInputs, Economics;
  }

  // ----- the loops -----

  method CheckCoinsLoop(desc: Descriptor, destination: Script, coins: seq<Coin>)
    returns (r: Result<seq<OutPoint>, ClaimError>)
    ensures r == CheckCoins(desc, destination, coins, [], 0)
  {
    hide Insert, LE;
    var seen: seq<OutPoint> := [];
    var total: nat := 0;
    for i := 0 to |coins|
      invariant CheckCoins(desc, destination, coins, [], 0) == CheckCoins(desc, destination, coins[i..], seen, total)
    {
      assert coins[i..][1..] == coins[i + 1..];
      var coin := coins[i];
      if coin.outpoint == NULL_OUTPOINT || coin.outpoint in seen || coin.hardened { return Err(InvalidRequest); }
      seen := Insert(seen, coin.outpoint);
      total := total + coin.amount;
      if total > MAX_MONEY { return Err(InvalidRequest); }
      if desc.derive(coin.isChange, coin.index) == destination { return Err(InvalidRequest); }
    }
    return Ok(seen);
  }

  method ForkCoinsLoop(source: SelfTransfer, destination: Script, added: Option<OutPoint>, coins: seq<Coin>)
    returns (r: Result<(), ClaimError>)
    requires |source.psbt.inputs| == |source.psbt.tx.inputs|
    ensures r == CheckForkCoins(source, destination, added, coins)
  {
    for i := 0 to |coins|
      invariant CheckForkCoins(source, destination, added, coins)
                == CheckForkCoins(source, destination, added, coins[i..])
    {
      assert coins[i..][1..] == coins[i + 1..];
      var coin := coins[i];
      var prevout: Option<TxOut> := None;
      if added != Some(coin.outpoint) {
        var at := Position(source.psbt.tx.inputs, coin.outpoint);
        if at.None? { return Err(InvalidRequest); }
        prevout := source.psbt.inputs[at.value].witnessUtxo;
        if prevout.None? { return Err(InvalidRequest); }
      }
      if coin.hardened { return Err(InvalidRequest); }
      var script := source.descriptor.derive(coin.isChange, coin.index);
      if (prevout.Some? && (coin.amount != prevout.value.value || script != prevout.value.script))
         || destination == script {
        return Err(InvalidRequest);
      }
    }
    return Ok(());
  }
}
