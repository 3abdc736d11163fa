/** Step 1 of a foreign-wallet split: selection, construction and reconstruction. */
module ForeignSplit {
  import opened Wrappers
  import opened Bytes
  import opened Transactions
  import opened OutPoints
  import opened Ledger
  import opened Sighash
  import opened SplitPoison
  import Spend
  import opened ClaimAssess

  const LOCKTIME_THRESHOLD: u32 := 500_000_000
  const HARDENED: u32 := 0x8000_0000

  datatype Branch = External | Internal

  datatype Shape = Pkh | Wpkh | ShWpkh | Wsh | Tr

  /** A descriptor at one index: its script, the weight bound of a satisfaction if it has one, and what
      it adds to a PSBT input or output if it accepts it. */
  datatype Definite = Definite(script: Script, shape: Shape, maxWeight: Option<nat>, origins: Option<seq<byte>>)

  datatype SplitSource = SplitSource(external: u32 -> Option<Definite>, internal: Option<u32 -> Option<Definite>>)

  datatype NotSplittable = NoBitcoinConfirmation | NoBtcb2Confirmation | PostFork | ChainsDisagree

  datatype SplitError =
    | UnsupportedChain | Taproot | UnsupportedDescriptor | MissingInternal | Empty
    | DuplicateInput(outpoint: OutPoint) | InvalidIndex
    | CannotSplit(outpoint: OutPoint, reason: NotSplittable)
    | InputAuthentication(outpoint: OutPoint, cause: Spend.InputAuthError)
    | ScriptMismatch(outpoint: OutPoint)
    | DestinationNotFresh | Economics | Locktime | Recorded

  datatype SplitCoin = SplitCoin(
    outpoint: OutPoint, branch: Branch, index: u32, previous: Transaction,
    bitcoinBlock: Option<BlockRef>, btcb2Block: Option<BlockRef>)

  datatype Selected = Selected(
    outpoint: OutPoint, branch: Branch, index: u32, previous: Transaction, output: TxOut, definite: Definite)

  datatype Selection = Selection(selected: seq<Selected>, outpoints: seq<OutPoint>, total: u64)

  datatype SplitInputs = SplitInputs(
    chain: ChainId, source: SplitSource, coins: seq<SplitCoin>, forkHeight: u64, destination: u32)

  datatype Plan = Plan(
    selected: seq<Selected>, destination: Definite, poison: Script, total: u64, maximumSignedVbytes: nat)

  datatype Step1 = Step1(
    psbt: Spend.Psbt, chain: ChainId, inputs: seq<(Branch, u32)>, destination: u32, forkHeight: u64,
    forkMarker: Hash, maximumSignedVbytes: nat, total: u64)

  /** Foreign functions: the hash of the poison commitment, the identifier, relay dust. */
  datatype Env = Env(sha: Sha256, txid: TxidOf, dust: Script -> nat)

  // ----- selection -----

  function Splittable(c: SplitCoin, forkHeight: u64): Result<(), NotSplittable> {
    match (c.bitcoinBlock, c.btcb2Block)
    case (None, _) => Err(NoBitcoinConfirmation)
    case (_, None) => Err(NoBtcb2Confirmation)
    case (Some(a), Some(b)) =>
      if a.height >= forkHeight || b.height >= forkHeight then Err(PostFork)
      else if a != b then Err(ChainsDisagree)
      else Ok(())
  }

  function Derive(source: SplitSource, branch: Branch, index: u32): Result<Definite, SplitError> {
    if index >= HARDENED then Err(InvalidIndex)
    else if branch == Internal && source.internal.None? then Err(MissingInternal)
    else
      match (if branch == Internal then source.internal.value(index) else source.external(index))
      case None => Err(UnsupportedDescriptor)
      case Some(d) => if d.shape == Tr then Err(Taproot) else Ok(d)
  }

  /** Stable sort by outpoint. */
  function SortCoins(coins: seq<SplitCoin>): seq<SplitCoin> {
    if coins == [] then [] else InsertCoin(coins[0], SortCoins(coins[1..]))
  }

  function InsertCoin(c: SplitCoin, s: seq<SplitCoin>): seq<SplitCoin> {
    if s == [] || !Less(s[0].outpoint, c.outpoint) then [c] + s else [s[0]] + InsertCoin(c, s[1..])
  }

  /** One coin against its stated derivation and its blocks on both chains. */
  function SelectOne(env: Env, source: SplitSource, c: SplitCoin, forkHeight: u64): Result<Selected, SplitError> {
    match Splittable(c, forkHeight)
    case Err(e) => Err(CannotSplit(c.outpoint, e))
    case Ok(_) =>
      var definite :- Derive(source, c.branch, c.index);
      match Spend.Authenticate(env.txid, c.outpoint, Some(c.previous), None)
      case Err(e) => Err(InputAuthentication(c.outpoint, e))
      case Ok(out) =>
        if definite.script != out.script then Err(ScriptMismatch(c.outpoint))
        else Ok(Selected(c.outpoint, c.branch, c.index, c.previous, out, definite))
  }

  /** The coins in order, on top of what is selected already. */
  function SelectFrom(env: Env, source: SplitSource, coins: seq<SplitCoin>, forkHeight: u64, acc: Selection)
    : Result<Selection, SplitError>
    decreases |coins|
  {
    if coins == [] then Ok(acc)
    else if coins[0].outpoint in acc.outpoints then Err(DuplicateInput(coins[0].outpoint))
    else
      var one :- SelectOne(env, source, coins[0], forkHeight);
      if acc.total + one.output.value > MAX_MONEY then Err(Economics)
      else
        SelectFrom(env, source, coins[1..], forkHeight,
                   Selection(acc.selected + [one], Insert(acc.outpoints, one.outpoint), acc.total + one.output.value))
  }

  function Select(env: Env, source: SplitSource, coins: seq<SplitCoin>, forkHeight: u64): Result<Selection, SplitError> {
    if coins == [] then Err(Empty)
    else SelectFrom(env, source, SortCoins(coins), forkHeight, Selection([], [], 0))
  }

  // ----- size -----

  function TxInFor(s: Selected): TxIn {
    TxIn(s.outpoint, [], RBF_SEQUENCE, [])
  }

  function UnsignedTransaction(selected: seq<Selected>, outputs: seq<TxOut>, lockTime: u32): (r: Transaction)
    ensures |r.inputs| == |selected|
    ensures forall i :: 0 <= i < |selected| ==> r.inputs[i] == TxInFor(selected[i])
  {
    Transaction(2, lockTime, seq(|selected|, i requires 0 <= i < |selected| => TxInFor(selected[i])), outputs)
  }

  function Step1Outputs(poison: Script, destination: Script, value: u64): seq<TxOut> {
    [TxOut(0, poison), TxOut(value, destination)]
  }

  predicate IsSegwit(d: Definite) {
    d.shape != Pkh
  }

  /** Bytes of a transaction without its witness section. */
  function BaseSize(tx: Transaction): nat {
    4 + |CompactSize(|tx.inputs|)| + InputsSize(tx.inputs)
    + |CompactSize(|tx.outputs|)| + OutputsSize(tx.outputs) + 4
  }

  function InputsSize(inputs: seq<TxIn>): nat {
    if inputs == [] then 0 else 40 + |VarBytes(inputs[0].scriptSig)| + InputsSize(inputs[1..])
  }

  function OutputsSize(outputs: seq<TxOut>): nat {
    if outputs == [] then 0 else 8 + |VarBytes(outputs[0].script)| + OutputsSize(outputs[1..])
  }

  function WitnessesSize(inputs: seq<TxIn>): nat {
    if inputs == [] then 0 else WitnessSize(inputs[0].witnessStack) + WitnessesSize(inputs[1..])
  }

  predicate HasWitness(tx: Transaction) {
    exists i :: 0 <= i < |tx.inputs| && tx.inputs[i].witnessStack != []
  }

  /** Consensus weight: the witness section counts once, everything else four times. */
  function Weight(tx: Transaction): nat {
    4 * BaseSize(tx) + (if HasWitness(tx) then 2 + WitnessesSize(tx.inputs) else 0)
  }

  function Vsize(tx: Transaction): nat {
    (Weight(tx) + 3) / 4
  }

  /** The satisfaction bounds added up in checked 64-bit arithmetic. */
  function SatisfactionBound(selected: seq<Selected>, sum: nat): Result<nat, SplitError>
    decreases |selected|
  {
    if selected == [] then Ok(sum)
    else if selected[0].definite.maxWeight.None? then Err(UnsupportedDescriptor)
    else if sum + selected[0].definite.maxWeight.value >= U64_LIMIT then Err(Economics)
    else SatisfactionBound(selected[1..], sum + selected[0].definite.maxWeight.value)
  }

  predicate AnySegwit(selected: seq<Selected>) {
    exists i :: 0 <= i < |selected| && IsSegwit(selected[i].definite)
  }

  function MaximumSignedVbytes(selected: seq<Selected>, outputs: seq<TxOut>): Result<nat, SplitError> {
    var satisfaction :- SatisfactionBound(selected, 0);
    var weight := Weight(UnsignedTransaction(selected, outputs, 0)) + satisfaction
                  + (if AnySegwit(selected) then 2 + |selected| else 0) + 3;
    if weight >= U64_LIMIT then Err(Economics) else Ok(weight / 4)
  }

  // ----- economics and locktime -----

  function Max(a: nat, b: nat): nat { if a < b then b else a }
  function Min(a: nat, b: nat): nat { if a < b then a else b }

  function Ceiling(vbytes: nat): nat {
    Min(vbytes * Spend.MAX_FEERATE, Spend.MAX_FEE)
  }

  function CheckEconomics(env: Env, total: nat, destination: nat, script: Script, vbytes: nat): Result<(), SplitError> {
    if total < destination || vbytes * Spend.MAX_FEERATE >= U64_LIMIT then Err(Economics)
    else if destination < Max(Spend.DUST_OUTPUT_SATS, env.dust(script)) then Err(Economics)
    else if !(vbytes <= total - destination <= Ceiling(vbytes)) then Err(Economics)
    else Ok(())
  }

  function CheckLocktime(lockTime: u32, tip: u32): Result<(), SplitError> {
    if lockTime < LOCKTIME_THRESHOLD && lockTime <= tip then Ok(()) else Err(Locktime)
  }

  // ----- construction -----

  function MakePlan(env: Env, inputs: SplitInputs, marker: Hash): Result<Plan, SplitError> {
    if inputs.chain != Bitcoin && inputs.chain != Testnet4 then Err(UnsupportedChain)
    else
      var s :- Select(env, inputs.source, inputs.coins, inputs.forkHeight);
      var destination :- Derive(inputs.source, External, inputs.destination);
      if exists i :: 0 <= i < |s.selected| && s.selected[i].output.script == destination.script then
        Err(DestinationNotFresh)
      else
        match PoisonScript(env.sha, inputs.chain, marker, s.outpoints)
        case None => Err(UnsupportedChain)
        case Some(poison) =>
          var vbytes :- MaximumSignedVbytes(s.selected, Step1Outputs(poison, destination.script, 0));
          Ok(Plan(s.selected, destination, poison, s.total, vbytes))
  }

  function InputsFor(selected: seq<Selected>): (r: Result<seq<Spend.PsbtInput>, SplitError>)
    ensures r.Ok? ==> |r.value| == |selected|
  {
    if selected == [] then Ok([])
    else
      var s := selected[0];
      if s.definite.origins.None? then Err(UnsupportedDescriptor)
      else
        var rest :- InputsFor(selected[1..]);
        Ok([Spend.PsbtInput(Some(s.previous), if IsSegwit(s.definite) then Some(s.output) else None, true,
                            s.definite.origins.value)] + rest)
  }

  function Build(inputs: SplitInputs, plan: Plan, value: u64, lockTime: u32, marker: Hash): Result<Step1, SplitError> {
    var tx := UnsignedTransaction(plan.selected, Step1Outputs(plan.poison, plan.destination.script, value), lockTime);
    var ins :- InputsFor(plan.selected);
    if plan.destination.origins.None? then Err(UnsupportedDescriptor)
    else
      Ok(Step1(Spend.Psbt(tx, ins, [[], plan.destination.origins.value]), inputs.chain,
               seq(|plan.selected|, i requires 0 <= i < |plan.selected| =>
                     (plan.selected[i].branch, plan.selected[i].index)),
               inputs.destination, inputs.forkHeight, marker, plan.maximumSignedVbytes, plan.total))
  }

  function Create(env: Env, inputs: SplitInputs, feerate: nat, lockTime: u32, tip: u32, marker: Hash)
    : Result<Step1, SplitError>
  {
    var _ :- CheckLocktime(lockTime, tip);
    var plan :- MakePlan(env, inputs, marker);
    if !(1 <= feerate <= Spend.MAX_FEERATE) then Err(Economics)
    else
      var fee := plan.maximumSignedVbytes * feerate;
      if fee >= U64_LIMIT || plan.total < fee then Err(Economics)
      else
        var value := plan.total - fee;
        var _ :- CheckEconomics(env, plan.total, value, plan.destination.script, plan.maximumSignedVbytes);
        Build(inputs, plan, value, lockTime, marker)
  }

  function Reconstruct(env: Env, inputs: SplitInputs, recorded: Transaction, tip: u32): Result<Step1, SplitError> {
    if |recorded.outputs| != 2 then Err(Recorded)
    else
      match ForkMarker(recorded.outputs[0].script)
      case None => Err(Recorded)
      case Some(marker) =>
        var plan :- MakePlan(env, inputs, marker);
        var value := recorded.outputs[1].value;
        var _ :- CheckLocktime(recorded.lockTime, tip);
        var _ :- CheckEconomics(env, plan.total, value, plan.destination.script, plan.maximumSignedVbytes);
        var rebuilt :- Build(inputs, plan, value, recorded.lockTime, marker);
        if rebuilt.psbt.tx != recorded then Err(Recorded) else Ok(rebuilt)
  }

  /** What the construction pays, as a release build subtracts it. */
  function FeeOf(s: Step1): int {
    s.total - Spend.OutputTotal(s.psbt.tx)
  }

  // ----- the loops -----

  method SelectLoop(env: Env, source: SplitSource, coins: seq<SplitCoin>, forkHeight: u64)
    returns (r: Result<Selection, SplitError>)
    ensures r == Select(env, source, coins, forkHeight)
  {
    hide SelectOne, Insert, SortCoins;
    if coins == [] { return Err(Empty); }
    var sorted := SortCoins(coins);
    var outpoints: seq<OutPoint>, selected: seq<Selected>, total: u64 := [], [], 0;
    for i := 0 to |sorted|
      invariant SelectFrom(env, source, sorted, forkHeight, Selection([], [], 0))
                == SelectFrom(env, source, sorted[i..], forkHeight, Selection(selected, outpoints, total))
    {
      assert sorted[i..][1..] == sorted[i + 1..];
      if sorted[i].outpoint in outpoints { return Err(DuplicateInput(sorted[i].outpoint)); }
      var one := SelectOne(env, source, sorted[i], forkHeight);
      if one.Err? { return Err(one.error); }
      outpoints := Insert(outpoints, one.value.outpoint);
      if total + one.value.output.value > MAX_MONEY { return Err(Economics); }
      total := total + one.value.output.value;
      selected := selected + [one.value];
    }
    return Ok(Selection(selected, outpoints, total));
  }

  method MaximumSignedVbytesLoop(selected: seq<Selected>, outputs: seq<TxOut>) returns (r: Result<nat, SplitError>)
    ensures r == MaximumSignedVbytes(selected, outputs)
  {
    hide Weight, UnsignedTransaction;
    var satisfaction: nat := 0;
    for i := 0 to |selected|
      invariant SatisfactionBound(selected, 0) == SatisfactionBound(selected[i..], satisfaction)
    {
      assert selected[i..][1..] == selected[i + 1..];
      var bound := selected[i].definite.maxWeight;
      if bound.None? { return Err(UnsupportedDescriptor); }
      if satisfaction + bound.value >= U64_LIMIT { return Err(Economics); }
      satisfaction := satisfaction + bound.value;
    }
    var weight := Weight(UnsignedTransaction(selected, outputs, 0)) + satisfaction
                  + (if AnySegwit(selected) then 2 + |selected| else 0) + 3;
    if weight >= U64_LIMIT { return Err(Economics); }
    return Ok(weight / 4);
  }
}
