/** Spend construction and the pre-broadcast check: amounts come only from authenticated
    previous transactions. */
module Spend {
  import opened Wrappers
  import opened Bytes
  import opened Transactions
  import opened Ledger
  import opened Sequences

  const DUST_OUTPUT_SATS: u64 := 500
  const MAX_FEE: u64 := 100_000_000
  const MAX_FEERATE: u64 := 1_000

  datatype InputAuthError =
    | MissingPreviousTransaction
    | TxidMismatch(expected: Hash, actual: Hash)
    | InvalidVout(vout: u32, outputCount: nat)
    | InvalidAmount(value: u64)
    | AmountMismatch(claimed: u64, paid: u64)
    | ScriptMismatch
    | WitnessUtxoConflict

  datatype SpendError =
    | InvalidFeerate(feerate: nat)
    | InvalidOutputValue(value: u64)
    | NegativeFee
    | ZeroSize
    | TooHighFee(fee: nat)
    | TooHighFeerate(feerate: nat)
    | InputAuthentication(outpoint: OutPoint, reason: InputAuthError)
    | CoinSelection
    | SanityCheckFailure

  /** `hardened` indices cannot be derived from a public descriptor. */
  datatype Coin = Coin(
    outpoint: OutPoint, amount: u64, index: nat, hardened: bool, isChange: bool, mustSelect: bool,
    sequence: Option<u32>)

  /** The wallet descriptor: script per branch and index, and the worst-case signed size. */
  datatype Descriptor = Descriptor(
    taproot: bool,
    derive: (bool, nat) -> Script,
    maxVbytes: (Transaction, bool) -> nat)

  /** Foreign facts: the identifier, the relay dust threshold, the wallet's transactions. */
  datatype Env = Env(txid: TxidOf, dust: Script -> nat, getTx: Hash -> Option<Transaction>)

  /** What a PSBT says about one input; `metadata` stands for everything the check does not read. */
  datatype PsbtInput = PsbtInput(
    previous: Option<Transaction>, witnessUtxo: Option<TxOut>, hasOrigins: bool, metadata: seq<byte>)

  datatype Psbt = Psbt(tx: Transaction, inputs: seq<PsbtInput>, outputs: seq<seq<byte>>)

  // ----- authentication -----

  function Authenticate(txid: TxidOf, o: OutPoint, previous: Option<Transaction>, witnessUtxo: Option<TxOut>)
    : (r: Result<TxOut, InputAuthError>)
  {
    match previous
    case None => Err(MissingPreviousTransaction)
    case Some(tx) =>
      if txid(tx) != o.txid then Err(TxidMismatch(o.txid, txid(tx)))
      else if o.vout >= |tx.outputs| then Err(InvalidVout(o.vout, |tx.outputs|))
      else if tx.outputs[o.vout].value > MAX_MONEY then Err(InvalidAmount(tx.outputs[o.vout].value))
      else if witnessUtxo.Some? && witnessUtxo.value != tx.outputs[o.vout] then Err(WitnessUtxoConflict)
      else Ok(tx.outputs[o.vout])
  }

  /** The running input total over a PSBT's inputs. */
  function AddInputs(env: Env, p: Psbt, i: nat, sum: nat): Result<nat, SpendError>
    requires |p.inputs| == |p.tx.inputs| && i <= |p.inputs|
    decreases |p.inputs| - i
  {
    if i == |p.inputs| then Ok(sum)
    else if !p.inputs[i].hasOrigins then Err(SanityCheckFailure)
    else
      var o := p.tx.inputs[i].prevout;
      match Authenticate(env.txid, o, p.inputs[i].previous, p.inputs[i].witnessUtxo)
      case Err(e) => Err(InputAuthentication(o, e))
      case Ok(out) =>
        if sum + out.value >= U64_LIMIT then Err(SanityCheckFailure)
        else AddInputs(env, p, i + 1, sum + out.value)
  }

  /** The output total as a release build adds it. */
  function OutputTotal(tx: Transaction): nat {
    SumValues(tx.outputs) % U64_LIMIT
  }

  function Economics(env: Env, desc: Descriptor, p: Psbt, valueIn: nat, primary: bool): Result<(), SpendError> {
    if valueIn < OutputTotal(p.tx) then Err(NegativeFee)
    else
      var fee := valueIn - OutputTotal(p.tx);
      var size := desc.maxVbytes(p.tx, primary);
      if fee > MAX_FEE then Err(TooHighFee(fee))
      else if size == 0 then Err(ZeroSize)
      else if !(1 <= fee / size <= MAX_FEERATE) then Err(TooHighFeerate(fee / size))
      else if exists o :: o in p.tx.outputs && o.value < env.dust(o.script) then Err(SanityCheckFailure)
      else Ok(())
  }

  function SanityCheck(env: Env, desc: Descriptor, p: Psbt, primary: bool): Result<(), SpendError> {
    if |p.inputs| != |p.tx.inputs| || |p.outputs| != |p.tx.outputs| || p.tx.outputs == [] then
      Err(SanityCheckFailure)
    else
      var valueIn :- AddInputs(env, p, 0, 0);
      Economics(env, desc, p, valueIn, primary)
  }

  /** Either spending path may justify the feerate. */
  function Reverify(env: Env, desc: Descriptor, p: Psbt): Result<(), SpendError> {
    match SanityCheck(env, desc, p, true)
    case Ok(_) => Ok(())
    case Err(e) => if SanityCheck(env, desc, p, false).Ok? then Ok(()) else Err(e)
  }

  // ----- the fee source -----

  /** The value of a checked PSBT's inputs. */
  function InputTotal(env: Env, desc: Descriptor, p: Psbt): nat
    requires Reverify(env, desc, p).Ok?
  {
    AddInputs(env, p, 0, 0).value
  }

  function Fee(env: Env, desc: Descriptor, p: Psbt): nat
    requires Reverify(env, desc, p).Ok?
  {
    InputTotal(env, desc, p) - OutputTotal(p.tx)
  }

  /** The previous transactions a PSBT supplies. */
  ghost function Supplied(p: Psbt): set<Transaction> {
    set i | 0 <= i < |p.inputs| && p.inputs[i].previous.Some? :: p.inputs[i].previous.value
  }

  /** One outpoint has one authenticated output, whoever supplies the previous transaction. */
  lemma SameOutput(txid: TxidOf, o: OutPoint, a: Transaction, b: Transaction, v: Option<TxOut>, w: Option<TxOut>)
    requires TxidBinds(txid, {a, b})
    requires Authenticate(txid, o, Some(a), v).Ok? && Authenticate(txid, o, Some(b), w).Ok?
    ensures Authenticate(txid, o, Some(a), v) == Authenticate(txid, o, Some(b), w)
  {
    assert Strip(a) == Strip(b);
  }

  lemma {:induction false} SameInputs(env: Env, p: Psbt, q: Psbt, i: nat, sum: nat)
    requires p.tx == q.tx && |p.inputs| == |q.inputs| == |p.tx.inputs| && i <= |p.inputs|
    requires TxidBinds(env.txid, Supplied(p) + Supplied(q))
    requires AddInputs(env, p, i, sum).Ok? && AddInputs(env, q, i, sum).Ok?
    ensures AddInputs(env, p, i, sum) == AddInputs(env, q, i, sum)
    decreases |p.inputs| - i
  {
    if i < |p.inputs| {
      var o := p.tx.inputs[i].prevout;
      var a, b := p.inputs[i], q.inputs[i];
      assert a.previous.value in Supplied(p) && b.previous.value in Supplied(q);
      SameOutput(env.txid, o, a.previous.value, b.previous.value, a.witnessUtxo, b.witnessUtxo);
      SameInputs(env, p, q, i + 1, sum + Authenticate(env.txid, o, a.previous, a.witnessUtxo).value.value);
    }
  }

  /** The fee is fixed by the unsigned transaction alone: any two checked PSBTs for it agree on
      input total and fee, whatever else they carry and whichever descriptor they were checked for. */
  lemma FeeSourceFixed(env: Env, desc: Descriptor, other: Descriptor, p: Psbt, q: Psbt)
    requires p.tx == q.tx && Reverify(env, desc, p).Ok? && Reverify(env, other, q).Ok?
    requires TxidBinds(env.txid, Supplied(p) + Supplied(q))
    ensures InputTotal(env, desc, p) == InputTotal(env, other, q)
    ensures Fee(env, desc, p) == Fee(env, other, q)
  {
    SameInputs(env, p, q, 0, 0);
  }

  /** A checked fee is the difference of real totals exactly when the output total fits 64 bits. */
  lemma FeeConserved(env: Env, desc: Descriptor, p: Psbt)
    requires Reverify(env, desc, p).Ok?
    ensures InputTotal(env, desc, p) == SumValues(p.tx.outputs) + Fee(env, desc, p) <==>
              SumValues(p.tx.outputs) < U64_LIMIT
    ensures Fee(env, desc, p) <= MAX_FEE
  {
  }

  /** A spend of `previous` that creates two outputs of 2^63. */
  function Overflowing(env: Env, previous: Transaction, script: Script): Transaction {
    var big := TxOut(0x8000_0000_0000_0000, script);
    Transaction(2, 0, [TxIn(OutPoint(env.txid(previous), 0), [], RBF_SEQUENCE, [])], [big, big])
  }

  /** In every environment: two outputs of 2^63 add up to zero in 64 bits, so a spend of any coin whose
      value alone is a fee the check allows passes it while creating more than it spends. */
  lemma WrappedTotal(env: Env, desc: Descriptor, previous: Transaction, script: Script, metadata: seq<byte>)
    requires previous.outputs != [] && previous.outputs[0].value <= MAX_FEE
    requires env.dust(script) <= 0x8000_0000_0000_0000
    requires var size := desc.maxVbytes(Overflowing(env, previous, script), true);
             size > 0 && 1 <= previous.outputs[0].value / size <= MAX_FEERATE
    ensures var tx := Overflowing(env, previous, script);
            var p := Psbt(tx, [PsbtInput(Some(previous), None, true, metadata)], Blank(2));
            && Reverify(env, desc, p).Ok?
            && InputTotal(env, desc, p) == previous.outputs[0].value == Fee(env, desc, p) < SumValues(tx.outputs)
  {
    var tx := Overflowing(env, previous, script);
    var p := Psbt(tx, [PsbtInput(Some(previous), None, true, metadata)], Blank(2));
    var value := previous.outputs[0].value;
    assert tx.outputs[1..] == [tx.outputs[1]] && SumValues(tx.outputs[1..]) == 0x8000_0000_0000_0000;
    assert SumValues(tx.outputs) == U64_LIMIT;
    assert AddInputs(env, p, 1, value) == Ok(value);
    assert AddInputs(env, p, 0, 0) == Ok(value);
    assert SanityCheck(env, desc, p, true).Ok?;
  }

  // ----- the builder -----

  /** What coin selection returns; the selection algorithm itself is foreign. */
  datatype Selection = Selection(selected: seq<Coin>, change: u64)

  function MustSelect(coins: seq<Coin>): seq<Coin> {
    if coins == [] then []
    else (if coins[0].mustSelect then [coins[0]] else []) + MustSelect(coins[1..])
  }

  /** Selection takes candidates only, each at most once, and every one it must. */
  ghost predicate Honest(candidates: seq<Coin>, s: Selection) {
    multiset(MustSelect(candidates)) <= multiset(s.selected) <= multiset(candidates)
  }

  function CheckOutputValue(value: u64): Result<(), SpendError> {
    if value > MAX_MONEY || value < DUST_OUTPUT_SATS then Err(InvalidOutputValue(value)) else Ok(())
  }

  function CheckOutputValues(outs: seq<TxOut>): (r: Result<(), SpendError>)
    ensures r.Ok? ==> forall o :: o in outs ==> DUST_OUTPUT_SATS <= o.value <= MAX_MONEY
  {
    if outs == [] then Ok(())
    else
      var _ :- CheckOutputValue(outs[0].value);
      assert outs == [outs[0]] + outs[1..];
      CheckOutputValues(outs[1..])
  }

  function TxInFor(c: Coin): TxIn {
    TxIn(c.outpoint, [], if c.sequence.Some? then c.sequence.value else RBF_SEQUENCE, [])
  }

  function TxInsFor(coins: seq<Coin>): (r: seq<TxIn>)
    ensures |r| == |coins|
    ensures forall i :: 0 <= i < |coins| ==> r[i] == TxInFor(coins[i])
  {
    seq(|coins|, i requires 0 <= i < |coins| => TxInFor(coins[i]))
  }

  /** One input's PSBT data, authenticated against the wallet's own amount and script. */
  function InputFor(env: Env, desc: Descriptor, c: Coin): Result<PsbtInput, SpendError> {
    var previous := env.getTx(c.outpoint.txid);
    match Authenticate(env.txid, c.outpoint, previous, None)
    case Err(e) => Err(InputAuthentication(c.outpoint, e))
    case Ok(out) =>
      if out.value != c.amount then Err(InputAuthentication(c.outpoint, AmountMismatch(c.amount, out.value)))
      else if out.script != desc.derive(c.isChange, c.index) then
        Err(InputAuthentication(c.outpoint, ScriptMismatch))
      else Ok(PsbtInput(previous, Some(out), true, []))
  }

  function InputsFor(env: Env, desc: Descriptor, coins: seq<Coin>): (r: Result<seq<PsbtInput>, SpendError>)
    ensures r.Ok? ==> |r.value| == |coins|
    ensures r.Ok? ==> forall i :: 0 <= i < |coins| ==> InputFor(env, desc, coins[i]) == Ok(r.value[i])
  {
    if coins == [] then Ok([])
    else
      var head :- InputFor(env, desc, coins[0]);
      var rest :- InputsFor(env, desc, coins[1..]);
      Ok([head] + rest)
  }

  predicate UsesPrimaryPath(coins: seq<Coin>) {
    !exists c :: c in coins && c.sequence.Some? && c.sequence.value < 0x8000_0000
  }

  /** Destinations, then the poison output, then the change. */
  function OutputsFor(destinations: seq<TxOut>, poison: Option<Script>, change: TxOut): seq<TxOut> {
    destinations + (if poison.Some? then [TxOut(0, poison.value)] else [])
    + (if change.value > 0 then [change] else [])
  }

  /** Output maps before any metadata is added. */
  function Blank(n: nat): (r: seq<seq<byte>>)
    ensures |r| == n && forall i :: 0 <= i < n ==> r[i] == []
  {
    seq(n, i => [])
  }

  /** `selection` is what coin selection answered for these candidates. */
  function CreateSpend(env: Env, desc: Descriptor, destinations: seq<TxOut>, candidates: seq<Coin>, feerate: nat,
                       changeScript: Script, lockTime: u32, poison: Option<Script>, selection: Option<Selection>)
    : Result<Psbt, SpendError>
  {
    if feerate < 1 then Err(InvalidFeerate(feerate))
    else
      var _ :- CheckOutputValues(destinations);
      if feerate >= 0x1_0000 then Err(TooHighFeerate(feerate))
      else
        match selection
        case None => Err(CoinSelection)
        case Some(s) =>
          var _ :- if s.change > 0 then CheckOutputValue(s.change) else Ok(());
          var inputs :- InputsFor(env, desc, s.selected);
          var outputs := OutputsFor(destinations, poison, TxOut(s.change, changeScript));
          var p := Psbt(Transaction(2, lockTime, TxInsFor(s.selected), outputs), inputs, Blank(|outputs|));
          var _ :- SanityCheck(env, desc, p, UsesPrimaryPath(candidates));
          Ok(p)
  }

  /** Every spend the builder returns passes the pre-broadcast check. */
  lemma BuiltPassesCheck(env: Env, desc: Descriptor, destinations: seq<TxOut>, candidates: seq<Coin>, feerate: nat,
                         changeScript: Script, lockTime: u32, poison: Option<Script>, selection: Option<Selection>)
    requires CreateSpend(env, desc, destinations, candidates, feerate, changeScript, lockTime, poison, selection).Ok?
    ensures Reverify(env, desc, CreateSpend(env, desc, destinations, candidates, feerate, changeScript, lockTime,
                                            poison, selection).value).Ok?
  {
    hide SanityCheck, InputsFor, OutputsFor;
  }

  function AmountOf(c: Coin): nat { c.amount }

  function SumAmounts(coins: seq<Coin>): nat {
    Sum(AmountOf, coins)
  }

  /** The check reads a built PSBT's input total as the sum of the selected coins. */
  lemma {:induction false} BuiltInputs(env: Env, p: Psbt, coins: seq<Coin>, desc: Descriptor, i: nat, sum: nat)
    requires |p.inputs| == |p.tx.inputs| == |coins| && i <= |coins|
    requires p.tx.inputs == TxInsFor(coins) && InputsFor(env, desc, coins) == Ok(p.inputs)
    requires AddInputs(env, p, i, sum).Ok?
    ensures AddInputs(env, p, i, sum) == Ok(sum + SumAmounts(coins[i..]))
    decreases |coins| - i
  {
    hide InputsFor;
    if i < |coins| {
      assert InputFor(env, desc, coins[i]) == Ok(p.inputs[i]);
      BuiltInputs(env, p, coins, desc, i + 1, sum + coins[i].amount);
      assert coins[i..][1..] == coins[i + 1..];
    }
  }

  lemma {:induction false} AllMust(coins: seq<Coin>)
    requires forall c :: c in coins ==> c.mustSelect
    ensures MustSelect(coins) == coins
  {
    if coins != [] {
      assert coins[0] in coins;
      AllMust(coins[1..]);
    }
  }

  // ----- the loops -----

  method AddInputsLoop(env: Env, p: Psbt) returns (r: Result<nat, SpendError>)
    requires |p.inputs| == |p.tx.inputs|
    ensures r == AddInputs(env, p, 0, 0)
  {
    hide Authenticate;
    var valueIn: nat := 0;
    for i := 0 to |p.inputs|
      invariant AddInputs(env, p, 0, 0) == AddInputs(env, p, i, valueIn)
    {
      if !p.inputs[i].hasOrigins { return Err(SanityCheckFailure); }
      var o := p.tx.inputs[i].prevout;
      var authenticated := Authenticate(env.txid, o, p.inputs[i].previous, p.inputs[i].witnessUtxo);
      if authenticated.Err? { return Err(InputAuthentication(o, authenticated.error)); }
      if valueIn + authenticated.value.value >= U64_LIMIT { return Err(SanityCheckFailure); }
      valueIn := valueIn + authenticated.value.value;
    }
    return Ok(valueIn);
  }

  lemma {:induction false} AllAuthenticated(env: Env, desc: Descriptor, coins: seq<Coin>, inputs: seq<PsbtInput>)
    requires |inputs| == |coins| && forall i :: 0 <= i < |coins| ==> InputFor(env, desc, coins[i]) == Ok(inputs[i])
    ensures InputsFor(env, desc, coins) == Ok(inputs)
  {
    hide InputFor;
    if coins != [] {
      assert inputs == [inputs[0]] + inputs[1..];
      AllAuthenticated(env, desc, coins[1..], inputs[1..]);
    }
  }

  lemma {:induction false} FirstUnauthenticated(env: Env, desc: Descriptor, coins: seq<Coin>, i: nat)
    requires i < |coins| && InputFor(env, desc, coins[i]).Err?
    requires forall j :: 0 <= j < i ==> InputFor(env, desc, coins[j]).Ok?
    ensures InputsFor(env, desc, coins) == Err(InputFor(env, desc, coins[i]).error)
  {
    hide InputFor;
    if i > 0 { FirstUnauthenticated(env, desc, coins[1..], i - 1); }
  }

  /** One coin's input, authenticated step by step. */
  method AuthenticateCoin(env: Env, desc: Descriptor, cand: Coin) returns (r: Result<PsbtInput, SpendError>)
    ensures r == InputFor(env, desc, cand)
  {
    hide Authenticate;
    var previous := env.getTx(cand.outpoint.txid);
    var authenticated := Authenticate(env.txid, cand.outpoint, previous, None);
    if authenticated.Err? { return Err(InputAuthentication(cand.outpoint, authenticated.error)); }
    var out := authenticated.value;
    if out.value != cand.amount {
      return Err(InputAuthentication(cand.outpoint, AmountMismatch(cand.amount, out.value)));
    }
    if out.script != desc.derive(cand.isChange, cand.index) {
      return Err(InputAuthentication(cand.outpoint, ScriptMismatch));
    }
    return Ok(PsbtInput(previous, Some(out), true, []));
  }

  method InputsLoop(env: Env, desc: Descriptor, selected: seq<Coin>)
    returns (r: Result<(seq<TxIn>, seq<PsbtInput>), SpendError>)
    ensures match InputsFor(env, desc, selected)
            case Ok(inputs) => r == Ok((TxInsFor(selected), inputs))
            case Err(e) => r == Err(e)
  {
    hide InputFor, InputsFor;
    var txins: seq<TxIn>, inputs: seq<PsbtInput> := [], [];
    for i := 0 to |selected|
      invariant |txins| == i && forall j :: 0 <= j < i ==> txins[j] == TxInFor(selected[j])
      invariant |inputs| == i && forall j :: 0 <= j < i ==> InputFor(env, desc, selected[j]) == Ok(inputs[j])
    {
      txins := txins + [TxInFor(selected[i])];
      var one := AuthenticateCoin(env, desc, selected[i]);
      if one.Err? {
        FirstUnauthenticated(env, desc, selected, i);
        return Err(one.error);
      }
      inputs := inputs + [one.value];
    }
    assert txins == TxInsFor(selected);
    AllAuthenticated(env, desc, selected, inputs);
    return Ok((txins, inputs));
  }
}
