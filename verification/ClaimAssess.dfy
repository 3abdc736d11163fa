/** The claim assessment, decided from supplied observations, and what an eligible answer means on
    best chains that grow and reorganise. */
module ClaimAssess {
  import opened Wrappers
  import opened Bytes
  import opened Transactions
  import opened Sequences
  import opened OutPoints
  import opened Ledger

  const MIN_CONFIRMATIONS: nat := 6
  const POISON_SCRIPT_LIMIT: nat := 83
  const U64_MAX: u64 := U64_LIMIT - 1
  const I64_MAX: int := 0x7fff_ffff_ffff_ffff

  type i64 = x: int | -0x8000_0000_0000_0000 <= x <= I64_MAX

  datatype BlockRef = BlockRef(height: u64, hash: Hash)

  datatype Poison = OpReturn | InputAncestry

  datatype ClaimPlan = ClaimPlan(
    bitcoinChain: ChainId, forkChain: ChainId, step1: Transaction, claimedPrevouts: seq<OutPoint>, poison: Poison,
    previousConfirmation: Option<BlockRef>, trackedTxid: Option<Hash>)

  datatype DeploymentState =
    | Unconfigured | ConfigurationError | Unavailable | RpcUnavailable | Malformed
    | ForkAbsent | ForkInactive | RdtsAbsent | RdtsUnsupported
    | Flagday(height: u64, expiryTime: i64, active: bool)

  datatype DeploymentObservation = DeploymentObservation(
    chain: ChainId, tip: BlockRef, state: DeploymentState, observedAt: i64)

  datatype Presence = PresenceUnknown | Present | NotObserved

  datatype ForkObservation = ForkObservation(
    chain: ChainId, step1Txid: Hash, presence: Presence, tip: BlockRef, medianTimePast: i64, observedAt: i64)

  datatype Location =
    LocationUnknown | NotConfirmed | ConfirmedIn(txid: Hash, block: BlockRef, bestHashAtHeight: Hash)

  datatype BitcoinObservation = BitcoinObservation(chain: ChainId, tip: BlockRef, location: Location, observedAt: i64)

  datatype Policy = Policy(maxAge: i64, expiryMargin: i64)

  datatype PreflightTips = PreflightTips(bitcoin: BlockRef, fork: BlockRef)

  datatype Assessment =
    | InvalidPlan | WrongChain | Unknown | StaleObservation | Deployment(state: DeploymentState)
    | RdtsScheduled | RdtsInactive | RdtsExpired | ExpiryMargin | InputProofUnsupported | PoisonMissing
    | Step1AlreadyOnFork | WaitingForConfirmation | WaitingForDepth(confirmations: u64) | Reorged
    | NeedsPreflightRecheck | Eligible

  datatype Confirmation = NoAnswer | Unconfirmed | Gone | Confirmed(confirmations: u64)

  // ----- the decision -----

  function Step1Txid(txid: TxidOf, plan: ClaimPlan): Hash {
    match plan.trackedTxid
    case Some(id) => id
    case None => txid(plan.step1)
  }

  predicate Fresh(observedAt: i64, now: i64, maxAge: i64) {
    observedAt >= 0 && 0 <= now - observedAt <= maxAge
  }

  function AssessDeployment(fork: ForkObservation, deployment: DeploymentObservation, policy: Policy)
    : Result<(), Assessment>
  {
    if policy.expiryMargin <= 0 then Err(InvalidPlan)
    else
      match deployment.state
      case Flagday(height, expiryTime, active) =>
        if fork.tip.height == U64_MAX then Err(Unknown)
        else
          var nextHeight := fork.tip.height + 1;
          if expiryTime <= 0 || (active && (nextHeight < height || fork.medianTimePast >= expiryTime)) then
            Err(Deployment(Malformed))
          else if !active then
            Err(if fork.medianTimePast >= expiryTime then RdtsExpired
                else if nextHeight < height then RdtsScheduled
                else RdtsInactive)
          else if expiryTime - fork.medianTimePast > I64_MAX
                  || expiryTime - fork.medianTimePast <= policy.expiryMargin then Err(ExpiryMargin)
          else Ok(())
      case state => Err(Deployment(state))
  }

  function BitcoinConfirmation(expected: Hash, previous: Option<BlockRef>, bitcoin: BitcoinObservation): Confirmation {
    match bitcoin.location
    case LocationUnknown => NoAnswer
    case NotConfirmed => if previous.Some? then Gone else Unconfirmed
    case ConfirmedIn(txid, block, bestHash) =>
      if txid != expected then NoAnswer
      else if block.hash != bestHash || (previous.Some? && previous.value != block) then Gone
      else if bitcoin.tip.height < block.height || bitcoin.tip.height - block.height == U64_MAX then NoAnswer
      else Confirmed(bitcoin.tip.height - block.height + 1)
  }

  predicate ValidPlan(plan: ClaimPlan, policy: Policy) {
    var claimed := set o | o in plan.claimedPrevouts;
    && plan.claimedPrevouts != [] && |claimed| == |plan.claimedPrevouts|
    && |Spends(plan.step1)| == |plan.step1.inputs| && claimed <= Spends(plan.step1)
    && NULL_OUTPOINT !in Spends(plan.step1) && plan.step1.outputs != []
    && policy.maxAge > 0 && (plan.poison != InputAncestry ==> policy.expiryMargin > 0)
  }

  predicate HasPoison(tx: Transaction) {
    exists i :: 0 <= i < |tx.outputs| && IsOpReturn(tx.outputs[i].script)
                && |tx.outputs[i].script| > POISON_SCRIPT_LIMIT
  }

  function Assess(txid: TxidOf, plan: ClaimPlan, bitcoin: BitcoinObservation, fork: ForkObservation,
                  deployment: DeploymentObservation, policy: Policy, now: i64, preflight: Option<PreflightTips>)
    : Assessment
  {
    if !ForkPair(plan.bitcoinChain, plan.forkChain) || bitcoin.chain != plan.bitcoinChain
       || fork.chain != plan.forkChain || deployment.chain != plan.forkChain then WrongChain
    else if !ValidPlan(plan, policy) then InvalidPlan
    else if !Fresh(bitcoin.observedAt, now, policy.maxAge) || !Fresh(fork.observedAt, now, policy.maxAge)
            || !Fresh(deployment.observedAt, now, policy.maxAge) then StaleObservation
    else if fork.tip != deployment.tip || fork.medianTimePast < 0 then Unknown
    else if plan.poison == InputAncestry then InputProofUnsupported
    else if !HasPoison(plan.step1) then PoisonMissing
    else if fork.step1Txid != Step1Txid(txid, plan) then Unknown
    else if fork.presence == PresenceUnknown then Unknown
    else if fork.presence == Present then Step1AlreadyOnFork
    else
      match AssessDeployment(fork, deployment, policy)
      case Err(refused) => refused
      case Ok(_) =>
        match BitcoinConfirmation(Step1Txid(txid, plan), plan.previousConfirmation, bitcoin)
        case NoAnswer => Unknown
        case Unconfirmed => WaitingForConfirmation
        case Gone => Reorged
        case Confirmed(confirmations) =>
          if confirmations < MIN_CONFIRMATIONS then WaitingForDepth(confirmations)
          else if preflight != Some(PreflightTips(bitcoin.tip, fork.tip)) then NeedsPreflightRecheck
          else Eligible
  }

  // ----- best chains -----

  /** A block names its parent and holds transactions. */
  datatype Block = Block(parent: Hash, txids: set<Hash>)

  type BlockHashOf = Block -> Hash

  /** Oldest first; a best chain holds at least one block and fits 64-bit heights. */
  type Chain = s: seq<Block> | 0 < |s| <= U64_MAX witness [Block(LE(0, 32), {})]

  ghost predicate Linked(hash: BlockHashOf, chain: Chain) {
    forall i :: 0 < i < |chain| ==> chain[i].parent == hash(chain[i - 1])
  }

  function At(hash: BlockHashOf, chain: Chain, h: nat): BlockRef
    requires h < |chain|
  {
    BlockRef(h, hash(chain[h]))
  }

  function Tip(hash: BlockHashOf, chain: Chain): BlockRef {
    At(hash, chain, |chain| - 1)
  }

  /** Among these blocks one hash belongs to one block. */
  ghost predicate HashBinds(hash: BlockHashOf, blocks: set<Block>) {
    forall a, b :: a in blocks && b in blocks && hash(a) == hash(b) ==> a == b
  }

  /** Equal tips mean equal chains. */
  lemma EqualTips(hash: BlockHashOf, a: Chain, b: Chain)
    requires Linked(hash, a) && Linked(hash, b) && HashBinds(hash, Elements(a) + Elements(b))
    requires Tip(hash, a) == Tip(hash, b)
    ensures a == b
  {
    assert |a| == |b|;
    EqualBelow(hash, a, b, |a| - 1);
  }

  lemma {:induction false} EqualBelow(hash: BlockHashOf, a: Chain, b: Chain, h: nat)
    requires Linked(hash, a) && Linked(hash, b) && HashBinds(hash, Elements(a) + Elements(b))
    requires h < |a| && h < |b| && hash(a[h]) == hash(b[h])
    ensures a[..h + 1] == b[..h + 1]
  {
    assert a[h] in Elements(a) && b[h] in Elements(b);
    assert a[h] == b[h];
    if h > 0 { EqualBelow(hash, a, b, h - 1); }
  }

  // ----- runs -----

  datatype World = World(bitcoin: Chain, fork: Chain, recorded: Option<BlockRef>)

  /** A best chain is extended, or its end is replaced. */
  ghost predicate ChainStep(hash: BlockHashOf, a: Chain, b: Chain) {
    && Linked(hash, b)
    && ((exists block :: b == a + [block]) || (exists keep :: 0 <= keep < |a| && keep < |b| && a[..keep] == b[..keep]))
  }

  /** Either chain moves, or a confirmation is recorded while none is. */
  ghost predicate Next(hash: BlockHashOf, w: World, v: World) {
    || (ChainStep(hash, w.bitcoin, v.bitcoin) && v == w.(bitcoin := v.bitcoin))
    || (ChainStep(hash, w.fork, v.fork) && v == w.(fork := v.fork))
    || (w.recorded.None? && v == w.(recorded := v.recorded))
  }

  ghost predicate Run(hash: BlockHashOf, run: seq<World>) {
    && run != [] && Linked(hash, run[0].bitcoin) && Linked(hash, run[0].fork)
    && forall i :: 0 < i < |run| ==> Next(hash, run[i - 1], run[i])
  }

  lemma {:induction false} RunLinked(hash: BlockHashOf, run: seq<World>, i: nat)
    requires Run(hash, run) && i < |run|
    ensures Linked(hash, run[i].bitcoin) && Linked(hash, run[i].fork)
  {
    hide Linked;
    if i > 0 {
      RunLinked(hash, run, i - 1);
      assert Next(hash, run[i - 1], run[i]);
    }
  }

  /** A recorded confirmation stays recorded. */
  lemma {:induction false} RecordedKept(hash: BlockHashOf, run: seq<World>, i: nat, j: nat)
    requires Run(hash, run) && i <= j < |run| && run[i].recorded.Some?
    ensures run[j].recorded == run[i].recorded
    decreases j
  {
    hide ChainStep, Linked;
    if i < j {
      RecordedKept(hash, run, i, j - 1);
      assert Next(hash, run[j - 1], run[j]);
    }
  }

  /** Answers to queries for `txid`, read from the best chains: its block from `seen`, perhaps outdated,
      everything else from `view`. */
  ghost predicate Truthful(hash: BlockHashOf, txid: Hash, seen: World, view: World, bitcoin: BitcoinObservation,
                           fork: ForkObservation) {
    && bitcoin.tip == Tip(hash, view.bitcoin) && fork.tip == Tip(hash, view.fork)
    && (bitcoin.location.ConfirmedIn? ==>
          var h := bitcoin.location.block.height;
          && h < |seen.bitcoin| && bitcoin.location.block == At(hash, seen.bitcoin, h)
          && bitcoin.location.txid in seen.bitcoin[h].txids
          && h < |view.bitcoin| && bitcoin.location.bestHashAtHeight == hash(view.bitcoin[h]))
    && (bitcoin.location.NotConfirmed? ==> !OnChain(view.bitcoin, txid))
    && (fork.presence == NotObserved ==> !OnChain(view.fork, fork.step1Txid))
    && (fork.presence == Present ==> OnChain(view.fork, fork.step1Txid))
  }

  ghost predicate OnChain(chain: Chain, txid: Hash) {
    exists h :: 0 <= h < |chain| && txid in chain[h].txids
  }

  /** `txid` is in the block `block` of this chain, `depth` blocks or more from its end. */
  ghost predicate Deep(hash: BlockHashOf, chain: Chain, txid: Hash, block: BlockRef, depth: nat) {
    && block.height < |chain| && block == At(hash, chain, block.height)
    && txid in chain[block.height].txids && |chain| - block.height >= depth
  }

  /** Six deep on Bitcoin, in the recorded block if one is recorded, and not on the fork. */
  ghost predicate Settled(hash: BlockHashOf, w: World, txid: Hash) {
    && !OnChain(w.fork, txid)
    && exists block :: Deep(hash, w.bitcoin, txid, block, MIN_CONFIRMATIONS)
                       && (w.recorded.Some? ==> w.recorded.value == block)
  }

  /** An assessment inside a run: step 1's block was read in state `i`, the views in state `j`, and the
      preflight tips in state `k`, against the record of state `k`. */
  ghost predicate AssessedAt(hash: BlockHashOf, txid: TxidOf, run: seq<World>, i: nat, j: nat, k: nat, plan: ClaimPlan,
                             bitcoin: BitcoinObservation, fork: ForkObservation, preflight: Option<PreflightTips>) {
    && Run(hash, run) && i <= j <= k < |run|
    && HashBinds(hash, Elements(run[i].bitcoin) + Elements(run[j].bitcoin) + Elements(run[k].bitcoin))
    && HashBinds(hash, Elements(run[j].fork) + Elements(run[k].fork))
    && Truthful(hash, Step1Txid(txid, plan), run[i], run[j], bitcoin, fork)
    && (preflight.Some? ==> preflight.value == PreflightTips(Tip(hash, run[k].bitcoin), Tip(hash, run[k].fork)))
    && plan.previousConfirmation == run[k].recorded
  }

  /** Where step 1 was seen does not have to be current: the hash read at its height makes it so. */
  lemma SeenIsCurrent(hash: BlockHashOf, seen: World, view: World, bitcoin: BitcoinObservation, fork: ForkObservation,
                      expected: Hash, previous: Option<BlockRef>)
    requires Truthful(hash, expected, seen, view, bitcoin, fork)
    requires HashBinds(hash, Elements(seen.bitcoin) + Elements(view.bitcoin))
    requires BitcoinConfirmation(expected, previous, bitcoin).Confirmed?
    ensures bitcoin.location.ConfirmedIn?
    ensures Deep(hash, view.bitcoin, expected, bitcoin.location.block,
                 BitcoinConfirmation(expected, previous, bitcoin).confirmations)
    ensures previous.Some? ==> previous.value == bitcoin.location.block
  {
    var h := bitcoin.location.block.height;
    assert seen.bitcoin[h] in Elements(seen.bitcoin) && view.bitcoin[h] in Elements(view.bitcoin);
  }

  /** What is asked besides the two chains' contents. */
  predicate Admissible(plan: ClaimPlan, bitcoin: BitcoinObservation, fork: ForkObservation,
                       deployment: DeploymentObservation, policy: Policy, now: i64) {
    && ForkPair(plan.bitcoinChain, plan.forkChain) && bitcoin.chain == plan.bitcoinChain
    && fork.chain == plan.forkChain == deployment.chain && ValidPlan(plan, policy)
    && Fresh(bitcoin.observedAt, now, policy.maxAge) && Fresh(fork.observedAt, now, policy.maxAge)
    && Fresh(deployment.observedAt, now, policy.maxAge) && fork.tip == deployment.tip && fork.medianTimePast >= 0
    && plan.poison == OpReturn && HasPoison(plan.step1) && AssessDeployment(fork, deployment, policy).Ok?
  }

  /** The decision as one condition on the observations. */
  lemma DecisionIff(txid: TxidOf, plan: ClaimPlan, bitcoin: BitcoinObservation, fork: ForkObservation,
                    deployment: DeploymentObservation, policy: Policy, now: i64, preflight: Option<PreflightTips>)
    ensures var id := Step1Txid(txid, plan);
            var c := BitcoinConfirmation(id, plan.previousConfirmation, bitcoin);
            Assess(txid, plan, bitcoin, fork, deployment, policy, now, preflight) == Eligible <==>
              && Admissible(plan, bitcoin, fork, deployment, policy, now)
              && fork.step1Txid == id && fork.presence == NotObserved
              && c.Confirmed? && c.confirmations >= MIN_CONFIRMATIONS
              && preflight == Some(PreflightTips(bitcoin.tip, fork.tip))
  {
    hide ValidPlan, HasPoison, BitcoinConfirmation;
  }

  /** Claim safety over reorgs: in every run, an eligible answer means that step 1 is settled in the
      state in which the preflight tips were read, however the chains moved before. */
  lemma EligibleIsSettled(hash: BlockHashOf, txid: TxidOf, run: seq<World>, i: nat, j: nat, k: nat, plan: ClaimPlan,
                          bitcoin: BitcoinObservation, fork: ForkObservation, deployment: DeploymentObservation,
                          policy: Policy, now: i64, preflight: Option<PreflightTips>)
    requires AssessedAt(hash, txid, run, i, j, k, plan, bitcoin, fork, preflight)
    requires Assess(txid, plan, bitcoin, fork, deployment, policy, now, preflight) == Eligible
    ensures Settled(hash, run[k], Step1Txid(txid, plan))
  {
    hide Assess, Linked, BitcoinConfirmation, Run, Tip, OnChain, Admissible;
    DecisionIff(txid, plan, bitcoin, fork, deployment, policy, now, preflight);
    RunLinked(hash, run, j);
    RunLinked(hash, run, k);
    SeenIsCurrent(hash, run[i], run[j], bitcoin, fork, Step1Txid(txid, plan), plan.previousConfirmation);
    EqualTips(hash, run[j].bitcoin, run[k].bitcoin);
    EqualTips(hash, run[j].fork, run[k].fork);
    assert Deep(hash, run[k].bitcoin, Step1Txid(txid, plan), bitcoin.location.block, MIN_CONFIRMATIONS);
  }

  /** Once a confirmation block is recorded, no later state whose best chain lacks exactly that block
      is assessed eligible. */
  lemma RecordedBlockGone(hash: BlockHashOf, txid: TxidOf, run: seq<World>, at: nat, i: nat, j: nat, k: nat,
                          plan: ClaimPlan, bitcoin: BitcoinObservation, fork: ForkObservation,
                          deployment: DeploymentObservation, policy: Policy, now: i64,
                          preflight: Option<PreflightTips>)
    requires AssessedAt(hash, txid, run, i, j, k, plan, bitcoin, fork, preflight)
    requires at <= k && run[at].recorded.Some?
    requires var r := run[at].recorded.value;
             r.height < |run[k].bitcoin| ==> hash(run[k].bitcoin[r.height]) != r.hash
    ensures Assess(txid, plan, bitcoin, fork, deployment, policy, now, preflight) != Eligible
  {
    hide Assess, Run, Truthful, OnChain;
    RecordedKept(hash, run, at, k);
    if Assess(txid, plan, bitcoin, fork, deployment, policy, now, preflight) == Eligible {
      EligibleIsSettled(hash, txid, run, i, j, k, plan, bitcoin, fork, deployment, policy, now, preflight);
    }
  }

  /** Both chains were asked about this transaction and answered. */
  predicate Answered(txid: Hash, bitcoin: BitcoinObservation, fork: ForkObservation) {
    && (bitcoin.location.NotConfirmed? || (bitcoin.location.ConfirmedIn? && bitcoin.location.txid == txid))
    && fork.step1Txid == txid && fork.presence != PresenceUnknown
  }

  /** A transaction confirms once in a chain. */
  ghost predicate Once(chain: Chain, txid: Hash) {
    forall g, h :: 0 <= g < |chain| && 0 <= h < |chain| && txid in chain[g].txids && txid in chain[h].txids ==> g == h
  }

  /** Exactly when the answer is eligible: for truthful observations of one state, whatever they say,
      the request is admissible, both chains answered, the tips were read again, and step 1 is settled. */
  lemma EligibleIff(hash: BlockHashOf, txid: TxidOf, w: World, plan: ClaimPlan, bitcoin: BitcoinObservation,
                    fork: ForkObservation, deployment: DeploymentObservation, policy: Policy, now: i64,
                    preflight: Option<PreflightTips>)
    requires Truthful(hash, Step1Txid(txid, plan), w, w, bitcoin, fork) && plan.previousConfirmation == w.recorded
    requires Once(w.bitcoin, Step1Txid(txid, plan))
    ensures Assess(txid, plan, bitcoin, fork, deployment, policy, now, preflight) == Eligible <==>
              && Admissible(plan, bitcoin, fork, deployment, policy, now)
              && Answered(Step1Txid(txid, plan), bitcoin, fork)
              && preflight == Some(PreflightTips(bitcoin.tip, fork.tip))
              && Settled(hash, w, Step1Txid(txid, plan))
  {
    hide ValidPlan, HasPoison, OnChain, Once, Deep;
    var id := Step1Txid(txid, plan);
    DecisionIff(txid, plan, bitcoin, fork, deployment, policy, now, preflight);
    if Answered(id, bitcoin, fork) { ConfirmationIff(hash, w, id, bitcoin, fork); }
  }

  /** On one state's truthful answer, six confirmations in the recorded block are what is settled. */
  lemma ConfirmationIff(hash: BlockHashOf, w: World, id: Hash, bitcoin: BitcoinObservation, fork: ForkObservation)
    requires Truthful(hash, id, w, w, bitcoin, fork) && Once(w.bitcoin, id) && Answered(id, bitcoin, fork)
    ensures var c := BitcoinConfirmation(id, w.recorded, bitcoin);
            (fork.presence == NotObserved && c.Confirmed? && c.confirmations >= MIN_CONFIRMATIONS) <==> Settled(hash, w, id)
  {
    if bitcoin.location.ConfirmedIn? {
      var block := bitcoin.location.block;
      assert Deep(hash, w.bitcoin, id, block, 0);
      forall other | Deep(hash, w.bitcoin, id, other, MIN_CONFIRMATIONS) ensures other == block {
        assert other.height == block.height;
      }
      assert Deep(hash, w.bitcoin, id, block, MIN_CONFIRMATIONS) <==> |w.bitcoin| - block.height >= MIN_CONFIRMATIONS;
    }
  }
}
