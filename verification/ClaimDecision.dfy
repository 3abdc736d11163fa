/** Every answer of the claim assessment, in terms of the request, the deployment and the chains. */
module ClaimDecision {
  import opened Wrappers
  import opened Bytes
  import opened Transactions
  import opened OutPoints
  import opened Sequences
  import opened Ledger
  import opened ClaimAssess

  // ----- the deployment -----

  /** The rule binds the block at this height with this median time past. */
  predicate Enforced(state: DeploymentState, height: int, medianTimePast: int) {
    state.Flagday? && state.height <= height && medianTimePast < state.expiryTime
  }

  /** The deployment passes exactly when it is active, binds the next block, and expires later than the
      margin, counted without overflow. */
  lemma DeploymentIff(fork: ForkObservation, deployment: DeploymentObservation, policy: Policy)
    ensures AssessDeployment(fork, deployment, policy).Ok? <==>
              && policy.expiryMargin > 0 && deployment.state.Flagday? && deployment.state.active
              && deployment.state.expiryTime > 0 && fork.tip.height < 0xffff_ffff_ffff_ffff
              && Enforced(deployment.state, fork.tip.height + 1, fork.medianTimePast)
              && policy.expiryMargin < deployment.state.expiryTime - fork.medianTimePast <= 0x7fff_ffff_ffff_ffff
  {
  }

  /** And each refusal of a well-formed deployment exactly when it says so. */
  lemma DeploymentAnswers(fork: ForkObservation, deployment: DeploymentObservation, policy: Policy)
    requires policy.expiryMargin > 0 && deployment.state.Flagday? && deployment.state.expiryTime > 0
    requires fork.tip.height < 0xffff_ffff_ffff_ffff
    ensures var r, s, next := AssessDeployment(fork, deployment, policy), deployment.state, fork.tip.height + 1;
            && (r == Err(RdtsExpired) <==> !s.active && s.expiryTime <= fork.medianTimePast)
            && (r == Err(RdtsScheduled) <==> !s.active && fork.medianTimePast < s.expiryTime && next < s.height)
            && (r == Err(RdtsInactive) <==> !s.active && Enforced(s, next, fork.medianTimePast))
            && (r == Err(Deployment(Malformed)) <==> s.active && !Enforced(s, next, fork.medianTimePast))
            && (r == Err(ExpiryMargin) <==>
                  && s.active && Enforced(s, next, fork.medianTimePast)
                  && !(policy.expiryMargin < s.expiryTime - fork.medianTimePast <= 0x7fff_ffff_ffff_ffff))
  {
  }

  /** An eligible claim has the whole margin to confirm in: every later fork block whose median time past
      is within it is bound by the rule that refuses the poison. */
  lemma EnforcedAhead(txid: TxidOf, plan: ClaimPlan, bitcoin: BitcoinObservation, fork: ForkObservation,
                      deployment: DeploymentObservation, policy: Policy, now: i64, preflight: Option<PreflightTips>,
                      height: nat, medianTimePast: int)
    requires Assess(txid, plan, bitcoin, fork, deployment, policy, now, preflight) == Eligible
    requires height > fork.tip.height && medianTimePast <= fork.medianTimePast + policy.expiryMargin
    ensures Enforced(deployment.state, height, medianTimePast) && deployment.state.active
    ensures exists i :: 0 <= i < |plan.step1.outputs| && |plan.step1.outputs[i].script| >= 84
                        && plan.step1.outputs[i].script[0] == 0x6a
  {
    hide Assess, AssessDeployment, ValidPlan;
    DecisionIff(txid, plan, bitcoin, fork, deployment, policy, now, preflight);
    DeploymentIff(fork, deployment, policy);
  }

  // ----- the request -----

  /** The plan: an OP_RETURN transaction whose inputs are distinct and real, some of them claimed once
      each, and an output over 83 bytes that starts with OP_RETURN. */
  predicate PlanGood(plan: ClaimPlan) {
    && plan.poison == OpReturn
    && plan.claimedPrevouts != [] && Distinct(plan.claimedPrevouts) && Distinct(Prevouts(plan.step1))
    && (forall o :: o in plan.claimedPrevouts ==> o in Prevouts(plan.step1)) && NULL_OUTPOINT !in Prevouts(plan.step1)
    && exists i :: 0 <= i < |plan.step1.outputs| && |plan.step1.outputs[i].script| >= 84
                   && plan.step1.outputs[i].script[0] == 0x6a
  }

  /** An observation counts from when it was made until it is too old. */
  predicate Recent(observedAt: int, now: int, maxAge: int) {
    0 <= observedAt <= now <= observedAt + maxAge
  }

  lemma SpendsPrevouts(tx: Transaction)
    ensures Spends(tx) == Elements(Prevouts(tx))
  {
    forall o | o in Spends(tx) ensures o in Prevouts(tx) {
      var i :| 0 <= i < |tx.inputs| && tx.inputs[i].prevout == o;
      assert Prevouts(tx)[i] == o;
    }
    forall o | o in Prevouts(tx) ensures o in Spends(tx) {
      var i :| 0 <= i < |Prevouts(tx)| && Prevouts(tx)[i] == o;
      assert tx.inputs[i].prevout == o;
    }
  }

  /** What is asked besides the chains' contents, field by field. */
  lemma AdmissibleIff(plan: ClaimPlan, bitcoin: BitcoinObservation, fork: ForkObservation,
                      deployment: DeploymentObservation, policy: Policy, now: i64)
    ensures Admissible(plan, bitcoin, fork, deployment, policy, now) <==>
              && ((bitcoin.chain == Bitcoin && fork.chain == BitcoinBlake2b)
                  || (bitcoin.chain == Testnet4 && fork.chain == BitcoinBlake2bTestnet4))
              && plan.bitcoinChain == bitcoin.chain && plan.forkChain == fork.chain == deployment.chain
              && PlanGood(plan) && policy.maxAge > 0
              && Recent(bitcoin.observedAt, now, policy.maxAge) && Recent(fork.observedAt, now, policy.maxAge)
              && Recent(deployment.observedAt, now, policy.maxAge)
              && fork.tip == deployment.tip && fork.medianTimePast >= 0
              && AssessDeployment(fork, deployment, policy).Ok?
  {
    hide AssessDeployment, ValidPlan, HasPoison;
    if plan.poison == OpReturn { PlanGoodIff(plan, policy); }
    DeploymentIff(fork, deployment, policy);
  }

  lemma PlanGoodIff(plan: ClaimPlan, policy: Policy)
    requires plan.poison == OpReturn
    ensures ValidPlan(plan, policy) && HasPoison(plan.step1) <==>
              PlanGood(plan) && policy.maxAge > 0 && policy.expiryMargin > 0
  {
    hide Spends, LE;
    DistinctCount(plan.claimedPrevouts);
    DistinctCount(Prevouts(plan.step1));
    SpendsPrevouts(plan.step1);
    assert (set o | o in plan.claimedPrevouts) == Elements(plan.claimedPrevouts);
    if Elements(plan.claimedPrevouts) <= Spends(plan.step1) {
      forall o | o in plan.claimedPrevouts ensures o in Prevouts(plan.step1) { assert o in Elements(plan.claimedPrevouts); }
    }
  }

  // ----- the chains -----

  /** In this block, `depth` blocks from the end. */
  ghost predicate Standing(hash: BlockHashOf, w: World, id: Hash, block: BlockRef, depth: nat) {
    && Deep(hash, w.bitcoin, id, block, depth) && |w.bitcoin| - block.height == depth
    && (w.recorded.Some? ==> w.recorded.value == block)
  }

  lemma ConfirmationAnswers(hash: BlockHashOf, w: World, id: Hash, bitcoin: BitcoinObservation, fork: ForkObservation)
    requires Truthful(hash, id, w, w, bitcoin, fork) && Once(w.bitcoin, id) && Answered(id, bitcoin, fork)
    ensures var c := BitcoinConfirmation(id, w.recorded, bitcoin);
            && c != NoAnswer
            && (c == Unconfirmed <==> w.recorded.None? && !OnChain(w.bitcoin, id))
            && (c == Gone <==> w.recorded.Some? && !Deep(hash, w.bitcoin, id, w.recorded.value, 1))
            && forall n: u64 :: c == Confirmed(n) <==> n > 0 && exists block :: Standing(hash, w, id, block, n)
  {
    var c := BitcoinConfirmation(id, w.recorded, bitcoin);
    if bitcoin.location.ConfirmedIn? {
      var block := bitcoin.location.block;
      var depth := |w.bitcoin| - block.height;
      assert Deep(hash, w.bitcoin, id, block, depth) && depth >= 1;
      forall other, n: nat | Deep(hash, w.bitcoin, id, other, n) ensures other == block {
        assert other.height == block.height;
      }
      assert w.recorded.None? || w.recorded.value == block ==> Standing(hash, w, id, block, depth);
    } else {
      forall block, n: nat ensures !Deep(hash, w.bitcoin, id, block, n) {}
    }
  }

  /** For truthful observations of one state about an admissible plan whose step 1 is not on the fork,
      each answer says where step 1 is on Bitcoin: nowhere yet, gone from its recorded block, in a block
      less than six deep, or settled. */
  lemma ProgressIff(hash: BlockHashOf, txid: TxidOf, w: World, plan: ClaimPlan, bitcoin: BitcoinObservation,
                    fork: ForkObservation, deployment: DeploymentObservation, policy: Policy, now: i64,
                    preflight: Option<PreflightTips>)
    requires Truthful(hash, Step1Txid(txid, plan), w, w, bitcoin, fork) && plan.previousConfirmation == w.recorded
    requires Once(w.bitcoin, Step1Txid(txid, plan)) && Answered(Step1Txid(txid, plan), bitcoin, fork)
    requires Admissible(plan, bitcoin, fork, deployment, policy, now) && fork.presence == NotObserved
    ensures var a, id := Assess(txid, plan, bitcoin, fork, deployment, policy, now, preflight), Step1Txid(txid, plan);
            && (a == WaitingForConfirmation <==> w.recorded.None? && !OnChain(w.bitcoin, id))
            && (a == Reorged <==> w.recorded.Some? && !Deep(hash, w.bitcoin, id, w.recorded.value, 1))
            && (forall n: u64 :: a == WaitingForDepth(n) <==> 0 < n < 6 && exists block :: Standing(hash, w, id, block, n))
            && (a in {Eligible, NeedsPreflightRecheck} <==> Settled(hash, w, id))
  {
    hide ValidPlan, HasPoison, Truthful, OnChain, Deep, BitcoinConfirmation, AssessDeployment, Standing, Settled, Once;
    var a, id := Assess(txid, plan, bitcoin, fork, deployment, policy, now, preflight), Step1Txid(txid, plan);
    var c := BitcoinConfirmation(id, w.recorded, bitcoin);
    ConfirmationAnswers(hash, w, id, bitcoin, fork);
    ConfirmationIff(hash, w, id, bitcoin, fork);
    forall n: u64 ensures a == WaitingForDepth(n) <==> c == Confirmed(n) && n < 6 {}
    forall n: u64 ensures c == Confirmed(n) <==> n > 0 && exists block :: Standing(hash, w, id, block, n) {}
  }

  /** And a step 1 that is on the fork is reported as such, before anything else about the chains. */
  lemma OnForkIff(hash: BlockHashOf, txid: TxidOf, w: World, plan: ClaimPlan, bitcoin: BitcoinObservation,
                  fork: ForkObservation, deployment: DeploymentObservation, policy: Policy, now: i64,
                  preflight: Option<PreflightTips>)
    requires Truthful(hash, Step1Txid(txid, plan), w, w, bitcoin, fork)
    requires Answered(Step1Txid(txid, plan), bitcoin, fork) && Admissible(plan, bitcoin, fork, deployment, policy, now)
    ensures Assess(txid, plan, bitcoin, fork, deployment, policy, now, preflight) == Step1AlreadyOnFork <==>
              OnChain(w.fork, Step1Txid(txid, plan))
  {
    hide ValidPlan, HasPoison, OnChain, BitcoinConfirmation;
    DeploymentAnswer(fork, deployment, policy);
  }

  lemma DeploymentAnswer(fork: ForkObservation, deployment: DeploymentObservation, policy: Policy)
    ensures AssessDeployment(fork, deployment, policy) != Err(Step1AlreadyOnFork)
  {
  }

  /** Eligible answers are about one transaction: the tracked one if one is tracked, else the plan's. */
  lemma OneTransaction(txid: TxidOf, plan: ClaimPlan, bitcoin: BitcoinObservation, fork: ForkObservation,
                       deployment: DeploymentObservation, policy: Policy, now: i64, preflight: Option<PreflightTips>)
    requires Assess(txid, plan, bitcoin, fork, deployment, policy, now, preflight) == Eligible
    ensures var id := if plan.trackedTxid.Some? then plan.trackedTxid.value else txid(plan.step1);
            bitcoin.location.ConfirmedIn? && bitcoin.location.txid == id == fork.step1Txid
  {
    hide Assess, Admissible;
    DecisionIff(txid, plan, bitcoin, fork, deployment, policy, now, preflight);
  }
}
