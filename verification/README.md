# coincube-core, verified

A Dafny model of the parts of `coincube-core` that split coins across a chain fork, with proofs
about every input, every run and every reachable state:

- the unified PSBT adapter: the strict BIP 174 container reader and printer, the two-way conversion
  between standard partial signatures and the reserved `coincube` records, the atomic merge and the
  signers that use it (`PsbtFormat`, `PsbtLoops`, `PsbtUnified`, `PsbtConversion`, `PsbtMerge`,
  `PsbtValidity`, `PsbtSigning`, `PsbtSigners`);
- the unified digest and the finaliser: what the message holds and commits to, the search that never
  drops a usable unified signature, multisig witnesses and the consensus matching loop, the k-1
  invariant on policy scripts, and a node's evaluation of the finished witnesses (`Sighash`,
  `SighashLayout`, `UnifiedFinalize`, `Multisig`, `Policy`, `VaultWitness`, `ScriptRun`, `SharedKey`);
- the two-chain claim and split protocol: coinbase dependencies, the paired builders and their
  reconstruction on two ledgers, the reorg-sensitive assessment, the spend builder and its
  pre-broadcast check, and split step 1 with its poison (`Ledger`, `Ancestry`, `HeightCommitment`,
  `Spend`, `SpendTheorems`, `OutPoints`, `SplitPoison`, `ClaimSpend`, `ClaimPair`, `ClaimRecords`,
  `ClaimAssess`, `ClaimDecision`, `ForeignSplit`, `ForeignSplitTheorems`, `SplitStep`, and
  `ClaimExample`, a run in which both claim transactions confirm);
- the seed-file codec (`SeedCrypt`, `SeedFile`).

`Wrappers`, `Bytes`, `Sequences` and `Transactions` hold what they share. `dafny verify
dfyconfig.toml` checks the whole project.

Conventions:

- A hash, the transaction identifier, the AEAD, the key derivations, signature verification,
  descriptor derivation, coin selection and rust-bitcoin's typed decoding are function parameters.
  Where a proof needs a hash to be collision-free, the hypothesis names the finite set of preimages,
  transactions or blocks involved (`CollisionFree`, `TxidBinds`, `HashBinds`): no function onto 32
  bytes is injective everywhere. The AEAD is ideal on the one message a file seals (`Ideal`), and the key
  derivations do not collide on what a file was sealed with and what is tried on it (`Unconfused`).
- Typed decoding may re-encode a value (a legacy signature in non-canonical DER, say): `normal` gives
  the value it writes back, and a value in canonical form is one it keeps.
- Facts about live chains are hypotheses: two ledgers run from a common history by arbitrary
  interleaved inclusions, and best chains move by arbitrary extensions and reorganisations. Coin
  selection is assumed to return candidates only, each at most once, and every coin it must
  (`Honest`).
- Code that loops over mutable state is a method with a loop, proved equal to a function; the
  theorems are about the functions. The parse cursor, the merge destination and the payload and
  padding buffers are updated in place.
- The satisfier of `Policy` may prefer either of two signed branches, but takes a branch without
  signatures before one with them, as the cheapest satisfaction does.

Where the code and its documentation differ, the model follows the code. The pre-broadcast check adds
output values with a sum that wraps in release builds, while its comments promise that a negative fee
is refused: `Spend.WrappedTotal` exhibits a wrapped total and `Spend.FeeConserved` proves when the
promise holds. The comment that only a key shared across paths can break the k-1 invariant is
confirmed: `VaultWitness.RetentionAccepts` proves that no script without one does, and
`SharedKey.SharedKeyBreaks` gives a script, with keys shared through key hashes and the smaller witness
always chosen, that does. The seed codec's comment that a tampered header is reported as a wrong
password holds only for parameters within the limits: `SeedFile.EditedHeaderAnswers` proves which edits
are reported as a bad format or as bad parameters instead. The finaliser's lock checks are a node's
except for a negative transaction version, which a node reads as a large one (`ScriptRun.LocksAgree`).

## Model

| member | source | states |
|---|---|---|
| PsbtFormat.SerializeIsEncode | coincube-core/src/psbt_unified.rs:794-806 | the printer succeeds exactly when no key is empty and the finished bytes fit the limit, and then prints the plain encoding: the running limit checks amount to one |
| PsbtFormat.ParseSound | coincube-core/src/psbt_unified.rs:748-792 | every accepted byte string is the encoding of a well-formed container within the limit |
| PsbtFormat.ParseComplete | coincube-core/src/psbt_unified.rs:748-792 | every well-formed container within the limit is read back from its encoding |
| PsbtFormat.ReaderInvertsPrinter | coincube-core/src/psbt_unified.rs:748-806 | bytes parse to a container if and only if it is well formed and prints to exactly those bytes |
| PsbtFormat.CompactSizeSound | coincube-core/src/psbt_unified.rs:872-907 | an accepted compact size is the minimal code of its value |
| PsbtFormat.CompactSizeComplete | coincube-core/src/psbt_unified.rs:872-907 | every minimal code is read back as its value |
| Bytes.CompactSizeBytes | coincube-core/src/psbt_unified.rs:955-981 | the minimal compact size byte by byte: one byte to 252, else a tag and two, four or eight bytes, low byte first |
| PsbtValidity.MapAt | coincube-core/src/psbt_unified.rs:794-806 | the magic, the global map, then every input map and every output map in order, each at its offset |
| PsbtValidity.PairAt | coincube-core/src/psbt_unified.rs:940-953 | each pair of a map at its offset: key length, key, value length, value; and a zero byte ends the map |
| PsbtLoops.Cursor.ReadExact | coincube-core/src/psbt_unified.rs:922-938 | returns the next bytes and moves the cursor past them, or refuses without moving |
| PsbtLoops.Cursor.ReadCompactSize | coincube-core/src/psbt_unified.rs:872-920 | the cursor's reader computes the compact-size specification and moves past it |
| PsbtLoops.Cursor.ReadMap | coincube-core/src/psbt_unified.rs:844-870 | the read loop computes the map specification: non-empty unique keys up to the separator |
| PsbtLoops.ParseBytes | coincube-core/src/psbt_unified.rs:748-792 | the cursor-driven parser computes `Parse` on every input, errors included |
| PsbtLoops.AppendMap | coincube-core/src/psbt_unified.rs:940-953 | the append loop computes the map printer with its running limit |
| PsbtLoops.SerializeBytes | coincube-core/src/psbt_unified.rs:794-806 | the append loops compute `Serialize`, errors included |
| PsbtConversion.ToInternalIff | coincube-core/src/psbt_unified.rs:562-605 | a standard map converts exactly when its signature records are acceptable and no key has both encodings, and then exactly the unified partial signatures move |
| PsbtConversion.ToStandardIff | coincube-core/src/psbt_unified.rs:607-632 | an internal map converts exactly when its records are acceptable and no key has both encodings, and then exactly the reserved records move |
| PsbtConversion.OutThenIn | coincube-core/src/psbt_unified.rs:562-632 | moving a valid internal input map out and in again gives back the same map |
| PsbtConversion.InThenOut | coincube-core/src/psbt_unified.rs:562-632 | moving a map in, re-encoding its values, laying it out in any order and moving it out restores its records exactly when each one survives: it is not a reserved record, and its value is already in canonical form |
| PsbtConversion.ValidTyped | coincube-core/src/psbt_unified.rs:327-410 | a PSBT that passes typed validation lays out as a well-formed container that reads back as itself, with every value in canonical form |
| PsbtValidity.ValidIff | coincube-core/src/psbt_unified.rs:327-410 | the adapter accepts exactly version-0 PSBTs with one map per input and output of the unsigned transaction, canonical fields, no record of the namespace outside inputs, inputs whose legacy signatures end in 0x01, whose unified records are strict DER of a valid key without a legacy twin and end in 0x21, and whose requests are one of the two, within 16 MiB |
| PsbtConversion.ImportUndoesExport | coincube-core/src/psbt_unified.rs:277-291 | for every valid internal PSBT the export succeeds and importing it gives back that PSBT |
| PsbtConversion.ExportRestoresImport | coincube-core/src/psbt_unified.rs:412-420 | for every accepted standard PSBT the export succeeds, and restores a map's key and value content exactly when its values are in canonical form and, for an input, it held no reserved record |
| PsbtConversionLoops.ConvertStandardInput | coincube-core/src/psbt_unified.rs:562-605 | the two in-place passes compute `ToInternal` |
| PsbtConversionLoops.ConvertInternalInput | coincube-core/src/psbt_unified.rs:607-632 | the two in-place passes compute `ToStandard` |
| PsbtMerge.MergeIff | coincube-core/src/psbt_unified.rs:444-456 | a merge succeeds exactly when both sides are valid and of one transaction, every signature is new or equal with no other encoding of its key, and the result fits the limit |
| PsbtMerge.MergeKeepsAndAdds | coincube-core/src/psbt_unified.rs:490-545 | a merge keeps every record, adds exactly the delta's signatures, touches nothing else and stays valid |
| PsbtMerge.MergeIdempotent | coincube-core/src/psbt_unified.rs:444-456 | merging the same delta again changes nothing |
| PsbtMerge.MergeOrderIndependent | coincube-core/src/psbt_unified.rs:444-456 | any sequence of deltas reaches the same PSBT, or is refused, in every order |
| PsbtMergeLoops.MergeOneInput | coincube-core/src/psbt_unified.rs:490-545 | both passes over one input succeed exactly on a compatible delta and add exactly its signatures |
| PsbtMergeLoops.Destination.MergeSignatures | coincube-core/src/psbt_unified.rs:444-456 | the destination becomes the merge, or on any failure keeps its old value |
| PsbtSigning.SignSound | coincube-core/src/unified_signing.rs:399-485 | a successful turn adds exactly the signer's records and the sighash request to its inputs, and the result is valid and verified |
| PsbtSigning.SignComplete | coincube-core/src/unified_signing.rs:399-485 | a turn succeeds whenever its records join the PSBT below some valid, verified state |
| PsbtSigning.SignSwap | coincube-core/src/unified_signing.rs:399-485 | two successful turns succeed in the other order with the same outcome |
| PsbtSigning.SignersOrderIndependent | coincube-core/src/unified_signing.rs:399-485 | turns with given records reach the same PSBT, or are refused, in every order |
| PsbtSigning.SignersKeepRecords | coincube-core/src/unified_signing.rs:399-485 | a successful run of signers keeps every earlier record |
| PsbtSigners.SignsItsKeys | coincube-core/src/unified_signing.rs:399-485 | a successful turn signs every key an input lists under the signer's fingerprint at an authorised path: the path has at most 255 steps and leads to that key, the script uses it, the signature with byte 0x21 is added and verified, and the input asks for 0x21; nothing else is added or changed |
| PsbtSigners.SignersInAnyOrder | coincube-core/src/unified_signing.rs:399-485 | signers whose records follow from the derivations in the PSBT reach the same PSBT, or are refused, in every order |
| PsbtSigners.InputRecords | coincube-core/src/unified_signing.rs:412-443 | the loop over an input's derivations computes the signer's records, and refuses an unsound one |
| Sighash.MessageBinds | coincube-core/src/unified_sighash.rs:163-232 | equal messages have equal commitments: version, locktime, hash type, script type, script code, and the prevouts, amounts, scripts, sequences, index and outputs the hash type covers |
| Sighash.CommitmentDetermines | coincube-core/src/unified_sighash.rs:163-232 | with ANYONECANPAY, NONE or SINGLE, changing the uncommitted inputs or outputs leaves the message unchanged |
| Sighash.DigestBindsCommitment | coincube-core/src/unified_sighash.rs:129-145 | two digests are equal if and only if the commitments are |
| Sighash.Aggregate | coincube-core/src/unified_sighash.rs:234-272 | each aggregate loop appends the encodings in order |
| Sighash.NewCache | coincube-core/src/unified_sighash.rs:106-127 | the cache holds the five aggregate hashes, and a prevout count mismatch is refused |
| Sighash.BuildDigest | coincube-core/src/unified_sighash.rs:163-232 | the appended message hashes to the specified digest, with the refusals in order |
| SighashLayout.AcceptedIff | coincube-core/src/unified_sighash.rs:170-192 | a digest exists exactly for one spent output per input, bit 0x20, script type 0 or 1, an index in range and, under SINGLE, an output at that index |
| SighashLayout.HeadLayout | coincube-core/src/unified_sighash.rs:194-201 | epoch 0, the hash type, version and lock time in four bytes each and a zero byte, at offsets 0, 1, 2, 6 and 10 |
| SighashLayout.HashesLayout | coincube-core/src/unified_sighash.rs:203-213 | without ANYONECANPAY the prevouts, amounts, scripts and sequences hashes stand at offsets 11, 43, 75 and 107; then the outputs hash, unless NONE or SINGLE, and the script type |
| SighashLayout.TailLayout | coincube-core/src/unified_sighash.rs:212-232 | after the script type, the index, or under ANYONECANPAY this prevout, spent output and sequence field by field; then the script code; and under SINGLE the hash of this output ends the message |
| SighashLayout.AggregateLayout | coincube-core/src/unified_sighash.rs:234-272 | what each aggregate hash is taken over: identifier and index, amount, script, sequence and output of every place, each at its offset |
| SighashLayout.DigestOf | coincube-core/src/unified_sighash.rs:284-291 | the digest hashes the tag hash twice and then the message, and the tag spells UnifiedSighash |
| UnifiedFinalize.BestIsBest | coincube-core/src/unified_finalize.rs:556-580 | the search over masks returns none exactly when no mask keeps a unified signature, and otherwise the first of those with the most unified signatures in the smallest witness |
| UnifiedFinalize.SubsetOffered | coincube-core/src/unified_finalize.rs:557-563 | every subset of the legacy signatures is offered by some mask |
| UnifiedFinalize.UsedWasOffered | coincube-core/src/unified_finalize.rs:460-508 | a witness counts no kind of signature that was not offered |
| UnifiedFinalize.NeverDropped | coincube-core/src/unified_finalize.rs:782-832 | a finalised witness holds a unified signature if and only if some legacy subset, offered with all the unified ones, has a satisfaction that uses one |
| UnifiedFinalize.SearchIsMaximal | coincube-core/src/unified_finalize.rs:535-581 | a completed search keeps at least as many unified signatures as any legacy subset allows, and among equals the smallest witness |
| UnifiedFinalize.LegacyOnlyWhenNeeded | coincube-core/src/unified_finalize.rs:815-825 | legacy signatures are in a witness only when the unified ones alone satisfy nothing |
| UnifiedFinalize.RetentionExact | coincube-core/src/unified_finalize.rs:713-767 | the retention check refuses an input exactly when a unified witness is usable and the legacy signatures satisfy alone |
| UnifiedFinalizeLoops.SubstituteLoop | coincube-core/src/unified_finalize.rs:475-506 | the substitution loop replaces every placeholder, counts both kinds and refuses stray signatures |
| UnifiedFinalize.SubstituteIs | coincube-core/src/unified_finalize.rs:475-506 | substitution gives every element in order with the placeholders swapped, the counts of both kinds, and a refusal exactly when an unknown element is shaped like a signature |
| UnifiedFinalize.WitnessInPlace | coincube-core/src/unified_finalize.rs:460-508 | a witness holds each element of the satisfaction at its own place, an offered signature's placeholder as that signature's bytes, and then the script |
| UnifiedFinalize.RefusalIff | coincube-core/src/unified_finalize.rs:535-551 | the search is refused exactly when more than twelve legacy signatures would crowd out every unified one |
| UnifiedFinalizeLoops.OfferMask | coincube-core/src/unified_finalize.rs:557-563 | the bit loop offers all unified signatures and exactly the masked legacy ones |
| UnifiedFinalizeLoops.MaskOffers | coincube-core/src/unified_finalize.rs:557-563 | a mask offers the unified signatures and the legacy one of each key whose bit is set, the bit numbered by how many legacy keys come before it |
| UnifiedFinalizeLoops.SatisfyPreferringUnified | coincube-core/src/unified_finalize.rs:535-581 | the mask loop computes `Prefer`, the over-limit refusal included |
| UnifiedFinalizeLoops.FinalizeInputs | coincube-core/src/unified_finalize.rs:797-832 | the input loop returns every input's witness and report, or the first refusal |
| Policy.SatisfyIff | coincube-core/src/unified_finalize.rs:303-366 | the satisfier answers exactly when the offered keys and the transaction's locks meet the policy, and uses offered keys of the policy |
| Policy.UsedIsEnough | coincube-core/src/unified_finalize.rs:303-366 | the keys a satisfaction uses meet the policy by themselves, shared or not |
| Policy.SatisfyAgain | coincube-core/src/claim_finalize.rs:419-423 | without shared keys, satisfying from the used keys alone gives the same satisfaction |
| Policy.UsedIsMinimal | coincube-core/src/claim_finalize.rs:424-437 | without shared keys, a subset of the used keys meets the policy if and only if it is all of them |
| VaultWitness.PolicyReport | coincube-core/src/unified_finalize.rs:460-508 | on a policy script an input is satisfied exactly when the policy holds; the report counts a kind of signature exactly when a used key has it and, without shared keys, counts exactly the used keys of each kind |
| VaultWitness.PolicyNeedsSignature | coincube-core/src/unified_finalize.rs:405-413 | every script that locks alone do not meet, shared keys or not, cannot be finalised without a signature |
| VaultWitness.PolicyNeverDropped | coincube-core/src/unified_finalize.rs:782-832 | on every policy that locks alone do not meet, a finalised witness holds a unified signature if and only if some legacy subset allows one |
| VaultWitness.LegacyPartUnsatisfiable | coincube-core/src/claim_finalize.rs:424-437 | the k-1 invariant: the legacy signatures beside a unified one in a witness never satisfy the script alone |
| VaultWitness.RetentionAccepts | coincube-core/src/claim_finalize.rs:424-437 | the retention check accepts the signatures recovered from every witness of a script without shared keys |
| VaultWitness.RecoveredAgain | coincube-core/src/claim_finalize.rs:371-423 | without shared keys, finalising the signatures recovered from a witness gives that witness and report again |
| VaultWitness.FinalizedAgain | coincube-core/src/claim_finalize.rs:371-423 | without shared keys, every input the finaliser completes holds offered signatures from which finalising rebuilds the same witness, so the byte comparison of a recovered transaction never refuses it |
| SharedKey.SharedKeyBreaks | coincube-core/src/claim_finalize.rs:424-437 | for every lock state, key encoding and four fitting signatures, a script sharing three keys through their hashes finalises, as the smaller witness, to a unified multisig whose recovered signatures the retention check refuses |
| Multisig.Assemble | coincube-core/src/unified_foreign.rs:349-376 | the loop takes the first threshold signed keys in script order, and refuses exactly when fewer script keys are signed, reporting how many |
| Multisig.CheckMultisig | coincube-core/src/unified_foreign.rs:349-363 | the consensus two-pointer loop accepts exactly when the signatures belong, in order, to keys at increasing places |
| Multisig.AssembledAccepted | coincube-core/src/unified_foreign.rs:314-389 | every assembled witness is accepted by that loop, for every threshold, key list and verification relation |
| ScriptRun.LocksAgree | coincube-core/src/unified_finalize.rs:345-366 | the satisfier's lock checks hold exactly when the node's do, BIP 65 and BIP 112 with its masks, except that a negative version is refused |
| ScriptRun.FinalizedAccepted | coincube-core/src/unified_finalize.rs:460-508 | every witness the finaliser returns is consumed by the script's evaluation on the stack, whichever signatures and branches it chose, shared keys or not |
| ScriptRun.MultiAccepted | coincube-core/src/unified_finalize.rs:460-508 | an accepted multisig witness is the dummy, one signature per key at increasing places, and the script |
| ScriptRun.RunMeetsPolicy | coincube-core/src/unified_finalize.rs:303-366 | whatever stack the script accepts, the keys that verify its elements meet the policy |
| ScriptRun.NothingMissed | coincube-core/src/unified_finalize.rs:460-474 | if the node accepts some witness signed by offered keys alone, the finaliser can satisfy the input |
| Ancestry.VerifyIff | coincube-core/src/claim_ancestry.rs:86-143 | a dependency is accepted exactly when its links are within the limits and decode to an unbroken chain without repeats from the selected output to a coinbase |
| Ancestry.AncestrySound | coincube-core/src/claim_ancestry.rs:86-143 | on every ledger run that never includes that coinbase, no transaction of the path is included and the selected output is never spendable |
| Ancestry.VerifyLinks | coincube-core/src/claim_ancestry.rs:86-143 | the two loops compute the check, errors included |
| HeightCommitment.PushPrefixFree | coincube-core/src/claim_ancestry.rs:64-78 | no minimal height push starts another |
| HeightCommitment.OneHeight | coincube-core/src/claim_ancestry.rs:64-78 | a coinbase script passes for at most one height |
| HeightCommitment.HeightIff | coincube-core/src/claim_ancestry.rs:64-78 | a script passes for a height exactly when it is 2 to 100 bytes long and starts with the opcode of a small number or the length and bytes of the shortest positive script number of that height |
| Spend.FeeSourceFixed | coincube-core/src/spend.rs:184-214 | any two PSBTs of one unsigned transaction that pass the pre-broadcast check have the same input total and fee, whatever their metadata |
| Spend.FeeConserved | coincube-core/src/spend.rs:262-274 | a checked fee is inputs less outputs exactly when the output total fits 64 bits, and never exceeds the maximum |
| Spend.WrappedTotal | coincube-core/src/spend.rs:262-274 | in every environment whose dust and size bounds admit it, outputs whose sum wraps pass the check with the whole input as fee, while creating more than they spend |
| Spend.BuiltPassesCheck | coincube-core/src/spend.rs:315-329 | every spend the builder returns passes the pre-broadcast check |
| SpendTheorems.BuiltSpend | coincube-core/src/spend.rs:807-1040 | every spend the builder returns pays each recipient its amount at its own script, then the worthless poison if any, then the change if any, and nothing else; spends the selected coins in order with their sequences and previous transactions; and conserves value exactly when the output total fits 64 bits |
| SpendTheorems.CreateSpendIff | coincube-core/src/spend.rs:807-1040 | that transaction is returned exactly when the amounts and the rate are allowed, every selected coin is the wallet's, and the spend is sound along its path |
| SpendTheorems.ReverifyIff | coincube-core/src/spend.rs:232-329 | the check accepts exactly when every input is proven by its previous transaction and the fee, size and dust bounds hold along the primary or the recovery path |
| Spend.BuiltInputs | coincube-core/src/spend.rs:971-1030 | the check reads a built PSBT's input total as the sum of the selected coins |
| Spend.AddInputsLoop | coincube-core/src/spend.rs:247-260 | the input loop computes the authenticated total, errors included |
| Spend.InputsLoop | coincube-core/src/spend.rs:971-1019 | the builder's loop authenticates every coin against the wallet's amount and script |
| Spend.AuthenticateCoin | coincube-core/src/spend.rs:971-1019 | one coin's input is built exactly when its previous transaction, amount and script agree with the wallet's, with the refusals in order |
| SplitPoison.DecoderInvertsEncoder | coincube-core/src/split_poison.rs:43-102 | a script decodes to given details exactly when it is the poison script for them |
| SplitPoison.PoisonShape | coincube-core/src/split_poison.rs:43-67 | the poison is a 90-byte OP_RETURN that reads back its marker |
| SplitPoison.PoisonLayout | coincube-core/src/split_poison.rs:29-67 | the poison byte by byte: OP_RETURN, a push of 87, the label, version 1, 0 for Bitcoin or 1 for Testnet4, the marker, the hash of the outpoints in order and seven zeros; no other chain has one |
| OutPoints.LessIff | coincube-core/src/split_poison.rs:43-60 | the order of an outpoint set is by identifier bytes and then by index |
| SplitPoison.FillPayload | coincube-core/src/split_poison.rs:55-60 | the payload array filled in place is the payload |
| ClaimSpend.CheckCoinsLoop | coincube-core/src/claim_spend.rs:171-194 | the coin loop computes the check with its ordered set and running total |
| ClaimSpend.ForkCoinsLoop | coincube-core/src/claim_spend.rs:575-605 | the fork coin loop computes the ownership and freshness check |
| ClaimPair.CheckCoinsIff | coincube-core/src/claim_spend.rs:171-194 | the coin check accepts exactly distinct, non-null, normal coins within the money range and none at the destination, and returns their outpoints as an ordered set |
| ClaimPair.PoisonBindsInputs | coincube-core/src/claim_spend.rs:143-233 | a poison transfer spends exactly the coins; its first output is an over-limit OP_RETURN that decodes to the marker and to a commitment to those inputs in order, and its only other output is at the wallet's change script |
| ClaimRecords.TransferIff | coincube-core/src/claim_spend.rs:143-233 | a self-transfer is built exactly on Bitcoin or Testnet4 for good coins that the builder can sweep with the poison, if any, for their ordered outpoints |
| ClaimPair.SweepShape | coincube-core/src/claim_spend.rs:202-233 | a self-transfer without poison spends exactly the coins to one output at the wallet's own change script |
| ClaimPair.FundingPays | coincube-core/src/claim_spend.rs:506-519 | when the funding coin covers the fee, the single output is worth at least the other coins, and inputs equal output plus fee |
| ClaimPair.PairInputs | coincube-core/src/claim_spend.rs:545-572 | for every pair created or reconstructed, the fork inputs are the Bitcoin inputs without B and with F, and something is shared |
| ClaimPair.SharedValueKept | coincube-core/src/claim_spend.rs:361-367 | on both chains the single output returns at least the shared value, the same amount on both, and inputs equal output plus fee, created or reconstructed |
| ClaimPair.FreshReturn | coincube-core/src/claim_spend.rs:573-628 | both outputs go to the wallet's change script at the requested index, which no spent coin has |
| ClaimRecords.AncestryIff | coincube-core/src/claim_spend.rs:318-374 | the Bitcoin side is built exactly for two or more good coins with B among them that the builder can sweep at a fee B covers |
| ClaimRecords.ForkSweepIff | coincube-core/src/claim_spend.rs:522-628 | the fork side is built exactly on the matching chain for the Bitcoin inputs without B and with F, each with the amount and script it has there, that the builder can sweep at a fee F covers |
| ClaimRecords.AncestryRecord | coincube-core/src/claim_spend.rs:318-374 | created or reconstructed, the claimed outpoints are the inputs without B in their order, and B, its derivation, the chain, the descriptor, the change index and the lock time are those asked for |
| ClaimRecords.ForkRecord | coincube-core/src/claim_spend.rs:630-648 | created or reconstructed, the fork side names its chain, the identifier of the Bitcoin side, F and the change index |
| ClaimPair.AncestryRoundTrip | coincube-core/src/claim_spend.rs:787-828 | reconstructing a created transfer from its own transaction returns it unchanged exactly when coin selection's answer, in the same order, leaves change above dust and a fee that is at least one satoshi per worst-case vbyte, within the ceilings and covered by the selected coin |
| ClaimPair.ForkRoundTrip | coincube-core/src/claim_spend.rs:733-779 | reconstructing a created fork sweep from its own transaction returns it unchanged exactly when coin selection's answer, in the same order, leaves change above dust and a fee that is at least one satoshi per worst-case vbyte, within the ceilings and covered by the funding coin if there is one |
| ClaimPair.Excluded | coincube-core/src/claim_ancestry.rs:86-143 | a ledger that lacks a dependency's coinbase never includes a transaction that spends the selected output, whatever its witnesses |
| ClaimPair.PairedExclusion | coincube-core/src/claim_spend.rs:318-374 | in every interleaving of inclusions on two ledgers where B's coinbase is not on the fork and F's not on Bitcoin, S+B is not on the fork and S+F not on Bitcoin |
| ClaimExample.PairConfirms | coincube-core/src/claim_spend.rs:318-374 | the Bitcoin and fork builders return these two PSBTs, and there is an interleaving where each confirms on its own chain and neither on the other, so the exclusion theorem is not empty |
| ClaimAssess.EqualTips | coincube-core/src/claim.rs:376-378 | equal tips mean equal best chains, which is what the preflight comparison relies on |
| ClaimAssess.SeenIsCurrent | coincube-core/src/claim.rs:256-295 | a confirmation read from an outdated view counts only if its block is in the current best chain, as deep as reported |
| ClaimAssess.EligibleIsSettled | coincube-core/src/claim.rs:299-380 | in every run of extensions and reorgs, an eligible answer means step 1 is six deep in Bitcoin's best chain, in the recorded block if any, and not on the fork's |
| ClaimAssess.RecordedBlockGone | coincube-core/src/claim.rs:256-295 | once a confirmation block is recorded, no later state whose best chain lacks exactly that block is assessed eligible |
| ClaimAssess.EligibleIff | coincube-core/src/claim.rs:299-380 | for truthful observations of one state, the answer is eligible exactly when the plan and deployment are admissible, both observations are fresh answers about step 1, the preflight tips match, and step 1 is settled |
| ClaimDecision.AdmissibleIff | coincube-core/src/claim.rs:299-345 | admissible means: a matching pair of chains, an OP_RETURN plan over 83 bytes with distinct real inputs that include the distinct claimed ones, observations made not after now and not too long ago, one fork tip, and a deployment that passes |
| ClaimDecision.DeploymentIff | coincube-core/src/claim.rs:198-250 | the deployment passes exactly when it is active, binds the next block, and expires later than the margin |
| ClaimDecision.DeploymentAnswers | coincube-core/src/claim.rs:198-250 | expired, scheduled, inactive, malformed and too close to expiry, each exactly when it is so |
| ClaimDecision.EnforcedAhead | coincube-core/src/claim.rs:198-250 | after an eligible answer every later fork block whose median time past is within the margin is bound by the rule that refuses the poison |
| ClaimDecision.ProgressIff | coincube-core/src/claim.rs:256-380 | for truthful observations of one state: waiting for confirmation exactly when step 1 is nowhere yet, reorged exactly when it is not in its recorded block, waiting for depth n exactly when it is n deep with n below six, and otherwise settled |
| ClaimDecision.OnForkIff | coincube-core/src/claim.rs:299-380 | step 1 is reported as already on the fork exactly when it is on the fork's best chain |
| ClaimDecision.OneTransaction | coincube-core/src/claim.rs:56-66 | an eligible answer is about the tracked transaction if one is tracked, else the plan's, on both chains |
| SplitRoundTrip.SortSorts | coincube-core/src/foreign_split.rs:473-474 | sorting keeps the coins and orders them by outpoint |
| SplitRoundTrip.SelectIff | coincube-core/src/foreign_split.rs:469-515 | selection accepts exactly non-empty distinct coins within the money range that both chains confirm in one block below the fork and the source wallet owns, and returns them all in outpoint order with their total |
| SplitRoundTrip.SelectPermuted | coincube-core/src/foreign_split.rs:469-515 | for distinct outpoints the answer, refusals included, does not depend on the order of the coins |
| SplitRoundTrip.RoundTrip | coincube-core/src/foreign_split.rs:622-743 | reconstructing a created step from its coins in any order returns the identical construction exactly when the tip is not below the locktime |
| SplitStep.CreatedStep | coincube-core/src/foreign_split.rs:622-646 | a created step spends exactly the coins in outpoint order, each shared, owned and carried with its previous transaction and, if segwit, its output; its first output is worthless and decodes to the chain, the marker and the hash of those inputs; its second pays the wallet's external script at the asked index, which no spent output has, with what the fee leaves |
| SplitStep.ReconstructedStep | coincube-core/src/foreign_split.rs:717-743 | a reconstructed step is the recorded transaction and has the same shape for the marker it carries, with the fee and lock time within the bounds |
| SplitStep.CreateIff | coincube-core/src/foreign_split.rs:622-646 | the step of that shape is created exactly when the coins are within the money range, the rate is 1 to 1000 and the fee, dust and lock time bounds hold, and it is the only one of its amount, lock time and size |
| SplitSize.BaseSizeIsLength | coincube-core/src/foreign_split.rs:537-555 | the size counted is the length of the consensus encoding without witnesses |
| SplitSize.SizeBound | coincube-core/src/foreign_split.rs:524-555 | if every satisfaction keeps to its descriptor's bound, no signed form is larger than the worst case charged |
| SplitSize.SizeTight | coincube-core/src/foreign_split.rs:524-555 | a signed form whose satisfactions meet their bounds has exactly the size charged |
| SplitSize.WeightIsLength | coincube-core/src/foreign_split.rs:545-555 | weight is three times the length without witnesses plus the length with them, and a virtual byte is four units rounded up |
| SplitSize.CreatedFee | coincube-core/src/foreign_split.rs:622-646 | the fee is the requested rate times the worst case, at least that rate times the real size, at most the ceiling, and never negative |
| SplitSize.ReconstructedFee | coincube-core/src/foreign_split.rs:717-743 | a reconstructed step pays at least one satoshi per real virtual byte and at most the ceiling |
| ForeignSplit.SelectLoop | coincube-core/src/foreign_split.rs:469-515 | the selection loop computes `Select`, errors included |
| ForeignSplit.MaximumSignedVbytesLoop | coincube-core/src/foreign_split.rs:524-555 | the satisfaction loop computes the worst-case size with its overflow refusals |
| SeedCrypt.UnpadInvertsPad | coincube-core/src/seed_crypt.rs:140-172 | every payload that fits is recovered from its padded frame |
| SeedCrypt.HeaderRoundTrip | coincube-core/src/seed_crypt.rs:225-252 | a header parses to given fields if and only if it prints from them |
| SeedFile.PadLayout | coincube-core/src/seed_crypt.rs:140-154 | a payload of at most 246 bytes is framed in 256: the magic, the length with its high byte first, the payload and zeros |
| SeedFile.UnpadIff | coincube-core/src/seed_crypt.rs:162-172 | exactly a whole frame with a length that fits is unpadded, and anything else passes through |
| SeedFile.FileKeyIff | coincube-core/src/seed_crypt.rs:264-350 | the key is Argon2 of the password at the salt within the parameter limits, expanded in version 3 with the device secret for the Cube |
| SeedFile.EncryptLayout | coincube-core/src/seed_crypt.rs:384-433 | encryption succeeds exactly for a payload that fits and a key that can be derived, and the file is marker, header, salt and nonce at their offsets and the padded payload sealed with header and Cube id |
| SeedFile.OpensIff | coincube-core/src/seed_crypt.rs:450-542 | whatever is tried on a file, it opens exactly with its own password, its own device secret if it has one, and for its own Cube or, if it is an unbound version 2 file, for any; and to what was sealed; a missing secret is reported as such |
| SeedFile.RefusedAlike | coincube-core/src/seed_crypt.rs:440-448 | every other attempt on an intact file is reported as a wrong password |
| SeedFile.OpensV1 | coincube-core/src/seed_crypt.rs:554-600 | a version 1 file opens exactly with its password, at the fixed parameters, whatever Cube and secret are offered |
| SeedFile.FormatRefused | coincube-core/src/seed_crypt.rs:303-313 | data without one of the three markers is not a seed file, and a shorter one is refused for its format |
| SeedCrypt.RoundTrip | coincube-core/src/seed_crypt.rs:384-433 | encryption succeeds exactly for payloads that fit, and decryption inverts it |
| SeedCrypt.OneLength | coincube-core/src/seed_crypt.rs:384-433 | all version 2 and 3 files are 320 bytes long |
| SeedCrypt.EditedHeaderRefused | coincube-core/src/seed_crypt.rs:471-542 | no edit of a file's header survives, whatever password, Cube id and secret are tried |
| SeedFile.EditedHeaderAnswers | coincube-core/src/seed_crypt.rs:484-495 | an edited header is refused for the format exactly when its version or derivation is not the file's, for the parameters exactly when they are out of range, and otherwise as a wrong password |
| SeedCrypt.PadBuffer | coincube-core/src/seed_crypt.rs:140-154 | the buffer filled in place is the padded frame |

## Left out

- PsbtMergeLoops.MergeOneInput: which record an error names, and whether a conflict or an ambiguity is reported when an input has both, because the maps are iterated in an unspecified order.
- PsbtConversion.ExportRestoresImport: the order of records inside a map after an export, because the library lays typed maps out in its own order; content is compared, byte identity is not.
- PsbtSigning.SignSound: how a turn's records arise; `PsbtSigners` derives them from the derivations in the PSBT, with the digest and its signature as one function.
- PsbtMerge.MergeOrderIndependent: which error a refused sequence reports, because it names the first refusal and so depends on the order.
- PsbtSigning.SignersOrderIndependent: which error a refused sequence reports, for the same reason.
- PsbtSigners.SignersInAnyOrder: which error a refused sequence reports, for the same reason.
- Policy.SatisfyIff: the miniscript library itself; scripts are policies of keys, key hashes, multisig, conjunction, disjunction and locks, without hash preimages, and `ScriptRun` evaluates such a policy and not its opcodes.
- ClaimAssess.RecordedBlockGone: a caller that clears or replaces a recorded confirmation; in a run it is written once.
- ClaimPair.AncestryRoundTrip: a coin selection that returns the coins in another order, because the order is fixed by the selection library; the same holds for ClaimPair.ForkRoundTrip.
- Reconstruction of the poison self-transfer, the return-address accessor and the size estimate of claim_spend.rs.
- Elliptic curves, SHA-256, AES-GCM, Argon2 and HKDF internals, randomness, clocks and zeroisation.
- Descriptor parsing and derivation, address encoding, and the taproot paths that the modelled builders refuse.
- Coin selection and its floating-point feerates; the builder takes its answer as a parameter.
- The single-input merge entry point, and single-key inputs of the foreign finaliser.
- Previous-output authentication inside the finaliser; its inputs are the verified signatures.
- The signing validators of claim_finalize.rs and the submodules of foreign_split, claim_finalize and claim_ancestry.
- Error message text and display, signer file storage, imported spends, public wallet pairs, and everything outside coincube-core.
