/** A node's evaluation of a witness, and the finaliser's witnesses under it: what is finalised runs,
    and what cannot be finalised has no witness that runs. */
module ScriptRun {
  import opened Wrappers
  import opened Bytes
  import opened Transactions
  import opened UnifiedFinalize
  import opened Policy
  import opened VaultWitness

  /** What a node knows of the input it checks. */
  datatype Node = Node(locks: Locks, keyBytes: Key -> Element, verify: Multisig.Verify)

  // ----- lock times, as consensus compares them -----

  const SEQUENCE_FINAL: u32 := 0xffff_ffff
  const DISABLE_FLAG: nat := 0x8000_0000
  const TYPE_FLAG: nat := 0x40_0000

  /** BIP 65: both lock times count heights or both count seconds, the operand is not above the
      transaction's, and the input is not final. */
  predicate LockTimeReached(locks: Locks, operand: u32) {
    && ((locks.lockTime < LOCKTIME_THRESHOLD && operand < LOCKTIME_THRESHOLD)
        || (locks.lockTime >= LOCKTIME_THRESHOLD && operand >= LOCKTIME_THRESHOLD))
    && !(operand > locks.lockTime) && locks.sequence != SEQUENCE_FINAL
  }

  /** The type flag and the low sixteen bits. */
  function MaskedSequence(n: nat): nat {
    (if (n / TYPE_FLAG) % 2 == 1 then TYPE_FLAG else 0) + n % 0x1_0000
  }

  /** BIP 112: the version is read as an unsigned number. */
  predicate SequenceReached(locks: Locks, operand: u32) {
    var version := if locks.version < 0 then locks.version + 0x1_0000_0000 else locks.version;
    var mine, asked := MaskedSequence(locks.sequence), MaskedSequence(operand);
    || operand / DISABLE_FLAG % 2 == 1
    || (&& version >= 2 && locks.sequence / DISABLE_FLAG % 2 == 0
        && ((mine < TYPE_FLAG && asked < TYPE_FLAG) || (mine >= TYPE_FLAG && asked >= TYPE_FLAG))
        && asked <= mine)
  }

  function SequenceOperand(time: bool, value: u16): u32 {
    (if time then TYPE_FLAG else 0) + value
  }

  /** The satisfier's lock checks are the node's, but for one case: a negative version, which the node
      reads as a large one. */
  lemma LocksAgree(locks: Locks, lock: u32, time: bool, value: u16)
    ensures CheckAfter(locks, lock) <==> LockTimeReached(locks, lock)
    ensures CheckOlder(locks, time, value) <==> SequenceReached(locks, SequenceOperand(time, value)) && locks.version >= 0
  {
    var operand := SequenceOperand(time, value);
    assert operand / TYPE_FLAG == if time then 1 else 0;
    assert operand % 0x1_0000 == value;
    assert operand / DISABLE_FLAG == 0;
  }

  // ----- evaluation -----

  function KeyList(node: Node, keys: seq<Key>): (r: seq<Element>)
    ensures |r| == |keys|
    ensures forall i :: 0 <= i < |keys| ==> r[i] == node.keyBytes(keys[i])
  {
    seq(|keys|, i requires 0 <= i < |keys| => node.keyBytes(keys[i]))
  }

  /** The script of `p` on a stack whose last element is on top: what it leaves, or a failure. */
  function Run(node: Node, p: Policy, stack: seq<Element>): Option<seq<Element>> {
    var n := |stack|;
    match p
    case Pk(k) => if n >= 1 && node.verify(node.keyBytes(k), stack[n - 1]) then Some(stack[..n - 1]) else None
    case Pkh(k) =>
      if n >= 2 && stack[n - 1] == node.keyBytes(k) && node.verify(stack[n - 1], stack[n - 2]) then Some(stack[..n - 2])
      else None
    case Multi(m, keys) =>
      if n > m && stack[n - m - 1] == [] && Multisig.Matching(node.verify, stack[n - m..], KeyList(node, keys)) then
        Some(stack[..n - m - 1])
      else None
    case And(l, r) =>
      (match Run(node, l, stack)
       case None => None
       case Some(rest) => Run(node, r, rest))
    case Or(l, r) =>
      if n == 0 then None
      else if stack[n - 1] == [1] then Run(node, l, stack[..n - 1])
      else if stack[n - 1] == [] then Run(node, r, stack[..n - 1])
      else None
    case Older(time, value) => if SequenceReached(node.locks, SequenceOperand(time, value)) then Some(stack) else None
    case After(lock) => if LockTimeReached(node.locks, lock) then Some(stack) else None
  }

  /** A witness is accepted if it ends in the script and the script consumes all of the rest. */
  predicate Accepts(node: Node, p: Policy, script: Element, shown: seq<Element>) {
    && shown != [] && shown[|shown| - 1] == script
    && Run(node, p, shown[..|shown| - 1]) == Some([])
  }

  // ----- what is finalised runs -----

  /** The node sees the locks and keys the satisfier saw, and every offered signature is its key's. */
  ghost predicate Knows(node: Node, rules: Rules, offers: Offers) {
    && node.locks == rules.locks && node.keyBytes == rules.keyBytes
    && forall k :: k in offers ==> node.verify(node.keyBytes(k), offers[k].witnessBytes)
  }

  lemma SwappedConcat(table: map<Element, Signature>, a: seq<Element>, b: seq<Element>)
    ensures SwappedAll(table, a + b) == SwappedAll(table, a) + SwappedAll(table, b)
  {
    hide Swapped;
  }

  lemma SwappedPlain(table: map<Element, Signature>, offers: Offers, a: seq<Element>, e: Element)
    requires Indexes(table, offers) && Plain(e)
    ensures SwappedAll(table, a + [e]) == SwappedAll(table, a) + [e]
  {
    assert e !in table;
    SwappedConcat(table, a, [e]);
    assert SwappedAll(table, [e]) == [e];
  }

  /** The chosen signatures, in order, are those of keys at increasing places. */
  lemma ChosenEmbed(node: Node, n: nat, keys: seq<Key>, offers: Offers, rules: Rules, signatures: seq<Element>)
    requires Knows(node, rules, offers) && Occurs(keys, offers.Keys) >= n
    requires var chosen := Multisig.FirstSigned(keys, InSet(offers.Keys), n);
             && |signatures| == |chosen|
             && forall i :: 0 <= i < |chosen| ==> chosen[i] in offers && signatures[i] == offers[chosen[i]].witnessBytes
    ensures |signatures| == n && Multisig.Matching(node.verify, signatures, KeyList(node, keys))
  {
    ChosenOffered(keys, offers, n);
    var places := Multisig.FirstSignedPlaces(keys, InSet(offers.Keys), n);
    assert Multisig.PlacedAt(node.verify, signatures, KeyList(node, keys), places);
    Multisig.MatchingIff(node.verify, signatures, KeyList(node, keys));
  }

  lemma MultiRun(node: Node, n: nat, keys: seq<Key>, below: seq<Element>, signatures: seq<Element>)
    requires |signatures| == n && Multisig.Matching(node.verify, signatures, KeyList(node, keys))
    ensures Run(node, Multi(n, keys), below + ([[]] + signatures)) == Some(below)
  {
    hide Multisig.Matching;
    var stack := below + ([[]] + signatures);
    assert stack[|stack| - n..] == signatures && stack[..|stack| - n - 1] == below && stack[|stack| - n - 1] == [];
  }

  lemma MultiRuns(node: Node, n: nat, keys: seq<Key>, offers: Offers, rules: Rules, table: map<Element, Signature>,
                  below: seq<Element>)
    requires Satisfy(Multi(n, keys), offers, rules).Some? && Indexes(table, offers) && Knows(node, rules, offers)
    ensures Run(node, Multi(n, keys), below + SwappedAll(table, Satisfy(Multi(n, keys), offers, rules).value.stack)) == Some(below)
  {
    hide Indexes, Placeholder, Run, Knows;
    ChosenOffered(keys, offers, n);
    var chosen := Multisig.FirstSigned(keys, InSet(offers.Keys), n);
    var placed := PlaceholdersOf(offers, chosen);
    var signatures := SwappedAll(table, placed);
    forall i | 0 <= i < |chosen| ensures signatures[i] == offers[chosen[i]].witnessBytes { IndexedAt(table, offers, chosen[i]); }
    ChosenEmbed(node, n, keys, offers, rules, signatures);
    NothingPlain(table, offers);
    SwappedConcat(table, [[]], placed);
    assert SwappedAll(table, [[]]) == [[]];
    MultiRun(node, n, keys, below, signatures);
  }

  lemma RunBoth(node: Node, l: Policy, r: Policy, stack: seq<Element>)
    requires Run(node, l, stack).Some?
    ensures Run(node, And(l, r), stack) == Run(node, r, Run(node, l, stack).value)
  {
  }

  lemma AndRun(node: Node, l: Policy, r: Policy, below: seq<Element>, a: seq<Element>, b: seq<Element>)
    requires Run(node, l, below + b + a) == Some(below + b) && Run(node, r, below + b) == Some(below)
    ensures Run(node, And(l, r), below + (b + a)) == Some(below)
  {
    hide Run;
    assert below + (b + a) == below + b + a;
    RunBoth(node, l, r, below + b + a);
  }

  lemma AndStack(l: Policy, r: Policy, offers: Offers, rules: Rules)
    requires Satisfy(And(l, r), offers, rules).Some?
    ensures Satisfy(l, offers, rules).Some? && Satisfy(r, offers, rules).Some?
    ensures Satisfy(And(l, r), offers, rules).value.stack
         == Satisfy(r, offers, rules).value.stack + Satisfy(l, offers, rules).value.stack
  {
  }

  lemma AndRuns(node: Node, l: Policy, r: Policy, offers: Offers, rules: Rules, table: map<Element, Signature>,
                below: seq<Element>)
    requires Satisfy(And(l, r), offers, rules).Some?
    requires var a, b := Satisfy(l, offers, rules).value.stack, Satisfy(r, offers, rules).value.stack;
             && Run(node, l, below + SwappedAll(table, b) + SwappedAll(table, a)) == Some(below + SwappedAll(table, b))
             && Run(node, r, below + SwappedAll(table, b)) == Some(below)
    ensures Run(node, And(l, r), below + SwappedAll(table, Satisfy(And(l, r), offers, rules).value.stack)) == Some(below)
  {
    hide Satisfy, SwappedAll, Run;
    AndStack(l, r, offers, rules);
    var a, b := Satisfy(l, offers, rules).value.stack, Satisfy(r, offers, rules).value.stack;
    SwappedConcat(table, b, a);
    AndRun(node, l, r, below, SwappedAll(table, a), SwappedAll(table, b));
  }

  /** A satisfaction, its placeholders swapped, is consumed by the script whatever lies below it. */
  lemma {:induction false} SatisfactionRuns(node: Node, p: Policy, offers: Offers, rules: Rules,
                                            table: map<Element, Signature>, below: seq<Element>)
    requires Satisfy(p, offers, rules).Some? && Real(offers, rules) && Indexes(table, offers) && Knows(node, rules, offers)
    ensures Run(node, p, below + SwappedAll(table, Satisfy(p, offers, rules).value.stack)) == Some(below)
  {
    hide Run, Knows, Indexes, SwappedAll, Placeholder;
    match p
    case Pk(k) => PkRuns(node, k, offers, rules, table, below);
    case Pkh(k) => PkhRuns(node, k, offers, rules, table, below);
    case Multi(n, keys) => MultiRuns(node, n, keys, offers, rules, table, below);
    case And(l, r) =>
      var b := Satisfy(r, offers, rules).value.stack;
      SatisfactionRuns(node, l, offers, rules, table, below + SwappedAll(table, b));
      SatisfactionRuns(node, r, offers, rules, table, below);
      AndRuns(node, l, r, offers, rules, table, below);
    case Or(l, r) =>
      if Satisfy(l, offers, rules).Some? { SatisfactionRuns(node, l, offers, rules, table, below); }
      if Satisfy(r, offers, rules).Some? { SatisfactionRuns(node, r, offers, rules, table, below); }
      OrRuns(node, l, r, offers, rules, table, below);
    case _ => LockRuns(node, p, offers, rules, table, below);
  }

  lemma LockRuns(node: Node, p: Policy, offers: Offers, rules: Rules, table: map<Element, Signature>,
                 below: seq<Element>)
    requires (p.Older? || p.After?) && Satisfy(p, offers, rules).Some? && Knows(node, rules, offers)
    ensures Run(node, p, below + SwappedAll(table, Satisfy(p, offers, rules).value.stack)) == Some(below)
  {
    assert below + SwappedAll(table, []) == below;
    match p
    case Older(time, value) => LocksAgree(rules.locks, 0, time, value);
    case After(lock) => LocksAgree(rules.locks, lock, false, 0);
    case _ =>
  }

  lemma PkRuns(node: Node, k: Key, offers: Offers, rules: Rules, table: map<Element, Signature>, below: seq<Element>)
    requires k in offers && Indexes(table, offers) && Knows(node, rules, offers)
    ensures Run(node, Pk(k), below + SwappedAll(table, [Placeholder(offers[k])])) == Some(below)
  {
    var stack := below + SwappedAll(table, [Placeholder(offers[k])]);
    assert stack == below + [offers[k].witnessBytes] && stack[..|stack| - 1] == below;
  }

  lemma PkhRuns(node: Node, k: Key, offers: Offers, rules: Rules, table: map<Element, Signature>, below: seq<Element>)
    requires k in offers && Real(offers, rules) && Indexes(table, offers) && Knows(node, rules, offers)
    ensures Run(node, Pkh(k), below + SwappedAll(table, [Placeholder(offers[k]), rules.keyBytes(k)])) == Some(below)
  {
    var stack := below + SwappedAll(table, [Placeholder(offers[k]), rules.keyBytes(k)]);
    assert Plain(rules.keyBytes(k));
    assert stack == below + [offers[k].witnessBytes, rules.keyBytes(k)] && stack[..|stack| - 2] == below;
  }

  lemma PlainBits()
    ensures Plain([1]) && Plain([])
  {
  }

  lemma OrStack(l: Policy, r: Policy, offers: Offers, rules: Rules)
    requires Satisfy(Or(l, r), offers, rules).Some?
    ensures var a, b, s := Satisfy(l, offers, rules), Satisfy(r, offers, rules), Satisfy(Or(l, r), offers, rules).value;
            (a.Some? && s.stack == a.value.stack + [[1]]) || (b.Some? && s.stack == b.value.stack + [[]])
  {
  }

  lemma RunBranch(node: Node, l: Policy, r: Policy, stack: seq<Element>, left: bool)
    requires stack != [] && stack[|stack| - 1] == if left then [1] else []
    ensures Run(node, Or(l, r), stack) == Run(node, if left then l else r, stack[..|stack| - 1])
  {
  }

  lemma OrRun(node: Node, l: Policy, r: Policy, below: seq<Element>, a: seq<Element>, left: bool)
    requires Run(node, if left then l else r, below + a) == Some(below)
    ensures Run(node, Or(l, r), below + (a + [if left then [1] else []])) == Some(below)
  {
    hide Run;
    var stack := below + (a + [if left then [1] else []]);
    assert stack[..|stack| - 1] == below + a;
    RunBranch(node, l, r, stack, left);
  }

  lemma OrRuns(node: Node, l: Policy, r: Policy, offers: Offers, rules: Rules, table: map<Element, Signature>,
               below: seq<Element>)
    requires Satisfy(Or(l, r), offers, rules).Some? && Indexes(table, offers)
    requires Satisfy(l, offers, rules).Some? ==>
               Run(node, l, below + SwappedAll(table, Satisfy(l, offers, rules).value.stack)) == Some(below)
    requires Satisfy(r, offers, rules).Some? ==>
               Run(node, r, below + SwappedAll(table, Satisfy(r, offers, rules).value.stack)) == Some(below)
    ensures Run(node, Or(l, r), below + SwappedAll(table, Satisfy(Or(l, r), offers, rules).value.stack)) == Some(below)
  {
    hide Satisfy, Indexes, SwappedAll, Run, Plain;
    var a, b, s := Satisfy(l, offers, rules), Satisfy(r, offers, rules), Satisfy(Or(l, r), offers, rules).value;
    OrStack(l, r, offers, rules);
    assert Plain([1]) && Plain([]) by { PlainBits(); }
    if a.Some? && s.stack == a.value.stack + [[1]] {
      SwappedPlain(table, offers, a.value.stack, [1]);
      OrRun(node, l, r, below, SwappedAll(table, a.value.stack), true);
    } else {
      SwappedPlain(table, offers, b.value.stack, []);
      OrRun(node, l, r, below, SwappedAll(table, b.value.stack), false);
    }
  }

  /** Every witness the finaliser returns is accepted by the node, whichever signatures and branches it
      chose, shared keys or not. */
  lemma FinalizedAccepted(node: Node, p: Policy, rules: Rules, script: Element, isDer: seq<byte> -> bool,
                          unified: Offers, legacy: Offers)
    requires Real(unified + legacy, rules) && Knows(node, rules, unified + legacy) && unified.Keys !! legacy.Keys
    requires FinalizeInput(PolicyInput(p, rules, script, isDer), unified, legacy).Ok?
    ensures Accepts(node, p, script, FinalizeInput(PolicyInput(p, rules, script, isDer), unified, legacy).value.stack)
  {
    hide Satisfy, SatisfyInput, Real, FinalizeInput, PolicyInput, FullTable, SwappedAll, Run, Tally, Indexes;
    var offers := FinalizedOffers(PolicyInput(p, rules, script, isDer), unified, legacy);
    RealPart(unified + legacy, rules, offers);
    PolicyWitness(p, rules, script, isDer, offers);
    TableIndexes(offers, rules);
    SatisfactionRuns(node, p, offers, rules, FullTable(offers), []);
    var body := SwappedAll(FullTable(offers), Satisfy(p, offers, rules).value.stack);
    assert [] + body == body && (body + [script])[..|body|] == body;
  }

  /** In particular a multisig witness is the dummy, then one signature per key at increasing places,
      then the script. */
  lemma MultiAccepted(node: Node, n: nat, keys: seq<Key>, script: Element, shown: seq<Element>)
    requires Accepts(node, Multi(n, keys), script, shown)
    ensures |shown| == n + 2 && shown[0] == [] && shown[n + 1] == script
    ensures Multisig.Embeds(node.verify, shown[1..n + 1], KeyList(node, keys))
  {
    var stack := shown[..|shown| - 1];
    var m := |stack|;
    assert |stack[..m - n - 1]| == 0;
    assert stack[1..] == shown[1..n + 1];
    Multisig.MatchingIff(node.verify, stack[1..], KeyList(node, keys));
  }

  // ----- what runs meets the policy -----

  /** The keys of the policy under which some element verifies. */
  ghost function Signers(node: Node, p: Policy, stack: seq<Element>): set<Key> {
    set k | k in KeysOf(p) && exists e :: e in stack && node.verify(node.keyBytes(k), e)
  }

  /** As many keys count as there are places with signing keys. */
  lemma {:induction false} CountPlaces(keys: seq<Key>, places: seq<nat>, signers: set<Key>)
    requires Multisig.Increasing(places, |keys|)
    requires forall i :: 0 <= i < |places| ==> keys[places[i]] in signers
    ensures Occurs(keys, signers) >= |places|
  {
    if places != [] {
      assert places[0] < |keys|;
      var first := places[0] == 0;
      var rest := if first then places[1..] else places;
      var shifted := seq(|rest|, i requires 0 <= i < |rest| => if rest[i] > 0 then rest[i] - 1 else 0);
      assert forall i :: 0 <= i < |rest| ==> rest[i] > 0;
      forall i | 0 <= i < |shifted| ensures keys[1..][shifted[i]] in signers {
        assert keys[1..][shifted[i]] == keys[rest[i]];
      }
      CountPlaces(keys[1..], shifted, signers);
      assert first ==> InSet(signers)(keys[0]);
    }
  }

  lemma MultiMet(node: Node, n: nat, keys: seq<Key>, stack: seq<Element>)
    requires Run(node, Multi(n, keys), stack).Some?
    ensures Run(node, Multi(n, keys), stack).value <= stack
    ensures Occurs(keys, Signers(node, Multi(n, keys), stack)) >= n
  {
    var signatures := stack[|stack| - n..];
    Multisig.MatchingIff(node.verify, signatures, KeyList(node, keys));
    var places :| Multisig.PlacedAt(node.verify, signatures, KeyList(node, keys), places);
    forall i | 0 <= i < n ensures keys[places[i]] in Signers(node, Multi(n, keys), stack) {
      assert signatures[i] in stack && node.verify(node.keyBytes(keys[places[i]]), signatures[i]);
    }
    CountPlaces(keys, places, Signers(node, Multi(n, keys), stack));
  }

  /** A stack that runs leaves what was below, and the keys that signed it meet the policy. */
  lemma {:induction false} RunMeetsPolicy(node: Node, p: Policy, stack: seq<Element>)
    requires node.locks.version >= 0 && Run(node, p, stack).Some?
    ensures Run(node, p, stack).value <= stack
    ensures Holds(p, Signers(node, p, stack), node.locks)
  {
    match p
    case Pk(k) => assert stack[|stack| - 1] in stack;
    case Pkh(k) => assert stack[|stack| - 2] in stack;
    case Multi(n, keys) => MultiMet(node, n, keys, stack);
    case And(l, r) =>
      var rest := Run(node, l, stack).value;
      RunMeetsPolicy(node, l, stack);
      RunMeetsPolicy(node, r, rest);
      MoreSigners(node, l, p, stack, stack);
      MoreSigners(node, r, p, rest, stack);
    case Or(l, r) =>
      var rest := stack[..|stack| - 1];
      var branch := if stack[|stack| - 1] == [1] then l else r;
      RunMeetsPolicy(node, branch, rest);
      MoreSigners(node, branch, p, rest, stack);
    case Older(time, value) => LocksAgree(node.locks, 0, time, value);
    case After(lock) => LocksAgree(node.locks, lock, false, 0);
  }

  lemma MoreSigners(node: Node, p: Policy, q: Policy, part: seq<Element>, stack: seq<Element>)
    requires KeysOf(p) <= KeysOf(q) && part <= stack && Holds(p, Signers(node, p, part), node.locks)
    ensures Holds(p, Signers(node, q, stack), node.locks)
  {
    forall k | k in Signers(node, p, part) ensures k in Signers(node, q, stack) {
      var e :| e in part && node.verify(node.keyBytes(k), e);
      assert e in stack;
    }
    Grows(p, Signers(node, p, part), Signers(node, q, stack), node.locks);
  }

  /** The finaliser calls an input unsatisfiable only if no witness would be accepted from the offered
      keys: whatever the node accepts with signatures of those keys alone, the finaliser can build. */
  lemma NothingMissed(node: Node, p: Policy, rules: Rules, script: Element, isDer: seq<byte> -> bool, offers: Offers,
                      shown: seq<Element>)
    requires Real(offers, rules) && node.locks == rules.locks && node.locks.version >= 0
    requires Accepts(node, p, script, shown) && Signers(node, p, shown[..|shown| - 1]) <= offers.Keys
    ensures SatisfyInput(PolicyInput(p, rules, script, isDer), offers).Ok?
  {
    hide SatisfyInput, Satisfy, Holds, Run, Real;
    var body := shown[..|shown| - 1];
    RunMeetsPolicy(node, p, body);
    Grows(p, Signers(node, p, body), offers.Keys, rules.locks);
    PolicyReport(p, rules, script, isDer, offers);
  }
}
