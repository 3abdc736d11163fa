/** Vault scripts as a small policy language with a deterministic satisfier, and the witnesses the
    finaliser builds from them. */
module Policy {
  import opened Wrappers
  import opened Transactions
  import Multisig
  import opened UnifiedFinalize

  /** A relative lock counts blocks or 512-second units, an absolute one heights or times. */
  datatype Policy =
    | Pk(key: Key)
    | Pkh(key: Key)
    | Multi(k: nat, keys: seq<Key>)
    | And(left: Policy, right: Policy)
    | Or(left: Policy, right: Policy)
    | Older(time: bool, value: u16)
    | After(lock: u32)

  const LOCKTIME_THRESHOLD: u32 := 500_000_000

  /** The facts of the transaction and the input that lock checks read. */
  datatype Locks = Locks(version: i32, sequence: u32, lockTime: u32)

  /** The lock time counts only if the sequence is not final, and only against its own unit. */
  predicate CheckAfter(locks: Locks, lock: u32) {
    && locks.sequence != 0xffff_ffff
    && (lock < LOCKTIME_THRESHOLD <==> locks.lockTime < LOCKTIME_THRESHOLD)
    && lock <= locks.lockTime
  }

  /** Relative locks need version 2 and a sequence with the disable flag clear. */
  predicate CheckOlder(locks: Locks, time: bool, value: u16) {
    && locks.version >= 2 && locks.sequence < 0x8000_0000
    && (time <==> (locks.sequence / 0x40_0000) % 2 == 1)
    && value <= locks.sequence % 0x1_0000
  }

  // ----- meaning -----

  function InSet(present: set<Key>): Key -> bool {
    k => k in present
  }

  function Occurs(keys: seq<Key>, present: set<Key>): nat {
    Multisig.CountSigned(keys, InSet(present))
  }

  /** These signers and locks meet the policy. */
  predicate Holds(p: Policy, signers: set<Key>, locks: Locks) {
    match p
    case Pk(k) => k in signers
    case Pkh(k) => k in signers
    case Multi(n, keys) => Occurs(keys, signers) >= n
    case And(l, r) => Holds(l, signers, locks) && Holds(r, signers, locks)
    case Or(l, r) => Holds(l, signers, locks) || Holds(r, signers, locks)
    case Older(time, value) => CheckOlder(locks, time, value)
    case After(lock) => CheckAfter(locks, lock)
  }

  function KeysOf(p: Policy): set<Key> {
    match p
    case Pk(k) => {k}
    case Pkh(k) => {k}
    case Multi(_, keys) => set i | 0 <= i < |keys| :: keys[i]
    case And(l, r) => KeysOf(l) + KeysOf(r)
    case Or(l, r) => KeysOf(l) + KeysOf(r)
    case Older(_, _) => {}
    case After(_) => {}
  }

  /** No key occurs twice. */
  predicate NoSharedKey(p: Policy) {
    match p
    case Multi(_, keys) => forall i, j :: 0 <= i < j < |keys| ==> keys[i] != keys[j]
    case And(l, r) => NoSharedKey(l) && NoSharedKey(r) && KeysOf(l) !! KeysOf(r)
    case Or(l, r) => NoSharedKey(l) && NoSharedKey(r) && KeysOf(l) !! KeysOf(r)
    case _ => true
  }

  // ----- the satisfier -----

  datatype Satisfaction = Satisfaction(stack: seq<Element>, used: set<Key>)

  /** What the satisfier knows: the locks, the keys' bytes, and which of two signed branches it
      prefers. */
  datatype Rules = Rules(
    locks: Locks, keyBytes: Key -> Element,
    preferLeft: (Satisfaction, Satisfaction) -> bool)

  function PlaceholdersOf(offers: Offers, keys: seq<Key>): (r: seq<Element>)
    requires forall i :: 0 <= i < |keys| ==> keys[i] in offers
    ensures |r| == |keys|
    ensures forall i :: 0 <= i < |keys| ==> r[i] == Placeholder(offers[keys[i]])
  {
    seq(|keys|, i requires 0 <= i < |keys| => Placeholder(offers[keys[i]]))
  }

  lemma ChosenOffered(keys: seq<Key>, offers: Offers, n: nat)
    ensures var chosen := Multisig.FirstSigned(keys, InSet(offers.Keys), n);
            && (forall i :: 0 <= i < |chosen| ==> chosen[i] in offers && chosen[i] in keys)
            && |chosen| <= n && (|chosen| == n <==> Occurs(keys, offers.Keys) >= n)
  {
    var places := Multisig.FirstSignedPlaces(keys, InSet(offers.Keys), n);
    Multisig.FirstSignedLength(keys, InSet(offers.Keys), n);
  }

  function SetOf(keys: seq<Key>): set<Key> {
    set i | 0 <= i < |keys| :: keys[i]
  }

  /** A branch without signatures is always taken before one with. */
  function Choose(rules: Rules, l: Option<Satisfaction>, r: Option<Satisfaction>): Option<Satisfaction> {
    match (l, r)
    case (None, None) => None
    case (Some(a), None) => Some(a.(stack := a.stack + [[1]]))
    case (None, Some(b)) => Some(b.(stack := b.stack + [[]]))
    case (Some(a), Some(b)) =>
      if a.used == {} || (b.used != {} && rules.preferLeft(a, b)) then Some(a.(stack := a.stack + [[1]]))
      else Some(b.(stack := b.stack + [[]]))
  }

  /** Both branches; the left one runs first, so its elements are on top. */
  function Join(l: Option<Satisfaction>, r: Option<Satisfaction>): Option<Satisfaction> {
    match (l, r)
    case (Some(a), Some(b)) => Some(Satisfaction(b.stack + a.stack, a.used + b.used))
    case (_, _) => None
  }

  function Satisfy(p: Policy, offers: Offers, rules: Rules): Option<Satisfaction> {
    match p
    case Pk(k) => if k in offers then Some(Satisfaction([Placeholder(offers[k])], {k})) else None
    case Pkh(k) =>
      if k in offers then Some(Satisfaction([Placeholder(offers[k]), rules.keyBytes(k)], {k})) else None
    case Multi(n, keys) =>
      ChosenOffered(keys, offers, n);
      var chosen := Multisig.FirstSigned(keys, InSet(offers.Keys), n);
      if |chosen| < n then None
      else Some(Satisfaction([[]] + PlaceholdersOf(offers, chosen), SetOf(chosen)))
    case And(l, r) => Join(Satisfy(l, offers, rules), Satisfy(r, offers, rules))
    case Or(l, r) => Choose(rules, Satisfy(l, offers, rules), Satisfy(r, offers, rules))
    case Older(time, value) => if CheckOlder(rules.locks, time, value) then Some(Satisfaction([], {})) else None
    case After(lock) => if CheckAfter(rules.locks, lock) then Some(Satisfaction([], {})) else None
  }

  // ----- sound, complete and minimal -----

  lemma {:induction false} Grows(p: Policy, a: set<Key>, b: set<Key>, locks: Locks)
    requires a * KeysOf(p) <= b
    ensures Holds(p, a, locks) ==> Holds(p, b, locks)
  {
    match p
    case Multi(n, keys) => CountGrows(keys, a, b);
    case And(l, r) => Grows(l, a, b, locks); Grows(r, a, b, locks);
    case Or(l, r) => Grows(l, a, b, locks); Grows(r, a, b, locks);
    case _ =>
  }

  lemma {:induction false} CountGrows(keys: seq<Key>, a: set<Key>, b: set<Key>)
    requires forall i :: 0 <= i < |keys| && keys[i] in a ==> keys[i] in b
    ensures Occurs(keys, a) <= Occurs(keys, b)
  {
    if keys != [] { CountGrows(keys[1..], a, b); }
  }

  /** Each key counts once, so a set of signers counts no more than its size. */
  lemma {:induction false} CountBound(keys: seq<Key>, signers: set<Key>)
    requires forall i, j :: 0 <= i < j < |keys| ==> keys[i] != keys[j]
    ensures Occurs(keys, signers) <= |signers|
  {
    if keys != [] {
      var rest, others := keys[1..], signers - {keys[0]};
      CountBound(rest, others);
      assert forall i :: 0 <= i < |rest| ==> rest[i] == keys[i + 1];
      CountGrows(rest, signers, others);
      CountGrows(rest, others, signers);
    }
  }

  /** The satisfier answers exactly when the offered keys meet the policy, and uses offered keys. */
  lemma {:induction false} SatisfyIff(p: Policy, offers: Offers, rules: Rules)
    ensures Satisfy(p, offers, rules).Some? <==> Holds(p, offers.Keys, rules.locks)
    ensures Satisfy(p, offers, rules).Some? ==> Satisfy(p, offers, rules).value.used <= offers.Keys * KeysOf(p)
  {
    match p
    case Multi(n, keys) => ChosenOffered(keys, offers, n);
    case And(l, r) => SatisfyIff(l, offers, rules); SatisfyIff(r, offers, rules);
    case Or(l, r) => SatisfyIff(l, offers, rules); SatisfyIff(r, offers, rules);
    case _ =>
  }

  /** What the satisfier uses is enough, and nothing less of it is: in a policy without shared keys
      no proper subset of the used keys meets the policy. */
  lemma {:induction false} UsedIsMinimal(p: Policy, offers: Offers, rules: Rules, signers: set<Key>)
    requires NoSharedKey(p) && Satisfy(p, offers, rules).Some?
    requires signers <= Satisfy(p, offers, rules).value.used
    ensures Holds(p, signers, rules.locks) <==> signers == Satisfy(p, offers, rules).value.used
  {
    match p
    case Multi(n, keys) => MultiMinimal(n, keys, offers, rules, signers);
    case And(l, r) =>
      UsedIsMinimal(l, offers, rules, signers * Satisfy(l, offers, rules).value.used);
      UsedIsMinimal(r, offers, rules, signers * Satisfy(r, offers, rules).value.used);
      AndMinimal(l, r, offers, rules, signers);
    case Or(l, r) =>
      var a, b := Satisfy(l, offers, rules), Satisfy(r, offers, rules);
      if a.Some? {
        UsedIsMinimal(l, offers, rules, {});
        if signers <= a.value.used { UsedIsMinimal(l, offers, rules, signers); }
      }
      if b.Some? {
        UsedIsMinimal(r, offers, rules, {});
        if signers <= b.value.used { UsedIsMinimal(r, offers, rules, signers); }
      }
      OrMinimal(l, r, offers, rules, signers);
    case _ =>
  }

  lemma MultiMinimal(n: nat, keys: seq<Key>, offers: Offers, rules: Rules, signers: set<Key>)
    requires NoSharedKey(Multi(n, keys)) && Satisfy(Multi(n, keys), offers, rules).Some?
    requires signers <= Satisfy(Multi(n, keys), offers, rules).value.used
    ensures Holds(Multi(n, keys), signers, rules.locks) <==> signers == Satisfy(Multi(n, keys), offers, rules).value.used
  {
    var used := Satisfy(Multi(n, keys), offers, rules).value.used;
    ChosenOffered(keys, offers, n);
    var chosen := Multisig.FirstSigned(keys, InSet(offers.Keys), n);
    SetSize(chosen);
    CountBound(keys, signers);
    if signers != used { SmallerSubset(signers, used); }
    if signers == used { ChosenCount(keys, offers.Keys, n, used); }
  }

  lemma SmallerSubset(a: set<Key>, b: set<Key>)
    requires a <= b && a != b
    ensures |a| < |b|
  {
    var rest := b - a;
    assert b == a + rest && a !! rest && |b| == |a| + |rest|;
    var x :| x in b && x !in a;
    assert x in rest;
  }

  lemma SetCons(s: seq<Key>)
    requires s != []
    ensures SetOf(s) == {s[0]} + SetOf(s[1..])
    ensures (forall i :: 0 < i < |s| ==> s[0] != s[i]) ==> s[0] !in SetOf(s[1..])
  {
    forall k | k in SetOf(s) ensures k in {s[0]} + SetOf(s[1..]) {
      var i :| 0 <= i < |s| && s[i] == k;
      assert i > 0 ==> s[1..][i - 1] == k;
    }
    forall k | k in SetOf(s[1..]) ensures exists i :: 0 < i < |s| && s[i] == k {
      var i :| 0 <= i < |s[1..]| && s[1..][i] == k;
      assert s[i + 1] == k;
    }
  }

  lemma {:induction false} SetSize(s: seq<Key>)
    ensures |SetOf(s)| <= |s|
  {
    hide SetOf;
    if s == [] {
      assert SetOf([]) == {} by { NoKeys(); }
    } else {
      SetCons(s);
      SetSize(s[1..]);
      Subset(SetOf(s), SetOf(s[1..]) + {s[0]});
    }
  }

  lemma NoKeys()
    ensures SetOf([]) == {}
  {
  }

  lemma Subset(a: set<Key>, b: set<Key>)
    requires a <= b
    ensures |a| <= |b|
  {
    if a != b { SmallerSubset(a, b); }
  }

  /** The chosen keys alone still count `n`. */
  lemma {:induction false} ChosenCount(keys: seq<Key>, present: set<Key>, n: nat, used: set<Key>)
    requires forall k :: k in Multisig.FirstSigned(keys, InSet(present), n) ==> k in used
    requires |Multisig.FirstSigned(keys, InSet(present), n)| == n
    ensures Occurs(keys, used) >= n
  {
    if keys != [] && n > 0 {
      var first := InSet(present)(keys[0]);
      var rest := Multisig.FirstSigned(keys[1..], InSet(present), if first then n - 1 else n);
      assert first ==> Multisig.FirstSigned(keys, InSet(present), n) == [keys[0]] + rest;
      ChosenCount(keys[1..], present, if first then n - 1 else n, used);
      assert first ==> keys[0] in used by { if first { assert keys[0] in [keys[0]] + rest; } }
    }
  }

  lemma HoldsHere(p: Policy, signers: set<Key>, part: set<Key>, locks: Locks)
    requires signers * KeysOf(p) == part * KeysOf(p)
    ensures Holds(p, signers, locks) == Holds(p, part, locks)
  {
    Grows(p, signers, part, locks);
    Grows(p, part, signers, locks);
  }

  lemma AndMinimal(l: Policy, r: Policy, offers: Offers, rules: Rules, signers: set<Key>)
    requires NoSharedKey(And(l, r)) && Satisfy(And(l, r), offers, rules).Some?
    requires signers <= Satisfy(And(l, r), offers, rules).value.used
    requires MinimalAt(l, offers, rules, signers * Satisfy(l, offers, rules).value.used)
    requires MinimalAt(r, offers, rules, signers * Satisfy(r, offers, rules).value.used)
    ensures MinimalAt(And(l, r), offers, rules, signers)
  {
    var a, b := Satisfy(l, offers, rules).value.used, Satisfy(r, offers, rules).value.used;
    assert Satisfy(And(l, r), offers, rules).value.used == a + b;
    assert Holds(And(l, r), signers, rules.locks) <==> Holds(l, signers, rules.locks) && Holds(r, signers, rules.locks);
    hide Holds, Satisfy;
    SatisfyIff(l, offers, rules);
    SatisfyIff(r, offers, rules);
    HoldsHere(l, signers, signers * a, rules.locks);
    HoldsHere(r, signers, signers * b, rules.locks);
  }

  /** At these signers the policy holds exactly when they are all the used keys. */
  ghost predicate MinimalAt(p: Policy, offers: Offers, rules: Rules, signers: set<Key>) {
    Satisfy(p, offers, rules).Some? ==>
      (Holds(p, signers, rules.locks) <==> signers == Satisfy(p, offers, rules).value.used)
  }

  lemma OrMinimal(l: Policy, r: Policy, offers: Offers, rules: Rules, signers: set<Key>)
    requires NoSharedKey(Or(l, r)) && Satisfy(Or(l, r), offers, rules).Some?
    requires signers <= Satisfy(Or(l, r), offers, rules).value.used
    requires MinimalAt(l, offers, rules, {}) && MinimalAt(r, offers, rules, {})
    requires Satisfy(l, offers, rules).Some? && signers <= Satisfy(l, offers, rules).value.used ==>
               MinimalAt(l, offers, rules, signers)
    requires Satisfy(r, offers, rules).Some? && signers <= Satisfy(r, offers, rules).value.used ==>
               MinimalAt(r, offers, rules, signers)
    ensures MinimalAt(Or(l, r), offers, rules, signers)
  {
    var a, b := Satisfy(l, offers, rules), Satisfy(r, offers, rules);
    assert Satisfy(Or(l, r), offers, rules) == Choose(rules, a, b);
    assert Holds(Or(l, r), signers, rules.locks) <==> Holds(l, signers, rules.locks) || Holds(r, signers, rules.locks);
    hide Holds, Satisfy;
    SatisfyIff(l, offers, rules);
    SatisfyIff(r, offers, rules);
    if signers <= KeysOf(l) { HoldsHere(r, signers, {}, rules.locks); }
    if signers <= KeysOf(r) { HoldsHere(l, signers, {}, rules.locks); }
    Grows(l, {}, offers.Keys, rules.locks);
    Grows(r, {}, offers.Keys, rules.locks);
  }

  // ----- what was used is enough, and gives the same witness -----

  /** The used keys alone meet the policy, shared keys or not. */
  lemma {:induction false} UsedIsEnough(p: Policy, offers: Offers, rules: Rules)
    requires Satisfy(p, offers, rules).Some?
    ensures Holds(p, Satisfy(p, offers, rules).value.used, rules.locks)
  {
    var used := Satisfy(p, offers, rules).value.used;
    match p
    case Multi(n, keys) =>
      ChosenOffered(keys, offers, n);
      ChosenCount(keys, offers.Keys, n, used);
    case And(l, r) =>
      UsedIsEnough(l, offers, rules);
      UsedIsEnough(r, offers, rules);
      Grows(l, Satisfy(l, offers, rules).value.used, used, rules.locks);
      Grows(r, Satisfy(r, offers, rules).value.used, used, rules.locks);
    case Or(l, r) =>
      if Satisfy(l, offers, rules).Some? { UsedIsEnough(l, offers, rules); }
      if Satisfy(r, offers, rules).Some? { UsedIsEnough(r, offers, rules); }
    case _ =>
  }

  /** The same offers for the keys of a policy. */
  ghost predicate Agree(p: Policy, a: Offers, b: Offers) {
    forall k :: k in KeysOf(p) ==> (k in a <==> k in b) && (k in a && k in b ==> a[k] == b[k])
  }

  lemma {:induction false} FirstSignedSame(keys: seq<Key>, a: set<Key>, b: set<Key>, n: nat)
    requires forall k :: k in keys ==> (k in a <==> k in b)
    ensures Multisig.FirstSigned(keys, InSet(a), n) == Multisig.FirstSigned(keys, InSet(b), n)
  {
    if keys != [] && n > 0 {
      assert keys[0] in keys;
      FirstSignedSame(keys[1..], a, b, if keys[0] in a then n - 1 else n);
    }
  }

  /** The satisfier looks at the policy's own keys only. */
  lemma {:induction false} SatisfyLocal(p: Policy, a: Offers, b: Offers, rules: Rules)
    requires Agree(p, a, b)
    ensures Satisfy(p, a, rules) == Satisfy(p, b, rules)
  {
    match p
    case Multi(n, keys) =>
      FirstSignedSame(keys, a.Keys, b.Keys, n);
      ChosenOffered(keys, a, n);
      ChosenOffered(keys, b, n);
      var chosen := Multisig.FirstSigned(keys, InSet(a.Keys), n);
      assert PlaceholdersOf(a, chosen) == PlaceholdersOf(b, chosen);
    case And(l, r) => SatisfyLocal(l, a, b, rules); SatisfyLocal(r, a, b, rules);
    case Or(l, r) => SatisfyLocal(l, a, b, rules); SatisfyLocal(r, a, b, rules);
    case _ =>
  }

  /** Offered just the chosen keys, the same keys are chosen. */
  lemma {:induction false} ChosenAgain(keys: seq<Key>, present: set<Key>, used: set<Key>, n: nat)
    requires used <= present && |Multisig.FirstSigned(keys, InSet(present), n)| == n
    requires forall k :: k in Multisig.FirstSigned(keys, InSet(present), n) ==> k in used
    ensures Multisig.FirstSigned(keys, InSet(used), n) == Multisig.FirstSigned(keys, InSet(present), n)
  {
    if keys != [] && n > 0 {
      var first := InSet(present)(keys[0]);
      var rest := Multisig.FirstSigned(keys[1..], InSet(present), if first then n - 1 else n);
      assert first ==> Multisig.FirstSigned(keys, InSet(present), n) == [keys[0]] + rest;
      assert first ==> keys[0] in used by { if first { assert keys[0] in [keys[0]] + rest; } }
      ChosenAgain(keys[1..], present, used, if first then n - 1 else n);
    }
  }

  /** Offered just what it used, the satisfier of a policy without shared keys gives the same witness. */
  lemma {:induction false} SatisfyAgain(p: Policy, offers: Offers, rules: Rules)
    requires NoSharedKey(p) && Satisfy(p, offers, rules).Some?
    ensures Satisfy(p, Restrict(offers, Satisfy(p, offers, rules).value.used), rules) == Satisfy(p, offers, rules)
  {
    match p
    case Multi(n, keys) => MultiAgain(n, keys, offers, rules);
    case And(l, r) =>
      SatisfyAgain(l, offers, rules);
      SatisfyAgain(r, offers, rules);
      AndAgain(l, r, offers, rules);
    case Or(l, r) =>
      if Satisfy(l, offers, rules).Some? { SatisfyAgain(l, offers, rules); }
      if Satisfy(r, offers, rules).Some? { SatisfyAgain(r, offers, rules); }
      OrAgain(l, r, offers, rules);
    case _ =>
  }

  lemma MultiAgain(n: nat, keys: seq<Key>, offers: Offers, rules: Rules)
    requires Satisfy(Multi(n, keys), offers, rules).Some?
    ensures var s := Satisfy(Multi(n, keys), offers, rules);
            Satisfy(Multi(n, keys), Restrict(offers, s.value.used), rules) == s
  {
    ChosenOffered(keys, offers, n);
    var used := Satisfy(Multi(n, keys), offers, rules).value.used;
    var again := Restrict(offers, used);
    var chosen := Multisig.FirstSigned(keys, InSet(offers.Keys), n);
    assert again.Keys == used;
    ChosenAgain(keys, offers.Keys, used, n);
    ChosenOffered(keys, again, n);
    assert PlaceholdersOf(again, chosen) == PlaceholdersOf(offers, chosen);
  }

  lemma AndAgain(l: Policy, r: Policy, offers: Offers, rules: Rules)
    requires NoSharedKey(And(l, r)) && Satisfy(And(l, r), offers, rules).Some?
    requires Satisfy(l, Restrict(offers, Satisfy(l, offers, rules).value.used), rules) == Satisfy(l, offers, rules)
    requires Satisfy(r, Restrict(offers, Satisfy(r, offers, rules).value.used), rules) == Satisfy(r, offers, rules)
    ensures var s := Satisfy(And(l, r), offers, rules);
            Satisfy(And(l, r), Restrict(offers, s.value.used), rules) == s
  {
    var a, b := Satisfy(l, offers, rules).value.used, Satisfy(r, offers, rules).value.used;
    SatisfyIff(l, offers, rules);
    SatisfyIff(r, offers, rules);
    SatisfyLocal(l, Restrict(offers, a + b), Restrict(offers, a), rules);
    SatisfyLocal(r, Restrict(offers, a + b), Restrict(offers, b), rules);
  }

  /** A branch whose keys are not offered is met only by locks, and then it is taken without keys. */
  lemma EmptyBranch(p: Policy, offers: Offers, used: set<Key>, rules: Rules)
    requires NoSharedKey(p) && used !! KeysOf(p)
    ensures var again := Satisfy(p, Restrict(offers, used), rules);
            && (again.Some? ==> again.value.used == {})
            && (again.Some? ==> Satisfy(p, offers, rules).Some? && Satisfy(p, offers, rules).value.used == {})
  {
    var part := Restrict(offers, used);
    SatisfyIff(p, part, rules);
    SatisfyIff(p, offers, rules);
    if Satisfy(p, part, rules).Some? {
      HoldsHere(p, part.Keys, {}, rules.locks);
      Grows(p, {}, offers.Keys, rules.locks);
      UsedIsMinimal(p, offers, rules, {});
    }
  }

  lemma OrAgain(l: Policy, r: Policy, offers: Offers, rules: Rules)
    requires NoSharedKey(Or(l, r)) && Satisfy(Or(l, r), offers, rules).Some?
    requires Satisfy(l, offers, rules).Some? ==>
               Satisfy(l, Restrict(offers, Satisfy(l, offers, rules).value.used), rules) == Satisfy(l, offers, rules)
    requires Satisfy(r, offers, rules).Some? ==>
               Satisfy(r, Restrict(offers, Satisfy(r, offers, rules).value.used), rules) == Satisfy(r, offers, rules)
    ensures var s := Satisfy(Or(l, r), offers, rules);
            Satisfy(Or(l, r), Restrict(offers, s.value.used), rules) == s
  {
    var used := Satisfy(Or(l, r), offers, rules).value.used;
    var again := Restrict(offers, used);
    assert Satisfy(Or(l, r), offers, rules) == Choose(rules, Satisfy(l, offers, rules), Satisfy(r, offers, rules));
    assert Satisfy(Or(l, r), again, rules) == Choose(rules, Satisfy(l, again, rules), Satisfy(r, again, rules));
    hide Satisfy;
    SatisfyIff(l, offers, rules);
    SatisfyIff(r, offers, rules);
    if used <= KeysOf(l) { EmptyBranch(r, offers, used, rules); }
    if used <= KeysOf(r) { EmptyBranch(l, offers, used, rules); }
  }

  /** The satisfier that takes the smaller witness. */
  predicate Smaller(a: Satisfaction, b: Satisfaction) {
    WitnessSize(a.stack + [[1]]) <= WitnessSize(b.stack + [[]])
  }
}
