/** The finaliser and the retention check on policy scripts: a witness never holds legacy signatures
    that satisfy the script beside a unified one. */
module VaultWitness {
  import opened Wrappers
  import opened Bytes
  import opened UnifiedFinalize
  import opened Policy

  /** One input with a policy script. */
  function PolicyInput(p: Policy, rules: Rules, script: Element, isDer: seq<byte> -> bool): Input {
    Input(script,
          offers => match Satisfy(p, offers, rules) case None => None case Some(s) => Some(s.stack),
          isDer)
  }

  /** Signatures are DER encodings, different for different keys, and public keys are not. */
  ghost predicate Real(offers: Offers, rules: Rules) {
    && (forall k :: k in offers ==> |offers[k].der| > 8 && offers[k].der[0] == 0x30)
    && (forall j, k :: j in offers && k in offers && offers[j].der == offers[k].der ==> j == k)
    && (forall k :: k in offers ==> rules.keyBytes(k) != [] && rules.keyBytes(k)[0] != 0x30)
  }

  lemma TableIs(offers: Offers, rules: Rules)
    requires Real(offers, rules)
    ensures forall k :: k in offers ==>
              Placeholder(offers[k]) in FullTable(offers) && FullTable(offers)[Placeholder(offers[k])] == offers[k]
    ensures forall e :: e in FullTable(offers) ==> |e| > 9 && e[0] == 0x30
  {
    hide Ascending;
    AscendingFacts(offers.Keys);
    var table := FullTable(offers);
    forall k | k in offers ensures Placeholder(offers[k]) in table && table[Placeholder(offers[k])] == offers[k] {
      var e := Placeholder(offers[k]);
      var j :| j in Ascending(offers.Keys) && Placeholder(offers[j]) == e && offers[j] == table[e];
      SameDer(offers[j], offers[k]);
    }
  }

  lemma SameDer(a: Signature, b: Signature)
    requires Placeholder(a) == Placeholder(b)
    ensures a.der == b.der
  {
    assert a.der == Placeholder(a)[..|a.der|] && b.der == Placeholder(b)[..|b.der|];
  }

  // ----- stacks -----

  /** Neither a signature nor like one. */
  predicate Plain(e: Element) {
    e == [] || e[0] != 0x30
  }

  /** A satisfaction's stack: a placeholder of each used key, and plain elements. */
  lemma {:induction false} StackOf(p: Policy, offers: Offers, rules: Rules)
    requires Satisfy(p, offers, rules).Some? && Real(offers, rules)
    ensures var s := Satisfy(p, offers, rules).value;
            && (forall e :: e in s.stack ==> Plain(e) || exists k :: k in s.used && k in offers && e == Placeholder(offers[k]))
            && (forall k :: k in s.used ==> k in offers && Placeholder(offers[k]) in s.stack)
  {
    var s := Satisfy(p, offers, rules).value;
    match p
    case Multi(n, keys) => MultiStack(n, keys, offers, rules);
    case And(l, r) =>
      StackOf(l, offers, rules);
      StackOf(r, offers, rules);
    case Or(l, r) =>
      if Satisfy(l, offers, rules).Some? { StackOf(l, offers, rules); }
      if Satisfy(r, offers, rules).Some? { StackOf(r, offers, rules); }
    case _ =>
  }

  lemma MultiStack(n: nat, keys: seq<Key>, offers: Offers, rules: Rules)
    requires Satisfy(Multi(n, keys), offers, rules).Some?
    ensures var s := Satisfy(Multi(n, keys), offers, rules).value;
            && (forall e :: e in s.stack ==> Plain(e) || exists k :: k in s.used && k in offers && e == Placeholder(offers[k]))
            && (forall k :: k in s.used ==> k in offers && Placeholder(offers[k]) in s.stack)
  {
    hide Plain;
    ChosenOffered(keys, offers, n);
    var s := Satisfy(Multi(n, keys), offers, rules).value;
    var chosen := Multisig.FirstSigned(keys, InSet(offers.Keys), n);
    var placed := PlaceholdersOf(offers, chosen);
    assert s.stack == [[]] + placed && Plain([]) by { PlainEmpty(); }
    forall e | e in s.stack ensures Plain(e) || exists k :: k in s.used && k in offers && e == Placeholder(offers[k]) {
      if e in placed {
        var i :| 0 <= i < |placed| && placed[i] == e;
        assert chosen[i] in s.used && e == Placeholder(offers[chosen[i]]);
      }
    }
    forall k | k in s.used ensures k in offers && Placeholder(offers[k]) in s.stack {
      var i :| 0 <= i < |chosen| && chosen[i] == k;
      assert placed[i] in placed;
    }
  }

  lemma PlainEmpty()
    ensures Plain([])
  {
  }

  // ----- reports -----

  /** A used key's signature is of this kind. */
  ghost predicate UsesKind(offers: Offers, used: set<Key>, unified: bool) {
    exists k :: k in used && k in offers && offers[k].unified == unified
  }

  lemma {:induction false} TallyConcat(table: map<Element, Signature>, a: seq<Element>, b: seq<Element>, unified: bool)
    ensures Tally(table, a + b, unified) == Tally(table, a, unified) + Tally(table, b, unified)
  {
    if a == [] {
      assert a + b == b;
    } else {
      assert (a + b)[1..] == a[1..] + b;
      TallyConcat(table, a[1..], b, unified);
    }
  }

  /** If every element is a known placeholder or plain, substitution succeeds and counts each kind. */
  lemma Counted(input: Input, table: map<Element, Signature>, stack: seq<Element>)
    requires forall e :: e in stack ==> e in table || Plain(e)
    ensures Substitute(input, table, stack, Done([], Report(0, 0)))
         == Ok(Done(SwappedAll(table, stack), Report(Tally(table, stack, true), Tally(table, stack, false))))
  {
    hide Substitute, Tally;
    SubstituteIs(input, table, stack, Done([], Report(0, 0)));
    assert [] + SwappedAll(table, stack) == SwappedAll(table, stack);
    assert forall i :: 0 <= i < |stack| ==> stack[i] in stack;
  }

  /** The used keys of one kind. */
  ghost function KindOf(offers: Offers, used: set<Key>, unified: bool): set<Key> {
    set k | k in used && k in offers && offers[k].unified == unified
  }

  /** The table maps each placeholder to its own signature, and holds nothing plain. */
  ghost predicate Indexes(table: map<Element, Signature>, offers: Offers) {
    && (forall k :: k in offers ==> Placeholder(offers[k]) in table && table[Placeholder(offers[k])] == offers[k])
    && forall e :: e in table ==> !Plain(e)
  }

  lemma {:induction false} TallyChosen(table: map<Element, Signature>, offers: Offers, chosen: seq<Key>, unified: bool)
    requires Indexes(table, offers) && forall i :: 0 <= i < |chosen| ==> chosen[i] in offers
    requires forall i, j :: 0 <= i < j < |chosen| ==> chosen[i] != chosen[j]
    ensures Tally(table, PlaceholdersOf(offers, chosen), unified) == |KindOf(offers, SetOf(chosen), unified)|
  {
    hide Indexes, SetOf, KindOf, Placeholder;
    if chosen == [] {
      NoKeys();
      KindNone(offers, unified);
    } else {
      var rest := chosen[1..];
      assert PlaceholdersOf(offers, chosen)[1..] == PlaceholdersOf(offers, rest);
      TallyChosen(table, offers, rest, unified);
      SetCons(chosen);
      IndexedAt(table, offers, chosen[0]);
      KindCons(offers, chosen[0], SetOf(rest), unified);
    }
  }

  lemma KindNone(offers: Offers, unified: bool)
    ensures KindOf(offers, {}, unified) == {}
  {
  }

  lemma KindCons(offers: Offers, k: Key, others: set<Key>, unified: bool)
    requires k in offers && k !in others
    ensures |KindOf(offers, {k} + others, unified)|
         == (if offers[k].unified == unified then 1 else 0) + |KindOf(offers, others, unified)|
  {
    var one := if offers[k].unified == unified then {k} else {};
    var rest := KindOf(offers, others, unified);
    assert KindOf(offers, {k} + others, unified) == one + rest && one !! rest;
  }

  lemma IndexedAt(table: map<Element, Signature>, offers: Offers, k: Key)
    requires Indexes(table, offers) && k in offers
    ensures Placeholder(offers[k]) in table && table[Placeholder(offers[k])] == offers[k]
  {
  }

  /** Without shared keys the elements of a kind are as many as the used keys of it. */
  lemma {:induction false} TallyIsUsed(p: Policy, offers: Offers, rules: Rules, table: map<Element, Signature>,
                                       unified: bool)
    requires NoSharedKey(p) && Satisfy(p, offers, rules).Some? && Real(offers, rules) && Indexes(table, offers)
    ensures Tally(table, Satisfy(p, offers, rules).value.stack, unified)
         == |KindOf(offers, Satisfy(p, offers, rules).value.used, unified)|
  {
    var s := Satisfy(p, offers, rules).value;
    match p
    case Pk(k) => OneUsed(table, offers, k, [], unified);
    case Pkh(k) => OneUsed(table, offers, k, [rules.keyBytes(k)], unified);
    case Multi(n, keys) => TallyMulti(n, keys, offers, rules, table, unified);
    case And(l, r) =>
      TallyIsUsed(l, offers, rules, table, unified);
      TallyIsUsed(r, offers, rules, table, unified);
      TallyAnd(l, r, offers, rules, table, unified);
    case Or(l, r) =>
      if Satisfy(l, offers, rules).Some? {
        TallyIsUsed(l, offers, rules, table, unified);
        PlainLast(table, offers, Satisfy(l, offers, rules).value.stack, [1], unified);
      }
      if Satisfy(r, offers, rules).Some? {
        TallyIsUsed(r, offers, rules, table, unified);
        PlainLast(table, offers, Satisfy(r, offers, rules).value.stack, [], unified);
      }
    case _ => assert KindOf(offers, {}, unified) == {};
  }

  lemma OneUsed(table: map<Element, Signature>, offers: Offers, k: Key, after: seq<Element>, unified: bool)
    requires Indexes(table, offers) && k in offers && |after| <= 1 && forall e :: e in after ==> Plain(e)
    ensures Tally(table, [Placeholder(offers[k])] + after, unified) == |KindOf(offers, {k}, unified)|
  {
    var stack := [Placeholder(offers[k])] + after;
    assert stack[1..] == after && (after != [] ==> after[1..] == [] && after[0] in after);
    assert KindOf(offers, {k}, unified) == if offers[k].unified == unified then {k} else {};
  }

  lemma PlainLast(table: map<Element, Signature>, offers: Offers, stack: seq<Element>, e: Element, unified: bool)
    requires Indexes(table, offers) && Plain(e)
    ensures Tally(table, stack + [e], unified) == Tally(table, stack, unified)
  {
    TallyConcat(table, stack, [e], unified);
  }

  lemma TallyAnd(l: Policy, r: Policy, offers: Offers, rules: Rules, table: map<Element, Signature>, unified: bool)
    requires NoSharedKey(And(l, r)) && Satisfy(And(l, r), offers, rules).Some?
    requires Tally(table, Satisfy(l, offers, rules).value.stack, unified)
          == |KindOf(offers, Satisfy(l, offers, rules).value.used, unified)|
    requires Tally(table, Satisfy(r, offers, rules).value.stack, unified)
          == |KindOf(offers, Satisfy(r, offers, rules).value.used, unified)|
    ensures var s := Satisfy(And(l, r), offers, rules).value;
            Tally(table, s.stack, unified) == |KindOf(offers, s.used, unified)|
  {
    var a, b := Satisfy(l, offers, rules).value, Satisfy(r, offers, rules).value;
    SatisfyIff(l, offers, rules);
    SatisfyIff(r, offers, rules);
    assert Satisfy(And(l, r), offers, rules).value == Satisfaction(b.stack + a.stack, a.used + b.used);
    hide Satisfy, Tally;
    TallyConcat(table, b.stack, a.stack, unified);
    KindUnion(offers, a.used, b.used, unified);
  }

  lemma KindUnion(offers: Offers, a: set<Key>, b: set<Key>, unified: bool)
    requires a !! b
    ensures |KindOf(offers, a + b, unified)| == |KindOf(offers, a, unified)| + |KindOf(offers, b, unified)|
  {
    var x, y := KindOf(offers, a, unified), KindOf(offers, b, unified);
    assert KindOf(offers, a + b, unified) == x + y && x !! y;
  }

  lemma TallyMulti(n: nat, keys: seq<Key>, offers: Offers, rules: Rules, table: map<Element, Signature>, unified: bool)
    requires NoSharedKey(Multi(n, keys)) && Satisfy(Multi(n, keys), offers, rules).Some? && Indexes(table, offers)
    ensures var s := Satisfy(Multi(n, keys), offers, rules).value;
            Tally(table, s.stack, unified) == |KindOf(offers, s.used, unified)|
  {
    hide Indexes;
    ChosenOffered(keys, offers, n);
    var chosen := Multisig.FirstSigned(keys, InSet(offers.Keys), n);
    var places := Multisig.FirstSignedPlaces(keys, InSet(offers.Keys), n);
    TallyChosen(table, offers, chosen, unified);
    var s := Satisfy(Multi(n, keys), offers, rules).value;
    assert s.stack[0] == [] && s.stack[1..] == PlaceholdersOf(offers, chosen);
    assert [] !in table by { NothingPlain(table, offers); }
  }

  lemma NothingPlain(table: map<Element, Signature>, offers: Offers)
    requires Indexes(table, offers)
    ensures [] !in table
  {
    PlainEmpty();
  }

  /** A policy's witness: its satisfaction with every placeholder swapped, and the script. */
  lemma PolicyWitness(p: Policy, rules: Rules, script: Element, isDer: seq<byte> -> bool, offers: Offers)
    requires Real(offers, rules)
    ensures SatisfyInput(PolicyInput(p, rules, script, isDer), offers) ==
              match Satisfy(p, offers, rules)
              case None => Err(Unsatisfiable)
              case Some(s) =>
                var table := FullTable(offers);
                Ok(Done(SwappedAll(table, s.stack) + [script],
                        Report(Tally(table, s.stack, true), Tally(table, s.stack, false))))
  {
    hide Satisfy, Substitute, Table, Ascending, Real, Tally, SwappedAll;
    if Satisfy(p, offers, rules).Some? {
      StackKnown(p, offers, rules);
      Counted(PolicyInput(p, rules, script, isDer), FullTable(offers), Satisfy(p, offers, rules).value.stack);
    }
  }

  /** The finaliser's view of a policy: it satisfies exactly when the offered keys meet the policy. It
      reports a kind of signature exactly when a used key has it and, without shared keys, as many as
      used keys have it. */
  lemma PolicyReport(p: Policy, rules: Rules, script: Element, isDer: seq<byte> -> bool, offers: Offers)
    requires Real(offers, rules)
    ensures var r := SatisfyInput(PolicyInput(p, rules, script, isDer), offers);
            && (r.Ok? <==> Holds(p, offers.Keys, rules.locks)) && (r.Err? ==> r.error == Unsatisfiable)
            && (r.Ok? ==>
                  && Satisfy(p, offers, rules).Some?
                  && var used := Satisfy(p, offers, rules).value.used;
                  && used <= offers.Keys
                  && (r.value.report.unifiedUsed > 0 <==> UsesKind(offers, used, true))
                  && (r.value.report.legacyUsed > 0 <==> UsesKind(offers, used, false))
                  && (NoSharedKey(p) ==>
                        r.value.report == Report(|KindOf(offers, used, true)|, |KindOf(offers, used, false)|)))
  {
    hide Satisfy, Substitute, Holds, Real, SatisfyInput, PolicyInput, FullTable, Placeholder, Plain, Tally, UsesKind,
         KindOf, NoSharedKey, Indexes;
    PolicyWitness(p, rules, script, isDer, offers);
    SatisfyIff(p, offers, rules);
    if Satisfy(p, offers, rules).Some? {
      var s, table := Satisfy(p, offers, rules).value, FullTable(offers);
      TableIndexes(offers, rules);
      SameKinds(p, offers, rules, true);
      SameKinds(p, offers, rules, false);
      if NoSharedKey(p) {
        TallyIsUsed(p, offers, rules, table, true);
        TallyIsUsed(p, offers, rules, table, false);
      }
    }
  }

  lemma TableIndexes(offers: Offers, rules: Rules)
    requires Real(offers, rules)
    ensures Indexes(FullTable(offers), offers)
  {
    hide FullTable, Real;
    TableIs(offers, rules);
  }

  /** Every element of a satisfaction is known or plain. */
  lemma StackKnown(p: Policy, offers: Offers, rules: Rules)
    requires Real(offers, rules) && Satisfy(p, offers, rules).Some?
    ensures forall e :: e in Satisfy(p, offers, rules).value.stack ==> e in FullTable(offers) || Plain(e)
  {
    hide FullTable, Real, Satisfy, Plain, Placeholder;
    var s := Satisfy(p, offers, rules).value;
    TableIs(offers, rules);
    StackOf(p, offers, rules);
    forall e | e in s.stack ensures e in FullTable(offers) || Plain(e) {
      if !Plain(e) { var k :| k in s.used && k in offers && e == Placeholder(offers[k]); }
    }
  }

  lemma SameKinds(p: Policy, offers: Offers, rules: Rules, kind: bool)
    requires Real(offers, rules) && Satisfy(p, offers, rules).Some?
    ensures var s := Satisfy(p, offers, rules).value;
            Tally(FullTable(offers), s.stack, kind) > 0 <==> UsesKind(offers, s.used, kind)
  {
    hide FullTable, Real, Satisfy, Tally, Placeholder;
    var s, table := Satisfy(p, offers, rules).value, FullTable(offers);
    TableIs(offers, rules);
    StackOf(p, offers, rules);
    TallyPositive(table, s.stack, kind);
    if exists e :: e in s.stack && e in table && table[e].unified == kind {
      var e :| e in s.stack && e in table && table[e].unified == kind;
      var k :| k in s.used && k in offers && e == Placeholder(offers[k]);
      assert offers[k].unified == kind;
    }
    if UsesKind(offers, s.used, kind) {
      var k :| k in s.used && k in offers && offers[k].unified == kind;
      assert Placeholder(offers[k]) in s.stack;
    }
  }

  // ----- the two theorems -----

  /** A script that no locks alone satisfy needs a signature. */
  lemma PolicyNeedsSignature(p: Policy, rules: Rules, script: Element, isDer: seq<byte> -> bool, unified: Offers)
    requires Real(unified, rules) && !Holds(p, {}, rules.locks)
    ensures NeedsSignature(PolicyInput(p, rules, script, isDer), unified)
  {
    hide SatisfyInput, Real, Satisfy, Holds, PolicyInput, KindOf;
    PolicyReport(p, rules, script, isDer, unified);
    if SatisfyInput(PolicyInput(p, rules, script, isDer), unified).Ok? {
      var used := Satisfy(p, unified, rules).value.used;
      UsedIsEnough(p, unified, rules);
      assert used != {};
      var k :| k in used;
      assert UsesKind(unified, used, unified[k].unified);
    }
  }

  /** So on a policy script that locks alone do not meet, a usable unified signature is never dropped,
      shared keys or not. */
  lemma PolicyNeverDropped(p: Policy, rules: Rules, script: Element, isDer: seq<byte> -> bool, unified: Offers,
                           legacy: Offers)
    requires Real(unified, rules) && Verified(unified, legacy) && !Holds(p, {}, rules.locks)
    requires FinalizeInput(PolicyInput(p, rules, script, isDer), unified, legacy).Ok?
    ensures var input := PolicyInput(p, rules, script, isDer);
            FinalizeInput(input, unified, legacy).value.report.unifiedUsed > 0 <==> Usable(input, unified, legacy)
  {
    hide SatisfyInput, Real, Satisfy, Holds, PolicyInput, FinalizeInput, Usable, NeedsSignature;
    PolicyNeedsSignature(p, rules, script, isDer, unified);
    NeverDropped(PolicyInput(p, rules, script, isDer), unified, legacy);
  }

  /** The signatures of one kind. */
  function OfKind(offers: Offers, unified: bool): Offers {
    map k | k in offers && offers[k].unified == unified :: offers[k]
  }

  lemma RealPart(offers: Offers, rules: Rules, part: Offers)
    requires Real(offers, rules) && part.Keys <= offers.Keys && forall k :: k in part ==> part[k] == offers[k]
    ensures Real(part, rules)
  {
  }

  /** A witness built again from just the keys it used uses them all. */
  lemma UsesAllAgain(p: Policy, rules: Rules, offers: Offers)
    requires NoSharedKey(p) && Satisfy(p, offers, rules).Some?
    ensures var used := Satisfy(p, offers, rules).value.used;
            && Restrict(offers, used).Keys == used
            && Satisfy(p, Restrict(offers, used), rules).Some?
            && Satisfy(p, Restrict(offers, used), rules).value.used == used
  {
    hide Satisfy, Holds;
    var used := Satisfy(p, offers, rules).value.used;
    var again := Restrict(offers, used);
    SatisfyIff(p, offers, rules);
    assert again.Keys == used;
    UsedIsMinimal(p, offers, rules, used);
    SatisfyIff(p, again, rules);
    var rest := Satisfy(p, again, rules).value.used;
    UsedIsMinimal(p, again, rules, rest);
    UsedIsMinimal(p, offers, rules, rest);
  }

  /** The k-1 invariant: take any witness of a policy without shared keys and recover its signatures.
      If one is unified, the legacy ones beside it cannot satisfy the script alone. */
  lemma LegacyPartUnsatisfiable(p: Policy, rules: Rules, script: Element, isDer: seq<byte> -> bool, offers: Offers)
    requires NoSharedKey(p) && Real(offers, rules) && Satisfy(p, offers, rules).Some?
    requires UsesKind(offers, Satisfy(p, offers, rules).value.used, true)
    ensures SatisfyInput(PolicyInput(p, rules, script, isDer),
                         OfKind(Restrict(offers, Satisfy(p, offers, rules).value.used), false)) == Err(Unsatisfiable)
  {
    hide Satisfy, Holds, SatisfyInput, Real;
    var used := Satisfy(p, offers, rules).value.used;
    var legacy := OfKind(Restrict(offers, used), false);
    RealPart(offers, rules, legacy);
    PolicyReport(p, rules, script, isDer, legacy);
    UsedIsMinimal(p, offers, rules, legacy.Keys);
    var k :| k in used && k in offers && offers[k].unified;
    assert k !in legacy;
  }

  /** So the retention check accepts every recovered witness. */
  lemma RetentionAccepts(p: Policy, rules: Rules, script: Element, isDer: seq<byte> -> bool, offers: Offers)
    requires NoSharedKey(p) && Real(offers, rules) && Satisfy(p, offers, rules).Some?
    ensures var recovered := Restrict(offers, Satisfy(p, offers, rules).value.used);
            Retention(PolicyInput(p, rules, script, isDer), OfKind(recovered, true), OfKind(recovered, false)) == Ok(())
  {
    hide Satisfy, Holds, SatisfyInput, Real, Best, PolicyInput;
    var input := PolicyInput(p, rules, script, isDer);
    var used := Satisfy(p, offers, rules).value.used;
    var recovered := Restrict(offers, used);
    var unified, legacy := OfKind(recovered, true), OfKind(recovered, false);
    SatisfyIff(p, offers, rules);
    if unified != map[] && legacy != map[] {
      assert unified + legacy == recovered;
      var k :| k in unified;
      assert UsesKind(offers, used, true);
      LegacyPartUnsatisfiable(p, rules, script, isDer, offers);
      UnifiedPartUnsatisfiable(p, rules, script, isDer, offers, unified, legacy);
      UsesAllAgain(p, rules, offers);
      RealPart(offers, rules, recovered);
      PolicyReport(p, rules, script, isDer, recovered);
      assert UsesKind(recovered, used, true);
    }
  }

  lemma UnifiedPartUnsatisfiable(p: Policy, rules: Rules, script: Element, isDer: seq<byte> -> bool, offers: Offers,
                                 unified: Offers, legacy: Offers)
    requires NoSharedKey(p) && Real(offers, rules) && Satisfy(p, offers, rules).Some?
    requires var recovered := Restrict(offers, Satisfy(p, offers, rules).value.used);
             unified == OfKind(recovered, true) && legacy == OfKind(recovered, false) && legacy != map[]
    ensures SatisfyInput(PolicyInput(p, rules, script, isDer), unified) == Err(Unsatisfiable)
  {
    hide Satisfy, Holds, SatisfyInput, Real;
    RealPart(offers, rules, unified);
    PolicyReport(p, rules, script, isDer, unified);
    UsedIsMinimal(p, offers, rules, unified.Keys);
    var k :| k in legacy;
    assert k !in unified;
  }

  // ----- finalising a recovered witness again -----

  /** What replaces and counts the elements of a stack is the table at those elements. */
  lemma {:induction false} SameTally(t: map<Element, Signature>, u: map<Element, Signature>, stack: seq<Element>,
                                     unified: bool)
    requires forall e :: e in stack ==> (e in t <==> e in u) && (e in t && e in u ==> t[e] == u[e])
    ensures Tally(t, stack, unified) == Tally(u, stack, unified)
  {
    if stack != [] {
      assert stack == [stack[0]] + stack[1..];
      SameTally(t, u, stack[1..], unified);
    }
  }

  /** An input offered just what its witness used gets the same witness and report. */
  lemma SatisfiedAgain(p: Policy, rules: Rules, script: Element, isDer: seq<byte> -> bool, offers: Offers)
    requires NoSharedKey(p) && Real(offers, rules) && Satisfy(p, offers, rules).Some?
    ensures var input := PolicyInput(p, rules, script, isDer);
            SatisfyInput(input, Restrict(offers, Satisfy(p, offers, rules).value.used)) == SatisfyInput(input, offers)
  {
    hide Satisfy, SatisfyInput, Real, FullTable, Placeholder, Plain, Tally;
    var s := Satisfy(p, offers, rules).value;
    var again := Restrict(offers, s.used);
    SatisfyAgain(p, offers, rules);
    SatisfyIff(p, offers, rules);
    RealPart(offers, rules, again);
    TableIs(offers, rules);
    TableIs(again, rules);
    StackOf(p, offers, rules);
    var t, u := FullTable(again), FullTable(offers);
    forall e | e in s.stack ensures (e in t <==> e in u) && (e in t && e in u ==> t[e] == u[e]) {
      if Plain(e) {
        PlainUnknown(e, again, rules);
        PlainUnknown(e, offers, rules);
      } else {
        var k :| k in s.used && k in offers && e == Placeholder(offers[k]);
        assert k in again && again[k] == offers[k];
      }
    }
    SameTally(t, u, s.stack, true);
    SameTally(t, u, s.stack, false);
    PolicyWitness(p, rules, script, isDer, offers);
    PolicyWitness(p, rules, script, isDer, again);
    assert SwappedAll(t, s.stack) == SwappedAll(u, s.stack);
  }

  lemma PlainUnknown(e: Element, offers: Offers, rules: Rules)
    requires Plain(e) && Real(offers, rules)
    ensures e !in FullTable(offers)
  {
    hide FullTable, Real;
    TableIs(offers, rules);
  }

  /** Whatever the finaliser returns is a satisfaction of some of the offered signatures. */
  lemma FinalizedOffers(input: Input, unified: Offers, legacy: Offers) returns (offers: Offers)
    requires unified.Keys !! legacy.Keys && FinalizeInput(input, unified, legacy).Ok?
    ensures offers.Keys <= (unified + legacy).Keys && forall k :: k in offers ==> offers[k] == (unified + legacy)[k]
    ensures SatisfyInput(input, offers) == FinalizeInput(input, unified, legacy)
  {
    hide SatisfyInput, Best, OfferedBy, Pow2;
    var first, all := SatisfyInput(input, unified), SatisfyInput(input, unified + legacy);
    if first.Ok? {
      offers := unified;
    } else {
      offers := unified + legacy;
      var best := Best(input, unified, legacy, Pow2(|legacy|));
      if unified != map[] && all.value.report.unifiedUsed == 0 && best.Some? {
        offers := BestOffers(input, unified, legacy, Pow2(|legacy|));
      }
    }
  }

  lemma BestOffers(input: Input, unified: Offers, legacy: Offers, n: nat) returns (offers: Offers)
    requires unified.Keys !! legacy.Keys && Best(input, unified, legacy, n).Some?
    ensures offers.Keys <= (unified + legacy).Keys && forall k :: k in offers ==> offers[k] == (unified + legacy)[k]
    ensures SatisfyInput(input, offers) == Ok(Best(input, unified, legacy, n).value)
  {
    hide SatisfyInput, Best, Masked, Ascending, UsesUnified, Beats;
    BestIsBest(input, unified, legacy, n);
    var m: nat :| m < n && FirstBest(input, unified, legacy, m, Best(input, unified, legacy, n).value);
    offers := OfferedBy(unified, legacy, m);
  }

  /** Finalising just the signatures a witness used returns that witness: the comparison with the
      recovered transaction never refuses it. */
  lemma RecoveredAgain(p: Policy, rules: Rules, script: Element, isDer: seq<byte> -> bool, offers: Offers)
    requires NoSharedKey(p) && Real(offers, rules) && Satisfy(p, offers, rules).Some?
    ensures var recovered := Restrict(offers, Satisfy(p, offers, rules).value.used);
            var input := PolicyInput(p, rules, script, isDer);
            && SatisfyInput(input, offers).Ok?
            && FinalizeInput(input, OfKind(recovered, true), OfKind(recovered, false)) == SatisfyInput(input, offers)
  {
    hide Satisfy, Holds, SatisfyInput, Real, Best, PolicyInput, KindOf, UsesKind;
    var input := PolicyInput(p, rules, script, isDer);
    var used := Satisfy(p, offers, rules).value.used;
    var recovered := Restrict(offers, used);
    var unified, legacy := OfKind(recovered, true), OfKind(recovered, false);
    SatisfyIff(p, offers, rules);
    PolicyReport(p, rules, script, isDer, offers);
    SatisfiedAgain(p, rules, script, isDer, offers);
    assert unified + legacy == recovered;
    if legacy == map[] {
      assert unified == recovered;
    } else {
      UnifiedPartUnsatisfiable(p, rules, script, isDer, offers, unified, legacy);
      if unified != map[] { UsedUnified(offers, used, unified); }
    }
  }

  lemma UsedUnified(offers: Offers, used: set<Key>, unified: Offers)
    requires unified == OfKind(Restrict(offers, used), true) && unified != map[]
    ensures UsesKind(offers, used, true)
  {
    var k :| k in unified;
  }

  /** For every witness the finaliser builds: it is a satisfaction of some offered signatures, and
      finalising the ones it used gives the same witness and report again. */
  lemma FinalizedAgain(p: Policy, rules: Rules, script: Element, isDer: seq<byte> -> bool, unified: Offers,
                       legacy: Offers) returns (recovered: Offers)
    requires NoSharedKey(p) && Real(unified + legacy, rules) && unified.Keys !! legacy.Keys
    requires FinalizeInput(PolicyInput(p, rules, script, isDer), unified, legacy).Ok?
    ensures recovered.Keys <= (unified + legacy).Keys && forall k :: k in recovered ==> recovered[k] == (unified + legacy)[k]
    ensures var input := PolicyInput(p, rules, script, isDer);
            var done := FinalizeInput(input, unified, legacy);
            && FinalizeInput(input, OfKind(recovered, true), OfKind(recovered, false)) == done
            && (forall k :: k in recovered ==> recovered[k].witnessBytes in done.value.stack)
  {
    hide Satisfy, Holds, SatisfyInput, Real, FinalizeInput, PolicyInput, KindOf, UsesKind, OfKind;
    var input := PolicyInput(p, rules, script, isDer);
    var offers := FinalizedOffers(input, unified, legacy);
    RealPart(unified + legacy, rules, offers);
    PolicyReport(p, rules, script, isDer, offers);
    recovered := Restrict(offers, Satisfy(p, offers, rules).value.used);
    RecoveredAgain(p, rules, script, isDer, offers);
    WitnessHolds(p, rules, script, isDer, offers);
  }

  /** The bytes of every used signature are in the witness. */
  lemma WitnessHolds(p: Policy, rules: Rules, script: Element, isDer: seq<byte> -> bool, offers: Offers)
    requires Real(offers, rules) && Satisfy(p, offers, rules).Some?
    requires SatisfyInput(PolicyInput(p, rules, script, isDer), offers).Ok?
    ensures var stack := SatisfyInput(PolicyInput(p, rules, script, isDer), offers).value.stack;
            forall k :: k in Satisfy(p, offers, rules).value.used ==> k in offers && offers[k].witnessBytes in stack
  {
    hide Satisfy, SatisfyInput, Real, FullTable, Placeholder, Tally;
    var s, table := Satisfy(p, offers, rules).value, FullTable(offers);
    PolicyWitness(p, rules, script, isDer, offers);
    TableIs(offers, rules);
    StackOf(p, offers, rules);
    var swapped := SwappedAll(table, s.stack);
    forall k | k in s.used ensures offers[k].witnessBytes in swapped + [script] {
      var i :| 0 <= i < |s.stack| && s.stack[i] == Placeholder(offers[k]);
      assert swapped[i] == offers[k].witnessBytes;
    }
  }
}
