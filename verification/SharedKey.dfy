/** What goes wrong when spending paths share keys: a witness whose legacy signatures satisfy the script
    without the unified one beside them. */
module SharedKey {
  import opened Wrappers
  import opened Bytes
  import opened Transactions
  import opened UnifiedFinalize
  import opened Policy
  import opened VaultWitness

  /** Four-of-four, or the first three of the same keys by their hashes. */
  const SHARED: Policy := Or(Multi(4, [0, 1, 2, 3]), And(Pkh(0), And(Pkh(1), Pkh(2))))

  /** Realistic signatures by the four keys, of which the last is unified. */
  ghost predicate FourSigned(offers: Offers, rules: Rules) {
    && offers.Keys == {0, 1, 2, 3} && Real(offers, rules)
    && (forall k :: k in offers ==> 69 <= |offers[k].der| <= 72 && |rules.keyBytes(k)| == 33)
    && forall k :: k in offers ==> (offers[k].unified <==> k == 3)
  }

  lemma {:induction false} ItemsConcat(a: seq<Element>, b: seq<Element>)
    ensures ItemsSize(a + b) == ItemsSize(a) + ItemsSize(b)
  {
    hide VarBytes;
    if a == [] {
      assert a + b == b;
    } else {
      assert (a + b)[1..] == a[1..] + b;
      ItemsConcat(a[1..], b);
    }
  }

  lemma OneItem(e: Element)
    requires |e| < 0xfd
    ensures ItemsSize([e]) == 1 + |e|
  {
    assert ItemsSize([]) == 0 && [e][1..] == [];
  }

  lemma {:induction false} ItemsAtMost(s: seq<Element>, bound: nat)
    requires bound < 0xfd && forall i :: 0 <= i < |s| ==> |s[i]| <= bound
    ensures ItemsSize(s) <= |s| * (1 + bound)
  {
    if s != [] {
      ItemsAtMost(s[1..], bound);
      assert |s| * (1 + bound) == (1 + bound) + |s[1..]| * (1 + bound);
    }
  }

  lemma LeftPath(offers: Offers, rules: Rules)
    requires FourSigned(offers, rules)
    ensures var s := Satisfy(Multi(4, [0, 1, 2, 3]), offers, rules);
            s.Some? && s.value.used == {0, 1, 2, 3} && WitnessSize(s.value.stack + [[1]]) <= 300
  {
    hide VarBytes, ItemsSize, Real, Placeholder, Satisfy, WitnessSize, SetOf;
    var keys := [0, 1, 2, 3];
    AllFour(offers, rules, keys);
    var p := PlaceholdersOf(offers, keys);
    LeftSize(offers, rules, p);
    assert [[]] + p + [[1]] == [[]] + (p + [[1]]);
  }

  lemma AllFour(offers: Offers, rules: Rules, keys: seq<Key>)
    requires keys == [0, 1, 2, 3] && offers.Keys == {0, 1, 2, 3}
    ensures Satisfy(Multi(4, keys), offers, rules) == Some(Satisfaction([[]] + PlaceholdersOf(offers, keys), {0, 1, 2, 3}))
  {
    hide Placeholder;
    FirstFour(keys, offers.Keys);
    assert SetOf(keys) == {keys[0], keys[1], keys[2], keys[3]};
  }

  lemma LeftSize(offers: Offers, rules: Rules, p: seq<Element>)
    requires FourSigned(offers, rules) && |p| == 4
    requires forall i :: 0 <= i < 4 ==> i in offers && p[i] == Placeholder(offers[i])
    ensures WitnessSize([[]] + (p + [[1]])) <= 300
  {
    hide VarBytes, ItemsSize, Real;
    ItemsConcat([[]], p + [[1]]);
    ItemsConcat(p, [[1]]);
    OneItem([]);
    OneItem([1]);
    ItemsAtMost(p, 73);
  }

  lemma FirstFour(keys: seq<Key>, present: set<Key>)
    requires keys == [0, 1, 2, 3] && present == {0, 1, 2, 3}
    ensures Multisig.FirstSigned(keys, InSet(present), 4) == keys
  {
    assert keys[1..] == [1, 2, 3] && [1, 2, 3][1..] == [2, 3] && [2, 3][1..] == [3];
    assert Multisig.FirstSigned([3], InSet(present), 1) == [3];
    assert Multisig.FirstSigned([2, 3], InSet(present), 2) == [2, 3];
    assert Multisig.FirstSigned([1, 2, 3], InSet(present), 3) == [1, 2, 3];
  }

  lemma RightPath(offers: Offers, rules: Rules)
    requires FourSigned(offers, rules)
    ensures var s := Satisfy(And(Pkh(0), And(Pkh(1), Pkh(2))), offers, rules);
            s.Some? && s.value.used == {0, 1, 2} && WitnessSize(s.value.stack + [[]]) > 300
  {
    hide VarBytes, ItemsSize, Real, Placeholder, Satisfy, HashPath, WitnessSize;
    var a, b, c := HashPath(offers, 0, rules), HashPath(offers, 1, rules), HashPath(offers, 2, rules);
    HashPathIs(offers, 0, rules);
    HashPathIs(offers, 1, rules);
    HashPathIs(offers, 2, rules);
    RightIs(offers, rules);
    var s := Satisfy(And(Pkh(0), And(Pkh(1), Pkh(2))), offers, rules);
    assert s == Some(Satisfaction(c + b + a, {0} + ({1} + {2})));
    assert c + b + a + [[]] == c + (b + (a + [[]]));
    ItemsConcat(c, b + (a + [[]]));
    ItemsConcat(b, a + [[]]);
    ItemsConcat(a, [[]]);
    OneItem([]);
    SizeOf(c + b + a + [[]]);
    HashPathSize(offers, 0, rules);
    HashPathSize(offers, 1, rules);
    HashPathSize(offers, 2, rules);
  }

  lemma SizeOf(stack: seq<Element>)
    ensures WitnessSize(stack) > ItemsSize(stack)
  {
    hide ItemsSize;
  }

  lemma RightIs(offers: Offers, rules: Rules)
    ensures Satisfy(And(Pkh(0), And(Pkh(1), Pkh(2))), offers, rules) ==
              Join(Satisfy(Pkh(0), offers, rules), Join(Satisfy(Pkh(1), offers, rules), Satisfy(Pkh(2), offers, rules)))
  {
    hide Join, Placeholder;
    assert Satisfy(And(Pkh(1), Pkh(2)), offers, rules)
        == Join(Satisfy(Pkh(1), offers, rules), Satisfy(Pkh(2), offers, rules));
  }

  lemma HashPathIs(offers: Offers, k: Key, rules: Rules)
    requires k in offers
    ensures Satisfy(Pkh(k), offers, rules) == Some(Satisfaction(HashPath(offers, k, rules), {k}))
  {
  }

  function HashPath(offers: Offers, k: Key, rules: Rules): seq<Element>
    requires k in offers
  {
    [Placeholder(offers[k]), rules.keyBytes(k)]
  }

  lemma HashPathSize(offers: Offers, k: Key, rules: Rules)
    requires FourSigned(offers, rules) && k in offers
    ensures ItemsSize(HashPath(offers, k, rules)) >= 105
  {
    hide VarBytes, ItemsSize, Real;
    var x, y := Placeholder(offers[k]), rules.keyBytes(k);
    assert HashPath(offers, k, rules) == [x] + [y];
    ItemsConcat([x], [y]);
    OneItem(x);
    OneItem(y);
  }

  /** With keys shared across paths the invariant breaks, also for the satisfier that takes the smaller
      witness: the finaliser keeps the unified signature beside three legacy ones, and those satisfy
      the other path, so the retention check refuses the recovered signatures. */
  lemma SharedKeyBreaks(locks: Locks, keyBytes: Key -> Element, script: Element, isDer: seq<byte> -> bool,
                        offers: Offers)
    requires FourSigned(offers, Rules(locks, keyBytes, Smaller))
    ensures var input := PolicyInput(SHARED, Rules(locks, keyBytes, Smaller), script, isDer);
            var unified, legacy := OfKind(offers, true), OfKind(offers, false);
            && FinalizeInput(input, unified, legacy) == SatisfyInput(input, offers)
            && FinalizeInput(input, unified, legacy).Ok?
            && FinalizeInput(input, unified, legacy).value.report.unifiedUsed > 0
            && Satisfy(SHARED, offers, Rules(locks, keyBytes, Smaller)).Some?
            && Restrict(offers, Satisfy(SHARED, offers, Rules(locks, keyBytes, Smaller)).value.used) == offers
            && Retention(input, unified, legacy) == Err(UnsafeLegacyAlternative(3))
  {
    hide SatisfyInput, Satisfy, Holds, Best, PolicyInput, WitnessSize, Real, KindOf, OfKind, UsesKind, NoSharedKey;
    var rules := Rules(locks, keyBytes, Smaller);
    var input := PolicyInput(SHARED, rules, script, isDer);
    var unified, legacy := OfKind(offers, true), OfKind(offers, false);
    Sides(offers, rules);
    PolicyReport(SHARED, rules, script, isDer, unified);
    PolicyReport(SHARED, rules, script, isDer, legacy);
    PolicyReport(SHARED, rules, script, isDer, offers);
    SharedHolds(locks);
    SharedTaken(offers, rules);
  }

  lemma Sides(offers: Offers, rules: Rules)
    requires FourSigned(offers, rules)
    ensures var unified, legacy := OfKind(offers, true), OfKind(offers, false);
            && unified.Keys == {3} && legacy.Keys == {0, 1, 2} && unified + legacy == offers && |legacy| == 3
            && Real(unified, rules) && Real(legacy, rules)
    ensures UsesKind(offers, {0, 1, 2, 3}, true) && Restrict(offers, {0, 1, 2, 3}) == offers
  {
    hide Real, FourSigned;
    SideKeys(offers, rules);
    RealPart(offers, rules, OfKind(offers, true));
    RealPart(offers, rules, OfKind(offers, false));
    assert offers[3].unified;
  }

  lemma SideKeys(offers: Offers, rules: Rules)
    requires FourSigned(offers, rules)
    ensures var unified, legacy := OfKind(offers, true), OfKind(offers, false);
            unified.Keys == {3} && legacy.Keys == {0, 1, 2} && |legacy| == 3
    ensures offers.Keys == {0, 1, 2, 3} && offers[3].unified && Real(offers, rules)
  {
    hide Real;
    var legacy := OfKind(offers, false);
    assert legacy.Keys == {0, 1, 2};
    assert |legacy| == |legacy.Keys|;
  }

  lemma SharedHolds(locks: Locks)
    ensures !Holds(SHARED, {3}, locks) && Holds(SHARED, {0, 1, 2}, locks)
  {
    var keys := [0, 1, 2, 3];
    CountBound(keys, {3});
    assert |{3}| == 1 && !Holds(Multi(4, keys), {3}, locks) && !Holds(Pkh(0), {3}, locks);
    assert Holds(Pkh(0), {0, 1, 2}, locks) && Holds(Pkh(1), {0, 1, 2}, locks) && Holds(Pkh(2), {0, 1, 2}, locks);
    assert Holds(And(Pkh(1), Pkh(2)), {0, 1, 2}, locks);
  }

  lemma SharedTaken(offers: Offers, rules: Rules)
    requires FourSigned(offers, rules) && rules.preferLeft == Smaller
    ensures Satisfy(SHARED, offers, rules).Some? && Satisfy(SHARED, offers, rules).value.used == {0, 1, 2, 3}
    ensures Holds(SHARED, offers.Keys, rules.locks)
  {
    hide Satisfy, WitnessSize, FourSigned;
    LeftPath(offers, rules);
    RightPath(offers, rules);
    SharedIs(offers, rules);
    var a := Satisfy(Multi(4, [0, 1, 2, 3]), offers, rules).value;
    var b := Satisfy(And(Pkh(0), And(Pkh(1), Pkh(2))), offers, rules).value;
    assert 0 in b.used && 0 in a.used && rules.preferLeft(a, b) == Smaller(a, b);
    SatisfyIff(SHARED, offers, rules);
  }

  lemma SharedIs(offers: Offers, rules: Rules)
    ensures Satisfy(SHARED, offers, rules) ==
              Choose(rules, Satisfy(Multi(4, [0, 1, 2, 3]), offers, rules),
                     Satisfy(And(Pkh(0), And(Pkh(1), Pkh(2))), offers, rules))
  {
    hide Join, Placeholder, Choose, Multisig.FirstSigned;
  }
}
