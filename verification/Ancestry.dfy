/** Dependency paths from a selected output back to a coinbase, and what such a path rules out
    on a chain that never includes that coinbase. */
module Ancestry {
  import opened Wrappers
  import opened Bytes
  import opened Transactions
  import opened Sequences
  import opened Ledger

  const MAX_PATH_TRANSACTIONS: nat := 64
  const MAX_TRANSACTION_BYTES: nat := 400_000
  const MAX_PATH_BYTES: nat := 4_000_000

  /** One transaction of a path, and which of its inputs leads on to the next link. */
  datatype Link = Link(transaction: seq<byte>, parentInput: Option<nat>)

  datatype AncestryError =
    | InvalidSelection
    | PathLimit
    | ByteLimit
    | InvalidTransaction
    | WrongTransaction
    | InvalidOutput
    | InvalidInput
    | RepeatedTransaction
    | IncompletePath
    | InvalidTerminal
    | InvalidCoinbaseHeight

  datatype Dependency = Dependency(selected: OutPoint, root: OutPoint, coinbase: Transaction, txids: seq<Hash>)

  /** The exact transaction decoder and the identifier. */
  datatype Codec = Codec(decode: seq<byte> -> Option<Transaction>, txid: TxidOf)

  // ----- the check -----

  function CheckBytes(links: seq<Link>, sum: nat): Result<(), AncestryError> {
    if links == [] then Ok(())
    else
      var n := |links[0].transaction|;
      if n > MAX_TRANSACTION_BYTES || sum + n > MAX_PATH_BYTES then Err(ByteLimit)
      else CheckBytes(links[1..], sum + n)
  }

  /** The walk from link `i` on, with the outpoint it must provide and the identifiers so far. */
  function Walk(c: Codec, links: seq<Link>, i: nat, selected: OutPoint, expected: OutPoint, txids: seq<Hash>)
    : Result<Dependency, AncestryError>
    requires i <= |links|
    decreases |links| - i
  {
    if i == |links| then Err(IncompletePath)
    else
      match c.decode(links[i].transaction)
      case None => Err(InvalidTransaction)
      case Some(tx) =>
        var id := c.txid(tx);
        if id in txids then Err(RepeatedTransaction)
        else if id != expected.txid then Err(WrongTransaction)
        else if expected.vout >= |tx.outputs| then Err(InvalidOutput)
        else if IsCoinbase(tx) then
          if links[i].parentInput.Some? || i + 1 != |links| then Err(InvalidTerminal)
          else Ok(Dependency(selected, expected, tx, txids + [id]))
        else
          match links[i].parentInput
          case None => Err(IncompletePath)
          case Some(p) =>
            if p >= |tx.inputs| || tx.inputs[p].prevout == NULL_OUTPOINT then Err(InvalidInput)
            else Walk(c, links, i + 1, selected, tx.inputs[p].prevout, txids + [id])
  }

  function Verify(c: Codec, selected: OutPoint, links: seq<Link>): Result<Dependency, AncestryError> {
    if selected == NULL_OUTPOINT then Err(InvalidSelection)
    else if links == [] || |links| > MAX_PATH_TRANSACTIONS then Err(PathLimit)
    else
      var _ :- CheckBytes(links, 0);
      Walk(c, links, 0, selected, selected, [])
  }

  // ----- what a path is -----

  function Decoded(c: Codec, link: Link): Transaction
    requires c.decode(link.transaction).Some?
  {
    c.decode(link.transaction).value
  }

  /** `o` is provided by the first of `txs`, which spends an output of the second, and so on to a
      coinbase that ends the list and provides `root`. */
  ghost predicate Chain(txid: TxidOf, o: OutPoint, txs: seq<Transaction>, parents: seq<Option<nat>>, root: OutPoint)
    requires |txs| == |parents|
    decreases |txs|
  {
    && txs != []
    && txid(txs[0]) == o.txid && o.vout < |txs[0].outputs| && o != NULL_OUTPOINT
    && if |txs| == 1 then
         IsCoinbase(txs[0]) && parents[0] == None && root == o
       else
         && !IsCoinbase(txs[0]) && parents[0].Some? && parents[0].value < |txs[0].inputs|
         && Chain(txid, txs[0].inputs[parents[0].value].prevout, txs[1..], parents[1..], root)
  }

  ghost function Txs(c: Codec, links: seq<Link>): (r: seq<Transaction>)
    requires forall l :: l in links ==> c.decode(l.transaction).Some?
    ensures |r| == |links|
    ensures forall i :: 0 <= i < |links| ==> r[i] == Decoded(c, links[i])
  {
    seq(|links|, i requires 0 <= i < |links| => Decoded(c, links[i]))
  }

  ghost function Parents(links: seq<Link>): (r: seq<Option<nat>>)
    ensures |r| == |links|
    ensures forall i :: 0 <= i < |links| ==> r[i] == links[i].parentInput
  {
    seq(|links|, i requires 0 <= i < |links| => links[i].parentInput)
  }

  ghost function Ids(txid: TxidOf, txs: seq<Transaction>): (r: seq<Hash>)
    ensures |r| == |txs|
    ensures forall i :: 0 <= i < |txs| ==> r[i] == txid(txs[i])
  {
    seq(|txs|, i requires 0 <= i < |txs| => txid(txs[i]))
  }

  predicate WithinLimits(links: seq<Link>) {
    && 0 < |links| <= MAX_PATH_TRANSACTIONS
    && (forall l :: l in links ==> |l.transaction| <= MAX_TRANSACTION_BYTES)
    && TotalBytes(links) <= MAX_PATH_BYTES
  }

  function TotalBytes(links: seq<Link>): nat {
    if links == [] then 0 else |links[0].transaction| + TotalBytes(links[1..])
  }

  lemma {:induction false} CheckBytesIff(links: seq<Link>, sum: nat)
    requires sum <= MAX_PATH_BYTES
    ensures CheckBytes(links, sum).Ok? <==>
              && (forall l :: l in links ==> |l.transaction| <= MAX_TRANSACTION_BYTES)
              && sum + TotalBytes(links) <= MAX_PATH_BYTES
    decreases |links|
  {
    if links != [] {
      assert links == [links[0]] + links[1..];
      var n := |links[0].transaction|;
      if sum + n <= MAX_PATH_BYTES { CheckBytesIff(links[1..], sum + n); }
    }
  }

  /** The links decode to a chain for `o` that adds fresh, distinct identifiers to `txids`. */
  ghost predicate Path(c: Codec, links: seq<Link>, o: OutPoint, txids: seq<Hash>, d: Dependency) {
    && (forall l :: l in links ==> c.decode(l.transaction).Some?)
    && Chain(c.txid, o, Txs(c, links), Parents(links), d.root)
    && d.txids == txids + Ids(c.txid, Txs(c, links)) && Distinct(d.txids)
    && d.coinbase == Txs(c, links)[|links| - 1]
  }

  lemma ChainCons(txid: TxidOf, o: OutPoint, tx: Transaction, p: nat, txs: seq<Transaction>,
                  parents: seq<Option<nat>>, root: OutPoint)
    requires |txs| == |parents| && !IsCoinbase(tx) && p < |tx.inputs|
    requires txid(tx) == o.txid && o.vout < |tx.outputs| && o != NULL_OUTPOINT
    ensures Chain(txid, o, [tx] + txs, [Some(p)] + parents, root) <==>
              Chain(txid, tx.inputs[p].prevout, txs, parents, root)
  {
    assert ([tx] + txs)[1..] == txs && ([Some(p)] + parents)[1..] == parents;
  }

  lemma PathStep(c: Codec, l: Link, tail: seq<Link>, o: OutPoint, txids: seq<Hash>, d: Dependency, tx: Transaction)
    requires c.decode(l.transaction) == Some(tx)
    requires !IsCoinbase(tx) && l.parentInput.Some? && l.parentInput.value < |tx.inputs|
    requires c.txid(tx) == o.txid && o.vout < |tx.outputs| && o != NULL_OUTPOINT
    ensures Path(c, [l] + tail, o, txids, d) <==>
              Path(c, tail, tx.inputs[l.parentInput.value].prevout, txids + [c.txid(tx)], d)
  {
    hide Chain, Distinct, IsCoinbase, Txs, Parents, Ids, LE;
    var next := tx.inputs[l.parentInput.value].prevout;
    if forall k :: k in tail ==> c.decode(k.transaction).Some? {
      Unfolded(c, l, tail, tx);
      ChainCons(c.txid, o, tx, l.parentInput.value, Txs(c, tail), Parents(tail), d.root);
      var ids := Ids(c.txid, Txs(c, tail));
      assert txids + ([c.txid(tx)] + ids) == txids + [c.txid(tx)] + ids;
      if Chain(c.txid, next, Txs(c, tail), Parents(tail), d.root) {
        ChainNonEmpty(c.txid, next, Txs(c, tail), Parents(tail), d.root);
      }
    }
  }

  lemma Unfolded(c: Codec, l: Link, tail: seq<Link>, tx: Transaction)
    requires c.decode(l.transaction) == Some(tx)
    requires forall k :: k in tail ==> c.decode(k.transaction).Some?
    ensures forall k :: k in [l] + tail ==> c.decode(k.transaction).Some?
    ensures Txs(c, [l] + tail) == [tx] + Txs(c, tail) && Parents([l] + tail) == [l.parentInput] + Parents(tail)
    ensures Ids(c.txid, Txs(c, [l] + tail)) == [c.txid(tx)] + Ids(c.txid, Txs(c, tail))
    ensures tail != [] ==> Txs(c, [l] + tail)[|tail|] == Txs(c, tail)[|tail| - 1]
  {
  }

  lemma ChainNonEmpty(txid: TxidOf, o: OutPoint, txs: seq<Transaction>, parents: seq<Option<nat>>, root: OutPoint)
    requires |txs| == |parents| && Chain(txid, o, txs, parents, root)
    ensures txs != [] && o != NULL_OUTPOINT
  {
  }

  /** What a path demands of its first link. */
  lemma PathHead(c: Codec, links: seq<Link>, o: OutPoint, txids: seq<Hash>, d: Dependency)
    requires links != [] && Path(c, links, o, txids, d)
    ensures c.decode(links[0].transaction).Some?
    ensures var tx := Decoded(c, links[0]);
            && c.txid(tx) == o.txid && o.vout < |tx.outputs| && c.txid(tx) !in txids
            && (IsCoinbase(tx) <==> |links| == 1) && (IsCoinbase(tx) <==> links[0].parentInput == None)
            && (!IsCoinbase(tx) ==> links[0].parentInput.value < |tx.inputs|
                                    && tx.inputs[links[0].parentInput.value].prevout != NULL_OUTPOINT)
  {
    hide IsCoinbase;
    assert links[0] in links;
    var tx, txs := Decoded(c, links[0]), Txs(c, links);
    assert d.txids[|txids|] == Ids(c.txid, txs)[0] == c.txid(tx);
    forall k | 0 <= k < |txids| ensures txids[k] != c.txid(tx) { assert d.txids[k] == txids[k]; }
    if |links| > 1 {
      ChainNonEmpty(c.txid, tx.inputs[links[0].parentInput.value].prevout, txs[1..], Parents(links)[1..], d.root);
    }
  }

  lemma LastLink(c: Codec, l: Link, o: OutPoint, txids: seq<Hash>, d: Dependency, tx: Transaction)
    requires c.decode(l.transaction) == Some(tx) && IsCoinbase(tx)
    requires l.parentInput == None && Distinct(txids + [c.txid(tx)])
    requires c.txid(tx) == o.txid && o.vout < |tx.outputs| && o != NULL_OUTPOINT
    ensures Path(c, [l], o, txids, d) <==>
              d.root == o && d.coinbase == tx && d.txids == txids + [c.txid(tx)]
  {
    assert Txs(c, [l]) == [tx] && Parents([l]) == [None] && Ids(c.txid, [tx]) == [c.txid(tx)];
  }

  lemma {:induction false} WalkIff(c: Codec, links: seq<Link>, i: nat, selected: OutPoint, o: OutPoint, txids: seq<Hash>, d: Dependency)
    requires i <= |links| && o != NULL_OUTPOINT && Distinct(txids)
    ensures Walk(c, links, i, selected, o, txids) == Ok(d) <==>
              i < |links| && d.selected == selected && Path(c, links[i..], o, txids, d)
    decreases |links| - i
  {
    hide Path;
    if i < |links| {
      var rest, tail := links[i..], links[i + 1..];
      assert rest == [links[i]] + tail && rest[0] == links[i];
      if Path(c, rest, o, txids, d) { PathHead(c, rest, o, txids, d); }
      var decoded := c.decode(links[i].transaction);
      if decoded.Some? && c.txid(decoded.value) !in txids && c.txid(decoded.value) == o.txid
         && o.vout < |decoded.value.outputs| {
        var tx := decoded.value;
        assert Distinct(txids + [c.txid(tx)]);
        if IsCoinbase(tx) {
          if i + 1 == |links| && links[i].parentInput == None {
            assert rest == [links[i]];
            LastLink(c, links[i], o, txids, d, tx);
          }
        } else if links[i].parentInput.Some? && links[i].parentInput.value < |tx.inputs| {
          var next := tx.inputs[links[i].parentInput.value].prevout;
          PathStep(c, links[i], tail, o, txids, d, tx);
          if next != NULL_OUTPOINT { WalkIff(c, links, i + 1, selected, next, txids + [c.txid(tx)], d); }
        }
      }
    }
  }

  /** A dependency is accepted exactly when the links are within the limits and decode to an
      unbroken chain, without repeats, from the selected output to a coinbase. */
  lemma VerifyIff(c: Codec, selected: OutPoint, links: seq<Link>, d: Dependency)
    ensures Verify(c, selected, links) == Ok(d) <==>
              && selected != NULL_OUTPOINT && WithinLimits(links)
              && d.selected == selected && Path(c, links, selected, [], d)
  {
    hide Path;
    assert links[0..] == links;
    CheckBytesIff(links, 0);
    if selected != NULL_OUTPOINT { WalkIff(c, links, 0, selected, selected, [], d); }
  }

  // ----- what a path rules out -----

  /** If the chain never holds the identifier of the path's coinbase, it holds none of the path. */
  lemma {:induction false} AbsentRootAbsentPath(txid: TxidOf, o: OutPoint, path: seq<Transaction>, parents: seq<Option<nat>>,
                                               root: OutPoint, txs: seq<Transaction>)
    requires |path| == |parents| && Chain(txid, o, path, parents, root)
    requires History(txid, txs) && TxidBinds(txid, Elements(txs) + Elements(path))
    requires !Contains(txid, txs, root.txid)
    ensures !Contains(txid, txs, o.txid)
    ensures forall tx :: tx in path ==> !Contains(txid, txs, txid(tx))
    decreases |path|
  {
    hide History, LE, Strip;
    if |path| == 1 {
      assert root == o;
    } else {
      var p := parents[0].value;
      var next := path[0].inputs[p].prevout;
      assert path == [path[0]] + path[1..];
      AbsentRootAbsentPath(txid, next, path[1..], parents[1..], root, txs);
      if Contains(txid, txs, o.txid) {
        var tx :| tx in txs && txid(tx) == o.txid;
        assert tx in Elements(txs) && path[0] in Elements(path);
        assert Strip(tx) == Strip(path[0]);
        assert Strip(tx).inputs[p].prevout == next && !IsCoinbase(tx) by { StripKeeps(tx, path[0]); }
        IncludedSpends(txid, txs, tx, p);
      }
    }
  }

  lemma StripKeeps(a: Transaction, b: Transaction)
    requires Strip(a) == Strip(b)
    ensures |a.inputs| == |b.inputs| && forall i :: 0 <= i < |a.inputs| ==> a.inputs[i].prevout == b.inputs[i].prevout
    ensures IsCoinbase(a) == IsCoinbase(b)
  {
    forall i | 0 <= i < |a.inputs| ensures a.inputs[i].prevout == b.inputs[i].prevout {
      assert Strip(a).inputs[i] == Strip(b).inputs[i];
    }
  }

  /** The transactions the links decode to. */
  ghost function PathTransactions(c: Codec, links: seq<Link>): set<Transaction> {
    set l | l in links && c.decode(l.transaction).Some? :: Decoded(c, l)
  }

  /** Ancestry soundness: on every chain content that lacks the accepted dependency's coinbase, no
      transaction of the path is included and the selected output is not spendable. */
  lemma AncestrySound(c: Codec, selected: OutPoint, links: seq<Link>, txs: seq<Transaction>)
    requires Verify(c, selected, links).Ok?
    requires History(c.txid, txs) && TxidBinds(c.txid, Elements(txs) + PathTransactions(c, links))
    requires !Contains(c.txid, txs, c.txid(Verify(c, selected, links).value.coinbase))
    ensures forall id :: id in Verify(c, selected, links).value.txids ==> !Contains(c.txid, txs, id)
    ensures !Contains(c.txid, txs, selected.txid) && selected !in Unspent(c.txid, txs)
    ensures forall tx :: CanInclude(c.txid, txs, tx) && !IsCoinbase(tx) ==> selected !in Spends(tx)
  {
    hide Verify, Chain, History, Contains, TxidBinds, PathTransactions, Elements, LE, Unspent, Distinct, IsCoinbase;
    var d := Verify(c, selected, links).value;
    VerifyIff(c, selected, links, d);
    var path := Txs(c, links);
    NarrowPath(c, links, txs);
    RootIsCoinbase(c.txid, selected, path, Parents(links), d.root);
    AbsentRootAbsentPath(c.txid, selected, path, Parents(links), d.root, txs);
    forall id | id in d.txids ensures !Contains(c.txid, txs, id) {
      var i :| 0 <= i < |d.txids| && d.txids[i] == id;
      assert id == c.txid(path[i]) && path[i] in path;
    }
    if selected in Unspent(c.txid, txs) { UnspentIsCreated(c.txid, txs, selected); }
  }

  lemma NarrowPath(c: Codec, links: seq<Link>, txs: seq<Transaction>)
    requires forall l :: l in links ==> c.decode(l.transaction).Some?
    requires TxidBinds(c.txid, Elements(txs) + PathTransactions(c, links))
    ensures TxidBinds(c.txid, Elements(txs) + Elements(Txs(c, links)))
  {
    hide Strip;
    var path := Txs(c, links);
    forall tx | tx in path ensures tx in PathTransactions(c, links) {
      var i :| 0 <= i < |links| && path[i] == tx;
      assert links[i] in links;
    }
  }

  lemma {:induction false} RootIsCoinbase(txid: TxidOf, o: OutPoint, path: seq<Transaction>, parents: seq<Option<nat>>, root: OutPoint)
    requires |path| == |parents| && Chain(txid, o, path, parents, root)
    ensures root.txid == txid(path[|path| - 1]) && IsCoinbase(path[|path| - 1])
    decreases |path|
  {
    if |path| > 1 {
      RootIsCoinbase(txid, path[0].inputs[parents[0].value].prevout, path[1..], parents[1..], root);
    }
  }

  // ----- the loops -----

  method VerifyLinks(c: Codec, selected: OutPoint, links: seq<Link>) returns (r: Result<Dependency, AncestryError>)
    ensures r == Verify(c, selected, links)
  {
    if selected == NULL_OUTPOINT { return Err(InvalidSelection); }
    if links == [] || |links| > MAX_PATH_TRANSACTIONS { return Err(PathLimit); }
    var bytes: nat := 0;
    for i := 0 to |links|
      invariant CheckBytes(links, 0) == CheckBytes(links[i..], bytes)
    {
      assert links[i..][1..] == links[i + 1..];
      bytes := bytes + |links[i].transaction|;
      if |links[i].transaction| > MAX_TRANSACTION_BYTES || bytes > MAX_PATH_BYTES { return Err(ByteLimit); }
    }
    var expected := selected;
    var seen: set<Hash>, txids: seq<Hash> := {}, [];
    for i := 0 to |links|
      invariant seen == set id | id in txids
      invariant Walk(c, links, 0, selected, selected, []) == Walk(c, links, i, selected, expected, txids)
    {
      var decoded := c.decode(links[i].transaction);
      if decoded == None { return Err(InvalidTransaction); }
      var tx := decoded.value;
      var id := c.txid(tx);
      if id in seen { return Err(RepeatedTransaction); }
      seen := seen + {id};
      if id != expected.txid { return Err(WrongTransaction); }
      if expected.vout >= |tx.outputs| { return Err(InvalidOutput); }
      txids := txids + [id];
      if IsCoinbase(tx) {
        if links[i].parentInput.Some? || i + 1 != |links| { return Err(InvalidTerminal); }
        return Ok(Dependency(selected, expected, tx, txids));
      }
      if links[i].parentInput == None { return Err(IncompletePath); }
      var input := links[i].parentInput.value;
      if input >= |tx.inputs| { return Err(InvalidInput); }
      var parent := tx.inputs[input].prevout;
      if parent == NULL_OUTPOINT { return Err(InvalidInput); }
      expected := parent;
    }
    return Err(IncompletePath);
  }
}
