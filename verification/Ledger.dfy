/** A chain as the environment of the claim protocol: transactions included one after another,
    each spending outputs that earlier ones created. */
module Ledger {
  import opened Transactions

  /** The transaction identifier, known only as a function. */
  type TxidOf = Transaction -> Hash

  /** A transaction without its witnesses: what the identifier commits to. */
  function Strip(tx: Transaction): (r: Transaction)
    ensures |r.inputs| == |tx.inputs|
    ensures forall i :: 0 <= i < |tx.inputs| ==> r.inputs[i] == tx.inputs[i].(witnessStack := [])
    ensures r == tx.(inputs := r.inputs)
  {
    tx.(inputs := seq(|tx.inputs|, i requires 0 <= i < |tx.inputs| => tx.inputs[i].(witnessStack := [])))
  }

  /** Among these transactions, one identifier belongs to one transaction up to witnesses. */
  ghost predicate TxidBinds(txid: TxidOf, txs: set<Transaction>) {
    forall a, b :: a in txs && b in txs && txid(a) == txid(b) ==> Strip(a) == Strip(b)
  }

  function Created(txid: TxidOf, tx: Transaction): set<OutPoint> {
    set v: u32 | 0 <= v < |tx.outputs| :: OutPoint(txid(tx), v)
  }

  function Spends(tx: Transaction): set<OutPoint> {
    set i | 0 <= i < |tx.inputs| :: tx.inputs[i].prevout
  }

  /** Outputs created and not yet spent after `txs`, oldest first. */
  function Unspent(txid: TxidOf, txs: seq<Transaction>): set<OutPoint> {
    if txs == [] then {}
    else
      var tx := txs[|txs| - 1];
      Unspent(txid, txs[..|txs| - 1]) - Spends(tx) + Created(txid, tx)
  }

  predicate CanInclude(txid: TxidOf, txs: seq<Transaction>, tx: Transaction) {
    IsCoinbase(tx) || (tx.inputs != [] && Spends(tx) <= Unspent(txid, txs))
  }

  /** A chain content some run of inclusions reaches. */
  predicate History(txid: TxidOf, txs: seq<Transaction>) {
    txs == [] || (History(txid, txs[..|txs| - 1]) && CanInclude(txid, txs[..|txs| - 1], txs[|txs| - 1]))
  }

  /** Some transaction with this identifier is on the chain. */
  ghost predicate Contains(txid: TxidOf, txs: seq<Transaction>, id: Hash) {
    exists tx :: tx in txs && txid(tx) == id
  }

  /** Unspent outputs come from included transactions. */
  lemma {:induction false} UnspentIsCreated(txid: TxidOf, txs: seq<Transaction>, o: OutPoint)
    requires o in Unspent(txid, txs)
    ensures Contains(txid, txs, o.txid)
  {
    var tx, before := txs[|txs| - 1], txs[..|txs| - 1];
    if o in Unspent(txid, before) {
      UnspentIsCreated(txid, before, o);
      var t :| t in before && txid(t) == o.txid;
      assert t in txs;
    } else {
      assert tx in txs;
    }
  }

  lemma {:induction false} HistoryPrefix(txid: TxidOf, txs: seq<Transaction>, n: nat)
    requires History(txid, txs) && n <= |txs|
    ensures History(txid, txs[..n])
  {
    if n < |txs| {
      HistoryPrefix(txid, txs[..|txs| - 1], n);
      assert txs[..|txs| - 1][..n] == txs[..n];
    } else {
      assert txs[..n] == txs;
    }
  }

  /** Whatever an included transaction spends, its creator was included before it. */
  lemma IncludedSpends(txid: TxidOf, txs: seq<Transaction>, tx: Transaction, i: nat)
    requires History(txid, txs) && tx in txs && !IsCoinbase(tx) && i < |tx.inputs|
    ensures Contains(txid, txs, tx.inputs[i].prevout.txid)
  {
    var n :| 0 <= n < |txs| && txs[n] == tx;
    HistoryPrefix(txid, txs, n + 1);
    assert txs[..n + 1][..n] == txs[..n];
    var o := tx.inputs[i].prevout;
    assert o in Spends(tx);
    UnspentIsCreated(txid, txs[..n], o);
    var t :| t in txs[..n] && txid(t) == o.txid;
    assert t in txs;
  }
}
