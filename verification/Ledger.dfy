/** Transactions, blocks and templates, with the fields the daemon looks at. */
module Ledger {
  import opened Basics

  type Txid = Bytes
  type Hash = Bytes

  datatype OutPoint = OutPoint(txid: Txid, vout: U32)

  datatype TxOut = TxOut(script: Bytes, value: nat)

  /** `txid` is what `compute_txid` returns; `weight` and `vsize` are given by the library. */
  datatype Transaction = Transaction(
    txid: Txid,
    inputs: seq<OutPoint>,
    outputs: seq<TxOut>,
    weight: nat,
    vsize: nat)

  datatype TxInfo = TxInfo(txid: Txid, tx: Transaction, pos: int, fee: nat)

  datatype Block = Block(hash: Hash, prevHash: Hash, height: int, txdata: seq<Transaction>)

  /** A template entry carries the node's own txid beside the raw transaction, which may not decode. */
  datatype TemplateTx = TemplateTx(txid: Txid, decoded: Option<Transaction>, fee: nat)

  datatype Template = Template(prevHash: Hash, height: nat, time: nat, txs: seq<TemplateTx>)

  function TxidOf(t: TxInfo): Txid { t.txid }

  function TxidsOf(txns: seq<TxInfo>): (r: seq<Txid>)
    ensures |r| == |txns| && forall i :: 0 <= i < |r| ==> r[i] == txns[i].txid
  {
    seq(|txns|, i requires 0 <= i < |txns| => txns[i].txid)
  }

  /** The set of transactions this one spends from. */
  function PrevTxids(t: TxInfo): set<Txid> {
    set i | 0 <= i < |t.tx.inputs| :: t.tx.inputs[i].txid
  }

  predicate Spends(t: TxInfo, o: OutPoint) {
    o in t.tx.inputs
  }

  /** It spends some output of the transaction `x`. */
  ghost predicate SpendsFrom(t: TxInfo, x: Txid) {
    exists v: U32 :: Spends(t, OutPoint(x, v))
  }

  lemma PrevTxidsAreSpent(t: TxInfo, x: Txid)
    ensures x in PrevTxids(t) <==> SpendsFrom(t, x)
  {
    if x in PrevTxids(t) {
      var i :| 0 <= i < |t.tx.inputs| && t.tx.inputs[i].txid == x;
      assert Spends(t, OutPoint(x, t.tx.inputs[i].vout));
    }
  }

  predicate OutPointLess(a: OutPoint, b: OutPoint) {
    BytesLess(a.txid, b.txid) || (a.txid == b.txid && a.vout < b.vout)
  }

  lemma OutPointOrder()
    ensures StrictTotalOrder(OutPointLess)
  {
    BytesOrder();
  }
}
