/** What connecting and disconnecting a block does to the transaction index, written
    directly on the index: the reference that ConnectBlock (which queues its changes in a
    side map) and DisconnectBlock are proved against. */
module IndexEffects {
  import opened Collections
  import opened Transactions

  predicate Known(idx: Index, o: OutPoint) {
    o.hash in idx && o.n < |idx[o.hash].vSpent|
  }

  predicate Unspent(idx: Index, o: OutPoint) {
    Known(idx, o) && idx[o.hash].vSpent[o.n].None?
  }

  function SetSpent(idx: Index, o: OutPoint, at: Option<DiskTxPos>): Index {
    if Known(idx, o)
    then idx[o.hash := idx[o.hash].(vSpent := idx[o.hash].vSpent[o.n := at])]
    else idx
  }

  function SpendAll(idx: Index, vin: seq<OutPoint>, at: DiskTxPos): Index {
    if |vin| == 0 then idx
    else SetSpent(SpendAll(idx, vin[..|vin| - 1], at), vin[|vin| - 1], Some(at))
  }

  function ApplyTx(idx: Index, tx: Tx, pos: DiskTxPos): Index {
    (if tx.IsCoinBase() then idx else SpendAll(idx, tx.vin, pos))
      [tx.hash := NewTxIndex(pos, |tx.vout|)]
  }

  function ApplyUpTo(idx: Index, b: Block, k: nat): Index
    requires k <= |b.vtx|
  {
    if k == 0 then idx else ApplyTx(ApplyUpTo(idx, b, k - 1), b.vtx[k - 1], b.PosOf(k - 1))
  }

  function ApplyBlock(idx: Index, b: Block): Index {
    ApplyUpTo(idx, b, |b.vtx|)
  }

  /** Every input is an existing output that neither the index nor an earlier input of the
      same transaction has spent. */
  predicate SpendsOneByOne(idx: Index, vin: seq<OutPoint>, at: DiskTxPos) {
    |vin| == 0 ||
    (SpendsOneByOne(idx, vin[..|vin| - 1], at) &&
     Unspent(SpendAll(idx, vin[..|vin| - 1], at), vin[|vin| - 1]))
  }

  predicate TxSpends(idx: Index, tx: Tx, pos: DiskTxPos) {
    tx.IsCoinBase() || SpendsOneByOne(idx, tx.vin, pos)
  }

  predicate SpendsUpTo(idx: Index, b: Block, k: nat)
    requires k <= |b.vtx|
  {
    k == 0 ||
    (SpendsUpTo(idx, b, k - 1) && TxSpends(ApplyUpTo(idx, b, k - 1), b.vtx[k - 1], b.PosOf(k - 1)))
  }

  /** Each transaction spends only outputs that are unspent when its turn comes. */
  predicate BlockSpends(idx: Index, b: Block) {
    SpendsUpTo(idx, b, |b.vtx|)
  }

  /** Relinquishing inputs one by one, in input order; None when one is not there. */
  function UnspendAll(idx: Index, vin: seq<OutPoint>): Option<Index> {
    if |vin| == 0 then Some(idx)
    else
      var r := UnspendAll(idx, vin[..|vin| - 1]);
      if r.None? || !Known(r.value, vin[|vin| - 1]) then None
      else Some(SetSpent(r.value, vin[|vin| - 1], None))
  }

  function UndoTx(idx: Index, tx: Tx): Option<Index> {
    var r := if tx.IsCoinBase() then Some(idx) else UnspendAll(idx, tx.vin);
    if r.None? then None else Some(r.value - {tx.hash})
  }

  /** Undo the transactions k, k+1, ... of a block, last one first. */
  function UndoDownTo(idx: Index, vtx: seq<Tx>, k: nat): Option<Index>
    requires k <= |vtx|
    decreases |vtx| - k
  {
    if k == |vtx| then Some(idx)
    else
      var r := UndoDownTo(idx, vtx, k + 1);
      if r.None? then None else UndoTx(r.value, vtx[k])
  }

  function UndoBlock(idx: Index, b: Block): Option<Index> {
    UndoDownTo(idx, b.vtx, 0)
  }

  predicate DistinctHashes(vtx: seq<Tx>) {
    forall i, j :: 0 <= i < j < |vtx| ==> vtx[i].hash != vtx[j].hash
  }

  predicate Fresh(idx: Index, b: Block) {
    forall i :: 0 <= i < |b.vtx| ==> b.vtx[i].hash !in idx
  }

  // ---------------------------------------------------------------- undo of one transaction

  lemma {:induction false} SpendAllKeys(idx: Index, vin: seq<OutPoint>, at: DiskTxPos)
    ensures SpendAll(idx, vin, at).Keys == idx.Keys
    ensures forall h :: h in idx ==>
      SpendAll(idx, vin, at)[h].pos == idx[h].pos && |SpendAll(idx, vin, at)[h].vSpent| == |idx[h].vSpent|
  {
    if |vin| > 0 {
      SpendAllKeys(idx, vin[..|vin| - 1], at);
    }
  }

  /** Clearing the flag of an outpoint commutes with setting the flag of another one. */
  lemma SetSpentCommutes(idx: Index, o: OutPoint, p: OutPoint, a: Option<DiskTxPos>, c: Option<DiskTxPos>)
    requires o != p
    ensures SetSpent(SetSpent(idx, o, a), p, c) == SetSpent(SetSpent(idx, p, c), o, a)
  {
    if Known(idx, o) && Known(idx, p) && o.hash == p.hash {
      var v := idx[o.hash].vSpent;
      assert v[o.n := a][p.n := c] == v[p.n := c][o.n := a];
    }
    assert SetSpent(SetSpent(idx, o, a), p, c) == SetSpent(SetSpent(idx, p, c), o, a);
  }

  lemma SetSpentUndone(idx: Index, o: OutPoint, at: DiskTxPos)
    requires Unspent(idx, o)
    ensures Known(SetSpent(idx, o, Some(at)), o)
    ensures SetSpent(SetSpent(idx, o, Some(at)), o, None) == idx
  {
    var v := idx[o.hash].vSpent;
    assert v[o.n := Some(at)][o.n := None] == v;
  }

  lemma {:induction false} UnspentBefore(idx: Index, vin: seq<OutPoint>, at: DiskTxPos, o: OutPoint)
    requires Unspent(SpendAll(idx, vin, at), o)
    ensures Unspent(idx, o) && o !in vin
  {
    if |vin| > 0 {
      var m := |vin| - 1;
      UnspentBefore(idx, vin[..m], at, o);
      SpendAllKeys(idx, vin[..m], at);
    }
  }

  /** Unspending inputs commutes with the spend of an outpoint that is not among them. */
  lemma {:induction false} UnspendPastSpend(idx: Index, vin: seq<OutPoint>, o: OutPoint, at: DiskTxPos)
    requires o !in vin && UnspendAll(idx, vin).Some?
    ensures UnspendAll(SetSpent(idx, o, Some(at)), vin)
         == Some(SetSpent(UnspendAll(idx, vin).value, o, Some(at)))
  {
    if |vin| > 0 {
      var m := |vin| - 1;
      UnspendPastSpend(idx, vin[..m], o, at);
      SetSpentCommutes(UnspendAll(idx, vin[..m]).value, o, vin[m], Some(at), None);
    }
  }

  lemma {:induction false} UnspendUndoesSpend(idx: Index, vin: seq<OutPoint>, at: DiskTxPos)
    requires SpendsOneByOne(idx, vin, at)
    ensures UnspendAll(SpendAll(idx, vin, at), vin) == Some(idx)
  {
    if |vin| > 0 {
      var m := |vin| - 1;
      UnspendUndoesSpend(idx, vin[..m], at);
      UnspentBefore(idx, vin[..m], at, vin[m]);
      UnspendPastSpend(SpendAll(idx, vin[..m], at), vin[..m], vin[m], at);
      SetSpentUndone(idx, vin[m], at);
    }
  }

  /** An outpoint that can be spent belongs to an indexed transaction. */
  lemma {:induction false} SpentInputsKnown(idx: Index, vin: seq<OutPoint>, at: DiskTxPos)
    requires SpendsOneByOne(idx, vin, at)
    ensures forall i :: 0 <= i < |vin| ==> vin[i].hash in idx
  {
    if |vin| > 0 {
      SpentInputsKnown(idx, vin[..|vin| - 1], at);
      UnspentBefore(idx, vin[..|vin| - 1], at, vin[|vin| - 1]);
    }
  }

  /** Unspending never touches the key set, nor an entry no input names. */
  lemma {:induction false} UnspendFrame(idx: Index, vin: seq<OutPoint>, h: Hash, e: TxIndex)
    requires forall i :: 0 <= i < |vin| ==> vin[i].hash != h
    ensures UnspendAll(idx, vin).Some? ==> UnspendAll(idx, vin).value.Keys == idx.Keys
    ensures UnspendAll(idx[h := e], vin)
         == if UnspendAll(idx, vin).Some? then Some(UnspendAll(idx, vin).value[h := e]) else None
  {
    if |vin| > 0 {
      var m := |vin| - 1;
      UnspendFrame(idx, vin[..m], h, e);
      var r := UnspendAll(idx, vin[..m]);
      if r.Some? {
        assert Known(r.value[h := e], vin[m]) == Known(r.value, vin[m]);
        assert SetSpent(r.value[h := e], vin[m], None) == SetSpent(r.value, vin[m], None)[h := e];
      }
    }
  }

  /** Disconnecting a transaction undoes connecting it, when its hash was fresh. */
  lemma UndoAppliedTx(idx: Index, tx: Tx, pos: DiskTxPos)
    requires TxSpends(idx, tx, pos) && tx.hash !in idx
    ensures UndoTx(ApplyTx(idx, tx, pos), tx) == Some(idx)
  {
    var e := NewTxIndex(pos, |tx.vout|);
    if tx.IsCoinBase() {
      assert idx[tx.hash := e] - {tx.hash} == idx;
    } else {
      SpentInputsKnown(idx, tx.vin, pos);
      UnspendUndoesSpend(idx, tx.vin, pos);
      UnspendFrame(SpendAll(idx, tx.vin, pos), tx.vin, tx.hash, e);
      assert idx[tx.hash := e] - {tx.hash} == idx;
    }
  }

  // ---------------------------------------------------------------- undo of a block

  lemma {:induction false} ApplyKeys(idx: Index, b: Block, k: nat)
    requires k <= |b.vtx|
    ensures ApplyUpTo(idx, b, k).Keys == idx.Keys + set i | 0 <= i < k :: b.vtx[i].hash
    decreases k
  {
    if k > 0 {
      ApplyKeys(idx, b, k - 1);
      SpendAllKeys(ApplyUpTo(idx, b, k - 1), b.vtx[k - 1].vin, b.PosOf(k - 1));
      var A := set i | 0 <= i < k - 1 :: b.vtx[i].hash;
      var B := set i | 0 <= i < k :: b.vtx[i].hash;
      assert B == A + {b.vtx[k - 1].hash};
    }
  }

  lemma FreshWhenApplied(idx: Index, b: Block, k: nat)
    requires k < |b.vtx| && DistinctHashes(b.vtx) && Fresh(idx, b)
    ensures b.vtx[k].hash !in ApplyUpTo(idx, b, k)
  {
    ApplyKeys(idx, b, k);
  }

  lemma {:induction false} SpendsPrefix(idx: Index, b: Block, k: nat, n: nat)
    requires k < n <= |b.vtx| && SpendsUpTo(idx, b, n)
    ensures TxSpends(ApplyUpTo(idx, b, k), b.vtx[k], b.PosOf(k))
    decreases n
  {
    if k < n - 1 {
      SpendsPrefix(idx, b, k, n - 1);
    }
  }

  lemma UndoAppliedStep(idx: Index, b: Block, k: nat)
    requires k < |b.vtx| && BlockSpends(idx, b) && DistinctHashes(b.vtx) && Fresh(idx, b)
    ensures UndoTx(ApplyUpTo(idx, b, k + 1), b.vtx[k]) == Some(ApplyUpTo(idx, b, k))
  {
    FreshWhenApplied(idx, b, k);
    SpendsPrefix(idx, b, k, |b.vtx|);
    UndoAppliedTx(ApplyUpTo(idx, b, k), b.vtx[k], b.PosOf(k));
  }

  lemma {:induction false} UndoAppliedSuffix(idx: Index, b: Block, k: nat)
    requires k <= |b.vtx| && BlockSpends(idx, b) && DistinctHashes(b.vtx) && Fresh(idx, b)
    ensures UndoDownTo(ApplyBlock(idx, b), b.vtx, k) == Some(ApplyUpTo(idx, b, k))
    decreases |b.vtx| - k
  {
    if k < |b.vtx| {
      UndoAppliedSuffix(idx, b, k + 1);
      UndoAppliedStep(idx, b, k);
    }
  }

  lemma {:induction false} UndoneHashesGone(idx: Index, vtx: seq<Tx>, k: nat, i: nat)
    requires k <= i < |vtx|
    ensures UndoDownTo(idx, vtx, k).Some? ==> vtx[i].hash !in UndoDownTo(idx, vtx, k).value
    decreases |vtx| - k
  {
    if k < i {
      UndoneHashesGone(idx, vtx, k + 1, i);
    }
    var r := UndoDownTo(idx, vtx, k + 1);
    if r.Some? && !vtx[k].IsCoinBase() {
      UnspendKeys(r.value, vtx[k].vin);
    }
  }

  lemma {:induction false} UnspendKeys(idx: Index, vin: seq<OutPoint>)
    ensures UnspendAll(idx, vin).Some? ==> UnspendAll(idx, vin).value.Keys == idx.Keys
  {
    if |vin| > 0 {
      UnspendKeys(idx, vin[..|vin| - 1]);
    }
  }

  /** Disconnecting a connected block gives the old index back exactly when none of the
      block's transaction hashes was in that index. */
  lemma UndoRestoresIffFresh(idx: Index, b: Block)
    requires BlockSpends(idx, b) && DistinctHashes(b.vtx)
    ensures UndoBlock(ApplyBlock(idx, b), b) == Some(idx) <==> Fresh(idx, b)
  {
    if Fresh(idx, b) {
      UndoAppliedSuffix(idx, b, 0);
    } else {
      var i :| 0 <= i < |b.vtx| && b.vtx[i].hash in idx;
      UndoneHashesGone(ApplyBlock(idx, b), b.vtx, 0, i);
    }
  }
}
