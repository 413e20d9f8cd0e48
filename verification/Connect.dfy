/** Connecting and disconnecting blocks against the transaction database
    (src/main.cpp): the changes of a block are queued in a map beside the database and
    written at the end. Proved against IndexEffects and ConnectSpec. */
module Connect {
  import opened Collections
  import opened Transactions
  import opened IndexEffects
  import opened ConnectSpec
  import opened TxDb
  import opened BlockIndex

  /** A fetched parent: its index record and the transaction itself. */
  datatype Prev = Prev(txindex: TxIndex, tx: Tx)

  type MapPrevTx = map<Hash, Prev>

  ghost predicate FetchedFrom(inputs: MapPrevTx, idx: Index, f: Files) {
    forall h :: h in inputs ==>
      h in idx && inputs[h].txindex == idx[h] && f.Read(h, idx[h].pos) == Some(inputs[h].tx)
  }

  ghost predicate Fetched(inputs: MapPrevTx, idx: Index, f: Files, vin: seq<OutPoint>) {
    FetchedFrom(inputs, idx, f) && forall i :: 0 <= i < |vin| ==> vin[i].hash in inputs
  }

  // ---------------------------------------------------------------- failing early is failing

  lemma {:induction false} AcceptedPrefix(idx: Index, f: Files, tx: Tx, i: nat, k: nat, v: Verdict)
    requires i < k <= |tx.vin| && InputsAccepted(idx, f, tx, k, v)
    ensures InputAccepted(idx, f, tx, i, v)
    decreases k
  {
    if i < k - 1 {
      AcceptedPrefix(idx, f, tx, i, k - 1, v);
    }
  }

  lemma {:induction false} SpendsOneByOnePrefix(idx: Index, vin: seq<OutPoint>, at: DiskTxPos, i: nat)
    requires i < |vin| && SpendsOneByOne(idx, vin, at)
    ensures Unspent(SpendAll(idx, vin[..i], at), vin[i])
  {
    var m := |vin| - 1;
    if i < m {
      SpendsOneByOnePrefix(idx, vin[..m], at, i);
      assert vin[..m][..i] == vin[..i];
    }
  }

  lemma {:induction false} UnspendPrefix(idx: Index, vin: seq<OutPoint>, i: nat)
    requires i <= |vin| && UnspendAll(idx, vin).Some?
    ensures UnspendAll(idx, vin[..i]).Some?
  {
    if i < |vin| {
      UnspendPrefix(idx, vin[..|vin| - 1], i);
      assert vin[..|vin| - 1][..i] == vin[..i];
    } else {
      assert vin[..i] == vin;
    }
  }

  lemma {:induction false} ConnectPrefix(idx: Index, f: Files, b: Block, i: nat, k: nat, v: Verdict)
    requires i <= k <= |b.vtx| && ConnectUpTo(idx, f, b, k, v).Some?
    ensures ConnectUpTo(idx, f, b, i, v).Some?
    decreases k
  {
    hide ConnectTx;
    if i < k {
      ConnectPrefix(idx, f, b, i, k - 1, v);
    }
  }

  lemma {:induction false} UndoSuffix(idx: Index, vtx: seq<Tx>, i: nat, k: nat)
    requires i <= k <= |vtx| && UndoDownTo(idx, vtx, i).Some?
    ensures UndoDownTo(idx, vtx, k).Some?
    decreases k - i
  {
    hide UndoTx;
    if i < k {
      UndoSuffix(idx, vtx, i + 1, k);
    }
  }

  // ---------------------------------------------------------------- inputs

  /** Collects the parents of a transaction from the queued changes, else the database
      (the mode used for blocks and by the miner). */
  method FetchInputs(db: CTxDB, mapTestPool: Index, f: Files, tx: Tx)
    returns (ok: bool, inputsRet: MapPrevTx, fInvalid: bool)
    ensures ok <==>
      tx.IsCoinBase() || forall i :: 0 <= i < |tx.vin| ==> InRange(db.View() + mapTestPool, f, tx.vin[i])
    ensures ok && !tx.IsCoinBase() ==> Fetched(inputsRet, db.View() + mapTestPool, f, tx.vin)
    ensures fInvalid <==>
      !ok && forall i :: 0 <= i < |tx.vin| ==> Parent(db.View() + mapTestPool, f, tx.vin[i]).Some?
  {
    inputsRet, fInvalid := map[], false;
    if tx.IsCoinBase() {
      return true, inputsRet, false;
    }
    ghost var idx := db.View() + mapTestPool;
    for i := 0 to |tx.vin|
      invariant Fetched(inputsRet, idx, f, tx.vin[..i])
    {
      var hash := tx.vin[i].hash;
      if hash !in inputsRet {
        var entry := if hash in mapTestPool then Some(mapTestPool[hash]) else None;
        if entry.None? {
          entry := db.ReadTxIndex(hash);
        }
        assert entry == Lookup(idx, hash);
        if entry.None? {
          assert Parent(idx, f, tx.vin[i]).None?;
          return false, inputsRet, false;
        }
        var txPrev := f.Read(hash, entry.value.pos);
        if txPrev.None? {
          assert Parent(idx, f, tx.vin[i]).None?;
          return false, inputsRet, false;
        }
        inputsRet := inputsRet[hash := Prev(entry.value, txPrev.value)];
      }
    }
    for i := 0 to |tx.vin|
      invariant forall j :: 0 <= j < i ==> InRange(idx, f, tx.vin[j])
    {
      var prevout := tx.vin[i];
      var prev := inputsRet[prevout.hash];
      if prevout.n >= |prev.tx.vout| || prevout.n >= |prev.txindex.vSpent| {
        assert !InRange(idx, f, tx.vin[i]);
        return false, inputsRet, true;
      }
    }
    return true, inputsRet, false;
  }

  /** Checks every input, then marks them spent in the queued changes; `idx` is the index
      the queue lies on. */
  method ConnectInputs(ghost idx: Index, tx: Tx, inputs: MapPrevTx, mapTestPool: Index, f: Files,
                       posThisTx: DiskTxPos, v: Verdict)
    returns (ok: bool, mapTestPool': Index)
    requires !tx.IsCoinBase() ==> Fetched(inputs, idx + mapTestPool, f, tx.vin)
    ensures ok <==> tx.IsCoinBase() || TxConnects(idx + mapTestPool, f, tx, posThisTx, v)
    ensures ok && tx.IsCoinBase() ==> mapTestPool' == mapTestPool
    ensures ok && !tx.IsCoinBase() ==>
      idx + mapTestPool' == SpendAll(idx + mapTestPool, tx.vin, posThisTx)
  {
    mapTestPool' := mapTestPool;
    if tx.IsCoinBase() {
      return true, mapTestPool';
    }
    ghost var before := idx + mapTestPool;
    var nValueIn := CheckInputs(before, tx, inputs, f, v);
    if nValueIn.None? {
      return false, mapTestPool';
    }
    ok, mapTestPool' := SpendInputs(idx, tx, inputs, mapTestPool, f, posThisTx);
    if !ok {
      return;
    }
    if !tx.IsCoinStake() {
      var nTxFee := nValueIn.value - tx.ValueOut();
      if nTxFee < 0 || !MoneyRange(nTxFee) {
        return false, mapTestPool';
      }
    }
    return true, mapTestPool';
  }

  /** The first loop of ConnectInputs, with the verdicts on maturity and signature. */
  method CheckInputs(ghost idx: Index, tx: Tx, inputs: MapPrevTx, f: Files, v: Verdict)
    returns (nValueIn: Option<int>)
    requires Fetched(inputs, idx, f, tx.vin)
    ensures nValueIn == if InputsAccepted(idx, f, tx, |tx.vin|, v) then Some(ValueIn(idx, f, tx.vin)) else None
    ensures nValueIn.Some? ==> forall i :: 0 <= i < |tx.vin| ==> InRange(idx, f, tx.vin[i])
  {
    hide InRange, Parent, Value, FetchedFrom, MoneyRange;
    var sum := 0;
    for i := 0 to |tx.vin|
      invariant InputsAccepted(idx, f, tx, i, v)
      invariant sum == ValueIn(idx, f, tx.vin[..i])
      invariant forall j :: 0 <= j < i ==> InRange(idx, f, tx.vin[j])
    {
      var prevout := tx.vin[i];
      var prev := inputs[prevout.hash];
      FetchedInput(idx, f, tx, inputs, i);
      assert tx.vin[..i + 1][..i] == tx.vin[..i];
      if prevout.n >= |prev.tx.vout| || prevout.n >= |prev.txindex.vSpent| || !v.inputOk(tx.hash, i)
         || prev.tx.nTime > tx.nTime
      {
        if InputsAccepted(idx, f, tx, |tx.vin|, v) { AcceptedPrefix(idx, f, tx, i, |tx.vin|, v); }
        return None;
      }
      sum := sum + prev.tx.vout[prevout.n].nValue;
      if !MoneyRange(prev.tx.vout[prevout.n].nValue) || !MoneyRange(sum) {
        if InputsAccepted(idx, f, tx, |tx.vin|, v) { AcceptedPrefix(idx, f, tx, i, |tx.vin|, v); }
        return None;
      }
    }
    assert tx.vin[..|tx.vin|] == tx.vin;
    return Some(sum);
  }

  lemma FetchedInput(idx: Index, f: Files, tx: Tx, inputs: MapPrevTx, i: nat)
    requires Fetched(inputs, idx, f, tx.vin) && i < |tx.vin|
    ensures
      var o := tx.vin[i];
      var prev := inputs[o.hash];
      && Parent(idx, f, o) == Some(prev.tx)
      && (InRange(idx, f, o) <==> o.n < |prev.tx.vout| && o.n < |prev.txindex.vSpent|)
      && (InRange(idx, f, o) ==> Value(idx, f, o) == prev.tx.vout[o.n].nValue)
  {
  }

  /** Marking an output in the fetched copy and in the index keeps the two in step. */
  lemma MarkedInStep(inputs: MapPrevTx, idx: Index, f: Files, o: OutPoint, at: DiskTxPos)
    requires FetchedFrom(inputs, idx, f) && o.hash in inputs && Known(idx, o)
    ensures
      var txindex := idx[o.hash].(vSpent := idx[o.hash].vSpent[o.n := Some(at)]);
      && inputs[o.hash].txindex == idx[o.hash]
      && SetSpent(idx, o, Some(at)) == idx[o.hash := txindex]
      && FetchedFrom(inputs[o.hash := inputs[o.hash].(txindex := txindex)], SetSpent(idx, o, Some(at)), f)
  {
  }

  /** The second loop of ConnectInputs: double spends fail, the others are marked. */
  method SpendInputs(ghost idx: Index, tx: Tx, fetched: MapPrevTx, mapTestPool: Index, f: Files, posThisTx: DiskTxPos)
    returns (ok: bool, pool: Index)
    requires Fetched(fetched, idx + mapTestPool, f, tx.vin)
    requires forall i :: 0 <= i < |tx.vin| ==> InRange(idx + mapTestPool, f, tx.vin[i])
    ensures ok <==> SpendsOneByOne(idx + mapTestPool, tx.vin, posThisTx)
    ensures ok ==> idx + pool == SpendAll(idx + mapTestPool, tx.vin, posThisTx)
  {
    ghost var before := idx + mapTestPool;
    var inputs := fetched;
    pool := mapTestPool;
    SpendNone(before, tx.vin, posThisTx);
    for i := 0 to |tx.vin|
      invariant idx + pool == SpendAll(before, tx.vin[..i], posThisTx)
      invariant SpendsOneByOne(before, tx.vin[..i], posThisTx)
      invariant FetchedFrom(inputs, idx + pool, f) && inputs.Keys == fetched.Keys
    {
      hide InRange, FetchedFrom, SetSpent, Known, Unspent, SpendAll, SpendsOneByOne;
      StillKnown(before, f, tx.vin, i, posThisTx);
      SpendNext(before, tx.vin, i, posThisTx);
      ok, inputs, pool := SpendInput(idx, tx.vin[i], inputs, pool, f, posThisTx);
      if !ok {
        if SpendsOneByOne(before, tx.vin, posThisTx) { SpendsOneByOnePrefix(before, tx.vin, posThisTx, i); }
        return;
      }
    }
    assert tx.vin[..|tx.vin|] == tx.vin;
    ok := true;
  }

  lemma SpendNone(idx: Index, vin: seq<OutPoint>, at: DiskTxPos)
    ensures SpendAll(idx, vin[..0], at) == idx && SpendsOneByOne(idx, vin[..0], at)
  {
  }

  lemma SpendNext(idx: Index, vin: seq<OutPoint>, i: nat, at: DiskTxPos)
    requires i < |vin|
    ensures SpendAll(idx, vin[..i + 1], at) == SetSpent(SpendAll(idx, vin[..i], at), vin[i], Some(at))
    ensures SpendsOneByOne(idx, vin[..i + 1], at) <==>
      SpendsOneByOne(idx, vin[..i], at) && Unspent(SpendAll(idx, vin[..i], at), vin[i])
  {
    hide SetSpent, Unspent;
    assert vin[..i + 1][..i] == vin[..i];
  }

  method SpendInput(ghost idx: Index, prevout: OutPoint, inputs: MapPrevTx, pool: Index, f: Files, posThisTx: DiskTxPos)
    returns (ok: bool, inputs': MapPrevTx, pool': Index)
    requires FetchedFrom(inputs, idx + pool, f) && prevout.hash in inputs && Known(idx + pool, prevout)
    ensures ok <==> Unspent(idx + pool, prevout)
    ensures ok ==> idx + pool' == SetSpent(idx + pool, prevout, Some(posThisTx))
    ensures ok ==> FetchedFrom(inputs', idx + pool', f) && inputs'.Keys == inputs.Keys
  {
    inputs', pool' := inputs, pool;
    var txindex := inputs[prevout.hash].txindex;
    if txindex.vSpent[prevout.n].Some? {
      return false, inputs', pool';
    }
    MarkedInStep(inputs, idx + pool, f, prevout, posThisTx);
    txindex := txindex.(vSpent := txindex.vSpent[prevout.n := Some(posThisTx)]);
    inputs' := inputs[prevout.hash := inputs[prevout.hash].(txindex := txindex)];
    pool' := pool[prevout.hash := txindex];
    assert idx + pool' == (idx + pool)[prevout.hash := txindex];
    ok := true;
  }

  lemma StillKnown(idx: Index, f: Files, vin: seq<OutPoint>, i: nat, at: DiskTxPos)
    requires i < |vin| && InRange(idx, f, vin[i])
    ensures Known(SpendAll(idx, vin[..i], at), vin[i])
  {
    SpendAllKeys(idx, vin[..i], at);
  }

  // ---------------------------------------------------------------- blocks

  /** One turn of ConnectBlock's loop over its transactions. */
  method ConnectTransaction(db: CTxDB, f: Files, mapQueuedChanges: Index, sum: Totals,
                            tx: Tx, posThisTx: DiskTxPos, v: Verdict)
    returns (ok: bool, queue: Index, sum': Totals)
    ensures ok <==> ConnectTx(Tally(db.View() + mapQueuedChanges, sum), f, tx, posThisTx, v).Some?
    ensures ok ==>
      Some(Tally(db.View() + queue, sum')) == ConnectTx(Tally(db.View() + mapQueuedChanges, sum), f, tx, posThisTx, v)
  {
    ghost var idx := db.View() + mapQueuedChanges;
    queue, sum' := mapQueuedChanges, sum;
    if tx.IsCoinBase() {
      sum' := sum.AddCoinBase(tx);
    } else {
      var found, mapInputs, fInvalid := FetchInputs(db, mapQueuedChanges, f, tx);
      if !found {
        if TxConnects(idx, f, tx, posThisTx, v) {
          forall i | 0 <= i < |tx.vin| ensures InRange(idx, f, tx.vin[i]) {
            AcceptedPrefix(idx, f, tx, i, |tx.vin|, v);
          }
        }
        return false, queue, sum';
      }
      var txIn := GetValueIn(idx, f, tx, mapInputs);
      sum' := sum.Add(tx, txIn);
      ok, queue := ConnectInputs(db.View(), tx, mapInputs, mapQueuedChanges, f, posThisTx, v);
      if !ok {
        return;
      }
    }
    ghost var spent := db.View() + queue;
    queue := queue[tx.hash := NewTxIndex(posThisTx, |tx.vout|)];
    assert db.View() + queue == spent[tx.hash := NewTxIndex(posThisTx, |tx.vout|)];
    ok := true;
  }

  method GetValueIn(ghost idx: Index, f: Files, tx: Tx, inputs: MapPrevTx) returns (nResult: int)
    requires Fetched(inputs, idx, f, tx.vin)
    requires forall i :: 0 <= i < |tx.vin| ==> InRange(idx, f, tx.vin[i])
    ensures nResult == ValueIn(idx, f, tx.vin)
  {
    nResult := 0;
    for i := 0 to |tx.vin|
      invariant nResult == ValueIn(idx, f, tx.vin[..i])
    {
      assert tx.vin[..i + 1][..i] == tx.vin[..i];
      assert Parent(idx, f, tx.vin[i]) == Some(inputs[tx.vin[i].hash].tx);
      nResult := nResult + inputs[tx.vin[i].hash].tx.vout[tx.vin[i].n].nValue;
    }
    assert tx.vin[..|tx.vin|] == tx.vin;
  }

  /** Connects every transaction of the block into a queue of index changes. */
  method ConnectTransactions(db: CTxDB, f: Files, b: Block, v: Verdict)
    returns (ok: bool, mapQueuedChanges: Index, sum: Totals)
    ensures ok <==> ConnectUpTo(db.View(), f, b, |b.vtx|, v).Some?
    ensures ok ==>
      Some(Tally(db.View() + mapQueuedChanges, sum)) == ConnectUpTo(db.View(), f, b, |b.vtx|, v)
  {
    ghost var idx := db.View();
    mapQueuedChanges, sum := map[], Totals(0, 0, 0, 0);
    var nTxPos := b.TxOffset(0);
    assert idx + mapQueuedChanges == idx;
    for i := 0 to |b.vtx|
      invariant nTxPos == b.TxOffset(i)
      invariant ConnectUpTo(idx, f, b, i, v) == Some(Tally(idx + mapQueuedChanges, sum))
    {
      hide ConnectTx;
      var posThisTx := DiskTxPos(b.nFile, b.nBlockPos, nTxPos);
      nTxPos := nTxPos + b.vtx[i].size;
      ok, mapQueuedChanges, sum := ConnectTransaction(db, f, mapQueuedChanges, sum, b.vtx[i], posThisTx, v);
      if !ok {
        if ConnectUpTo(idx, f, b, |b.vtx|, v).Some? { ConnectPrefix(idx, f, b, i + 1, |b.vtx|, v); }
        return;
      }
    }
    ok := true;
  }

  /** Writes the queued changes, in no particular order. */
  method WriteQueued(db: CTxDB, mapQueuedChanges: Index)
    modifies db
    ensures db.View() == old(db.View()) + mapQueuedChanges && db.ViewBest() == old(db.ViewBest())
    ensures db.activeBatch.Some? == old(db.activeBatch.Some?)
    ensures db.activeBatch.Some? ==> db.disk == old(db.disk) && db.diskBest == old(db.diskBest)
  {
    ghost var idx := db.View();
    var left := mapQueuedChanges;
    assert mapQueuedChanges - left.Keys == map[];
    while left != map[]
      invariant left.Keys <= mapQueuedChanges.Keys && forall h :: h in left ==> left[h] == mapQueuedChanges[h]
      invariant db.View() == idx + (mapQueuedChanges - left.Keys)
      invariant db.ViewBest() == old(db.ViewBest())
      invariant db.activeBatch.Some? == old(db.activeBatch.Some?)
      invariant db.activeBatch.Some? ==> db.disk == old(db.disk) && db.diskBest == old(db.diskBest)
      decreases left.Keys
    {
      ghost var some := Pick(left.Keys);
      var h :| h in left.Keys;
      ghost var before := left;
      db.UpdateTxIndex(h, left[h]);
      left := left - {h};
      assert mapQueuedChanges - left.Keys == (mapQueuedChanges - before.Keys)[h := mapQueuedChanges[h]];
      assert idx + (mapQueuedChanges - left.Keys)
          == (idx + (mapQueuedChanges - before.Keys))[h := mapQueuedChanges[h]];
    }
    assert mapQueuedChanges - {} == mapQueuedChanges;
  }

  function Supply(p: CBlockIndex?): int
    reads p
  {
    if p == null then 0 else p.nMoneySupply
  }

  lemma ShapeNonEmpty(b: Block)
    requires CheckBlockShape(b)
    ensures |b.vtx| > 0
  {
  }

  /** Accepts a block exactly when the reference does; an accepted block changes the index
      as the reference says and a rejected one not at all. */
  method ConnectBlock(db: CTxDB, f: Files, pindex: CBlockIndex, stakeSubsidy: nat -> int, v: Verdict) returns (ok: bool)
    requires pindex.pprev != pindex
    modifies db, pindex`nMint, pindex`nMoneySupply
    ensures ok <==> ConnectBlockSpec(old(db.View()), f, pindex.block, stakeSubsidy(pindex.nHeight), v).Some?
    ensures ok ==>
      var t := ConnectBlockSpec(old(db.View()), f, pindex.block, stakeSubsidy(pindex.nHeight), v).value;
      && db.View() == t.idx
      && pindex.nMoneySupply == old(Supply(pindex.pprev)) + t.sum.Created()
      && pindex.nMint == t.sum.Created() + t.sum.fees
    ensures ok && NoStrayCoinStake(pindex.block) ==>
      pindex.nMoneySupply - old(Supply(pindex.pprev)) <= Subsidy(pindex.block, stakeSubsidy(pindex.nHeight))
    ensures !ok ==> db.View() == old(db.View()) && unchanged(pindex)
    ensures db.ViewBest() == old(db.ViewBest())
    ensures db.activeBatch.Some? == old(db.activeBatch.Some?)
    ensures db.activeBatch.Some? ==> db.disk == old(db.disk) && db.diskBest == old(db.diskBest)
  {
    hide ConnectUpTo, CheckBlockShape, NoStrayCoinStake, StrayMint, CTxDB.View, CTxDB.ViewBest;
    var b := pindex.block;
    if !v.checkBlock || !CheckBlockShape(b) {
      return false;
    }
    ShapeNonEmpty(b);
    var connected, mapQueuedChanges, sum := ConnectTransactions(db, f, b, v);
    if !connected {
      return false;
    }
    if !b.IsProofOfStake() {
      var nReward := POW_SUBSIDY + sum.fees;
      if b.vtx[0].ValueOut() > nReward {
        return false;
      }
    }
    if b.IsProofOfStake() {
      if !v.coinAge {
        return false;
      }
      var nCalculatedStakeReward := stakeSubsidy(pindex.nHeight) + sum.fees;
      if sum.stakeReward > nCalculatedStakeReward {
        return false;
      }
    }
    pindex.nMint := sum.valueOut - sum.valueIn + sum.fees;
    pindex.nMoneySupply := (if pindex.pprev != null then pindex.pprev.nMoneySupply else 0) + sum.valueOut - sum.valueIn;
    MintBounded(db.View(), f, b, stakeSubsidy(pindex.nHeight), v);
    WriteQueued(db, mapQueuedChanges);
    return true;
  }

  /** Relinquishing one more input. */
  lemma UnspendNext(idx: Index, vin: seq<OutPoint>, i: nat, view: Index)
    requires i < |vin| && UnspendAll(idx, vin[..i]) == Some(view)
    ensures UnspendAll(idx, vin[..i + 1]) ==
      if Known(view, vin[i])
      then Some(view[vin[i].hash := view[vin[i].hash].(vSpent := view[vin[i].hash].vSpent[vin[i].n := None])])
      else None
  {
    assert vin[..i + 1][..i] == vin[..i];
  }

  lemma UndoIs(idx: Index, tx: Tx)
    ensures UndoTx(idx, tx).None? <==> !tx.IsCoinBase() && UnspendAll(idx, tx.vin).None?
  {
    hide UnspendAll;
  }

  method DisconnectInputs(db: CTxDB, tx: Tx) returns (ok: bool)
    modifies db
    ensures ok <==> UndoTx(old(db.View()), tx).Some?
    ensures ok ==> Some(db.View()) == UndoTx(old(db.View()), tx)
    ensures db.ViewBest() == old(db.ViewBest())
    ensures db.activeBatch.Some? == old(db.activeBatch.Some?)
    ensures db.activeBatch.Some? ==> db.disk == old(db.disk) && db.diskBest == old(db.diskBest)
  {
    ghost var idx := db.View();
    if !tx.IsCoinBase() {
      for i := 0 to |tx.vin|
        invariant UnspendAll(idx, tx.vin[..i]) == Some(db.View())
        invariant db.ViewBest() == old(db.ViewBest())
        invariant db.activeBatch.Some? == old(db.activeBatch.Some?)
        invariant db.activeBatch.Some? ==> db.disk == old(db.disk) && db.diskBest == old(db.diskBest)
      {
        hide UnspendAll, SetSpent, UndoTx;
        var prevout := tx.vin[i];
        UnspendNext(idx, tx.vin, i, db.View());
        var txindex := db.ReadTxIndex(prevout.hash);
        if txindex.None? || prevout.n >= |txindex.value.vSpent| {
          if UnspendAll(idx, tx.vin).Some? { UnspendPrefix(idx, tx.vin, i + 1); }
          UndoIs(idx, tx);
          return false;
        }
        db.UpdateTxIndex(prevout.hash, txindex.value.(vSpent := txindex.value.vSpent[prevout.n := None]));
      }
      assert tx.vin[..|tx.vin|] == tx.vin;
    }
    db.EraseTxIndex(tx.hash);
    return true;
  }

  method DisconnectBlock(db: CTxDB, b: Block) returns (ok: bool)
    modifies db
    ensures ok <==> UndoBlock(old(db.View()), b).Some?
    ensures ok ==> Some(db.View()) == UndoBlock(old(db.View()), b)
    ensures db.ViewBest() == old(db.ViewBest())
    ensures db.activeBatch.Some? == old(db.activeBatch.Some?)
    ensures db.activeBatch.Some? ==> db.disk == old(db.disk) && db.diskBest == old(db.diskBest)
  {
    ghost var idx := db.View();
    var i := |b.vtx|;
    while i > 0
      invariant 0 <= i <= |b.vtx|
      invariant UndoDownTo(idx, b.vtx, i) == Some(db.View())
      invariant db.ViewBest() == old(db.ViewBest())
      invariant db.activeBatch.Some? == old(db.activeBatch.Some?)
      invariant db.activeBatch.Some? ==> db.disk == old(db.disk) && db.diskBest == old(db.diskBest)
    {
      hide UndoTx;
      i := i - 1;
      var done := DisconnectInputs(db, b.vtx[i]);
      if !done {
        if UndoDownTo(idx, b.vtx, 0).Some? { UndoSuffix(idx, b.vtx, 0, i); }
        return false;
      }
    }
    return true;
  }
}
