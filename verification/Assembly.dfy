/** Transactions picked for a new block, connected one after the other at the memory-pool
    position (src/miner.cpp:283-347), and what that says about the block. */
module Assembly {
  import opened Collections
  import opened Transactions
  import opened IndexEffects
  import opened ConnectSpec

  /** The index and the totals after the picked transactions, if each one connects. */
  function Assembled(idx: Index, f: Files, txs: seq<Tx>, v: Verdict): Option<Tally> {
    if txs == [] then Some(Tally(idx, Totals(0, 0, 0, 0)))
    else
      var t := Assembled(idx, f, txs[..|txs| - 1], v);
      if t.None? then None else ConnectTx(t.value, f, txs[|txs| - 1], MEMPOOL_POS, v)
  }

  predicate Ordinary(txs: seq<Tx>) {
    forall i :: 0 <= i < |txs| ==> !txs[i].IsCoinBase() && !txs[i].IsCoinStake()
  }

  function HashesOf(txs: seq<Tx>): set<Hash> {
    set i | 0 <= i < |txs| :: txs[i].hash
  }

  lemma {:induction false} PrefixAssembles(idx: Index, f: Files, txs: seq<Tx>, v: Verdict, k: nat)
    requires k <= |txs| && Assembled(idx, f, txs, v).Some?
    ensures Assembled(idx, f, txs[..k], v).Some?
    decreases |txs|
  {
    hide ConnectTx;
    if k < |txs| {
      PrefixAssembles(idx, f, txs[..|txs| - 1], v, k);
      assert txs[..|txs| - 1][..k] == txs[..k];
    } else {
      assert txs[..k] == txs;
    }
  }

  // ---------------------------------------------------------------- parents come first

  lemma ApplyTxKeys(idx: Index, tx: Tx, pos: DiskTxPos)
    ensures ApplyTx(idx, tx, pos).Keys == idx.Keys + {tx.hash}
  {
    SpendAllKeys(idx, tx.vin, pos);
  }

  lemma {:induction false} AssembledKeys(idx: Index, f: Files, txs: seq<Tx>, v: Verdict)
    requires Assembled(idx, f, txs, v).Some?
    ensures Assembled(idx, f, txs, v).value.idx.Keys == idx.Keys + HashesOf(txs)
  {
    hide TxConnects, ApplyTx;
    if txs != [] {
      var p := txs[..|txs| - 1];
      AssembledKeys(idx, f, p, v);
      ApplyTxKeys(Assembled(idx, f, p, v).value.idx, txs[|txs| - 1], MEMPOOL_POS);
      assert HashesOf(txs) == HashesOf(p) + {txs[|txs| - 1].hash};
    }
  }

  lemma {:induction false} AcceptedKnown(idx: Index, f: Files, tx: Tx, k: nat, v: Verdict)
    requires k <= |tx.vin| && InputsAccepted(idx, f, tx, k, v)
    ensures forall i :: 0 <= i < k ==> InRange(idx, f, tx.vin[i])
  {
    hide InRange;
    if k > 0 {
      AcceptedKnown(idx, f, tx, k - 1, v);
    }
  }

  /** Each picked transaction stands after all its parents that are not in the database. */
  lemma ParentsFirst(idx: Index, f: Files, txs: seq<Tx>, v: Verdict, k: nat, i: nat)
    requires Assembled(idx, f, txs, v).Some? && Ordinary(txs) && k < |txs| && i < |txs[k].vin|
    ensures txs[k].vin[i].hash in idx || exists j :: 0 <= j < k && txs[j].hash == txs[k].vin[i].hash
  {
    hide ConnectTx;
    PrefixAssembles(idx, f, txs, v, k + 1);
    var p := txs[..k + 1];
    assert p[..k] == txs[..k];
    AssembledKeys(idx, f, txs[..k], v);
    InputsThere(Assembled(idx, f, txs[..k], v).value, f, txs[k], v);
  }

  lemma InputsThere(t: Tally, f: Files, tx: Tx, v: Verdict)
    requires !tx.IsCoinBase() && ConnectTx(t, f, tx, MEMPOOL_POS, v).Some?
    ensures forall i :: 0 <= i < |tx.vin| ==> tx.vin[i].hash in t.idx
  {
    AcceptedKnown(t.idx, f, tx, |tx.vin|, v);
  }

  // ---------------------------------------------------------------- nothing is spent twice

  predicate Spent(idx: Index, o: OutPoint) {
    Known(idx, o) && !Unspent(idx, o)
  }

  lemma {:induction false} SpentAll(idx: Index, vin: seq<OutPoint>, at: DiskTxPos)
    requires SpendsOneByOne(idx, vin, at)
    ensures forall i :: 0 <= i < |vin| ==> Spent(SpendAll(idx, vin, at), vin[i])
    ensures forall i, j :: 0 <= i < j < |vin| ==> vin[i] != vin[j]
    ensures forall i :: 0 <= i < |vin| ==> Unspent(idx, vin[i])
  {
    if vin != [] {
      var p, o := vin[..|vin| - 1], vin[|vin| - 1];
      SpentAll(idx, p, at);
      UnspentBefore(idx, p, at, o);
    }
  }

  lemma {:induction false} SpentStays(idx: Index, vin: seq<OutPoint>, at: DiskTxPos, o: OutPoint)
    requires Spent(idx, o)
    ensures Spent(SpendAll(idx, vin, at), o)
  {
    if vin != [] {
      SpentStays(idx, vin[..|vin| - 1], at, o);
    }
  }

  /** The outpoints that the transactions spend. */
  function Spends(txs: seq<Tx>): set<OutPoint> {
    set k, i | 0 <= k < |txs| && 0 <= i < |txs[k].vin| :: txs[k].vin[i]
  }

  predicate UnconfirmedHashes(idx: Index, txs: seq<Tx>) {
    DistinctHashes(txs) && forall k :: 0 <= k < |txs| ==> txs[k].hash !in idx
  }

  /** A connected transaction's inputs are spent then, and what was spent stays so. */
  lemma SpentAfter(t: Tally, f: Files, tx: Tx, v: Verdict, o: OutPoint)
    requires !tx.IsCoinBase() && ConnectTx(t, f, tx, MEMPOOL_POS, v).Some? && tx.hash !in t.idx
    requires Spent(t.idx, o) || o in tx.vin
    ensures Spent(ConnectTx(t, f, tx, MEMPOOL_POS, v).value.idx, o)
  {
    ConnectedSpends(t, f, tx, v);
    SpentAll(t.idx, tx.vin, MEMPOOL_POS);
    if Spent(t.idx, o) {
      SpentStays(t.idx, tx.vin, MEMPOOL_POS, o);
    }
    SpendAllKeys(t.idx, tx.vin, MEMPOOL_POS);
    hide TxConnects, SpendAll;
  }

  lemma {:induction false} SpentByAll(idx: Index, f: Files, txs: seq<Tx>, v: Verdict)
    requires Assembled(idx, f, txs, v).Some? && Ordinary(txs) && UnconfirmedHashes(idx, txs)
    ensures forall o :: o in Spends(txs) ==> Spent(Assembled(idx, f, txs, v).value.idx, o)
  {
    hide ConnectTx, Spent;
    if txs != [] {
      var p, tx := txs[..|txs| - 1], txs[|txs| - 1];
      SpentByAll(idx, f, p, v);
      AssembledKeys(idx, f, p, v);
      var t := Assembled(idx, f, p, v).value;
      assert tx.hash !in t.idx;
      forall o | o in Spends(txs) ensures Spent(Assembled(idx, f, txs, v).value.idx, o) {
        assert o in Spends(p) || o in tx.vin;
        SpentAfter(t, f, tx, v, o);
      }
    }
  }

  lemma ConnectedSpends(t: Tally, f: Files, tx: Tx, v: Verdict)
    requires !tx.IsCoinBase() && ConnectTx(t, f, tx, MEMPOOL_POS, v).Some?
    ensures SpendsOneByOne(t.idx, tx.vin, MEMPOOL_POS)
  {
  }

  /** No two inputs of the picked transactions spend the same outpoint. */
  lemma SpentOnce(idx: Index, f: Files, txs: seq<Tx>, v: Verdict, j: nat, l: nat, k: nat, i: nat)
    requires Assembled(idx, f, txs, v).Some? && Ordinary(txs) && UnconfirmedHashes(idx, txs)
    requires j <= k < |txs| && l < |txs[j].vin| && i < |txs[k].vin| && (j < k || l < i)
    ensures txs[j].vin[l] != txs[k].vin[i]
  {
    hide ConnectTx, SpendsOneByOne, SpendAll;
    PrefixAssembles(idx, f, txs, v, k + 1);
    var p := txs[..k];
    assert txs[..k + 1][..k] == p;
    SpentByAll(idx, f, p, v);
    var t := Assembled(idx, f, p, v).value;
    ConnectedSpends(t, f, txs[k], v);
    SpentAll(t.idx, txs[k].vin, MEMPOOL_POS);
    assert j < k ==> p[j].vin[l] in Spends(p);
  }

  predicate HasRecord(txs: seq<Tx>, h: Hash, e: TxIndex) {
    exists k :: 0 <= k < |txs| && txs[k].hash == h && e.pos == MEMPOOL_POS && |e.vSpent| == |txs[k].vout|
  }

  ghost predicate RecordsKept(idx: Index, txs: seq<Tx>, idx': Index) {
    && (forall h :: h in idx ==> h in idx' && idx'[h].pos == idx[h].pos && |idx'[h].vSpent| == |idx[h].vSpent|)
    && (forall h :: h in idx' && h !in idx ==> HasRecord(txs, h, idx'[h]))
    && (forall k :: 0 <= k < |txs| ==> txs[k].hash in idx')
  }

  lemma RecordMore(txs: seq<Tx>, tx: Tx, h: Hash, e: TxIndex, e': TxIndex)
    requires HasRecord(txs, h, e) && e'.pos == e.pos && |e'.vSpent| == |e.vSpent|
    ensures HasRecord(txs + [tx], h, e')
  {
    var k :| 0 <= k < |txs| && txs[k].hash == h && e.pos == MEMPOOL_POS && |e.vSpent| == |txs[k].vout|;
    assert (txs + [tx])[k] == txs[k];
  }

  lemma RecordNew(txs: seq<Tx>, tx: Tx)
    ensures HasRecord(txs + [tx], tx.hash, NewTxIndex(MEMPOOL_POS, |tx.vout|))
  {
    assert (txs + [tx])[|txs|] == tx;
  }

  lemma RecordsStep(idx: Index, txs: seq<Tx>, mid: Index, tx: Tx)
    requires RecordsKept(idx, txs, mid) && tx.hash !in idx && !tx.IsCoinBase()
    ensures RecordsKept(idx, txs + [tx], ApplyTx(mid, tx, MEMPOOL_POS))
  {
    SpendAllKeys(mid, tx.vin, MEMPOOL_POS);
    var spent := SpendAll(mid, tx.vin, MEMPOOL_POS);
    var after := ApplyTx(mid, tx, MEMPOOL_POS);
    hide SpendAll, HasRecord, NewTxIndex;
    RecordNew(txs, tx);
    forall h | h in after && h !in idx ensures HasRecord(txs + [tx], h, after[h]) {
      if h != tx.hash {
        RecordMore(txs, tx, h, mid[h], after[h]);
      }
    }
  }

  lemma NoRecords(idx: Index)
    ensures RecordsKept(idx, [], idx)
  {
  }

  lemma AssembledNext(idx: Index, f: Files, txs: seq<Tx>, v: Verdict) returns (p: seq<Tx>, tx: Tx)
    requires Assembled(idx, f, txs, v).Some? && Ordinary(txs) && txs != []
    ensures txs == p + [tx] && tx == txs[|txs| - 1] && Ordinary(p) && !tx.IsCoinBase() && Assembled(idx, f, p, v).Some?
    ensures Assembled(idx, f, txs, v).value.idx == ApplyTx(Assembled(idx, f, p, v).value.idx, tx, MEMPOOL_POS)
  {
    hide TxConnects, ApplyTx;
    p, tx := txs[..|txs| - 1], txs[|txs| - 1];
  }

  /** Records keep their position and size, and each picked transaction has its own. */
  lemma {:induction false} AssembledRecords(idx: Index, f: Files, txs: seq<Tx>, v: Verdict)
    requires Assembled(idx, f, txs, v).Some? && (forall k :: 0 <= k < |txs| ==> txs[k].hash !in idx) && Ordinary(txs)
    ensures RecordsKept(idx, txs, Assembled(idx, f, txs, v).value.idx)
    decreases |txs|
  {
    hide RecordsKept, ApplyTx, TxConnects, ConnectTx, Ordinary;
    if txs == [] {
      NoRecords(idx);
    } else {
      var p, tx := AssembledNext(idx, f, txs, v);
      hide Assembled;
      assert forall k :: 0 <= k < |p| ==> p[k] == txs[k];
      AssembledRecords(idx, f, p, v);
      RecordsStep(idx, p, Assembled(idx, f, p, v).value.idx, tx);
    }
  }

  // ---------------------------------------------------------------- fees

  /** What each transaction's inputs exceed its outputs by, added up. */
  function FeeSum(idx: Index, f: Files, txs: seq<Tx>, v: Verdict): int
    requires Assembled(idx, f, txs, v).Some?
  {
    if txs == [] then 0
    else
      var p, tx := txs[..|txs| - 1], txs[|txs| - 1];
      FeeSum(idx, f, p, v) + ValueIn(Assembled(idx, f, p, v).value.idx, f, tx.vin) - tx.ValueOut()
  }

  lemma {:induction false} FeesAreSum(idx: Index, f: Files, txs: seq<Tx>, v: Verdict)
    requires Assembled(idx, f, txs, v).Some? && Ordinary(txs)
    ensures Assembled(idx, f, txs, v).value.sum.fees == FeeSum(idx, f, txs, v)
  {
    hide TxConnects, ApplyTx;
    if txs != [] {
      FeesAreSum(idx, f, txs[..|txs| - 1], v);
    }
  }

  // ---------------------------------------------------------------- the block connects

  /** Everything the first index knows, the second one knows alike but for positions. */
  ghost predicate Agree(a: Index, fa: Files, b: Index, fb: Files) {
    forall h :: h in a ==>
      && h in b && |a[h].vSpent| == |b[h].vSpent|
      && (forall n :: 0 <= n < |a[h].vSpent| ==> (a[h].vSpent[n].None? <==> b[h].vSpent[n].None?))
      && fa.Read(h, a[h].pos) == fb.Read(h, b[h].pos)
  }

  lemma AgreeOne(a: Index, fa: Files, b: Index, fb: Files, o: OutPoint)
    requires Agree(a, fa, b, fb) && Known(a, o)
    ensures Known(b, o) && (Unspent(a, o) <==> Unspent(b, o)) && Parent(a, fa, o) == Parent(b, fb, o)
    ensures (InRange(a, fa, o) <==> InRange(b, fb, o)) && Value(a, fa, o) == Value(b, fb, o)
  {
  }

  lemma AgreeSet(a: Index, fa: Files, b: Index, fb: Files, o: OutPoint, x: DiskTxPos, y: DiskTxPos)
    requires Agree(a, fa, b, fb) && Known(a, o)
    ensures Agree(SetSpent(a, o, Some(x)), fa, SetSpent(b, o, Some(y)), fb)
  {
  }

  lemma {:induction false} AgreeSpends(a: Index, fa: Files, b: Index, fb: Files, vin: seq<OutPoint>, x: DiskTxPos, y: DiskTxPos)
    requires Agree(a, fa, b, fb) && SpendsOneByOne(a, vin, x)
    ensures SpendsOneByOne(b, vin, y) && Agree(SpendAll(a, vin, x), fa, SpendAll(b, vin, y), fb)
  {
    hide Agree, SetSpent, Known;
    if vin != [] {
      var p, o := vin[..|vin| - 1], vin[|vin| - 1];
      AgreeSpends(a, fa, b, fb, p, x, y);
      AgreeOne(SpendAll(a, p, x), fa, SpendAll(b, p, y), fb, o);
      AgreeSet(SpendAll(a, p, x), fa, SpendAll(b, p, y), fb, o, x, y);
    }
  }

  lemma {:induction false} AgreeValues(a: Index, fa: Files, b: Index, fb: Files, vin: seq<OutPoint>)
    requires Agree(a, fa, b, fb) && forall i :: 0 <= i < |vin| ==> Known(a, vin[i])
    ensures ValueIn(a, fa, vin) == ValueIn(b, fb, vin)
  {
    hide Agree, Value, Known;
    if vin != [] {
      AgreeValues(a, fa, b, fb, vin[..|vin| - 1]);
      AgreeOne(a, fa, b, fb, vin[|vin| - 1]);
    }
  }

  /** Inputs that are mature and correctly signed stay so. */
  ghost predicate StillAllowed(v: Verdict, w: Verdict) {
    forall h, n: nat :: v.inputOk(h, n) ==> w.inputOk(h, n)
  }

  lemma {:induction false} AgreeAccepts(a: Index, fa: Files, b: Index, fb: Files, tx: Tx, k: nat, v: Verdict, w: Verdict)
    requires Agree(a, fa, b, fb) && k <= |tx.vin| && InputsAccepted(a, fa, tx, k, v) && StillAllowed(v, w)
    ensures InputsAccepted(b, fb, tx, k, w)
  {
    hide Agree, Value;
    if k > 0 {
      AgreeAccepts(a, fa, b, fb, tx, k - 1, v, w);
      AcceptedKnown(a, fa, tx, k, v);
      AgreeOne(a, fa, b, fb, tx.vin[k - 1]);
      AgreeValues(a, fa, b, fb, tx.vin[..k]);
    }
  }

  /** What connects against one index connects against an agreeing one, with the same sums. */
  lemma AgreeConnects(t: Tally, fa: Files, u: Tally, fb: Files, tx: Tx, x: DiskTxPos, y: DiskTxPos, v: Verdict, w: Verdict)
    requires StillAllowed(v, w) && Agree(t.idx, fa, u.idx, fb) && !tx.IsCoinBase() && ConnectTx(t, fa, tx, x, v).Some?
    requires fa.Read(tx.hash, x) == fb.Read(tx.hash, y)
    ensures
      var t', u' := ConnectTx(t, fa, tx, x, v), ConnectTx(u, fb, tx, y, w);
      && u'.Some? && Agree(t'.value.idx, fa, u'.value.idx, fb)
      && u'.value.sum.fees - u.sum.fees == t'.value.sum.fees - t.sum.fees
  {
    AcceptedKnown(t.idx, fa, tx, |tx.vin|, v);
    AgreeAccepts(t.idx, fa, u.idx, fb, tx, |tx.vin|, v, w);
    AgreeSpends(t.idx, fa, u.idx, fb, tx.vin, x, y);
    AgreeValues(t.idx, fa, u.idx, fb, tx.vin);
    AgreeNew(SpendAll(t.idx, tx.vin, x), fa, SpendAll(u.idx, tx.vin, y), fb, tx, x, y);
    hide Agree, InputsAccepted, SpendsOneByOne, ValueIn, SpendAll;
  }

  lemma AgreeNew(a: Index, fa: Files, b: Index, fb: Files, tx: Tx, x: DiskTxPos, y: DiskTxPos)
    requires Agree(a, fa, b, fb) && fa.Read(tx.hash, x) == fb.Read(tx.hash, y)
    ensures Agree(a[tx.hash := NewTxIndex(x, |tx.vout|)], fa, b[tx.hash := NewTxIndex(y, |tx.vout|)], fb)
  {
  }

  /** The index before, also as the block files will read it. */
  ghost predicate SameFiles(idx: Index, fa: Files, fb: Files) {
    forall h :: h in idx ==> fa.Read(h, idx[h].pos) == fb.Read(h, idx[h].pos)
  }

  /** A block of a coinbase and picked transactions connects where they were picked, with the
      reported fees: `fa` reads as the assembler did, `fb` has the block stored. */
  lemma {:induction false} AssembledConnects(idx: Index, fa: Files, fb: Files, b: Block, coinbase: Tx, txs: seq<Tx>, v: Verdict, w: Verdict)
    requires StillAllowed(v, w) && Assembled(idx, fa, txs, v).Some? && Ordinary(txs) && SameFiles(idx, fa, fb)
    requires forall k :: 0 <= k < |txs| ==> fa.Read(txs[k].hash, MEMPOOL_POS) == Some(txs[k])
    requires coinbase.IsCoinBase() && coinbase.hash !in idx
    requires |txs| < |b.vtx| && b.vtx[..|txs| + 1] == [coinbase] + txs && StoredAt(b, fb)
    ensures
      var t := ConnectUpTo(idx, fb, b, |txs| + 1, w);
      && t.Some? && Agree(Assembled(idx, fa, txs, v).value.idx, fa, t.value.idx, fb)
      && t.value.sum.fees == Assembled(idx, fa, txs, v).value.sum.fees
    decreases |txs|
  {
    hide Agree, ConnectTx, StoredAt, SameFiles, StillAllowed;
    assert b.vtx[..|txs| + 1][0] == coinbase;
    if txs == [] {
      CoinbaseConnects(idx, fa, fb, b, coinbase, w);
    } else {
      var p, tx := txs[..|txs| - 1], txs[|txs| - 1];
      assert b.vtx[..|p| + 1] == b.vtx[..|txs| + 1][..|p| + 1] == [coinbase] + p;
      AssembledConnects(idx, fa, fb, b, coinbase, p, v, w);
      assert b.vtx[|txs|] == b.vtx[..|txs| + 1][|txs|] == tx;
      StoredRead(b, fb, |txs|);
      AgreeConnects(Assembled(idx, fa, p, v).value, fa, ConnectUpTo(idx, fb, b, |txs|, w).value, fb,
                    tx, MEMPOOL_POS, b.PosOf(|txs|), v, w);
    }
  }

  lemma CoinbaseConnects(idx: Index, fa: Files, fb: Files, b: Block, coinbase: Tx, v: Verdict)
    requires SameFiles(idx, fa, fb) && coinbase.IsCoinBase() && coinbase.hash !in idx && |b.vtx| > 0 && b.vtx[0] == coinbase
    ensures
      var t := ConnectUpTo(idx, fb, b, 1, v);
      t.Some? && Agree(idx, fa, t.value.idx, fb) && t.value.sum.fees == 0
  {
    assert ConnectUpTo(idx, fb, b, 0, v).Some?;
  }

  lemma StoredRead(b: Block, f: Files, k: nat)
    requires StoredAt(b, f) && k < |b.vtx|
    ensures f.Read(b.vtx[k].hash, b.PosOf(k)) == Some(b.vtx[k])
  {
    OffsetAfterStart(b, k);
  }
}
