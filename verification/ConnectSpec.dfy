/** When a block connects and what it adds up to, computed transaction by transaction
    directly on the index. */
module ConnectSpec {
  import opened Collections
  import opened Transactions
  import opened IndexEffects

  /** Where a parent transaction is read from: the block files, or the memory pool for a
      record that carries the memory-pool position. */
  datatype Files = Files(disk: DiskTxPos -> Option<Tx>, mempool: map<Hash, Tx>) {
    function Read(h: Hash, pos: DiskTxPos): Option<Tx> {
      if pos == MEMPOOL_POS then (if h in mempool then Some(mempool[h]) else None) else disk(pos)
    }
  }

  /** Decisions the model does not look into, per block: the policy part of CheckBlock
      and signature-operation limits, the coin age of the coinstake, and per input of a transaction
      (by hash and input number) that its parent is mature and correctly signed for; `readable` is reading the block itself, `commit` the database commit that
      would make it the best block. */
  datatype Verdict = Verdict(
    checkBlock: bool,
    coinAge: bool,
    inputOk: (Hash, nat) -> bool,
    readable: bool,
    commit: bool)

  /** Running totals of ConnectBlock. */
  datatype Totals = Totals(valueIn: int, valueOut: int, fees: int, stakeReward: int) {
    function AddCoinBase(tx: Tx): Totals {
      this.(valueOut := valueOut + tx.ValueOut())
    }

    function Add(tx: Tx, txIn: int): Totals {
      Totals(
        valueIn + txIn,
        valueOut + tx.ValueOut(),
        if tx.IsCoinStake() then fees else fees + txIn - tx.ValueOut(),
        if tx.IsCoinStake() then tx.ValueOut() - txIn else stakeReward)
    }

    /** What the transactions add to the money supply. */
    function Created(): int {
      valueOut - valueIn
    }
  }

  /** The index and the totals after some transactions of a block. */
  datatype Tally = Tally(idx: Index, sum: Totals)

  /** The transaction an input spends from, as far as it can be found and read. */
  function Parent(idx: Index, f: Files, o: OutPoint): Option<Tx> {
    if o.hash in idx then f.Read(o.hash, idx[o.hash].pos) else None
  }

  /** The parent is indexed and readable and both it and its record have that output. */
  predicate InRange(idx: Index, f: Files, o: OutPoint) {
    var p := Parent(idx, f, o);
    Known(idx, o) && p.Some? && o.n < |p.value.vout|
  }

  function Value(idx: Index, f: Files, o: OutPoint): int {
    if InRange(idx, f, o) then Parent(idx, f, o).value.vout[o.n].nValue else 0
  }

  function ValueIn(idx: Index, f: Files, vin: seq<OutPoint>): int {
    if |vin| == 0 then 0 else ValueIn(idx, f, vin[..|vin| - 1]) + Value(idx, f, vin[|vin| - 1])
  }

  predicate InputAccepted(idx: Index, f: Files, tx: Tx, i: nat, v: Verdict)
    requires i < |tx.vin|
  {
    && InRange(idx, f, tx.vin[i])
    && v.inputOk(tx.hash, i)
    && Parent(idx, f, tx.vin[i]).value.nTime <= tx.nTime
    && MoneyRange(Value(idx, f, tx.vin[i]))
    && MoneyRange(ValueIn(idx, f, tx.vin[..i + 1]))
  }

  predicate InputsAccepted(idx: Index, f: Files, tx: Tx, k: nat, v: Verdict)
    requires k <= |tx.vin|
  {
    k == 0 || (InputsAccepted(idx, f, tx, k - 1, v) && InputAccepted(idx, f, tx, k - 1, v))
  }

  predicate TxConnects(idx: Index, f: Files, tx: Tx, pos: DiskTxPos, v: Verdict) {
    && InputsAccepted(idx, f, tx, |tx.vin|, v)
    && SpendsOneByOne(idx, tx.vin, pos)
    && (tx.IsCoinStake() || MoneyRange(ValueIn(idx, f, tx.vin) - tx.ValueOut()))
  }

  function ConnectTx(t: Tally, f: Files, tx: Tx, pos: DiskTxPos, v: Verdict): Option<Tally> {
    if tx.IsCoinBase() then Some(Tally(ApplyTx(t.idx, tx, pos), t.sum.AddCoinBase(tx)))
    else if !TxConnects(t.idx, f, tx, pos, v) then None
    else Some(Tally(ApplyTx(t.idx, tx, pos), t.sum.Add(tx, ValueIn(t.idx, f, tx.vin))))
  }

  function ConnectUpTo(idx: Index, f: Files, b: Block, k: nat, v: Verdict): Option<Tally>
    requires k <= |b.vtx|
  {
    if k == 0 then Some(Tally(idx, Totals(0, 0, 0, 0)))
    else
      var t := ConnectUpTo(idx, f, b, k - 1, v);
      if t.None? then None else ConnectTx(t.value, f, b.vtx[k - 1], b.PosOf(k - 1), v)
  }

  // ---------------------------------------------------------------- context-free checks

  predicate OutputsOk(tx: Tx, k: nat)
    requires k <= |tx.vout|
  {
    k == 0 ||
    (&& OutputsOk(tx, k - 1)
     && (tx.vout[k - 1].IsEmpty() ==> tx.IsCoinBase() || tx.IsCoinStake())
     && MoneyRange(tx.vout[k - 1].nValue)
     && MoneyRange(SumValues(tx.vout[..k])))
  }

  predicate CheckTransaction(tx: Tx) {
    && |tx.vin| > 0
    && |tx.vout| > 0
    && OutputsOk(tx, |tx.vout|)
    && (forall i, j :: 0 <= i < j < |tx.vin| ==> tx.vin[i] != tx.vin[j])
    && (!tx.IsCoinBase() ==> forall i :: 0 <= i < |tx.vin| ==> !tx.vin[i].IsNull())
  }

  /** The part of CheckBlock the supply and the index depend on. */
  predicate CheckBlockShape(b: Block) {
    && |b.vtx| > 0
    && b.vtx[0].IsCoinBase()
    && (forall i :: 1 <= i < |b.vtx| ==> !b.vtx[i].IsCoinBase())
    && (b.IsProofOfStake() ==>
          && |b.vtx[0].vout| == 1 && b.vtx[0].vout[0].IsEmpty()
          && forall i :: 2 <= i < |b.vtx| ==> !b.vtx[i].IsCoinStake())
    && (forall i :: 0 <= i < |b.vtx| ==> CheckTransaction(b.vtx[i]))
    && DistinctHashes(b.vtx)
  }

  const POW_SUBSIDY: int := 150 * COIN

  /** Subsidy of a block: 150 coins for proof of work, the yearly schedule otherwise. */
  function Subsidy(b: Block, stakeSubsidy: int): int {
    if b.IsProofOfStake() then stakeSubsidy else POW_SUBSIDY
  }

  predicate RewardOk(b: Block, t: Totals, stakeSubsidy: int, v: Verdict)
    requires |b.vtx| > 0
  {
    if b.IsProofOfStake()
    then v.coinAge && t.stakeReward <= stakeSubsidy + t.fees
    else b.vtx[0].ValueOut() <= POW_SUBSIDY + t.fees
  }

  /** The complete reference: the tally of an accepted block, None for a rejected one. */
  function ConnectBlockSpec(idx: Index, f: Files, b: Block, stakeSubsidy: int, v: Verdict): Option<Tally> {
    if !v.checkBlock || !CheckBlockShape(b) then None
    else
      var t := ConnectUpTo(idx, f, b, |b.vtx|, v);
      if t.None? || !RewardOk(b, t.value.sum, stakeSubsidy, v) then None else t
  }

  /** An accepted block has exactly the effect ApplyBlock and spends only unspent outputs. */
  lemma {:induction false} ConnectedEffect(idx: Index, f: Files, b: Block, k: nat, v: Verdict)
    requires k <= |b.vtx| && ConnectUpTo(idx, f, b, k, v).Some?
    ensures ConnectUpTo(idx, f, b, k, v).value.idx == ApplyUpTo(idx, b, k)
    ensures SpendsUpTo(idx, b, k)
    decreases k
  {
    if k > 0 {
      ConnectedEffect(idx, f, b, k - 1, v);
    }
  }

  // ---------------------------------------------------------------- conservation of money

  /** Value of the outputs whose spent flag is clear. */
  function UnspentOf(vout: seq<TxOut>, vSpent: seq<Option<DiskTxPos>>): int
    requires |vout| == |vSpent|
  {
    if |vout| == 0 then 0
    else
      var m := |vout| - 1;
      UnspentOf(vout[..m], vSpent[..m]) + (if vSpent[m].None? then vout[m].nValue else 0)
  }

  /** Each record points at a stored transaction with as many outputs as it has flags. */
  ghost predicate Sound(idx: Index, f: Files) {
    forall h :: h in idx ==>
      f.Read(h, idx[h].pos).Some? && |f.Read(h, idx[h].pos).value.vout| == |idx[h].vSpent|
  }

  function EntryValue(h: Hash, e: TxIndex, f: Files): int {
    var p := f.Read(h, e.pos);
    if p.Some? && |p.value.vout| == |e.vSpent| then UnspentOf(p.value.vout, e.vSpent) else 0
  }

  ghost function UnspentValue(idx: Index, f: Files): int
    decreases idx.Keys
  {
    if idx.Keys == {} then 0
    else
      var h := Pick(idx.Keys);
      EntryValue(h, idx[h], f) + UnspentValue(idx - {h}, f)
  }

  lemma {:induction false} UnspentSplit(idx: Index, f: Files, h: Hash)
    requires h in idx
    ensures UnspentValue(idx, f) == EntryValue(h, idx[h], f) + UnspentValue(idx - {h}, f)
    decreases idx.Keys
  {
    var g :| g in idx.Keys && UnspentValue(idx, f) == EntryValue(g, idx[g], f) + UnspentValue(idx - {g}, f);
    if g != h {
      UnspentSplit(idx - {g}, f, h);
      UnspentSplit(idx - {h}, f, g);
      assert idx - {g} - {h} == idx - {h} - {g};
    }
  }

  lemma {:induction false} SpendLowers(vout: seq<TxOut>, vSpent: seq<Option<DiskTxPos>>, n: nat, at: DiskTxPos)
    requires |vout| == |vSpent| && n < |vout| && vSpent[n].None?
    ensures UnspentOf(vout, vSpent[n := Some(at)]) == UnspentOf(vout, vSpent) - vout[n].nValue
  {
    var m := |vout| - 1;
    if n < m {
      assert vSpent[n := Some(at)][..m] == vSpent[..m][n := Some(at)];
      SpendLowers(vout[..m], vSpent[..m], n, at);
    } else {
      assert vSpent[n := Some(at)][..m] == vSpent[..m];
    }
  }

  lemma {:induction false} AllUnspent(vout: seq<TxOut>, vSpent: seq<Option<DiskTxPos>>)
    requires |vout| == |vSpent| && forall i :: 0 <= i < |vSpent| ==> vSpent[i].None?
    ensures UnspentOf(vout, vSpent) == SumValues(vout)
  {
    if |vout| > 0 {
      AllUnspent(vout[..|vout| - 1], vSpent[..|vout| - 1]);
    }
  }

  lemma SpendOneValue(idx: Index, f: Files, o: OutPoint, at: DiskTxPos)
    requires Sound(idx, f) && Unspent(idx, o)
    ensures Sound(SetSpent(idx, o, Some(at)), f)
    ensures UnspentValue(SetSpent(idx, o, Some(at)), f) == UnspentValue(idx, f) - Value(idx, f, o)
  {
    var h := o.hash;
    var idx' := SetSpent(idx, o, Some(at));
    UnspentSplit(idx, f, h);
    UnspentSplit(idx', f, h);
    assert idx' - {h} == idx - {h};
    SpendLowers(f.Read(h, idx[h].pos).value.vout, idx[h].vSpent, o.n, at);
  }

  lemma {:induction false} SpendAllValue(idx: Index, f: Files, vin: seq<OutPoint>, at: DiskTxPos)
    requires Sound(idx, f) && SpendsOneByOne(idx, vin, at)
    ensures Sound(SpendAll(idx, vin, at), f)
    ensures UnspentValue(SpendAll(idx, vin, at), f) == UnspentValue(idx, f) - ValueIn(idx, f, vin)
  {
    if |vin| > 0 {
      var m := |vin| - 1;
      SpendAllValue(idx, f, vin[..m], at);
      SpendOneValue(SpendAll(idx, vin[..m], at), f, vin[m], at);
      SpendAllKeys(idx, vin[..m], at);
    }
  }

  lemma NewRecordValue(idx: Index, f: Files, tx: Tx, pos: DiskTxPos)
    requires Sound(idx, f) && tx.hash !in idx && f.Read(tx.hash, pos) == Some(tx)
    ensures
      var idx' := idx[tx.hash := NewTxIndex(pos, |tx.vout|)];
      Sound(idx', f) && UnspentValue(idx', f) == UnspentValue(idx, f) + tx.ValueOut()
  {
    var idx' := idx[tx.hash := NewTxIndex(pos, |tx.vout|)];
    UnspentSplit(idx', f, tx.hash);
    assert idx' - {tx.hash} == idx;
    AllUnspent(tx.vout, idx'[tx.hash].vSpent);
  }

  lemma ApplyTxValue(idx: Index, f: Files, tx: Tx, pos: DiskTxPos)
    requires Sound(idx, f) && TxSpends(idx, tx, pos)
    requires tx.hash !in idx && f.Read(tx.hash, pos) == Some(tx)
    ensures Sound(ApplyTx(idx, tx, pos), f)
    ensures UnspentValue(ApplyTx(idx, tx, pos), f)
         == UnspentValue(idx, f) + tx.ValueOut() - (if tx.IsCoinBase() then 0 else ValueIn(idx, f, tx.vin))
  {
    hide Sound, UnspentValue, ValueIn, SpendAll, SpendsOneByOne, NewTxIndex;
    var spent := if tx.IsCoinBase() then idx else SpendAll(idx, tx.vin, pos);
    if !tx.IsCoinBase() {
      SpendAllValue(idx, f, tx.vin, pos);
      SpendAllKeys(idx, tx.vin, pos);
    }
    NewRecordValue(spent, f, tx, pos);
  }

  /** The block is stored where its position says. */
  ghost predicate StoredAt(b: Block, f: Files) {
    forall i :: 0 <= i < |b.vtx| ==> f.disk(b.PosOf(i)) == Some(b.vtx[i])
  }

  lemma {:induction false} OffsetAfterStart(b: Block, i: nat)
    requires i <= |b.vtx|
    ensures b.TxOffset(i) > b.nBlockPos
    ensures b.PosOf(i) != MEMPOOL_POS
    decreases i
  {
    if i > 0 {
      OffsetAfterStart(b, i - 1);
    }
  }

  /** The unspent total has moved by value out minus value in since it was `base`. */
  ghost predicate Balanced(t: Tally, f: Files, base: int) {
    Sound(t.idx, f) && UnspentValue(t.idx, f) == base + t.sum.Created()
  }

  lemma ConnectTxBalances(t: Tally, f: Files, tx: Tx, pos: DiskTxPos, v: Verdict, base: int)
    requires Balanced(t, f, base) && ConnectTx(t, f, tx, pos, v).Some?
    requires tx.hash !in t.idx && f.Read(tx.hash, pos) == Some(tx)
    ensures Balanced(ConnectTx(t, f, tx, pos, v).value, f, base)
  {
    ApplyTxValue(t.idx, f, tx, pos);
  }

  lemma NextTx(idx: Index, f: Files, b: Block, k: nat, v: Verdict) returns (t: Tally)
    requires k < |b.vtx| && ConnectUpTo(idx, f, b, k + 1, v).Some?
    requires StoredAt(b, f) && DistinctHashes(b.vtx) && Fresh(idx, b)
    ensures ConnectUpTo(idx, f, b, k, v) == Some(t)
    ensures ConnectUpTo(idx, f, b, k + 1, v) == ConnectTx(t, f, b.vtx[k], b.PosOf(k), v)
    ensures b.vtx[k].hash !in t.idx && f.Read(b.vtx[k].hash, b.PosOf(k)) == Some(b.vtx[k])
  {
    t := ConnectUpTo(idx, f, b, k, v).value;
    assert t.idx == ApplyUpTo(idx, b, k) by { ConnectedEffect(idx, f, b, k, v); }
    assert b.vtx[k].hash !in t.idx by { FreshWhenApplied(idx, b, k); }
    OffsetAfterStart(b, k);
  }

  /** Connecting transactions moves the unspent total by exactly value out minus value in. */
  lemma {:induction false} ConnectedValue(idx: Index, f: Files, b: Block, k: nat, v: Verdict)
    requires k <= |b.vtx| && ConnectUpTo(idx, f, b, k, v).Some?
    requires Sound(idx, f) && StoredAt(b, f) && DistinctHashes(b.vtx) && Fresh(idx, b)
    ensures Balanced(ConnectUpTo(idx, f, b, k, v).value, f, UnspentValue(idx, f))
    decreases k
  {
    hide ConnectTx, Sound, UnspentValue, DistinctHashes, Fresh, StoredAt;
    if k > 0 {
      var t := NextTx(idx, f, b, k - 1, v);
      ConnectedValue(idx, f, b, k - 1, v);
      ConnectTxBalances(t, f, b.vtx[k - 1], b.PosOf(k - 1), v, UnspentValue(idx, f));
    }
  }

  // ---------------------------------------------------------------- minting is bounded

  /** Net creation by coinstakes after position 1, which the reward check never looks at. */
  function StrayMint(idx: Index, f: Files, b: Block, k: nat, v: Verdict): int
    requires k <= |b.vtx| && ConnectUpTo(idx, f, b, k, v).Some?
  {
    if k == 0 then 0
    else
      var tx := b.vtx[k - 1];
      var t := ConnectUpTo(idx, f, b, k - 1, v).value;
      StrayMint(idx, f, b, k - 1, v) +
      if k - 1 >= 2 && !tx.IsCoinBase() && tx.IsCoinStake() then tx.ValueOut() - ValueIn(t.idx, f, tx.vin) else 0
  }

  /** What the first k transactions of the block add up to. */
  predicate Splits(b: Block, k: nat, sum: Totals, stray: int) {
    && (k <= 1 ==> sum.stakeReward == 0 && stray == 0)
    && (b.IsProofOfStake() ==> stray == 0)
    && |b.vtx| > 0
    && sum.Created() == (if k > 0 then b.vtx[0].ValueOut() else 0) - sum.fees
                        + (if b.IsProofOfStake() then sum.stakeReward else stray)
  }

  lemma SplitsNext(b: Block, k: nat, sum: Totals, stray: int, txIn: int)
    requires k < |b.vtx| && CheckBlockShape(b) && Splits(b, k, sum, stray)
    ensures
      var tx := b.vtx[k];
      var stray' := stray + if k >= 2 && !tx.IsCoinBase() && tx.IsCoinStake() then tx.ValueOut() - txIn else 0;
      Splits(b, k + 1, if tx.IsCoinBase() then sum.AddCoinBase(tx) else sum.Add(tx, txIn), stray')
  {
    hide CheckTransaction, DistinctHashes, SumValues;
    assert k > 0 ==> !b.vtx[k].IsCoinBase();
  }

  lemma TallyNext(idx: Index, f: Files, b: Block, k: nat, v: Verdict) returns (t: Tally)
    requires k < |b.vtx| && ConnectUpTo(idx, f, b, k + 1, v).Some?
    ensures ConnectUpTo(idx, f, b, k, v) == Some(t)
    ensures
      var tx := b.vtx[k];
      var txIn := ValueIn(t.idx, f, tx.vin);
      && ConnectUpTo(idx, f, b, k + 1, v).value.sum
         == (if tx.IsCoinBase() then t.sum.AddCoinBase(tx) else t.sum.Add(tx, txIn))
      && StrayMint(idx, f, b, k + 1, v)
         == StrayMint(idx, f, b, k, v)
            + if k >= 2 && !tx.IsCoinBase() && tx.IsCoinStake() then tx.ValueOut() - txIn else 0
  {
    hide TxConnects, ApplyTx;
    t := ConnectUpTo(idx, f, b, k, v).value;
  }

  lemma SplitsStart(idx: Index, f: Files, b: Block, v: Verdict)
    requires |b.vtx| > 0
    ensures ConnectUpTo(idx, f, b, 0, v).Some?
    ensures Splits(b, 0, ConnectUpTo(idx, f, b, 0, v).value.sum, StrayMint(idx, f, b, 0, v))
  {
  }

  lemma {:induction false} TallySplits(idx: Index, f: Files, b: Block, k: nat, v: Verdict)
    requires k <= |b.vtx| && |b.vtx| > 0 && CheckBlockShape(b) && ConnectUpTo(idx, f, b, k, v).Some?
    ensures Splits(b, k, ConnectUpTo(idx, f, b, k, v).value.sum, StrayMint(idx, f, b, k, v))
    decreases k
  {
    hide *;
    if k == 0 {
      SplitsStart(idx, f, b, v);
    } else {
      var t := TallyNext(idx, f, b, k - 1, v);
      TallySplits(idx, f, b, k - 1, v);
      SplitsNext(b, k - 1, t.sum, StrayMint(idx, f, b, k - 1, v), ValueIn(t.idx, f, b.vtx[k - 1].vin));
    }
  }

  /** A coinstake, if there is one, is at position 1. */
  predicate NoStrayCoinStake(b: Block) {
    forall i :: 2 <= i < |b.vtx| ==> !b.vtx[i].IsCoinStake()
  }

  /** What an accepted block creates: a proof-of-stake block its stake reward less the fees;
      a proof-of-work block what its coinbase pays beyond the fees, and what coinstakes after
      position 1 create. It stays within its subsidy unless it is a proof-of-work block whose
      stray coinstakes create more than its coinbase leaves unclaimed. */
  lemma MintBounded(idx: Index, f: Files, b: Block, stakeSubsidy: int, v: Verdict)
    requires ConnectBlockSpec(idx, f, b, stakeSubsidy, v).Some?
    ensures
      var sum := ConnectBlockSpec(idx, f, b, stakeSubsidy, v).value.sum;
      var stray := StrayMint(idx, f, b, |b.vtx|, v);
      && sum.Created() ==
         (if b.IsProofOfStake() then sum.stakeReward - sum.fees else b.vtx[0].ValueOut() - sum.fees + stray)
      && (sum.Created() <= Subsidy(b, stakeSubsidy) <==>
          b.IsProofOfStake() || stray <= POW_SUBSIDY + sum.fees - b.vtx[0].ValueOut())
      && (NoStrayCoinStake(b) ==> sum.Created() <= Subsidy(b, stakeSubsidy))
  {
    hide ConnectUpTo, StrayMint, CheckTransaction, DistinctHashes;
    TallySplits(idx, f, b, |b.vtx|, v);
    if b.IsProofOfStake() {
      assert SumValues(b.vtx[0].vout[..0]) == 0;
      assert b.vtx[0].ValueOut() == 0;
    }
    if NoStrayCoinStake(b) {
      NoStrayMint(idx, f, b, |b.vtx|, v);
    }
  }

  lemma {:induction false} NoStrayMint(idx: Index, f: Files, b: Block, k: nat, v: Verdict)
    requires k <= |b.vtx| && ConnectUpTo(idx, f, b, k, v).Some?
    requires NoStrayCoinStake(b)
    ensures StrayMint(idx, f, b, k, v) == 0
    decreases k
  {
    if k > 0 {
      NoStrayMint(idx, f, b, k - 1, v);
    }
  }

  // ---------------------------------------------------------------- the missing check

  const PARENT := Tx(7, 0, [OutPoint(5, 0)], [TxOut(1, false), TxOut(1, false)], 100)
  const STRAY_COINBASE := Tx(1, 0, [OutPoint(0, NULL_N)], [TxOut(POW_SUBSIDY, false)], 100)
  const STRAY_PAYMENT := Tx(2, 0, [OutPoint(7, 0)], [TxOut(1, false)], 100)
  const STRAY_STAKE := Tx(3, 0, [OutPoint(7, 1)], [TxOut(0, true), TxOut(9 * COIN, false)], 100)

  lemma OneInput(idx: Index, f: Files, o: OutPoint, at: DiskTxPos)
    ensures ValueIn(idx, f, [o]) == Value(idx, f, o)
    ensures SpendAll(idx, [o], at) == SetSpent(idx, o, Some(at))
    ensures SpendsOneByOne(idx, [o], at) <==> Unspent(idx, o)
  {
    assert [o][..0] == [];
  }

  lemma SmallSums(x: TxOut, y: TxOut)
    ensures SumValues([x]) == x.nValue && SumValues([x, y]) == x.nValue + y.nValue
  {
    assert [x][..0] == [] && [x, y][..1] == [x];
  }

  lemma OneInputAccepted(idx: Index, f: Files, tx: Tx, v: Verdict)
    requires |tx.vin| == 1
    ensures InputsAccepted(idx, f, tx, 1, v) <==> InputAccepted(idx, f, tx, 0, v)
    ensures tx.vin[..1] == [tx.vin[0]] && tx.vin == [tx.vin[0]]
  {
  }

  lemma OutputsFine(tx: Tx)
    requires 1 <= |tx.vout| <= 2 && forall i :: 0 <= i < |tx.vout| ==> 0 <= tx.vout[i].nValue <= POW_SUBSIDY
    requires forall i :: 0 <= i < |tx.vout| && tx.vout[i].IsEmpty() ==> tx.IsCoinBase() || tx.IsCoinStake()
    ensures OutputsOk(tx, |tx.vout|)
  {
    var x, y := tx.vout[0], tx.vout[|tx.vout| - 1];
    SmallSums(x, y);
    assert tx.vout[..1] == [x];
    assert OutputsOk(tx, 0);
    assert MoneyRange(x.nValue);
    assert SumValues(tx.vout[..1]) == x.nValue;
    assert OutputsOk(tx, 1);
    if |tx.vout| == 2 {
      assert tx.vout[..2] == [x, y];
    }
  }

  /** A proof-of-work block whose third transaction is a coinstake is accepted although it
      creates nine coins (less the input it spends) beyond the subsidy. */
  lemma StrayCoinStakeMints(f: Files, v: Verdict, pos: DiskTxPos)
    requires f.Read(7, pos) == Some(PARENT) && v.checkBlock && v.inputOk(2, 0) && v.inputOk(3, 0)
    ensures
      var b := Block(0, 0, [STRAY_COINBASE, STRAY_PAYMENT, STRAY_STAKE]);
      var t := ConnectBlockSpec(map[7 := NewTxIndex(pos, 2)], f, b, 0, v);
      t.Some? && t.value.sum.Created() == Subsidy(b, 0) + 9 * COIN - 1
  {
    var b := Block(0, 0, [STRAY_COINBASE, STRAY_PAYMENT, STRAY_STAKE]);
    var idx := map[7 := NewTxIndex(pos, 2)];
    SmallSums(TxOut(POW_SUBSIDY, false), TxOut(0, true));
    SmallSums(TxOut(1, false), TxOut(1, false));
    SmallSums(TxOut(0, true), TxOut(9 * COIN, false));
    var t0 := Tally(idx, Totals(0, 0, 0, 0));
    assert ConnectUpTo(idx, f, b, 0, v) == Some(t0);
    var t1 := Tally(ApplyTx(idx, STRAY_COINBASE, b.PosOf(0)), Totals(0, POW_SUBSIDY, 0, 0));
    assert ConnectTx(t0, f, STRAY_COINBASE, b.PosOf(0), v) == Some(t1);
    OneInput(t1.idx, f, OutPoint(7, 0), b.PosOf(1));
    OneInputAccepted(t1.idx, f, STRAY_PAYMENT, v);
    var t2 := Tally(ApplyTx(t1.idx, STRAY_PAYMENT, b.PosOf(1)), Totals(1, POW_SUBSIDY + 1, 0, 0));
    assert ConnectTx(t1, f, STRAY_PAYMENT, b.PosOf(1), v) == Some(t2);
    OneInput(t2.idx, f, OutPoint(7, 1), b.PosOf(2));
    OneInputAccepted(t2.idx, f, STRAY_STAKE, v);
    var t3 := Tally(ApplyTx(t2.idx, STRAY_STAKE, b.PosOf(2)), Totals(2, POW_SUBSIDY + 1 + 9 * COIN, 0, 9 * COIN - 1));
    assert ConnectTx(t2, f, STRAY_STAKE, b.PosOf(2), v) == Some(t3);
    assert ConnectUpTo(idx, f, b, 1, v) == Some(t1);
    assert ConnectUpTo(idx, f, b, 2, v) == Some(t2);
    assert ConnectUpTo(idx, f, b, 3, v) == Some(t3);
    OutputsFine(STRAY_COINBASE);
    OutputsFine(STRAY_PAYMENT);
    OutputsFine(STRAY_STAKE);
    assert CheckBlockShape(b);
  }

  // ---------------------------------------------------------------- coinbase-only blocks

  /** A block of one coinbase that claims no more than the subsidy is accepted anywhere. */
  lemma CoinbaseAccepted(idx: Index, f: Files, b: Block, stakeSubsidy: int, v: Verdict)
    requires |b.vtx| == 1 && b.vtx[0].IsCoinBase() && |b.vtx[0].vout| == 1 && v.checkBlock
    requires 0 <= b.vtx[0].vout[0].nValue <= POW_SUBSIDY
    ensures CheckBlockShape(b)
    ensures ConnectBlockSpec(idx, f, b, stakeSubsidy, v).Some?
  {
    var out := b.vtx[0].vout[0];
    SmallSums(out, out);
    assert b.vtx[0].vout == [out];
    OutputsFine(b.vtx[0]);
    assert CheckTransaction(b.vtx[0]);
    assert ConnectUpTo(idx, f, b, 0, v) == Some(Tally(idx, Totals(0, 0, 0, 0)));
    assert ConnectUpTo(idx, f, b, 1, v).Some?;
  }

  /** An accepted block whose coinbase has a hash that is already indexed: its undo erases the
      older record. */
  lemma UndoLosesDuplicate(h: Hash, prior: TxIndex, out: TxOut, f: Files, v: Verdict)
    requires 0 <= out.nValue <= POW_SUBSIDY && v.checkBlock
    ensures
      var idx := map[h := prior];
      var b := Block(0, 0, [Tx(h, 0, [OutPoint(0, NULL_N)], [out], 60)]);
      var t := ConnectBlockSpec(idx, f, b, 0, v);
      t.Some? && UndoBlock(t.value.idx, b) == Some(map[])
  {
    var idx := map[h := prior];
    var b := Block(0, 0, [Tx(h, 0, [OutPoint(0, NULL_N)], [out], 60)]);
    CoinbaseAccepted(idx, f, b, 0, v);
    ConnectedEffect(idx, f, b, 1, v);
    assert UndoDownTo(ApplyBlock(idx, b), b.vtx, 1) == Some(ApplyBlock(idx, b));
    assert ApplyBlock(idx, b) == ApplyTx(ApplyUpTo(idx, b, 0), b.vtx[0], b.PosOf(0));
    assert ApplyBlock(idx, b) - {h} == map[];
  }
}
