/** The rules a connected transaction and an accepted block obey, in plain terms: each input's
    parent as the index and the block files give it, times, amounts and the reward
    (src/main.cpp:1644-1758, 1916-1982, 2443-2520). */
module ConnectRules {
  import opened Collections
  import opened Transactions
  import opened IndexEffects
  import opened ConnectSpec

  // ---------------------------------------------------------------- one transaction

  lemma {:induction false} AcceptedEach(idx: Index, f: Files, tx: Tx, k: nat, v: Verdict)
    requires k <= |tx.vin|
    ensures InputsAccepted(idx, f, tx, k, v) <==> forall i :: 0 <= i < k ==> InputAccepted(idx, f, tx, i, v)
  {
    hide InputAccepted;
    if k > 0 {
      AcceptedEach(idx, f, tx, k - 1, v);
    }
  }

  lemma {:induction false} SpendsEach(idx: Index, vin: seq<OutPoint>, at: DiskTxPos)
    ensures SpendsOneByOne(idx, vin, at) <==>
      && (forall i :: 0 <= i < |vin| ==> Unspent(idx, vin[i]))
      && (forall i, j :: 0 <= i < j < |vin| ==> vin[i] != vin[j])
  {
    if vin != [] {
      var p, o := vin[..|vin| - 1], vin[|vin| - 1];
      SpendsEach(idx, p, at);
      if SpendsOneByOne(idx, p, at) {
        StillUnspentIff(idx, p, at, o);
      }
      hide SpendAll, Unspent;
      assert forall i :: 0 <= i < |p| ==> p[i] == vin[i];
    }
  }

  /** After spending inputs, an outpoint is unspent exactly if it was and is not among them. */
  lemma {:induction false} StillUnspentIff(idx: Index, vin: seq<OutPoint>, at: DiskTxPos, o: OutPoint)
    requires SpendsOneByOne(idx, vin, at)
    ensures Unspent(SpendAll(idx, vin, at), o) <==> Unspent(idx, o) && o !in vin
  {
    if vin != [] {
      var p, l := vin[..|vin| - 1], vin[|vin| - 1];
      StillUnspentIff(idx, p, at, o);
      SetUnspent(SpendAll(idx, p, at), l, at, o);
      hide SpendAll, SpendsOneByOne, Unspent, SetSpent;
      assert vin == p + [l];
      assert SpendAll(idx, vin, at) == SetSpent(SpendAll(idx, p, at), l, Some(at)) by { SpendAllLast(idx, vin, at); }
    }
  }

  lemma SpendAllLast(idx: Index, vin: seq<OutPoint>, at: DiskTxPos)
    requires vin != []
    ensures SpendAll(idx, vin, at) == SetSpent(SpendAll(idx, vin[..|vin| - 1], at), vin[|vin| - 1], Some(at))
  {
    hide SetSpent;
  }

  lemma SetUnspent(idx: Index, l: OutPoint, at: DiskTxPos, o: OutPoint)
    requires Unspent(idx, l)
    ensures Unspent(SetSpent(idx, l, Some(at)), o) <==> Unspent(idx, o) && o != l
  {
  }

  /** The input spends an unspent output of a stored parent that is not younger, is allowed to,
      and its amount and the running sum are amounts of money. */
  predicate InputRule(idx: Index, f: Files, tx: Tx, i: nat, v: Verdict)
    requires i < |tx.vin|
  {
    var o := tx.vin[i];
    && o.hash in idx && o.n < |idx[o.hash].vSpent| && idx[o.hash].vSpent[o.n] == None
    && var p := f.Read(o.hash, idx[o.hash].pos);
    && p.Some? && o.n < |p.value.vout|
    && p.value.nTime <= tx.nTime && v.inputOk(tx.hash, i)
    && 0 <= p.value.vout[o.n].nValue <= 30_000_000 * 100_000_000
    && 0 <= ValueIn(idx, f, tx.vin[..i + 1]) <= 30_000_000 * 100_000_000
  }

  lemma InputRuleIff(idx: Index, f: Files, tx: Tx, i: nat, v: Verdict)
    requires i < |tx.vin|
    ensures InputRule(idx, f, tx, i, v) <==> InputAccepted(idx, f, tx, i, v) && Unspent(idx, tx.vin[i])
  {
    hide ValueIn;
  }

  /** A transaction connects if and only if every input obeys the rule, no two are the same, and
      the fee is an amount of money unless it is a coinstake. */
  lemma TxConnectsIff(idx: Index, f: Files, tx: Tx, pos: DiskTxPos, v: Verdict)
    ensures TxConnects(idx, f, tx, pos, v) <==>
      && (forall i :: 0 <= i < |tx.vin| ==> InputRule(idx, f, tx, i, v))
      && (forall i, j :: 0 <= i < j < |tx.vin| ==> tx.vin[i] != tx.vin[j])
      && (tx.IsCoinStake() || 0 <= ValueIn(idx, f, tx.vin) - tx.ValueOut() <= 30_000_000 * 100_000_000)
  {
    AcceptedEach(idx, f, tx, |tx.vin|, v);
    SpendsEach(idx, tx.vin, pos);
    forall i | 0 <= i < |tx.vin|
      ensures InputRule(idx, f, tx, i, v) <==> InputAccepted(idx, f, tx, i, v) && Unspent(idx, tx.vin[i])
    {
      InputRuleIff(idx, f, tx, i, v);
    }
    hide InputsAccepted, SpendsOneByOne, ValueIn, SumValues, InputAccepted, Unspent, InputRule;
  }

  // ---------------------------------------------------------------- what a block adds up to

  /** The fees of the first k transactions: inputs less outputs of those that are neither
      coinbase nor coinstake, each in its turn. */
  function FeesOf(idx: Index, f: Files, b: Block, k: nat): int
    requires k <= |b.vtx|
  {
    if k == 0 then 0
    else
      var tx := b.vtx[k - 1];
      FeesOf(idx, f, b, k - 1) +
      if tx.IsCoinBase() || tx.IsCoinStake() then 0 else ValueIn(ApplyUpTo(idx, b, k - 1), f, tx.vin) - tx.ValueOut()
  }

  lemma {:induction false} FeesTallied(idx: Index, f: Files, b: Block, k: nat, v: Verdict)
    requires k <= |b.vtx| && ConnectUpTo(idx, f, b, k, v).Some?
    ensures ConnectUpTo(idx, f, b, k, v).value.sum.fees == FeesOf(idx, f, b, k)
    decreases k
  {
    hide TxConnects, ApplyTx, ValueIn, SumValues;
    if k > 0 {
      FeesTallied(idx, f, b, k - 1, v);
      ConnectedEffect(idx, f, b, k - 1, v);
    }
  }

  /** In a proof-of-stake block the stake reward is what the second transaction creates. */
  lemma {:induction false} RewardTallied(idx: Index, f: Files, b: Block, k: nat, v: Verdict)
    requires CheckBlockShape(b) && b.IsProofOfStake() && 2 <= k <= |b.vtx| && ConnectUpTo(idx, f, b, k, v).Some?
    ensures ConnectUpTo(idx, f, b, k, v).value.sum.stakeReward ==
      b.vtx[1].ValueOut() - ValueIn(ApplyUpTo(idx, b, 1), f, b.vtx[1].vin)
    decreases k
  {
    hide TxConnects, ApplyTx, ValueIn, SumValues, CheckTransaction, DistinctHashes;
    if k > 2 {
      RewardTallied(idx, f, b, k - 1, v);
    } else {
      assert ConnectUpTo(idx, f, b, 1, v).Some?;
      ConnectedEffect(idx, f, b, 1, v);
    }
  }

  lemma ConnectsNext(idx: Index, f: Files, b: Block, k: nat, v: Verdict)
    requires k < |b.vtx|
    ensures ConnectUpTo(idx, f, b, k + 1, v).Some? <==>
      && ConnectUpTo(idx, f, b, k, v).Some?
      && (b.vtx[k].IsCoinBase() || TxConnects(ApplyUpTo(idx, b, k), f, b.vtx[k], b.PosOf(k), v))
  {
    hide TxConnects, ApplyTx;
    if ConnectUpTo(idx, f, b, k, v).Some? {
      ConnectedEffect(idx, f, b, k, v);
    }
  }

  lemma {:induction false} ConnectsEach(idx: Index, f: Files, b: Block, k: nat, v: Verdict)
    requires k <= |b.vtx|
    ensures ConnectUpTo(idx, f, b, k, v).Some? <==>
      forall j :: 0 <= j < k && !b.vtx[j].IsCoinBase() ==>
        TxConnects(ApplyUpTo(idx, b, j), f, b.vtx[j], b.PosOf(j), v)
    decreases k
  {
    hide *;
    if k == 0 {
      NothingConnected(idx, f, b, v);
    } else {
      ConnectsEach(idx, f, b, k - 1, v);
      ConnectsNext(idx, f, b, k - 1, v);
    }
  }

  lemma NothingConnected(idx: Index, f: Files, b: Block, v: Verdict)
    ensures ConnectUpTo(idx, f, b, 0, v).Some?
  {
  }

  // ---------------------------------------------------------------- a whole block

  /** The reward claimed by the coinbase, or by the coinstake of a proof-of-stake block. */
  predicate RewardRule(idx: Index, f: Files, b: Block, stakeSubsidy: int, v: Verdict) {
    && |b.vtx| > 0
    && if |b.vtx| > 1 && b.vtx[1].IsCoinStake()
       then v.coinAge &&
            b.vtx[1].ValueOut() - ValueIn(ApplyUpTo(idx, b, 1), f, b.vtx[1].vin) <= stakeSubsidy + FeesOf(idx, f, b, |b.vtx|)
       else b.vtx[0].ValueOut() <= 150 * 100_000_000 + FeesOf(idx, f, b, |b.vtx|)
  }

  /** A block is accepted if and only if it passes the checks that need no index, every
      transaction but the coinbase obeys the rules of its inputs and fee on the index that the
      ones before it leave, and the reward claimed is within the subsidy and the fees. */
  lemma AcceptedIff(idx: Index, f: Files, b: Block, stakeSubsidy: int, v: Verdict)
    ensures ConnectBlockSpec(idx, f, b, stakeSubsidy, v).Some? <==>
      && v.checkBlock && CheckBlockShape(b)
      && (forall k, i :: 1 <= k < |b.vtx| && 0 <= i < |b.vtx[k].vin| ==>
            InputRule(ApplyUpTo(idx, b, k), f, b.vtx[k], i, v))
      && (forall k :: 1 <= k < |b.vtx| ==>
            b.vtx[k].IsCoinStake() ||
            0 <= ValueIn(ApplyUpTo(idx, b, k), f, b.vtx[k].vin) - b.vtx[k].ValueOut() <= 30_000_000 * 100_000_000)
      && RewardRule(idx, f, b, stakeSubsidy, v)
  {
    hide InputRule, TxConnects, ConnectUpTo, ApplyUpTo, ValueIn, SumValues, CheckTransaction, DistinctHashes, FeesOf;
    if CheckBlockShape(b) {
      ConnectsEach(idx, f, b, |b.vtx|, v);
      forall k | 1 <= k < |b.vtx|
        ensures TxConnects(ApplyUpTo(idx, b, k), f, b.vtx[k], b.PosOf(k), v) <==>
          && (forall i :: 0 <= i < |b.vtx[k].vin| ==> InputRule(ApplyUpTo(idx, b, k), f, b.vtx[k], i, v))
          && (b.vtx[k].IsCoinStake() ||
              0 <= ValueIn(ApplyUpTo(idx, b, k), f, b.vtx[k].vin) - b.vtx[k].ValueOut() <= 30_000_000 * 100_000_000)
      {
        TxConnectsIff(ApplyUpTo(idx, b, k), f, b.vtx[k], b.PosOf(k), v);
        DifferentInputs(b, k);
      }
      if ConnectUpTo(idx, f, b, |b.vtx|, v).Some? {
        FeesTallied(idx, f, b, |b.vtx|, v);
        if b.IsProofOfStake() {
          RewardTallied(idx, f, b, |b.vtx|, v);
        }
      }
    }
  }

  lemma DifferentInputs(b: Block, k: nat)
    requires CheckBlockShape(b) && k < |b.vtx|
    ensures forall i, j :: 0 <= i < j < |b.vtx[k].vin| ==> b.vtx[k].vin[i] != b.vtx[k].vin[j]
  {
    hide OutputsOk;
    assert CheckTransaction(b.vtx[k]);
  }

  /** What an accepted block's input i of transaction k is: an output unspent in its turn, of a
      parent no younger than the spender, correctly spent, and an amount of money. */
  lemma AcceptedInput(idx: Index, f: Files, b: Block, stakeSubsidy: int, v: Verdict, k: nat, i: nat)
    requires ConnectBlockSpec(idx, f, b, stakeSubsidy, v).Some? && 1 <= k < |b.vtx| && i < |b.vtx[k].vin|
    ensures
      var before, tx := ApplyUpTo(idx, b, k), b.vtx[k];
      var o := tx.vin[i];
      && o.hash in before && o.n < |before[o.hash].vSpent| && before[o.hash].vSpent[o.n] == None
      && var p := f.Read(o.hash, before[o.hash].pos);
      && p.Some? && o.n < |p.value.vout| && p.value.nTime <= tx.nTime && v.inputOk(tx.hash, i)
      && 0 <= p.value.vout[o.n].nValue <= 30_000_000 * 100_000_000
      && 0 <= ValueIn(before, f, tx.vin[..i + 1]) <= 30_000_000 * 100_000_000
  {
    AcceptedIff(idx, f, b, stakeSubsidy, v);
    hide ConnectBlockSpec, ApplyUpTo, ValueIn;
    assert InputRule(ApplyUpTo(idx, b, k), f, b.vtx[k], i, v);
  }

  // ---------------------------------------------------------------- checks without an index

  /** Output i is an amount of money, as is the sum up to it, and only a coinbase or a
      coinstake leaves it empty. */
  predicate OutputRule(tx: Tx, i: nat)
    requires i < |tx.vout|
  {
    && (tx.vout[i] == TxOut(0, true) ==> tx.IsCoinBase() || tx.IsCoinStake())
    && 0 <= tx.vout[i].nValue <= 30_000_000 * 100_000_000
    && 0 <= SumValues(tx.vout[..i + 1]) <= 30_000_000 * 100_000_000
  }

  lemma {:induction false} OutputsEach(tx: Tx, k: nat)
    requires k <= |tx.vout|
    ensures OutputsOk(tx, k) <==> forall i: nat :: i < k ==> OutputRule(tx, i)
  {
    if k > 0 {
      OutputsEach(tx, k - 1);
      assert OutputsOk(tx, k) <==> OutputsOk(tx, k - 1) && OutputRule(tx, k - 1) by {
        hide SumValues, Tx.IsCoinBase, Tx.IsCoinStake;
      }
      hide OutputsOk, OutputRule;
    }
  }

  /** A transaction of an accepted block has inputs, all different and, the coinbase aside,
      none null, and it has outputs; no hash comes twice, and in a proof-of-stake block no
      coinstake follows the one in second place. */
  lemma AcceptedShape(idx: Index, f: Files, b: Block, stakeSubsidy: int, v: Verdict, k: nat)
    requires ConnectBlockSpec(idx, f, b, stakeSubsidy, v).Some? && k < |b.vtx|
    ensures b.vtx[k].vin != [] && b.vtx[k].vout != []
    ensures forall i, j :: 0 <= i < j < |b.vtx[k].vin| ==> b.vtx[k].vin[i] != b.vtx[k].vin[j]
    ensures k == 0 <==> |b.vtx[k].vin| == 1 && b.vtx[k].vin[0] == OutPoint(0, 0xFFFF_FFFF)
    ensures k > 0 ==> forall i :: 0 <= i < |b.vtx[k].vin| ==> b.vtx[k].vin[i] != OutPoint(0, 0xFFFF_FFFF)
    ensures forall j :: 0 <= j < |b.vtx| && j != k ==> b.vtx[j].hash != b.vtx[k].hash
    ensures |b.vtx| > 1 && b.vtx[1].IsCoinStake() ==>
      b.vtx[0].vout == [TxOut(0, true)] && (k > 1 ==> !b.vtx[k].IsCoinStake())
  {
    hide ConnectUpTo, OutputsOk, SumValues, RewardOk;
    assert CheckTransaction(b.vtx[k]);
    assert b.vtx[k].IsCoinBase() <==> k == 0;
  }

  /** Each of its outputs and each running sum of them is an amount of money, and only the
      coinbase and coinstakes have empty ones. */
  lemma AcceptedOutput(idx: Index, f: Files, b: Block, stakeSubsidy: int, v: Verdict, k: nat, i: nat)
    requires ConnectBlockSpec(idx, f, b, stakeSubsidy, v).Some? && k < |b.vtx| && i < |b.vtx[k].vout|
    ensures
      var tx := b.vtx[k];
      && 0 <= tx.vout[i].nValue <= 30_000_000 * 100_000_000
      && 0 <= SumValues(tx.vout[..i + 1]) <= 30_000_000 * 100_000_000
      && (tx.vout[i] == TxOut(0, true) && k > 0 ==>
            |tx.vin| > 0 && tx.vin[0] != OutPoint(0, 0xFFFF_FFFF) && |tx.vout| > 1 && tx.vout[0] == TxOut(0, true))
  {
    hide ConnectUpTo, OutputsOk, SumValues, RewardOk;
    assert CheckTransaction(b.vtx[k]);
    OutputsEach(b.vtx[k], |b.vtx[k].vout|);
    assert OutputRule(b.vtx[k], i);
  }

  // ---------------------------------------------------------------- who spent an output

  /** The spender that the index records for an outpoint. */
  function SpenderOf(idx: Index, o: OutPoint): Option<DiskTxPos> {
    if Known(idx, o) then idx[o.hash].vSpent[o.n] else None
  }

  lemma {:induction false} SpendAllSpender(idx: Index, vin: seq<OutPoint>, at: DiskTxPos, o: OutPoint)
    requires SpendsOneByOne(idx, vin, at)
    ensures SpenderOf(SpendAll(idx, vin, at), o) == if o in vin then Some(at) else SpenderOf(idx, o)
  {
    if vin != [] {
      var p, l := vin[..|vin| - 1], vin[|vin| - 1];
      SpendAllSpender(idx, p, at, o);
      hide SpendsOneByOne;
      assert vin == p + [l];
    }
  }

  /** The index after n transactions names, for every input of an earlier one, the position of
      that transaction as its spender. */
  lemma {:induction false} SpenderRecorded(idx: Index, b: Block, n: nat, k: nat, i: nat)
    requires k < n <= |b.vtx| && SpendsUpTo(idx, b, n) && DistinctHashes(b.vtx) && Fresh(idx, b)
    requires !b.vtx[k].IsCoinBase() && i < |b.vtx[k].vin|
    ensures SpenderOf(ApplyUpTo(idx, b, n), b.vtx[k].vin[i]) == Some(b.PosOf(k))
    decreases n
  {
    var o, tx, before := b.vtx[k].vin[i], b.vtx[n - 1], ApplyUpTo(idx, b, n - 1);
    if k < n - 1 {
      SpenderRecorded(idx, b, n - 1, k, i);
    }
    FreshWhenApplied(idx, b, n - 1);
    if !tx.IsCoinBase() {
      SpendAllSpender(before, tx.vin, b.PosOf(n - 1), o);
      SpendsEach(before, tx.vin, b.PosOf(n - 1));
      SpendAllKeys(before, tx.vin, b.PosOf(n - 1));
    }
    hide SpendAll, SpendsOneByOne, NewTxIndex, DistinctHashes, Fresh;
  }

  // ---------------------------------------------------------------- kinds and places

  /** A coinbase has one input, the null one, and an output; a coinstake starts with an input
      that is not null and an empty output followed by another one. */
  lemma KindsMean(tx: Tx)
    ensures tx.IsCoinBase() <==> |tx.vin| == 1 && tx.vin[0] == OutPoint(0, 0xFFFF_FFFF) && |tx.vout| >= 1
    ensures tx.IsCoinStake() <==>
      |tx.vin| >= 1 && tx.vin[0] != OutPoint(0, 0xFFFF_FFFF) && |tx.vout| >= 2 && tx.vout[0] == TxOut(0, true)
    ensures !(tx.IsCoinBase() && tx.IsCoinStake())
  {
  }

  /** The first transaction follows the header of 80 bytes and the count; each further one
      follows the one before. */
  lemma PlacesMean(b: Block, i: nat)
    requires i < |b.vtx|
    ensures |b.vtx| < 253 ==> b.PosOf(0) == DiskTxPos(b.nFile, b.nBlockPos, b.nBlockPos + 81)
    ensures 253 <= |b.vtx| < 0x1_0000 ==> b.PosOf(0) == DiskTxPos(b.nFile, b.nBlockPos, b.nBlockPos + 83)
    ensures b.PosOf(i + 1) == b.PosOf(i).(nTxPos := b.PosOf(i).nTxPos + b.vtx[i].size)
  {
  }
}
