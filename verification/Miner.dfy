/** Block assembly (src/miner.cpp:128-360): collecting the memory pool's transactions into a
    priority queue and a list of waiting ones, and picking from the queue. Priorities are
    reals; the order of equal ones is left open. */
module Miner {
  import opened Collections
  import opened Transactions
  import opened IndexEffects
  import opened ConnectSpec
  import opened TxDb
  import opened Connect
  import opened Assembly

  const MAX_BLOCK_SIZE: nat := 3_000_000
  const MAX_BLOCK_SIGOPS: nat := MAX_BLOCK_SIZE / 50

  function Max(a: nat, b: nat): nat {
    if a < b then b else a
  }

  /** The command-line arguments as given, and the facts the assembler looks up. */
  datatype Settings = Settings(
    blockMaxSize: nat, blockPrioritySize: nat, blockMinSize: nat, nMinTxFee: int,
    now: nat, coinbaseTime: nat, fProofOfStake: bool,
    isFinal: Hash -> bool, depth: Hash -> int, legacySigOps: Hash -> nat, p2shSigOps: Hash -> nat)
  {
    function MaxSize(): nat {
      Max(1000, Min(MAX_BLOCK_SIZE - 1000, blockMaxSize))
    }

    function PrioritySize(): nat {
      Min(MaxSize(), blockPrioritySize)
    }

    function MinSize(): nat {
      Min(MaxSize(), blockMinSize)
    }
  }

  // ---------------------------------------------------------------- the priority queue

  datatype TxPriority = TxPriority(dPriority: real, dFeePerKb: real, tx: Tx)

  /** The comparer: a before b means b comes off the queue first. */
  predicate Before(byFee: bool, a: TxPriority, b: TxPriority) {
    if byFee then a.dFeePerKb < b.dFeePerKb || (a.dFeePerKb == b.dFeePerKb && a.dPriority < b.dPriority)
    else a.dPriority < b.dPriority || (a.dPriority == b.dPriority && a.dFeePerKb < b.dFeePerKb)
  }

  /** Takes a highest entry off the queue. */
  method PopHighest(vecPriority: seq<TxPriority>, byFee: bool) returns (top: TxPriority, rest: seq<TxPriority>, ghost at: nat)
    requires vecPriority != []
    ensures at < |vecPriority| && top == vecPriority[at] && rest == vecPriority[..at] + vecPriority[at + 1..]
    ensures forall i :: 0 <= i < |vecPriority| ==> !Before(byFee, top, vecPriority[i])
    ensures byFee ==> forall i :: 0 <= i < |vecPriority| ==>
      && top.dFeePerKb >= vecPriority[i].dFeePerKb
      && (top.dFeePerKb == vecPriority[i].dFeePerKb ==> top.dPriority >= vecPriority[i].dPriority)
    ensures !byFee ==> forall i :: 0 <= i < |vecPriority| ==>
      && top.dPriority >= vecPriority[i].dPriority
      && (top.dPriority == vecPriority[i].dPriority ==> top.dFeePerKb >= vecPriority[i].dFeePerKb)
  {
    var best := 0;
    for i := 1 to |vecPriority|
      invariant best < |vecPriority| && forall j :: 0 <= j < i ==> !Before(byFee, vecPriority[best], vecPriority[j])
    {
      if Before(byFee, vecPriority[best], vecPriority[i]) {
        best := i;
      }
    }
    return vecPriority[best], vecPriority[..best] + vecPriority[best + 1..], best;
  }

  // ---------------------------------------------------------------- collecting

  /** A transaction that waits for others of the memory pool. */
  datatype COrphan = COrphan(tx: Tx, setDependsOn: set<Hash>, dPriority: real, dFeePerKb: real)

  /** The parent is read from the database and has that output. */
  predicate Readable(idx: Index, f: Files, o: OutPoint) {
    Parent(idx, f, o).Some? && o.n < |Parent(idx, f, o).value.vout|
  }

  predicate InPool(f: Files, o: OutPoint) {
    o.hash in f.mempool && o.n < |f.mempool[o.hash].vout|
  }

  /** Every input connects to the chain or to the memory pool. */
  predicate Available(idx: Index, f: Files, tx: Tx) {
    forall i :: 0 <= i < |tx.vin| ==> Readable(idx, f, tx.vin[i]) || InPool(f, tx.vin[i])
  }

  /** The input connects to nothing known. */
  predicate Unknown(idx: Index, f: Files, o: OutPoint) {
    !Readable(idx, f, o) && o.hash !in f.mempool
  }

  predicate Missing(idx: Index, f: Files, tx: Tx) {
    exists i :: 0 <= i < |tx.vin| && Unknown(idx, f, tx.vin[i])
  }

  /** Every input connects, or one connects to nothing before any has to be waited for. */
  predicate Examinable(idx: Index, f: Files, tx: Tx) {
    Available(idx, f, tx) ||
    exists i :: 0 <= i < |tx.vin| && Unknown(idx, f, tx.vin[i]) && forall j :: 0 <= j < i ==> Readable(idx, f, tx.vin[j])
  }

  predicate Eligible(f: Files, s: Settings, tx: Tx) {
    tx.hash in f.mempool && f.mempool[tx.hash] == tx && !tx.IsCoinBase() && !tx.IsCoinStake() && s.isFinal(tx.hash)
  }

  /** The parents that are not in the database: what a transaction has to wait for. */
  function DependsOn(idx: Index, f: Files, vin: seq<OutPoint>): set<Hash> {
    set i | 0 <= i < |vin| && !Readable(idx, f, vin[i]) :: vin[i].hash
  }

  /** Value times depth of the inputs that are read from the database. */
  function AgedValue(idx: Index, f: Files, s: Settings, vin: seq<OutPoint>): real {
    if vin == [] then 0.0
    else
      var o := vin[|vin| - 1];
      AgedValue(idx, f, s, vin[..|vin| - 1]) +
      if Readable(idx, f, o) then Parent(idx, f, o).value.vout[o.n].nValue as real * s.depth(o.hash) as real else 0.0
  }

  /** Value of the inputs, from the database or the memory pool. */
  function TotalIn(idx: Index, f: Files, vin: seq<OutPoint>): int {
    if vin == [] then 0
    else
      var o := vin[|vin| - 1];
      TotalIn(idx, f, vin[..|vin| - 1]) +
      if Readable(idx, f, o) then Parent(idx, f, o).value.vout[o.n].nValue
      else if InPool(f, o) then f.mempool[o.hash].vout[o.n].nValue
      else 0
  }

  /** No serialization is empty. */
  function RealSize(tx: Tx): (r: real)
    ensures r > 0.0
  {
    if tx.size == 0 then 1.0 else tx.size as real
  }

  /** What a transaction is ranked by: aged value per byte, then fee per kilobyte. */
  function EntryOf(idx: Index, f: Files, s: Settings, tx: Tx): TxPriority {
    TxPriority(AgedValue(idx, f, s, tx.vin) / RealSize(tx),
               (TotalIn(idx, f, tx.vin) - tx.ValueOut()) as real / (RealSize(tx) / 1000.0), tx)
  }

  /** Sorts the inputs of one transaction into read and awaited parents and ranks it; gives up
      at an input that connects to nothing. */
  method Examine(db: CTxDB, f: Files, s: Settings, tx: Tx)
    returns (missing: bool, setDependsOn: set<Hash>, awaited: seq<Hash>, dPriority: real, dFeePerKb: real)
    requires Examinable(db.View(), f, tx)
    ensures missing <==> Missing(db.View(), f, tx)
    ensures !missing ==>
      && Available(db.View(), f, tx)
      && setDependsOn == DependsOn(db.View(), f, tx.vin) && (forall h :: h in setDependsOn <==> h in awaited)
      && TxPriority(dPriority, dFeePerKb, tx) == EntryOf(db.View(), f, s, tx)
  {
    hide *;
    missing, setDependsOn, awaited, dPriority, dFeePerKb := false, {}, [], 0.0, 0.0;
    var nTotalIn := 0;
    RankNone(db.View(), f, s, tx);
    for i := 0 to |tx.vin|
      invariant setDependsOn == DependsOn(db.View(), f, tx.vin[..i]) && forall h :: h in setDependsOn <==> h in awaited
      invariant dPriority == AgedValue(db.View(), f, s, tx.vin[..i]) && nTotalIn == TotalIn(db.View(), f, tx.vin[..i])
      invariant forall j :: 0 <= j < i ==> !Unknown(db.View(), f, tx.vin[j])
    {
      var o := tx.vin[i];
      ExaminedInput(db.View(), f, tx, i);
      DependsMore(db.View(), f, tx.vin, i);
      var txPrev := ReadPrev(db, f, o);
      if txPrev.None? {
        if o.hash !in f.mempool {
          return true, {}, [], 0.0, 0.0;
        }
        RankMore(db.View(), f, s, tx.vin, i);
        awaited := awaited + [o.hash];
        setDependsOn := setDependsOn + {o.hash};
        nTotalIn := nTotalIn + f.mempool[o.hash].vout[o.n].nValue;
      } else {
        RankMore(db.View(), f, s, tx.vin, i);
        var nValueIn := txPrev.value.vout[o.n].nValue;
        nTotalIn := nTotalIn + nValueIn;
        dPriority := dPriority + nValueIn as real * s.depth(o.hash) as real;
      }
    }
    dPriority := dPriority / RealSize(tx);
    dFeePerKb := (nTotalIn - tx.ValueOut()) as real / (RealSize(tx) / 1000.0);
    EntryIs(db.View(), f, s, tx);
    NoneMissing(db.View(), f, tx);
  }

  /** An input before which none was unknown is unknown, read, or an output of the pool. */
  lemma ExaminedInput(idx: Index, f: Files, tx: Tx, i: nat)
    requires Examinable(idx, f, tx) && i < |tx.vin| && forall j :: 0 <= j < i ==> !Unknown(idx, f, tx.vin[j])
    ensures Unknown(idx, f, tx.vin[i]) <==> !Readable(idx, f, tx.vin[i]) && tx.vin[i].hash !in f.mempool
    ensures Unknown(idx, f, tx.vin[i]) ==> Missing(idx, f, tx)
    ensures !Unknown(idx, f, tx.vin[i]) ==> Readable(idx, f, tx.vin[i]) || InPool(f, tx.vin[i])
    ensures !Unknown(idx, f, tx.vin[i]) && !Readable(idx, f, tx.vin[i]) ==>
      tx.vin[i].hash in f.mempool && tx.vin[i].n < |f.mempool[tx.vin[i].hash].vout|
  {
    hide Readable;
  }

  lemma NoneMissing(idx: Index, f: Files, tx: Tx)
    requires Examinable(idx, f, tx) && forall j :: 0 <= j < |tx.vin| ==> !Unknown(idx, f, tx.vin[j])
    ensures !Missing(idx, f, tx) && Available(idx, f, tx)
  {
    hide Readable, Unknown;
  }

  lemma RankNone(idx: Index, f: Files, s: Settings, tx: Tx)
    ensures DependsOn(idx, f, tx.vin[..0]) == {} && AgedValue(idx, f, s, tx.vin[..0]) == 0.0 && TotalIn(idx, f, tx.vin[..0]) == 0
  {
  }

  lemma EntryIs(idx: Index, f: Files, s: Settings, tx: Tx)
    ensures tx.vin[..|tx.vin|] == tx.vin
    ensures EntryOf(idx, f, s, tx) ==
      TxPriority(AgedValue(idx, f, s, tx.vin) / RealSize(tx),
                 (TotalIn(idx, f, tx.vin) - tx.ValueOut()) as real / (RealSize(tx) / 1000.0), tx)
  {
    hide AgedValue, TotalIn, RealSize;
  }

  /** CTransaction::ReadFromDisk on an outpoint. */
  method ReadPrev(db: CTxDB, f: Files, o: OutPoint) returns (txPrev: Option<Tx>)
    ensures txPrev == if Readable(db.View(), f, o) then Parent(db.View(), f, o) else None
    ensures txPrev.Some? <==> Readable(db.View(), f, o)
    ensures txPrev.Some? ==> o.n < |txPrev.value.vout|
  {
    var entry := db.ReadTxIndex(o.hash);
    if entry.None? {
      return None;
    }
    txPrev := f.Read(o.hash, entry.value.pos);
    if txPrev.Some? && o.n >= |txPrev.value.vout| {
      txPrev := None;
    }
  }

  lemma RankMore(idx: Index, f: Files, s: Settings, vin: seq<OutPoint>, i: nat)
    requires i < |vin| && (Readable(idx, f, vin[i]) || InPool(f, vin[i]))
    ensures Readable(idx, f, vin[i]) ==>
      && AgedValue(idx, f, s, vin[..i + 1]) ==
         AgedValue(idx, f, s, vin[..i]) + Parent(idx, f, vin[i]).value.vout[vin[i].n].nValue as real * s.depth(vin[i].hash) as real
      && TotalIn(idx, f, vin[..i + 1]) == TotalIn(idx, f, vin[..i]) + Parent(idx, f, vin[i]).value.vout[vin[i].n].nValue
    ensures !Readable(idx, f, vin[i]) ==>
      && AgedValue(idx, f, s, vin[..i + 1]) == AgedValue(idx, f, s, vin[..i])
      && TotalIn(idx, f, vin[..i + 1]) == TotalIn(idx, f, vin[..i]) + f.mempool[vin[i].hash].vout[vin[i].n].nValue
  {
    hide Parent;
    assert vin[..i + 1][..i] == vin[..i];
  }

  lemma DependsMore(idx: Index, f: Files, vin: seq<OutPoint>, i: nat)
    requires i < |vin|
    ensures DependsOn(idx, f, vin[..i + 1]) ==
      if Readable(idx, f, vin[i]) then DependsOn(idx, f, vin[..i]) else DependsOn(idx, f, vin[..i]) + {vin[i].hash}
  {
    hide Readable;
    assert vin[..i + 1] == vin[..i] + [vin[i]];
  }

  // ---------------------------------------------------------------- the two lists

  function Waiting(vOrphan: seq<COrphan>): nat {
    if vOrphan == [] then 0
    else Waiting(vOrphan[..|vOrphan| - 1]) + (if vOrphan[|vOrphan| - 1].setDependsOn != {} then 1 else 0)
  }

  /** Every transaction is in one place: in the queue, among the waiting ones, or taken. */
  ghost predicate Separate(vecPriority: seq<TxPriority>, vOrphan: seq<COrphan>, taken: set<Hash>) {
    && (forall i, j :: 0 <= i < j < |vecPriority| ==> vecPriority[i].tx.hash != vecPriority[j].tx.hash)
    && (forall i :: 0 <= i < |vecPriority| ==> vecPriority[i].tx.hash !in taken)
    && (forall i, j :: 0 <= i < j < |vOrphan| ==> vOrphan[i].tx.hash != vOrphan[j].tx.hash)
    && (forall i :: 0 <= i < |vOrphan| && vOrphan[i].setDependsOn != {} ==> vOrphan[i].tx.hash !in taken)
    && (forall i, j :: 0 <= i < |vOrphan| && 0 <= j < |vecPriority| && vOrphan[i].setDependsOn != {} ==>
          vOrphan[i].tx.hash != vecPriority[j].tx.hash)
  }

  /** What a transaction still waits for is in `deps`; its other parents are in the database
      or chosen. */
  predicate WaitsFor(idx: Index, f: Files, tx: Tx, deps: set<Hash>, chosen: set<Hash>) {
    forall i :: 0 <= i < |tx.vin| ==>
      Readable(idx, f, tx.vin[i]) || (InPool(f, tx.vin[i]) && (tx.vin[i].hash in deps || tx.vin[i].hash in chosen))
  }

  /** Queued transactions wait for nothing; everyone is ranked as it should be. */
  ghost predicate InOrder(idx: Index, f: Files, s: Settings, vecPriority: seq<TxPriority>, vOrphan: seq<COrphan>, chosen: set<Hash>) {
    && (forall i :: 0 <= i < |vecPriority| ==>
          && Eligible(f, s, vecPriority[i].tx) && WaitsFor(idx, f, vecPriority[i].tx, {}, chosen)
          && vecPriority[i] == EntryOf(idx, f, s, vecPriority[i].tx))
    && (forall i :: 0 <= i < |vOrphan| ==>
          && Eligible(f, s, vOrphan[i].tx) && WaitsFor(idx, f, vOrphan[i].tx, vOrphan[i].setDependsOn, chosen)
          && TxPriority(vOrphan[i].dPriority, vOrphan[i].dFeePerKb, vOrphan[i].tx) == EntryOf(idx, f, s, vOrphan[i].tx))
  }

  predicate IndicesOk(mapDependers: map<Hash, seq<nat>>, n: nat) {
    forall h, i :: h in mapDependers && 0 <= i < |mapDependers[h]| ==> mapDependers[h][i] < n
  }

  ghost predicate Placed(vecPriority: seq<TxPriority>, vOrphan: seq<COrphan>, vec: seq<TxPriority>, orphans: seq<COrphan>, tx: Tx) {
    || (vec == vecPriority && |orphans| == |vOrphan| + 1 && orphans[..|vOrphan|] == vOrphan
        && orphans[|vOrphan|].tx == tx && orphans[|vOrphan|].setDependsOn != {})
    || (orphans == vOrphan && |vec| == |vecPriority| + 1 && vec[..|vecPriority|] == vecPriority && vec[|vecPriority|].tx == tx)
  }

  /** One memory-pool transaction goes to the queue, or waits for its unconfirmed parents, or
      is skipped for an input that connects to nothing. */
  method Place(db: CTxDB, f: Files, s: Settings, tx: Tx, vecPriority: seq<TxPriority>, vOrphan: seq<COrphan>,
               mapDependers: map<Hash, seq<nat>>)
    returns (missing: bool, vec: seq<TxPriority>, orphans: seq<COrphan>, dependers: map<Hash, seq<nat>>)
    requires Examinable(db.View(), f, tx) && Eligible(f, s, tx) && IndicesOk(mapDependers, |vOrphan|)
    requires InOrder(db.View(), f, s, vecPriority, vOrphan, {}) && Separate(vecPriority, vOrphan, {})
    requires forall i :: 0 <= i < |vecPriority| ==> vecPriority[i].tx.hash != tx.hash
    requires forall i :: 0 <= i < |vOrphan| ==> vOrphan[i].tx.hash != tx.hash
    requires Registered(mapDependers, vOrphan)
    ensures InOrder(db.View(), f, s, vec, orphans, {}) && Separate(vec, orphans, {}) && IndicesOk(dependers, |orphans|)
    ensures Registered(dependers, orphans)
    ensures forall i :: |vOrphan| <= i < |orphans| ==> orphans[i].setDependsOn == DependsOn(db.View(), f, orphans[i].tx.vin)
    ensures missing <==> Missing(db.View(), f, tx)
    ensures if missing then vec == vecPriority && orphans == vOrphan else Placed(vecPriority, vOrphan, vec, orphans, tx)
  {
    hide Eligible, Readable, InPool, EntryOf, Missing, Examinable, Available;
    vec, orphans, dependers := vecPriority, vOrphan, mapDependers;
    var setDependsOn, awaited, dPriority, dFeePerKb;
    missing, setDependsOn, awaited, dPriority, dFeePerKb := Examine(db, f, s, tx);
    if missing {
      return;
    }
    DependsCover(db.View(), f, tx);
    if setDependsOn != {} {
      var o := COrphan(tx, setDependsOn, dPriority, dFeePerKb);
      orphans := orphans + [o];
      dependers := Register(dependers, awaited, |vOrphan|);
    } else {
      var e := TxPriority(dPriority, dFeePerKb, tx);
      vec := vec + [e];
    }
  }

  /** The waiting transaction is listed once for each awaited input. */
  method Register(mapDependers: map<Hash, seq<nat>>, awaited: seq<Hash>, at: nat)
    returns (dependers: map<Hash, seq<nat>>)
    requires IndicesOk(mapDependers, at)
    ensures IndicesOk(dependers, at + 1)
    ensures forall h :: h in awaited ==> h in dependers && at in dependers[h]
    ensures forall h :: h in mapDependers ==> h in dependers && mapDependers[h] <= dependers[h]
  {
    dependers := mapDependers;
    for i := 0 to |awaited|
      invariant IndicesOk(dependers, at + 1)
      invariant forall j :: 0 <= j < i ==> awaited[j] in dependers && at in dependers[awaited[j]]
      invariant forall h :: h in mapDependers ==> h in dependers && mapDependers[h] <= dependers[h]
    {
      var hash := awaited[i];
      dependers := dependers[hash := (if hash in dependers then dependers[hash] else []) + [at]];
    }
  }

  lemma DependsCover(idx: Index, f: Files, tx: Tx)
    requires Available(idx, f, tx)
    ensures WaitsFor(idx, f, tx, DependsOn(idx, f, tx.vin), {})
  {
    hide Readable, InPool;
  }

  /** The lists lead from each awaited parent to those who wait for it. */
  ghost predicate Registered(mapDependers: map<Hash, seq<nat>>, vOrphan: seq<COrphan>) {
    forall i, h :: 0 <= i < |vOrphan| && h in vOrphan[i].setDependsOn ==> h in mapDependers && i in mapDependers[h]
  }

  ghost predicate Queued(vecPriority: seq<TxPriority>, tx: Tx) {
    exists i :: 0 <= i < |vecPriority| && vecPriority[i].tx == tx
  }

  ghost predicate Held(vOrphan: seq<COrphan>, tx: Tx) {
    exists i :: 0 <= i < |vOrphan| && vOrphan[i].setDependsOn != {} && vOrphan[i].tx == tx
  }

  /** The transaction is in the queue, waiting, or taken. */
  ghost predicate Covered(vecPriority: seq<TxPriority>, vOrphan: seq<COrphan>, taken: set<Hash>, tx: Tx) {
    tx.hash in taken || Queued(vecPriority, tx) || Held(vOrphan, tx)
  }

  ghost predicate AllCovered(f: Files, s: Settings, vecPriority: seq<TxPriority>, vOrphan: seq<COrphan>, taken: set<Hash>, upTo: seq<Hash>) {
    forall h :: h in upTo && h in f.mempool && Eligible(f, s, f.mempool[h]) ==> Covered(vecPriority, vOrphan, taken, f.mempool[h])
  }

  /** Goes through the memory pool in the order of its map. */
  method Collect(db: CTxDB, f: Files, s: Settings, order: seq<Hash>)
    returns (vecPriority: seq<TxPriority>, vOrphan: seq<COrphan>, mapDependers: map<Hash, seq<nat>>, ghost listed: seq<Hash>)
    requires forall i, j :: 0 <= i < j < |order| ==> order[i] != order[j]
    requires forall i :: 0 <= i < |order| ==> order[i] in f.mempool && f.mempool[order[i]].hash == order[i]
    requires forall i :: 0 <= i < |order| && Eligible(f, s, f.mempool[order[i]]) ==> Examinable(db.View(), f, f.mempool[order[i]])
    ensures InOrder(db.View(), f, s, vecPriority, vOrphan, {}) && Separate(vecPriority, vOrphan, {})
    ensures IndicesOk(mapDependers, |vOrphan|) && Registered(mapDependers, vOrphan)
    ensures AllCovered(f, s, vecPriority, vOrphan, {}, listed) && Unmet(db.View(), f, vOrphan, {})
    ensures forall h :: h in order && h in f.mempool && h !in listed ==>
              !Eligible(f, s, f.mempool[h]) || Missing(db.View(), f, f.mempool[h])
  {
    hide Eligible, Available, Examinable, Missing, InOrder, Separate, IndicesOk, Registered, AllCovered, DependsOn;
    vecPriority, vOrphan, mapDependers, listed := [], [], map[], [];
    NothingPlaced(db.View(), f, s);
    assert order[..0] == [];
    for k := 0 to |order|
      invariant InOrder(db.View(), f, s, vecPriority, vOrphan, {}) && Separate(vecPriority, vOrphan, {})
      invariant IndicesOk(mapDependers, |vOrphan|) && Registered(mapDependers, vOrphan)
      invariant AllCovered(f, s, vecPriority, vOrphan, {}, listed) && Unmet(db.View(), f, vOrphan, {})
      invariant forall i :: 0 <= i < |vecPriority| ==> vecPriority[i].tx.hash in order[..k]
      invariant forall i :: 0 <= i < |vOrphan| ==> vOrphan[i].tx.hash in order[..k]
      invariant forall h :: h in order[..k] && h in f.mempool && h !in listed ==>
                  !Eligible(f, s, f.mempool[h]) || Missing(db.View(), f, f.mempool[h])
    {
      var tx := f.mempool[order[k]];
      assert order[..k + 1] == order[..k] + [order[k]] && order[k] !in order[..k];
      EligibleIs(f, s, tx);
      if !tx.IsCoinBase() && !tx.IsCoinStake() && s.isFinal(tx.hash) {
        ghost var vec0, orphans0 := vecPriority, vOrphan;
        var missing;
        missing, vecPriority, vOrphan, mapDependers := Place(db, f, s, tx, vecPriority, vOrphan, mapDependers);
        if !missing {
          PlacedOne(f, s, vec0, orphans0, vecPriority, vOrphan, order, k, listed);
          listed := listed + [order[k]];
        }
      }
    }
    assert order[..|order|] == order;
  }

  lemma NothingPlaced(idx: Index, f: Files, s: Settings)
    ensures InOrder(idx, f, s, [], [], {}) && Separate([], [], {}) && IndicesOk(map[], 0) && Registered(map[], [])
    ensures AllCovered(f, s, [], [], {}, [])
  {
  }

  lemma EligibleIs(f: Files, s: Settings, tx: Tx)
    ensures Eligible(f, s, tx) <==>
      tx.hash in f.mempool && f.mempool[tx.hash] == tx && !tx.IsCoinBase() && !tx.IsCoinStake() && s.isFinal(tx.hash)
  {
  }

  lemma PlacedOne(f: Files, s: Settings, vec0: seq<TxPriority>, orphans0: seq<COrphan>, vec: seq<TxPriority>, orphans: seq<COrphan>,
                  order: seq<Hash>, k: nat, listed: seq<Hash>)
    requires k < |order| && order[k] in f.mempool && f.mempool[order[k]].hash == order[k]
    requires Placed(vec0, orphans0, vec, orphans, f.mempool[order[k]])
    requires AllCovered(f, s, vec0, orphans0, {}, listed)
    requires forall i :: 0 <= i < |vec0| ==> vec0[i].tx.hash in order[..k]
    requires forall i :: 0 <= i < |orphans0| ==> orphans0[i].tx.hash in order[..k]
    ensures AllCovered(f, s, vec, orphans, {}, listed + [order[k]])
    ensures forall i :: 0 <= i < |vec| ==> vec[i].tx.hash in order[..k + 1]
    ensures forall i :: 0 <= i < |orphans| ==> orphans[i].tx.hash in order[..k + 1]
  {
    hide Eligible;
    assert order[..k + 1] == order[..k] + [order[k]];
    forall h | h in listed + [order[k]] && h in f.mempool && Eligible(f, s, f.mempool[h])
      ensures Covered(vec, orphans, {}, f.mempool[h])
    {
      PlacedCovers(vec0, orphans0, vec, orphans, f.mempool[order[k]], f.mempool[h]);
    }
  }

  lemma PlacedCovers(vec0: seq<TxPriority>, orphans0: seq<COrphan>, vec: seq<TxPriority>, orphans: seq<COrphan>, tx: Tx, x: Tx)
    requires Placed(vec0, orphans0, vec, orphans, tx) && (x == tx || Covered(vec0, orphans0, {}, x))
    ensures Covered(vec, orphans, {}, x)
  {
    if x == tx {
      if |orphans| == |orphans0| + 1 {
        assert orphans[|orphans0|].tx == x;
      } else {
        assert vec[|vec0|].tx == x;
      }
    } else if Queued(vec0, x) {
      var i :| 0 <= i < |vec0| && vec0[i].tx == x;
      assert vec[i] == vec0[i];
    } else {
      var i :| 0 <= i < |orphans0| && orphans0[i].setDependsOn != {} && orphans0[i].tx == x;
      assert orphans[i] == orphans0[i];
    }
  }

  // ---------------------------------------------------------------- releasing those who waited

  lemma {:induction false} WaitingAfter(vOrphan: seq<COrphan>, j: nat, o: COrphan)
    requires j < |vOrphan|
    ensures Waiting(vOrphan[j := o]) ==
      Waiting(vOrphan) + (if o.setDependsOn != {} then 1 else 0) - (if vOrphan[j].setDependsOn != {} then 1 else 0)
  {
    var n := |vOrphan| - 1;
    assert vOrphan[j := o][..n] == if j < n then vOrphan[..n][j := o] else vOrphan[..n];
    if j < n {
      WaitingAfter(vOrphan[..n], j, o);
    }
  }

  /** The waiting transaction no longer waits for `hash`. */
  function CrossedOff(o: COrphan, hash: Hash): COrphan {
    o.(setDependsOn := o.setDependsOn - {hash})
  }

  /** One waiting transaction crossed off: it joins the queue with its last dependency. */
  function Released(vecPriority: seq<TxPriority>, o: COrphan, hash: Hash): seq<TxPriority> {
    if o.setDependsOn != {} && CrossedOff(o, hash).setDependsOn == {}
    then vecPriority + [TxPriority(o.dPriority, o.dFeePerKb, o.tx)] else vecPriority
  }

  lemma ReleaseSeparate(vecPriority: seq<TxPriority>, vOrphan: seq<COrphan>, taken: set<Hash>, j: nat, hash: Hash)
    requires Separate(vecPriority, vOrphan, taken) && j < |vOrphan|
    ensures Separate(Released(vecPriority, vOrphan[j], hash), vOrphan[j := CrossedOff(vOrphan[j], hash)], taken)
    ensures |Released(vecPriority, vOrphan[j], hash)| + Waiting(vOrphan[j := CrossedOff(vOrphan[j], hash)]) ==
            |vecPriority| + Waiting(vOrphan)
  {
    WaitingAfter(vOrphan, j, CrossedOff(vOrphan[j], hash));
  }

  lemma ReleaseInOrder(idx: Index, f: Files, s: Settings, vecPriority: seq<TxPriority>, vOrphan: seq<COrphan>,
                       chosen: set<Hash>, j: nat, hash: Hash)
    requires InOrder(idx, f, s, vecPriority, vOrphan, chosen) && j < |vOrphan| && hash in chosen
    ensures InOrder(idx, f, s, Released(vecPriority, vOrphan[j], hash), vOrphan[j := CrossedOff(vOrphan[j], hash)], chosen)
  {
    hide Eligible, Readable, InPool, EntryOf;
    var o := vOrphan[j];
    assert WaitsFor(idx, f, o.tx, CrossedOff(o, hash).setDependsOn, chosen);
  }

  lemma ReleaseCovers(vecPriority: seq<TxPriority>, vOrphan: seq<COrphan>, taken: set<Hash>, j: nat, hash: Hash, tx: Tx)
    requires j < |vOrphan| && Covered(vecPriority, vOrphan, taken, tx)
    ensures Covered(Released(vecPriority, vOrphan[j], hash), vOrphan[j := CrossedOff(vOrphan[j], hash)], taken, tx)
  {
    var vec, orphans := Released(vecPriority, vOrphan[j], hash), vOrphan[j := CrossedOff(vOrphan[j], hash)];
    if Queued(vecPriority, tx) {
      var i :| 0 <= i < |vecPriority| && vecPriority[i].tx == tx;
      assert vec[i] == vecPriority[i];
    } else if Held(vOrphan, tx) {
      var i :| 0 <= i < |vOrphan| && vOrphan[i].setDependsOn != {} && vOrphan[i].tx == tx;
      if i == j && orphans[j].setDependsOn == {} {
        assert vec[|vecPriority|].tx == tx;
      } else {
        assert orphans[i].tx == tx;
      }
    }
  }

  /** Everyone who waited for the chosen transaction is crossed off; those who waited for it
      alone join the queue. */
  method AddDependers(ghost idx: Index, f: Files, s: Settings, ghost chosen: set<Hash>, ghost taken: set<Hash>, ghost all: seq<Hash>,
                      hash: Hash, vecPriority: seq<TxPriority>, vOrphan: seq<COrphan>, mapDependers: map<Hash, seq<nat>>)
    returns (vec: seq<TxPriority>, orphans: seq<COrphan>)
    requires InOrder(idx, f, s, vecPriority, vOrphan, chosen) && hash in chosen && Separate(vecPriority, vOrphan, taken)
    requires IndicesOk(mapDependers, |vOrphan|) && Registered(mapDependers, vOrphan)
    requires AllCovered(f, s, vecPriority, vOrphan, taken, all)
    ensures InOrder(idx, f, s, vec, orphans, chosen) && Separate(vec, orphans, taken)
    ensures |orphans| == |vOrphan| && Registered(mapDependers, orphans) && AllCovered(f, s, vec, orphans, taken, all)
    ensures |vec| + Waiting(orphans) == |vecPriority| + Waiting(vOrphan)
    ensures forall i :: 0 <= i < |orphans| ==> orphans[i] == CrossedOff(vOrphan[i], hash)
  {
    hide InOrder, Separate, Waiting, AllCovered, Released;
    vec, orphans := vecPriority, vOrphan;
    if hash in mapDependers {
      var list := mapDependers[hash];
      for k := 0 to |list|
        invariant InOrder(idx, f, s, vec, orphans, chosen) && Separate(vec, orphans, taken)
        invariant |orphans| == |vOrphan| && AllCovered(f, s, vec, orphans, taken, all)
        invariant |vec| + Waiting(orphans) == |vecPriority| + Waiting(vOrphan)
        invariant forall i :: 0 <= i < |orphans| ==>
          orphans[i] == CrossedOff(vOrphan[i], hash) || (orphans[i] == vOrphan[i] && i !in list[..k])
      {
        var j := list[k];
        assert list[..k + 1] == list[..k] + [j];
        ReleaseSeparate(vec, orphans, taken, j, hash);
        ReleaseInOrder(idx, f, s, vec, orphans, chosen, j, hash);
        ReleaseAllCovered(f, s, vec, orphans, taken, all, j, hash);
        vec, orphans := Release(vec, orphans, j, hash);
      }
      assert list[..|list|] == list;
    }
    forall i | 0 <= i < |orphans| ensures orphans[i] == CrossedOff(vOrphan[i], hash) {
      if hash in vOrphan[i].setDependsOn {
        assert hash in mapDependers && i in mapDependers[hash];
      } else {
        assert vOrphan[i].setDependsOn - {hash} == vOrphan[i].setDependsOn;
      }
    }
  }

  method Release(vecPriority: seq<TxPriority>, vOrphan: seq<COrphan>, j: nat, hash: Hash)
    returns (vec: seq<TxPriority>, orphans: seq<COrphan>)
    requires j < |vOrphan|
    ensures vec == Released(vecPriority, vOrphan[j], hash) && orphans == vOrphan[j := CrossedOff(vOrphan[j], hash)]
  {
    vec, orphans := vecPriority, vOrphan;
    var o := vOrphan[j];
    if o.setDependsOn != {} {
      orphans := orphans[j := o.(setDependsOn := o.setDependsOn - {hash})];
      if orphans[j].setDependsOn == {} {
        vec := vec + [TxPriority(o.dPriority, o.dFeePerKb, o.tx)];
      }
    } else {
      assert CrossedOff(o, hash) == o;
    }
  }

  lemma ReleaseAllCovered(f: Files, s: Settings, vecPriority: seq<TxPriority>, vOrphan: seq<COrphan>, taken: set<Hash>, all: seq<Hash>,
                          j: nat, hash: Hash)
    requires AllCovered(f, s, vecPriority, vOrphan, taken, all) && j < |vOrphan|
    ensures AllCovered(f, s, Released(vecPriority, vOrphan[j], hash), vOrphan[j := CrossedOff(vOrphan[j], hash)], taken, all)
  {
    hide Eligible, Covered, Released;
    forall h | h in all && h in f.mempool && Eligible(f, s, f.mempool[h])
      ensures Covered(Released(vecPriority, vOrphan[j], hash), vOrphan[j := CrossedOff(vOrphan[j], hash)], taken, f.mempool[h])
    {
      ReleaseCovers(vecPriority, vOrphan, taken, j, hash, f.mempool[h]);
    }
  }

  // ---------------------------------------------------------------- picking

  datatype BlockState = BlockState(vtx: seq<Tx>, mapTestPool: Index, nFees: int, nBlockSize: nat, nBlockSigOps: nat)

  function SizeOf(txs: seq<Tx>): nat {
    if txs == [] then 0 else SizeOf(txs[..|txs| - 1]) + txs[|txs| - 1].size
  }

  function SigOpsOf(s: Settings, txs: seq<Tx>): nat {
    if txs == [] then 0
    else SigOpsOf(s, txs[..|txs| - 1]) + s.legacySigOps(txs[|txs| - 1].hash) + s.p2shSigOps(txs[|txs| - 1].hash)
  }

  /** The transactions connect in their order, the fees are theirs, and every limit holds. */
  ghost predicate Built(idx: Index, f: Files, s: Settings, st: BlockState, v: Verdict) {
    && Tallies(idx, f, st.vtx, st.mapTestPool, st.nFees, v)
    && (forall k :: 0 <= k < |st.vtx| ==> Eligible(f, s, st.vtx[k]) && InTime(s, st.vtx[k]))
    && st.nBlockSize == 1000 + SizeOf(st.vtx) && (st.vtx == [] || st.nBlockSize < s.MaxSize())
    && st.nBlockSigOps == 100 + SigOpsOf(s, st.vtx) < MAX_BLOCK_SIGOPS
  }

  predicate InTime(s: Settings, tx: Tx) {
    tx.nTime <= s.now && (s.fProofOfStake ==> tx.nTime <= s.coinbaseTime)
  }

  lemma BuiltMore(idx: Index, f: Files, s: Settings, st: BlockState, tx: Tx, pool: Index, fees: int, v: Verdict)
    requires Built(idx, f, s, st, v) && Eligible(f, s, tx) && InTime(s, tx)
    requires st.nBlockSize + tx.size < s.MaxSize()
    requires st.nBlockSigOps + s.legacySigOps(tx.hash) + s.p2shSigOps(tx.hash) < MAX_BLOCK_SIGOPS
    requires TxConnects(idx + st.mapTestPool, f, tx, MEMPOOL_POS, v)
    requires idx + pool == ApplyTx(idx + st.mapTestPool, tx, MEMPOOL_POS)
    requires fees == ValueIn(idx + st.mapTestPool, f, tx.vin) - tx.ValueOut()
    ensures Built(idx, f, s, BlockState(st.vtx + [tx], pool, st.nFees + fees, st.nBlockSize + tx.size,
                                        st.nBlockSigOps + s.legacySigOps(tx.hash) + s.p2shSigOps(tx.hash)), v)
  {
    hide *;
    BuiltParts(idx, f, s, st, v);
    TallyMore(idx, f, s, st, tx, pool, fees, v);
    SizesMore(s, st.vtx, tx);
    BuiltParts(idx, f, s, BlockState(st.vtx + [tx], pool, st.nFees + fees, st.nBlockSize + tx.size,
                                     st.nBlockSigOps + s.legacySigOps(tx.hash) + s.p2shSigOps(tx.hash)), v);
  }

  /** The transactions connect, to the block's index and fees. */
  predicate Tallies(idx: Index, f: Files, txs: seq<Tx>, pool: Index, nFees: int, v: Verdict) {
    var t := Assembled(idx, f, txs, v);
    t.Some? && t.value.idx == idx + pool && t.value.sum.fees == nFees
  }

  lemma BuiltParts(idx: Index, f: Files, s: Settings, st: BlockState, v: Verdict)
    ensures Built(idx, f, s, st, v) <==>
      && Tallies(idx, f, st.vtx, st.mapTestPool, st.nFees, v)
      && (forall k :: 0 <= k < |st.vtx| ==> Eligible(f, s, st.vtx[k]) && InTime(s, st.vtx[k]))
      && st.nBlockSize == 1000 + SizeOf(st.vtx) && (st.vtx == [] || st.nBlockSize < s.MaxSize())
      && st.nBlockSigOps == 100 + SigOpsOf(s, st.vtx) < MAX_BLOCK_SIGOPS
  {
    hide Assembled, Eligible, InTime, SizeOf, SigOpsOf;
  }

  lemma TallyMore(idx: Index, f: Files, s: Settings, st: BlockState, tx: Tx, pool: Index, fees: int, v: Verdict)
    requires Tallies(idx, f, st.vtx, st.mapTestPool, st.nFees, v) && Eligible(f, s, tx) && TxConnects(idx + st.mapTestPool, f, tx, MEMPOOL_POS, v)
    requires idx + pool == ApplyTx(idx + st.mapTestPool, tx, MEMPOOL_POS)
    requires fees == ValueIn(idx + st.mapTestPool, f, tx.vin) - tx.ValueOut()
    ensures Tallies(idx, f, st.vtx + [tx], pool, st.nFees + fees, v)
  {
    hide TxConnects, ApplyTx, ValueIn, SumValues;
    var txs := st.vtx + [tx];
    assert txs[..|txs| - 1] == st.vtx;
  }

  lemma SizesMore(s: Settings, txs: seq<Tx>, tx: Tx)
    ensures SizeOf(txs + [tx]) == SizeOf(txs) + tx.size
    ensures SigOpsOf(s, txs + [tx]) == SigOpsOf(s, txs) + s.legacySigOps(tx.hash) + s.p2shSigOps(tx.hash)
  {
    assert (txs + [tx])[..|txs + [tx]| - 1] == txs;
  }

  predicate InRangeAll(idx: Index, f: Files, tx: Tx) {
    forall i :: 0 <= i < |tx.vin| ==> InRange(idx, f, tx.vin[i])
  }

  /** The transaction fits the signature-operation limit and connects after those chosen. */
  predicate Joins(idx: Index, f: Files, s: Settings, st: BlockState, tx: Tx, v: Verdict) {
    && st.nBlockSigOps + s.legacySigOps(tx.hash) + s.p2shSigOps(tx.hash) < MAX_BLOCK_SIGOPS
    && TxConnects(idx + st.mapTestPool, f, tx, MEMPOOL_POS, v)
  }

  /** The block with the transaction at its end. */
  predicate Grown(idx: Index, f: Files, s: Settings, st: BlockState, tx: Tx, st': BlockState) {
    && st'.vtx == st.vtx + [tx]
    && idx + st'.mapTestPool == ApplyTx(idx + st.mapTestPool, tx, MEMPOOL_POS)
    && st'.nFees == st.nFees + ValueIn(idx + st.mapTestPool, f, tx.vin) - tx.ValueOut()
    && st'.nBlockSize == st.nBlockSize + tx.size
    && st'.nBlockSigOps == st.nBlockSigOps + s.legacySigOps(tx.hash) + s.p2shSigOps(tx.hash)
  }

  lemma JoinsInRange(idx: Index, f: Files, s: Settings, st: BlockState, tx: Tx, v: Verdict)
    requires Joins(idx, f, s, st, tx, v)
    ensures InRangeAll(idx + st.mapTestPool, f, tx)
  {
    hide InRange;
    AcceptedKnown(idx + st.mapTestPool, f, tx, |tx.vin|, v);
  }

  /** Fetches, checks and connects one transaction and adds it exactly if it joins. */
  method TryAdd(db: CTxDB, f: Files, s: Settings, st: BlockState, tx: Tx, v: Verdict)
    returns (added: bool, st': BlockState)
    requires Built(db.View(), f, s, st, v) && Eligible(f, s, tx) && InTime(s, tx)
    requires st.nBlockSize + tx.size < s.MaxSize() && st.nBlockSigOps + s.legacySigOps(tx.hash) < MAX_BLOCK_SIGOPS
    ensures Built(db.View(), f, s, st', v)
    ensures added <==> Joins(db.View(), f, s, st, tx, v)
    ensures if added then Grown(db.View(), f, s, st, tx, st') else st' == st
  {
    hide Built, InRange, InTime, ApplyTx, TxConnects, FetchedFrom, SpendAll, ValueIn;
    ghost var idx := db.View();
    EligibleIs(f, s, tx);
    added, st' := false, st;
    var ok, mapInputs, fInvalid := FetchInputs(db, st.mapTestPool, f, tx);
    if !ok {
      if Joins(idx, f, s, st, tx, v) {
        JoinsInRange(idx, f, s, st, tx, v);
      }
      return;
    }
    var nValueIn := GetValueIn(idx + st.mapTestPool, f, tx, mapInputs);
    var nTxFees := nValueIn - tx.ValueOut();
    var nTxSigOps := s.legacySigOps(tx.hash) + s.p2shSigOps(tx.hash);
    if st.nBlockSigOps + nTxSigOps >= MAX_BLOCK_SIGOPS {
      return;
    }
    var pool;
    ok, pool := ConnectInputs(idx, tx, mapInputs, st.mapTestPool, f, MEMPOOL_POS, v);
    if !ok {
      return;
    }
    ghost var spent := pool;
    pool := pool[tx.hash := NewTxIndex(MEMPOOL_POS, |tx.vout|)];
    ApplyIs(idx, st.mapTestPool, spent, pool, tx);
    BuiltMore(idx, f, s, st, tx, pool, nTxFees, v);
    added := true;
    st' := BlockState(st.vtx + [tx], pool, st.nFees + nTxFees, st.nBlockSize + tx.size, st.nBlockSigOps + nTxSigOps);
  }

  lemma ApplyIs(idx: Index, pool0: Index, spent: Index, pool: Index, tx: Tx)
    requires !tx.IsCoinBase() && idx + spent == SpendAll(idx + pool0, tx.vin, MEMPOOL_POS)
    requires pool == spent[tx.hash := NewTxIndex(MEMPOOL_POS, |tx.vout|)]
    ensures idx + pool == ApplyTx(idx + pool0, tx, MEMPOOL_POS)
  {
    hide SpendAll;
    assert idx + pool == (idx + spent)[tx.hash := NewTxIndex(MEMPOOL_POS, |tx.vout|)];
  }

  /** Everything that can keep a queued transaction out before it is looked at closely. */
  predicate PassedOver(s: Settings, st: BlockState, e: TxPriority, fSortedByFee: bool) {
    || st.nBlockSize + e.tx.size >= s.MaxSize()
    || st.nBlockSigOps + s.legacySigOps(e.tx.hash) >= MAX_BLOCK_SIGOPS
    || !InTime(s, e.tx)
    || (fSortedByFee && e.dFeePerKb < s.nMinTxFee as real && st.nBlockSize + e.tx.size >= s.MinSize())
  }

  /** Dependencies never keep a queued transaction from being fetched. */
  lemma ReadyInRange(idx: Index, f: Files, s: Settings, st: BlockState, tx: Tx, v: Verdict)
    requires Built(idx, f, s, st, v) && Sound(idx, f) && (forall h :: h in f.mempool ==> h !in idx)
    requires WaitsFor(idx, f, tx, {}, HashesOf(st.vtx))
    ensures InRangeAll(idx + st.mapTestPool, f, tx)
  {
    hide SizeOf, SigOpsOf, Assembled, Sound;
    assert forall k :: 0 <= k < |st.vtx| ==> Eligible(f, s, st.vtx[k]);
    AssembledRecords(idx, f, st.vtx, v);
    forall i | 0 <= i < |tx.vin| ensures InRange(idx + st.mapTestPool, f, tx.vin[i]) {
      var o := tx.vin[i];
      if Readable(idx, f, o) {
        SoundRecord(idx, f, o);
      } else {
        var k :| 0 <= k < |st.vtx| && st.vtx[k].hash == o.hash;
        assert f.mempool[o.hash] == st.vtx[k];
      }
    }
  }

  lemma SoundRecord(idx: Index, f: Files, o: OutPoint)
    requires Sound(idx, f) && Readable(idx, f, o)
    ensures Known(idx, o)
  {
  }

  // ---------------------------------------------------------------- the selection loop

  lemma PopKeeps(idx: Index, f: Files, s: Settings, vec: seq<TxPriority>, orphans: seq<COrphan>, taken: set<Hash>, chosen: set<Hash>, at: nat)
    requires at < |vec| && Separate(vec, orphans, taken) && InOrder(idx, f, s, vec, orphans, chosen)
    ensures
      var rest := vec[..at] + vec[at + 1..];
      && Separate(rest, orphans, taken + {vec[at].tx.hash}) && InOrder(idx, f, s, rest, orphans, chosen)
      && Eligible(f, s, vec[at].tx) && WaitsFor(idx, f, vec[at].tx, {}, chosen) && vec[at].tx.hash !in taken
  {
    hide Eligible, WaitsFor, EntryOf;
  }

  lemma PopCovers(f: Files, s: Settings, vec: seq<TxPriority>, orphans: seq<COrphan>, taken: set<Hash>, all: seq<Hash>, at: nat)
    requires at < |vec| && AllCovered(f, s, vec, orphans, taken, all)
    ensures AllCovered(f, s, vec[..at] + vec[at + 1..], orphans, taken + {vec[at].tx.hash}, all)
  {
    hide Eligible;
    var rest := vec[..at] + vec[at + 1..];
    forall h | h in all && h in f.mempool && Eligible(f, s, f.mempool[h])
      ensures Covered(rest, orphans, taken + {vec[at].tx.hash}, f.mempool[h])
    {
      var tx := f.mempool[h];
      if Queued(vec, tx) {
        var i :| 0 <= i < |vec| && vec[i].tx == tx;
        if i != at {
          assert rest[if i < at then i else i - 1] == vec[i];
        }
      }
    }
  }

  lemma MoreChosen(idx: Index, f: Files, s: Settings, vec: seq<TxPriority>, orphans: seq<COrphan>, chosen: set<Hash>, more: set<Hash>)
    requires InOrder(idx, f, s, vec, orphans, chosen) && chosen <= more
    ensures InOrder(idx, f, s, vec, orphans, more)
  {
    hide Eligible, Readable, InPool, EntryOf;
  }

  /** What is awaited is unread in the database and not chosen. */
  ghost predicate Unmet(idx: Index, f: Files, vOrphan: seq<COrphan>, chosen: set<Hash>) {
    forall i :: 0 <= i < |vOrphan| ==>
      vOrphan[i].setDependsOn <= DependsOn(idx, f, vOrphan[i].tx.vin) && vOrphan[i].setDependsOn !! chosen
  }

  /** The transaction has a parent that is neither in the database nor chosen. */
  ghost predicate Blocked(idx: Index, f: Files, tx: Tx, chosen: set<Hash>) {
    exists i :: 0 <= i < |tx.vin| && !Readable(idx, f, tx.vin[i]) && tx.vin[i].hash !in chosen
  }

  lemma HeldIsBlocked(idx: Index, f: Files, vOrphan: seq<COrphan>, chosen: set<Hash>, tx: Tx)
    requires Unmet(idx, f, vOrphan, chosen) && Held(vOrphan, tx)
    ensures Blocked(idx, f, tx, chosen)
  {
    hide Readable;
    var i :| 0 <= i < |vOrphan| && vOrphan[i].setDependsOn != {} && vOrphan[i].tx == tx;
    var h := Pick(vOrphan[i].setDependsOn);
    assert h in DependsOn(idx, f, tx.vin);
  }

  /** The dependency lists of the block assembler: all conditions its loop keeps. */
  ghost predicate Lists(idx: Index, f: Files, s: Settings, vec: seq<TxPriority>, orphans: seq<COrphan>,
                        mapDependers: map<Hash, seq<nat>>, taken: set<Hash>, chosen: set<Hash>, all: seq<Hash>) {
    && InOrder(idx, f, s, vec, orphans, chosen) && Separate(vec, orphans, taken)
    && IndicesOk(mapDependers, |orphans|) && Registered(mapDependers, orphans)
    && AllCovered(f, s, vec, orphans, taken, all) && Unmet(idx, f, orphans, chosen)
  }

  /** Takes the highest entry off the queue. */
  method TakeTop(ghost idx: Index, f: Files, s: Settings, vec: seq<TxPriority>, ghost orphans: seq<COrphan>,
                 ghost mapDependers: map<Hash, seq<nat>>, ghost taken: set<Hash>, ghost chosen: set<Hash>, ghost all: seq<Hash>, byFee: bool)
    returns (top: TxPriority, rest: seq<TxPriority>)
    requires Lists(idx, f, s, vec, orphans, mapDependers, taken, chosen, all) && vec != []
    ensures Lists(idx, f, s, rest, orphans, mapDependers, taken + {top.tx.hash}, chosen, all) && |rest| == |vec| - 1
    ensures top in vec && forall i :: 0 <= i < |vec| ==> !Before(byFee, top, vec[i])
    ensures Eligible(f, s, top.tx) && WaitsFor(idx, f, top.tx, {}, chosen) && top.tx.hash !in taken
  {
    hide InOrder, Separate, IndicesOk, Registered, AllCovered, Unmet, Eligible, WaitsFor, Before;
    ghost var at;
    top, rest, at := PopHighest(vec, byFee);
    PopKeeps(idx, f, s, vec, orphans, taken, chosen, at);
    PopCovers(f, s, vec, orphans, taken, all, at);
  }

  /** After a transaction was added, those who waited for it are released. */
  method AfterAdding(ghost idx: Index, f: Files, s: Settings, hash: Hash, vec: seq<TxPriority>, orphans: seq<COrphan>,
                     mapDependers: map<Hash, seq<nat>>, ghost taken: set<Hash>, ghost chosen: set<Hash>, ghost all: seq<Hash>)
    returns (vec': seq<TxPriority>, orphans': seq<COrphan>)
    requires Lists(idx, f, s, vec, orphans, mapDependers, taken, chosen, all)
    ensures Lists(idx, f, s, vec', orphans', mapDependers, taken, chosen + {hash}, all)
    ensures |vec'| + Waiting(orphans') == |vec| + Waiting(orphans)
  {
    hide InOrder, Separate, IndicesOk, Registered, AllCovered;
    MoreChosen(idx, f, s, vec, orphans, chosen, chosen + {hash});
    vec', orphans' := AddDependers(idx, f, s, chosen + {hash}, taken, all, hash, vec, orphans, mapDependers);
    assert forall i :: 0 <= i < |orphans'| ==> orphans'[i] == CrossedOff(orphans[i], hash);
  }

  lemma ChosenMore(txs: seq<Tx>, tx: Tx, taken: set<Hash>)
    requires HashesOf(txs) <= taken && tx.hash !in taken && DistinctHashes(txs)
    ensures HashesOf(txs + [tx]) == HashesOf(txs) + {tx.hash} && DistinctHashes(txs + [tx])
  {
    var q := txs + [tx];
    assert forall i :: 0 <= i < |txs| ==> txs[i].hash in HashesOf(txs);
    assert q[|txs|].hash in HashesOf(q);
    forall h | h in HashesOf(txs) ensures h in HashesOf(q) {
      var i :| 0 <= i < |txs| && txs[i].hash == h;
      assert q[i].hash == h;
    }
  }

  // ---------------------------------------------------------------- what the loop means

  /** The transaction may come next: not taken yet, and every parent is in the database or
      chosen. */
  ghost predicate Ready(idx: Index, f: Files, s: Settings, tx: Tx, taken: set<Hash>, chosen: set<Hash>) {
    Eligible(f, s, tx) && tx.hash !in taken && !Blocked(idx, f, tx, chosen)
  }

  /** The entry of a ready transaction that no other ready one goes before. */
  ghost predicate Highest(idx: Index, f: Files, s: Settings, e: TxPriority, byFee: bool, taken: set<Hash>, chosen: set<Hash>) {
    && Ready(idx, f, s, e.tx, taken, chosen) && e == EntryOf(idx, f, s, e.tx)
    && forall h :: h in f.mempool && Ready(idx, f, s, f.mempool[h], taken, chosen) ==>
         !Before(byFee, e, EntryOf(idx, f, s, f.mempool[h]))
  }

  /** The block so far and what the queue is ordered by. */
  datatype Desk = Desk(st: BlockState, byFee: bool)

  /** Past the priority size, or out of high-priority transactions. */
  predicate TurnsToFees(s: Settings, st: BlockState, e: TxPriority) {
    st.nBlockSize + e.tx.size >= s.PrioritySize() || e.dPriority < (COIN * 144 / 250) as real
  }

  /** One round: a highest ready transaction is taken, and added exactly if nothing passes it
      over and it joins. */
  ghost predicate Round(idx: Index, f: Files, s: Settings, v: Verdict, taken: set<Hash>, d: Desk, e: TxPriority, d': Desk) {
    && Highest(idx, f, s, e, d.byFee, taken, HashesOf(d.st.vtx))
    && if PassedOver(s, d.st, e, d.byFee) then d' == d
       else
         && d'.byFee == (d.byFee || TurnsToFees(s, d.st, e))
         && if Joins(idx, f, s, d.st, e.tx, v) then Grown(idx, f, s, d.st, e.tx, d'.st) else d'.st == d.st
  }

  function TakenBy(entries: seq<TxPriority>): set<Hash> {
    set i | 0 <= i < |entries| :: entries[i].tx.hash
  }

  ghost predicate Rounds(idx: Index, f: Files, s: Settings, v: Verdict, desks: seq<Desk>, entries: seq<TxPriority>) {
    && |desks| == |entries| + 1
    && forall i :: 0 <= i < |entries| ==> Round(idx, f, s, v, TakenBy(entries[..i]), desks[i], entries[i], desks[i + 1])
  }

  lemma NoRoundsYet(idx: Index, f: Files, s: Settings, v: Verdict, d: Desk)
    ensures Rounds(idx, f, s, v, [d], []) && TakenBy([]) == {}
  {
  }

  lemma RoundMore(idx: Index, f: Files, s: Settings, v: Verdict, desks: seq<Desk>, entries: seq<TxPriority>, e: TxPriority, d: Desk)
    requires Rounds(idx, f, s, v, desks, entries) && Round(idx, f, s, v, TakenBy(entries), desks[|entries|], e, d)
    ensures Rounds(idx, f, s, v, desks + [d], entries + [e])
    ensures TakenBy(entries + [e]) == TakenBy(entries) + {e.tx.hash}
  {
    hide Round;
    var desks', entries' := desks + [d], entries + [e];
    assert TakenBy(entries') == TakenBy(entries) + {e.tx.hash} by {
      assert entries'[|entries|] == e;
      forall i | 0 <= i < |entries| ensures entries[i].tx.hash in TakenBy(entries') {
        assert entries'[i] == entries[i];
      }
    }
    forall i | 0 <= i < |entries'| ensures Round(idx, f, s, v, TakenBy(entries'[..i]), desks'[i], entries'[i], desks'[i + 1]) {
      assert entries'[..i] == entries[..i];
      if i == |entries| {
        assert entries[..i] == entries;
      }
    }
  }

  lemma WaitsForNothing(idx: Index, f: Files, tx: Tx, chosen: set<Hash>)
    requires WaitsFor(idx, f, tx, {}, chosen)
    ensures !Blocked(idx, f, tx, chosen)
  {
    hide Readable, InPool;
  }

  lemma MissingIsBlocked(idx: Index, f: Files, tx: Tx, chosen: set<Hash>)
    requires Missing(idx, f, tx) && forall h :: h in chosen ==> h in f.mempool
    ensures Blocked(idx, f, tx, chosen)
  {
    hide Readable;
  }

  lemma ChosenFromPool(idx: Index, f: Files, s: Settings, st: BlockState, v: Verdict)
    requires Built(idx, f, s, st, v)
    ensures forall h :: h in HashesOf(st.vtx) ==> h in f.mempool
  {
    hide Tallies, SizeOf, SigOpsOf;
  }

  /** The queue holds exactly the ready transactions. */
  lemma QueueIsReady(idx: Index, f: Files, s: Settings, vec: seq<TxPriority>, orphans: seq<COrphan>,
                     mapDependers: map<Hash, seq<nat>>, taken: set<Hash>, chosen: set<Hash>, all: seq<Hash>)
    requires Lists(idx, f, s, vec, orphans, mapDependers, taken, chosen, all) && forall h :: h in chosen ==> h in f.mempool
    requires forall h :: h in f.mempool && h !in all ==> !Eligible(f, s, f.mempool[h]) || Missing(idx, f, f.mempool[h])
    ensures forall h :: h in f.mempool && Ready(idx, f, s, f.mempool[h], taken, chosen) ==>
              EntryOf(idx, f, s, f.mempool[h]) in vec
    ensures forall i :: 0 <= i < |vec| ==>
              Ready(idx, f, s, vec[i].tx, taken, chosen) && vec[i] == EntryOf(idx, f, s, vec[i].tx)
  {
    hide Eligible, Unmet, Blocked, Missing, EntryOf, WaitsFor, Held, Registered, IndicesOk;
    forall h | h in f.mempool && Ready(idx, f, s, f.mempool[h], taken, chosen)
      ensures EntryOf(idx, f, s, f.mempool[h]) in vec
    {
      if Missing(idx, f, f.mempool[h]) {
        MissingIsBlocked(idx, f, f.mempool[h], chosen);
      }
      assert Covered(vec, orphans, taken, f.mempool[h]);
      if Held(orphans, f.mempool[h]) {
        HeldIsBlocked(idx, f, orphans, chosen, f.mempool[h]);
      }
      var i :| 0 <= i < |vec| && vec[i].tx == f.mempool[h];
      assert vec[i] == EntryOf(idx, f, s, f.mempool[h]);
    }
    forall i | 0 <= i < |vec| ensures Ready(idx, f, s, vec[i].tx, taken, chosen) {
      WaitsForNothing(idx, f, vec[i].tx, chosen);
    }
  }

  /** Dependencies keep none of the closely examined transactions from being fetched. */
  ghost predicate AllFetched(idx: Index, f: Files, s: Settings, desks: seq<Desk>, entries: seq<TxPriority>)
    requires |desks| == |entries| + 1
  {
    forall i :: 0 <= i < |entries| && !PassedOver(s, desks[i].st, entries[i], desks[i].byFee) ==>
      InRangeAll(idx + desks[i].st.mapTestPool, f, entries[i].tx)
  }

  lemma FetchedMore(idx: Index, f: Files, s: Settings, desks: seq<Desk>, entries: seq<TxPriority>, e: TxPriority, d: Desk)
    requires |desks| == |entries| + 1 && AllFetched(idx, f, s, desks, entries)
    requires !PassedOver(s, desks[|entries|].st, e, desks[|entries|].byFee) ==> InRangeAll(idx + desks[|entries|].st.mapTestPool, f, e.tx)
    ensures AllFetched(idx, f, s, desks + [d], entries + [e])
  {
    hide PassedOver, InRangeAll;
  }

  /** The loop of CreateNewBlock is a sequence of rounds that ends when no transaction is
      ready. If the pool holds only unconfirmed transactions, none is ever left out because a
      parent is missing. */
  method SelectTransactions(db: CTxDB, f: Files, s: Settings, order: seq<Hash>, v: Verdict)
    returns (st: BlockState, ghost desks: seq<Desk>, ghost entries: seq<TxPriority>)
    requires forall i, j :: 0 <= i < j < |order| ==> order[i] != order[j]
    requires forall h :: h in f.mempool <==> h in order
    requires forall h :: h in f.mempool ==> f.mempool[h].hash == h
    requires forall h :: h in f.mempool && Eligible(f, s, f.mempool[h]) ==> Examinable(db.View(), f, f.mempool[h])
    ensures Rounds(db.View(), f, s, v, desks, entries)
    ensures desks[0] == Desk(BlockState([], map[], 0, 1000, 100), s.PrioritySize() == 0) && desks[|entries|].st == st
    ensures forall h :: h in f.mempool ==> !Ready(db.View(), f, s, f.mempool[h], TakenBy(entries), HashesOf(st.vtx))
    ensures Built(db.View(), f, s, st, v) && DistinctHashes(st.vtx) && HashesOf(st.vtx) <= TakenBy(entries)
    ensures Sound(db.View(), f) && (forall h :: h in f.mempool ==> h !in db.View()) ==>
              AllFetched(db.View(), f, s, desks, entries)
  {
    hide *;
    ghost var idx := db.View();
    assert forall i :: 0 <= i < |order| ==> order[i] in order;
    var vecPriority, vOrphan, mapDependers;
    ghost var listed;
    vecPriority, vOrphan, mapDependers, listed := Collect(db, f, s, order);
    ghost var wellKept := Sound(idx, f) && forall h :: h in f.mempool ==> h !in idx;
    st := BlockState([], map[], 0, 1000, 100);
    StartState(idx, f, s, st, v);
    StartLists(idx, f, s, vecPriority, vOrphan, mapDependers, listed);
    var fSortedByFee := s.PrioritySize() <= 0;
    desks, entries := [Desk(st, fSortedByFee)], [];
    NoRoundsYet(idx, f, s, v, desks[0]);
    NoneFetchedYet(idx, f, s, desks);
    while vecPriority != []
      invariant Built(idx, f, s, st, v) && DistinctHashes(st.vtx) && HashesOf(st.vtx) <= TakenBy(entries)
      invariant Lists(idx, f, s, vecPriority, vOrphan, mapDependers, TakenBy(entries), HashesOf(st.vtx), listed)
      invariant Rounds(idx, f, s, v, desks, entries) && |desks| == |entries| + 1
      invariant desks[0] == Desk(BlockState([], map[], 0, 1000, 100), s.PrioritySize() == 0)
      invariant desks[|entries|] == Desk(st, fSortedByFee)
      invariant wellKept ==> AllFetched(idx, f, s, desks, entries)
      decreases |vecPriority| + Waiting(vOrphan)
    {
      ghost var d, taken := Desk(st, fSortedByFee), TakenBy(entries);
      ChosenFromPool(idx, f, s, st, v);
      QueueIsReady(idx, f, s, vecPriority, vOrphan, mapDependers, taken, HashesOf(st.vtx), listed);
      var top;
      top, vecPriority := TakeTop(idx, f, s, vecPriority, vOrphan, mapDependers, taken, HashesOf(st.vtx), listed, fSortedByFee);
      IsHighest(idx, f, s, top, fSortedByFee, taken, HashesOf(st.vtx));
      var added := false;
      if !PassedOver(s, st, top, fSortedByFee) {
        NotPassedOver(s, st, top, fSortedByFee);
        if !fSortedByFee && (st.nBlockSize + top.tx.size >= s.PrioritySize() || top.dPriority < (COIN * 144 / 250) as real) {
          fSortedByFee := true;
        }
        if wellKept {
          ReadyInRange(idx, f, s, st, top.tx, v);
        }
        added, st := TryAdd(db, f, s, st, top.tx, v);
      }
      RoundIs(idx, f, s, v, taken, d, top, Desk(st, fSortedByFee), added);
      RoundMore(idx, f, s, v, desks, entries, top, Desk(st, fSortedByFee));
      if wellKept {
        FetchedMore(idx, f, s, desks, entries, top, Desk(st, fSortedByFee));
      }
      desks, entries := desks + [Desk(st, fSortedByFee)], entries + [top];
      if added {
        GrownBy(idx, f, s, d.st, top.tx, st);
        ChosenMore(d.st.vtx, top.tx, taken);
        vecPriority, vOrphan := AfterAdding(idx, f, s, top.tx.hash, vecPriority, vOrphan, mapDependers, taken + {top.tx.hash}, HashesOf(d.st.vtx), listed);
      }
    }
    ChosenFromPool(idx, f, s, st, v);
    QueueIsReady(idx, f, s, vecPriority, vOrphan, mapDependers, TakenBy(entries), HashesOf(st.vtx), listed);
  }

  lemma NoneFetchedYet(idx: Index, f: Files, s: Settings, desks: seq<Desk>)
    requires |desks| == 1
    ensures AllFetched(idx, f, s, desks, [])
  {
  }

  lemma GrownBy(idx: Index, f: Files, s: Settings, st: BlockState, tx: Tx, st': BlockState)
    requires Grown(idx, f, s, st, tx, st')
    ensures st'.vtx == st.vtx + [tx]
  {
  }

  lemma IsHighest(idx: Index, f: Files, s: Settings, e: TxPriority, byFee: bool, taken: set<Hash>, chosen: set<Hash>)
    requires Ready(idx, f, s, e.tx, taken, chosen) && e == EntryOf(idx, f, s, e.tx)
    requires forall h :: h in f.mempool && Ready(idx, f, s, f.mempool[h], taken, chosen) ==>
               !Before(byFee, e, EntryOf(idx, f, s, f.mempool[h]))
    ensures Highest(idx, f, s, e, byFee, taken, chosen)
  {
    hide Ready, Before, EntryOf;
  }

  lemma RoundIs(idx: Index, f: Files, s: Settings, v: Verdict, taken: set<Hash>, d: Desk, e: TxPriority, d': Desk, added: bool)
    requires Highest(idx, f, s, e, d.byFee, taken, HashesOf(d.st.vtx))
    requires PassedOver(s, d.st, e, d.byFee) ==> d' == d && !added
    requires !PassedOver(s, d.st, e, d.byFee) ==>
      && d'.byFee == (d.byFee || d.st.nBlockSize + e.tx.size >= s.PrioritySize() || e.dPriority < (COIN * 144 / 250) as real)
      && (added <==> Joins(idx, f, s, d.st, e.tx, v))
      && if added then Grown(idx, f, s, d.st, e.tx, d'.st) else d'.st == d.st
    ensures Round(idx, f, s, v, taken, d, e, d')
  {
    hide Highest, PassedOver, Joins, Grown;
  }

  // ---------------------------------------------------------------- what the rounds choose

  /** Each round's entry pays the most per kilobyte among the ready transactions, of equals the
      one of highest priority; before the turn to fees it is the other way round. */
  lemma HighestInNumbers(idx: Index, f: Files, s: Settings, v: Verdict, desks: seq<Desk>, entries: seq<TxPriority>, i: nat, h: Hash)
    requires Rounds(idx, f, s, v, desks, entries) && i < |entries|
    requires h in f.mempool && Ready(idx, f, s, f.mempool[h], TakenBy(entries[..i]), HashesOf(desks[i].st.vtx))
    ensures entries[i] == EntryOf(idx, f, s, entries[i].tx)
    ensures Ready(idx, f, s, entries[i].tx, TakenBy(entries[..i]), HashesOf(desks[i].st.vtx))
    ensures
      var e, o := entries[i], EntryOf(idx, f, s, f.mempool[h]);
      if desks[i].byFee
      then e.dFeePerKb >= o.dFeePerKb && (e.dFeePerKb == o.dFeePerKb ==> e.dPriority >= o.dPriority)
      else e.dPriority >= o.dPriority && (e.dPriority == o.dPriority ==> e.dFeePerKb >= o.dFeePerKb)
  {
    hide Ready, EntryOf, PassedOver, Joins, Grown;
    assert Round(idx, f, s, v, TakenBy(entries[..i]), desks[i], entries[i], desks[i + 1]);
  }

  /** Once the queue is ordered by fees it stays so; it turns to fees exactly in a round whose
      transaction is examined and would reach the priority size or is of low priority. */
  lemma TurnInNumbers(idx: Index, f: Files, s: Settings, v: Verdict, desks: seq<Desk>, entries: seq<TxPriority>, i: nat)
    requires Rounds(idx, f, s, v, desks, entries) && i < |entries|
    ensures
      var d, d', e := desks[i], desks[i + 1], entries[i];
      && (d.byFee ==> d'.byFee)
      && (!d.byFee && d'.byFee ==>
            d.st.nBlockSize + e.tx.size >= s.PrioritySize() || e.dPriority < 57_600_000.0)
      && (e.tx in d'.st.vtx && e.tx !in d.st.vtx && !d'.byFee ==>
            d.st.nBlockSize + e.tx.size < s.PrioritySize() && e.dPriority >= 57_600_000.0)
  {
    hide Highest, Joins, Grown;
    assert Round(idx, f, s, v, TakenBy(entries[..i]), desks[i], entries[i], desks[i + 1]);
  }

  /** When a round adds its transaction: it leaves the block below the size limit and, its
      pay-to-script-hash operations included, below the limit of signature operations, is not
      from the future, connects, and, once fees rule, pays enough or still fits the minimum. */
  lemma AddedInNumbers(idx: Index, f: Files, s: Settings, v: Verdict, desks: seq<Desk>, entries: seq<TxPriority>, i: nat)
    requires Rounds(idx, f, s, v, desks, entries) && i < |entries|
    ensures
      var d, d', e := desks[i], desks[i + 1], entries[i];
      d'.st.vtx == d.st.vtx + [e.tx] <==>
        && d.st.nBlockSize + e.tx.size < s.MaxSize()
        && d.st.nBlockSigOps + s.legacySigOps(e.tx.hash) + s.p2shSigOps(e.tx.hash) < 60_000
        && e.tx.nTime <= s.now && (s.fProofOfStake ==> e.tx.nTime <= s.coinbaseTime)
        && !(d.byFee && e.dFeePerKb < s.nMinTxFee as real && d.st.nBlockSize + e.tx.size >= s.MinSize())
        && TxConnects(idx + d.st.mapTestPool, f, e.tx, MEMPOOL_POS, v)
  {
    hide Highest, TxConnects, ApplyTx, ValueIn, SumValues, Settings.MaxSize, Settings.MinSize;
    assert Round(idx, f, s, v, TakenBy(entries[..i]), desks[i], entries[i], desks[i + 1]);
  }

  /** The limits of a block: at least 1000 bytes, at most the protocol's less 1000, else what
      was asked for; the other two sizes never exceed it. */
  lemma SizesInNumbers(s: Settings)
    ensures 1000 <= s.MaxSize() <= 3_000_000 - 1000
    ensures 1000 <= s.blockMaxSize <= 3_000_000 - 1000 ==> s.MaxSize() == s.blockMaxSize
    ensures s.PrioritySize() <= s.MaxSize() && s.MinSize() <= s.MaxSize()
    ensures s.blockPrioritySize <= s.MaxSize() ==> s.PrioritySize() == s.blockPrioritySize
    ensures s.blockMinSize <= s.MaxSize() ==> s.MinSize() == s.blockMinSize
  {
  }

  /** The parent that an input is ranked by is the one it is connected to. */
  lemma SameParent(idx: Index, f: Files, s: Settings, st: BlockState, o: OutPoint, v: Verdict)
    requires Built(idx, f, s, st, v) && Sound(idx, f) && (forall h :: h in f.mempool ==> h !in idx)
    requires Readable(idx, f, o) || (InPool(f, o) && o.hash in HashesOf(st.vtx))
    ensures InRange(idx + st.mapTestPool, f, o)
    ensures Value(idx + st.mapTestPool, f, o) ==
      if Readable(idx, f, o) then Parent(idx, f, o).value.vout[o.n].nValue else f.mempool[o.hash].vout[o.n].nValue
  {
    hide SizeOf, SigOpsOf, Assembled, Sound;
    assert forall k :: 0 <= k < |st.vtx| ==> Eligible(f, s, st.vtx[k]);
    AssembledRecords(idx, f, st.vtx, v);
    if Readable(idx, f, o) {
      SoundRecord(idx, f, o);
    } else {
      var k :| 0 <= k < |st.vtx| && st.vtx[k].hash == o.hash;
      assert f.mempool[o.hash] == st.vtx[k];
    }
  }

  lemma {:induction false} RankedTotal(idx: Index, f: Files, s: Settings, st: BlockState, vin: seq<OutPoint>, v: Verdict)
    requires Built(idx, f, s, st, v) && Sound(idx, f) && (forall h :: h in f.mempool ==> h !in idx)
    requires forall i :: 0 <= i < |vin| ==> Readable(idx, f, vin[i]) || (InPool(f, vin[i]) && vin[i].hash in HashesOf(st.vtx))
    ensures TotalIn(idx, f, vin) == ValueIn(idx + st.mapTestPool, f, vin)
  {
    hide Built, Sound, Readable, InPool, Parent, Value;
    if vin != [] {
      RankedTotal(idx, f, s, st, vin[..|vin| - 1], v);
      SameParent(idx, f, s, st, vin[|vin| - 1], v);
      LastTotal(idx, f, vin);
    }
  }

  lemma LastTotal(idx: Index, f: Files, vin: seq<OutPoint>)
    requires vin != []
    ensures
      var o := vin[|vin| - 1];
      && (Readable(idx, f, o) ==>
            TotalIn(idx, f, vin) == TotalIn(idx, f, vin[..|vin| - 1]) + Parent(idx, f, o).value.vout[o.n].nValue)
      && (!Readable(idx, f, o) && InPool(f, o) ==>
            TotalIn(idx, f, vin) == TotalIn(idx, f, vin[..|vin| - 1]) + f.mempool[o.hash].vout[o.n].nValue)
  {
    hide Parent;
  }

  /** A ready transaction is ranked by the very fee it then pays, a thousandfold per byte. */
  lemma RankedByFee(idx: Index, f: Files, s: Settings, st: BlockState, tx: Tx, v: Verdict)
    requires Built(idx, f, s, st, v) && Sound(idx, f) && (forall h :: h in f.mempool ==> h !in idx)
    requires WaitsFor(idx, f, tx, {}, HashesOf(st.vtx)) && tx.size > 0
    ensures EntryOf(idx, f, s, tx).dFeePerKb * tx.size as real ==
      1000.0 * (ValueIn(idx + st.mapTestPool, f, tx.vin) - tx.ValueOut()) as real
  {
    hide Built, Sound, Readable, InPool, AgedValue, TotalIn, ValueIn, SumValues, HashesOf;
    RankedTotal(idx, f, s, st, tx.vin, v);
    FeeRate((TotalIn(idx, f, tx.vin) - tx.ValueOut()) as real, tx.size as real);
  }

  lemma FeeRate(fee: real, size: real)
    requires size > 0.0
    ensures fee / (size / 1000.0) * size == 1000.0 * fee
  {
    var kb := size / 1000.0;
    assert size == kb * 1000.0;
    assert fee / kb * kb == fee;
    assert fee / kb * (kb * 1000.0) == (fee / kb * kb) * 1000.0;
  }

  /** The priority of a transaction with one confirmed input: value times depth per byte. */
  lemma PriorityOfOne(idx: Index, f: Files, s: Settings, tx: Tx)
    requires |tx.vin| == 1 && Readable(idx, f, tx.vin[0]) && tx.size > 0
    ensures EntryOf(idx, f, s, tx).dPriority ==
      (Parent(idx, f, tx.vin[0]).value.vout[tx.vin[0].n].nValue as real * s.depth(tx.vin[0].hash) as real) / tx.size as real
  {
    hide Parent, TotalIn, SumValues;
    assert tx.vin[..|tx.vin| - 1] == [];
    var aged := Parent(idx, f, tx.vin[0]).value.vout[tx.vin[0].n].nValue as real * s.depth(tx.vin[0].hash) as real;
    assert AgedValue(idx, f, s, []) == 0.0;
    assert AgedValue(idx, f, s, tx.vin) == aged;
    hide AgedValue;
  }

  /** No transaction is taken twice. */
  lemma TakenOnce(idx: Index, f: Files, s: Settings, v: Verdict, desks: seq<Desk>, entries: seq<TxPriority>, i: nat, j: nat)
    requires Rounds(idx, f, s, v, desks, entries) && i < j < |entries|
    ensures entries[i].tx.hash != entries[j].tx.hash
  {
    hide PassedOver, Joins, Grown, EntryOf, Before, Blocked, Eligible;
    assert Round(idx, f, s, v, TakenBy(entries[..j]), desks[j], entries[j], desks[j + 1]);
    assert entries[..j][i] == entries[i];
  }

  /** The round adds its transaction. */
  predicate Adds(idx: Index, f: Files, s: Settings, v: Verdict, d: Desk, e: TxPriority) {
    !PassedOver(s, d.st, e, d.byFee) && Joins(idx, f, s, d.st, e.tx, v)
  }

  /** A block holds exactly the transactions whose round added them, in the order of rounds. */
  lemma {:induction false} ChosenExactly(idx: Index, f: Files, s: Settings, v: Verdict, desks: seq<Desk>, entries: seq<TxPriority>, tx: Tx)
    requires Rounds(idx, f, s, v, desks, entries) && desks[0].st.vtx == []
    ensures tx in desks[|entries|].st.vtx <==>
      exists i :: 0 <= i < |entries| && entries[i].tx == tx && Adds(idx, f, s, v, desks[i], entries[i])
  {
    hide Round, Adds;
    if entries != [] {
      var n := |entries| - 1;
      var desks0, entries0 := desks[..n + 1], entries[..n];
      FewerRounds(idx, f, s, v, desks, entries);
      ChosenExactly(idx, f, s, v, desks0, entries0, tx);
      RoundAdds(idx, f, s, v, TakenBy(entries0), desks[n], entries[n], desks[n + 1]);
      hide Rounds;
      assert forall i :: 0 <= i < n ==> entries0[i] == entries[i] && desks0[i] == desks[i];
    }
  }

  lemma RoundAdds(idx: Index, f: Files, s: Settings, v: Verdict, taken: set<Hash>, d: Desk, e: TxPriority, d': Desk)
    requires Round(idx, f, s, v, taken, d, e, d')
    ensures d'.st.vtx == d.st.vtx + if Adds(idx, f, s, v, d, e) then [e.tx] else []
  {
    hide Highest, PassedOver, Joins;
  }

  lemma FewerRounds(idx: Index, f: Files, s: Settings, v: Verdict, desks: seq<Desk>, entries: seq<TxPriority>)
    requires Rounds(idx, f, s, v, desks, entries) && entries != []
    ensures Rounds(idx, f, s, v, desks[..|entries|], entries[..|entries| - 1])
  {
    hide Round;
    var n := |entries| - 1;
    forall i | 0 <= i < n
      ensures Round(idx, f, s, v, TakenBy(entries[..n][..i]), desks[..n + 1][i], entries[..n][i], desks[..n + 1][i + 1])
    {
      assert entries[..n][..i] == entries[..i];
    }
  }

  lemma StartState(idx: Index, f: Files, s: Settings, st: BlockState, v: Verdict)
    requires st == BlockState([], map[], 0, 1000, 100)
    ensures Built(idx, f, s, st, v) && DistinctHashes(st.vtx) && HashesOf(st.vtx) == {}
  {
    assert idx + map[] == idx;
  }

  lemma StartLists(idx: Index, f: Files, s: Settings, vec: seq<TxPriority>, orphans: seq<COrphan>,
                   mapDependers: map<Hash, seq<nat>>, all: seq<Hash>)
    requires InOrder(idx, f, s, vec, orphans, {}) && Separate(vec, orphans, {})
    requires IndicesOk(mapDependers, |orphans|) && Registered(mapDependers, orphans)
    requires AllCovered(f, s, vec, orphans, {}, all) && Unmet(idx, f, orphans, {})
    ensures Lists(idx, f, s, vec, orphans, mapDependers, {}, {}, all)
  {
  }

  lemma NotPassedOver(s: Settings, st: BlockState, e: TxPriority, fSortedByFee: bool)
    requires !PassedOver(s, st, e, fSortedByFee)
    ensures InTime(s, e.tx) && st.nBlockSize + e.tx.size < s.MaxSize()
    ensures st.nBlockSigOps + s.legacySigOps(e.tx.hash) < MAX_BLOCK_SIGOPS
  {
    hide InTime;
  }

  // ---------------------------------------------------------------- the block

  lemma BuiltMeans(idx: Index, f: Files, s: Settings, st: BlockState, v: Verdict)
    requires Built(idx, f, s, st, v)
    ensures Assembled(idx, f, st.vtx, v).Some? && Ordinary(st.vtx) && st.nFees == FeeSum(idx, f, st.vtx, v)
    ensures forall k :: 0 <= k < |st.vtx| ==> f.Read(st.vtx[k].hash, MEMPOOL_POS) == Some(st.vtx[k])
  {
    hide Assembled, FeeSum, SizeOf, SigOpsOf;
    assert forall k :: 0 <= k < |st.vtx| ==> Eligible(f, s, st.vtx[k]);
    FeesAreSum(idx, f, st.vtx, v);
  }

  /** The coinbase of a proof-of-work block: 150 coins and the fees. */
  function CoinBase(hash: Hash, nTime: nat, size: nat, nFees: int): Tx {
    Tx(hash, nTime, [OutPoint(0, NULL_N)], [TxOut(POW_SUBSIDY + nFees, false)], size)
  }

  lemma CoinBaseChecks(coinbase: Tx, hash: Hash, nTime: nat, size: nat, nFees: int)
    requires coinbase == CoinBase(hash, nTime, size, nFees)
    ensures coinbase.IsCoinBase() && coinbase.ValueOut() == POW_SUBSIDY + nFees
    ensures CheckTransaction(coinbase) <==> MoneyRange(POW_SUBSIDY + nFees)
  {
    var out := coinbase.vout[0];
    SmallSums(out, out);
    assert coinbase.vout == [out] && coinbase.vout[..1] == [out];
    assert OutputsOk(coinbase, 0);
    assert OutputsOk(coinbase, 1) <==> MoneyRange(out.nValue);
  }

  lemma NewBlockShape(coinbase: Tx, txs: seq<Tx>, b: Block)
    requires coinbase.IsCoinBase() && Ordinary(txs) && DistinctHashes(txs) && coinbase.hash !in HashesOf(txs)
    requires b.vtx == [coinbase] + txs && forall k :: 0 <= k < |txs| ==> CheckTransaction(txs[k])
    ensures !b.IsProofOfStake()
    ensures CheckBlockShape(b) <==> CheckTransaction(coinbase)
  {
    hide CheckTransaction;
    assert b.vtx[0] == coinbase;
    forall i | 1 <= i < |b.vtx| ensures b.vtx[i] == txs[i - 1] && b.vtx[i].hash != coinbase.hash {
      assert txs[i - 1].hash in HashesOf(txs);
    }
    forall i, j | 0 <= i < j < |b.vtx| ensures b.vtx[i].hash != b.vtx[j].hash {
    }
  }

  /** The assembled proof-of-work block, stored where its position says, is accepted by every
      check of ConnectBlock, with the reported fees, if and only if its reward is an amount of
      money that can exist. `v` rules while assembling and `w` while connecting. */
  lemma NewBlockAccepted(idx: Index, f: Files, fb: Files, s: Settings, st: BlockState, b: Block,
                         hash: Hash, nTime: nat, size: nat, stakeSubsidy: int, v: Verdict, w: Verdict)
    requires Built(idx, f, s, st, v) && DistinctHashes(st.vtx) && SameFiles(idx, f, fb) && StoredAt(b, fb)
    requires hash !in idx && hash !in HashesOf(st.vtx) && b.vtx == [CoinBase(hash, nTime, size, st.nFees)] + st.vtx
    requires forall k :: 0 <= k < |st.vtx| ==> CheckTransaction(st.vtx[k])
    requires w.checkBlock && StillAllowed(v, w)
    ensures
      var t := ConnectBlockSpec(idx, fb, b, stakeSubsidy, w);
      && (t.Some? <==> MoneyRange(POW_SUBSIDY + st.nFees))
      && (t.Some? ==> t.value.sum.fees == st.nFees == FeeSum(idx, f, st.vtx, v))
  {
    var coinbase := CoinBase(hash, nTime, size, st.nFees);
    CoinBaseChecks(coinbase, hash, nTime, size, st.nFees);
    BuiltMeans(idx, f, s, st, v);
    NewBlockShape(coinbase, st.vtx, b);
    FeesAreSum(idx, f, st.vtx, v);
    hide Built, ConnectUpTo, Assembled, FeeSum, StoredAt, SameFiles, CheckBlockShape, CheckTransaction, CoinBase, DistinctHashes;
    assert b.vtx[..|st.vtx| + 1] == [coinbase] + st.vtx;
    AssembledConnects(idx, f, fb, b, coinbase, st.vtx, v, w);
  }
}
