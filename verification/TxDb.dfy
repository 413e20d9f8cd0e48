/** The transaction database: committed records plus an optional batch of pending
    writes (src/txdb-leveldb.h, src/txdb-leveldb.cpp). */
module TxDb {
  import opened Collections
  import opened Transactions

  datatype BatchOp =
    | PutTx(hash: Hash, record: TxIndex)
    | DeleteTx(hash: Hash)
    | PutBest(best: Hash)

  function Lookup(idx: Index, hash: Hash): Option<TxIndex> {
    if hash in idx then Some(idx[hash]) else None
  }

  function ApplyOp(idx: Index, op: BatchOp): Index {
    match op
    case PutTx(h, r) => idx[h := r]
    case DeleteTx(h) => idx - {h}
    case PutBest(_) => idx
  }

  /** The records after the batch has been written. */
  function Replayed(idx: Index, ops: seq<BatchOp>): Index {
    if |ops| == 0 then idx else ApplyOp(Replayed(idx, ops[..|ops| - 1]), ops[|ops| - 1])
  }

  function ReplayedBest(best: Hash, ops: seq<BatchOp>): Hash {
    if |ops| == 0 then best
    else if ops[|ops| - 1].PutBest? then ops[|ops| - 1].best
    else ReplayedBest(best, ops[..|ops| - 1])
  }

  lemma ReplayedAppend(idx: Index, best: Hash, ops: seq<BatchOp>, op: BatchOp)
    ensures Replayed(idx, ops + [op]) == ApplyOp(Replayed(idx, ops), op)
    ensures ReplayedBest(best, ops + [op]) == if op.PutBest? then op.best else ReplayedBest(best, ops)
  {
    assert (ops + [op])[..|ops|] == ops;
  }

  /** What a read answers when the last write to the key in `ops`, if any, is laid over
      what the disk holds. */
  function Overlaid(onDisk: Option<TxIndex>, ops: seq<BatchOp>, hash: Hash): Option<TxIndex> {
    if |ops| == 0 then onDisk
    else
      match ops[|ops| - 1]
      case PutTx(h, r) => if h == hash then Some(r) else Overlaid(onDisk, ops[..|ops| - 1], hash)
      case DeleteTx(h) => if h == hash then None else Overlaid(onDisk, ops[..|ops| - 1], hash)
      case PutBest(_) => Overlaid(onDisk, ops[..|ops| - 1], hash)
  }

  /** Reading through the batch reads the index the batch produces. */
  lemma {:induction false} OverlayIsReplay(idx: Index, ops: seq<BatchOp>, hash: Hash)
    ensures Overlaid(Lookup(idx, hash), ops, hash) == Lookup(Replayed(idx, ops), hash)
  {
    if |ops| > 0 {
      OverlayIsReplay(idx, ops[..|ops| - 1], hash);
    }
  }

  class CTxDB {
    var disk: Index
    var diskBest: Hash
    var activeBatch: Option<seq<BatchOp>>

    /** What reads see: the committed records with the pending batch on top. */
    ghost function View(): Index
      reads this
    {
      if activeBatch.None? then disk else Replayed(disk, activeBatch.value)
    }

    ghost function ViewBest(): Hash
      reads this
    {
      if activeBatch.None? then diskBest else ReplayedBest(diskBest, activeBatch.value)
    }

    constructor ()
      ensures activeBatch.None? && disk == map[] && diskBest == 0
    {
      disk := map[];
      diskBest := 0;
      activeBatch := None;
    }

    method TxnBegin()
      requires activeBatch.None?
      modifies this`activeBatch
      ensures activeBatch.Some?
      ensures View() == old(View()) && ViewBest() == old(ViewBest())
    {
      activeBatch := Some([]);
    }

    /** All pending writes reach the disk, or none does. */
    method TxnCommit(writeOk: bool) returns (ok: bool)
      requires activeBatch.Some?
      modifies this
      ensures activeBatch.None? && ok == writeOk
      ensures ok ==> disk == old(View()) && diskBest == old(ViewBest())
      ensures !ok ==> disk == old(disk) && diskBest == old(diskBest)
    {
      if writeOk {
        var ops := activeBatch.value;
        var i := 0;
        ghost var disk0, best0 := disk, diskBest;
        while i < |ops|
          invariant i <= |ops|
          invariant disk == Replayed(disk0, ops[..i]) && diskBest == ReplayedBest(best0, ops[..i])
        {
          assert ops[..i + 1] == ops[..i] + [ops[i]];
          ReplayedAppend(disk0, best0, ops[..i], ops[i]);
          match ops[i] {
            case PutTx(h, r) => disk := disk[h := r];
            case DeleteTx(h) => disk := disk - {h};
            case PutBest(b) => diskBest := b;
          }
          i := i + 1;
        }
        assert ops[..|ops|] == ops;
      }
      activeBatch := None;
      ok := writeOk;
    }

    method TxnAbort()
      modifies this`activeBatch
      ensures activeBatch.None?
    {
      activeBatch := None;
    }

    /** Scans the whole batch, the last mention of the key winning, before the disk. */
    method ReadTxIndex(hash: Hash) returns (r: Option<TxIndex>)
      ensures r == Lookup(View(), hash)
    {
      r := Lookup(disk, hash);
      if activeBatch.Some? {
        var ops := activeBatch.value;
        OverlayIsReplay(disk, ops, hash);
        for i := 0 to |ops|
          invariant r == Overlaid(Lookup(disk, hash), ops[..i], hash)
        {
          assert ops[..i + 1][..i] == ops[..i];
          match ops[i] {
            case PutTx(h, rec) => if h == hash { r := Some(rec); }
            case DeleteTx(h) => if h == hash { r := None; }
            case PutBest(_) =>
          }
        }
        assert ops[..|ops|] == ops;
      }
    }

    method UpdateTxIndex(hash: Hash, record: TxIndex)
      modifies this
      ensures View() == old(View())[hash := record] && ViewBest() == old(ViewBest())
      ensures activeBatch.Some? == old(activeBatch.Some?)
      ensures activeBatch.Some? ==> disk == old(disk) && diskBest == old(diskBest)
    {
      if activeBatch.Some? {
        ReplayedAppend(disk, diskBest, activeBatch.value, PutTx(hash, record));
        activeBatch := Some(activeBatch.value + [PutTx(hash, record)]);
      } else {
        disk := disk[hash := record];
      }
    }

    method EraseTxIndex(hash: Hash)
      modifies this
      ensures View() == old(View()) - {hash} && ViewBest() == old(ViewBest())
      ensures activeBatch.Some? == old(activeBatch.Some?)
      ensures activeBatch.Some? ==> disk == old(disk) && diskBest == old(diskBest)
    {
      if activeBatch.Some? {
        ReplayedAppend(disk, diskBest, activeBatch.value, DeleteTx(hash));
        activeBatch := Some(activeBatch.value + [DeleteTx(hash)]);
      } else {
        disk := disk - {hash};
      }
    }

    method WriteHashBestChain(hash: Hash)
      modifies this
      ensures View() == old(View()) && ViewBest() == hash
      ensures activeBatch.Some? == old(activeBatch.Some?)
      ensures activeBatch.Some? ==> disk == old(disk) && diskBest == old(diskBest)
    {
      if activeBatch.Some? {
        ReplayedAppend(disk, diskBest, activeBatch.value, PutBest(hash));
        activeBatch := Some(activeBatch.value + [PutBest(hash)]);
      } else {
        diskBest := hash;
      }
    }
  }
}
