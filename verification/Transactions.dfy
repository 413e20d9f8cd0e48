/** Transactions, outpoints and the per-transaction index record
    (src/core.h, src/main.h). */
module Transactions {
  import opened Collections

  /** A hash, as an opaque number. */
  type Hash = int

  const COIN: int := 100_000_000
  const MAX_MONEY: int := 30_000_000 * COIN
  const NULL_N: nat := 0xFFFF_FFFF

  predicate MoneyRange(v: int) {
    0 <= v <= MAX_MONEY
  }

  datatype OutPoint = OutPoint(hash: Hash, n: nat) {
    predicate IsNull() {
      hash == 0 && n == NULL_N
    }
  }

  datatype TxOut = TxOut(nValue: int, scriptEmpty: bool) {
    predicate IsEmpty() {
      nValue == 0 && scriptEmpty
    }
  }

  /** `hash` is what GetHash() returns and `size` the serialized size; an input is
      reduced to the outpoint it spends. */
  datatype Tx = Tx(hash: Hash, nTime: nat, vin: seq<OutPoint>, vout: seq<TxOut>, size: nat) {
    predicate IsCoinBase() {
      |vin| == 1 && vin[0].IsNull() && |vout| >= 1
    }

    predicate IsCoinStake() {
      |vin| > 0 && !vin[0].IsNull() && |vout| >= 2 && vout[0].IsEmpty()
    }

    function ValueOut(): int {
      SumValues(vout)
    }
  }

  function SumValues(vout: seq<TxOut>): int {
    if |vout| == 0 then 0 else SumValues(vout[..|vout| - 1]) + vout[|vout| - 1].nValue
  }

  /** Position of a transaction in the block files. */
  datatype DiskTxPos = DiskTxPos(nFile: nat, nBlockPos: nat, nTxPos: nat)

  /** Marks a transaction that is still in the memory pool. */
  const MEMPOOL_POS := DiskTxPos(1, 1, 1)

  /** Disk location of a transaction and, per output, the location of its spender
      (None for the source's null position). */
  datatype TxIndex = TxIndex(pos: DiskTxPos, vSpent: seq<Option<DiskTxPos>>)

  type Index = map<Hash, TxIndex>

  function NewTxIndex(pos: DiskTxPos, nOutputs: nat): TxIndex {
    TxIndex(pos, seq(nOutputs, _ => None))
  }

  function CompactSizeLen(n: nat): nat {
    if n < 253 then 1 else if n <= 0xFFFF then 3 else if n <= 0xFFFF_FFFF then 5 else 9
  }

  /** A stored block: where its bytes start and its transactions. */
  datatype Block = Block(nFile: nat, nBlockPos: nat, vtx: seq<Tx>) {
    /** Byte offset of transaction i: the 80-byte header, the transaction count and
        the transactions before it. */
    function TxOffset(i: nat): nat
      requires i <= |vtx|
    {
      if i == 0 then nBlockPos + 80 + CompactSizeLen(|vtx|) else TxOffset(i - 1) + vtx[i - 1].size
    }

    function PosOf(i: nat): DiskTxPos
      requires i <= |vtx|
    {
      DiskTxPos(nFile, nBlockPos, TxOffset(i))
    }

    predicate IsProofOfStake() {
      |vtx| > 1 && vtx[1].IsCoinStake()
    }
  }
}
