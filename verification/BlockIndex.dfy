/** The tree of block headers (src/main.h, class CBlockIndex): parents never change, the
    forward link and the money supply do. */
module BlockIndex {
  import opened Transactions

  class CBlockIndex {
    const hash: Hash
    const pprev: CBlockIndex?
    const nHeight: nat
    const nChainTrust: nat
    const block: Block              // what reading the block at its file position yields
    ghost const ancestors: seq<CBlockIndex>   // from the root to the parent

    var pnext: CBlockIndex?
    var nMint: int
    var nMoneySupply: int

    constructor (hash: Hash, block: Block, pprev: CBlockIndex?, nBlockTrust: nat)
      ensures this.hash == hash && this.block == block && this.pprev == pprev
      ensures ancestors == if pprev == null then [] else pprev.ancestors + [pprev]
      ensures nHeight == if pprev == null then 0 else pprev.nHeight + 1
      ensures nChainTrust == nBlockTrust + if pprev == null then 0 else pprev.nChainTrust
      ensures pnext == null && nMint == 0 && nMoneySupply == 0
    {
      this.hash := hash;
      this.block := block;
      this.pprev := pprev;
      this.nHeight := if pprev == null then 0 else pprev.nHeight + 1;
      this.nChainTrust := nBlockTrust + if pprev == null then 0 else pprev.nChainTrust;
      this.ancestors := if pprev == null then [] else pprev.ancestors + [pprev];
      pnext := null;
      nMint := 0;
      nMoneySupply := 0;
    }

    /** The branch from the root up to and including this block. */
    ghost function Path(): seq<CBlockIndex> {
      ancestors + [this]
    }
  }
}
