/** The chain state: block tree, best tip, forward links and transaction index
    (src/main.cpp: Reorganize, SetBestChain, AddToBlockIndex, FindBlockByHeight). */
module Chain {
  import opened Collections
  import opened Transactions
  import opened IndexEffects
  import opened ConnectSpec
  import opened TxDb
  import opened BlockIndex
  import opened Branches
  import opened Connect

  /** The opaque decisions about each block, by block hash. */
  type Verdicts = Hash -> Verdict

  /** A block offered to AddToBlockIndex: its stored form, its own trust, whether the
      stake modifier and the block-index record could be written, and the verdicts in
      force while it is processed. */
  datatype Arrival = Arrival(
    hash: Hash, hashPrevBlock: Hash, block: Block, nBlockTrust: nat,
    stakeModifierOk: bool, recordWritten: bool, verdicts: Verdicts)

  /** What offered blocks change: the known blocks and the tip. */
  datatype Ledger = Ledger(index: map<Hash, CBlockIndex>, tip: CBlockIndex)

  /** One offered block, the answer, and, when a switch was tried, the lowest block with more
      trust than the tip and where its branch leaves the tip's. */
  datatype Turn = Turn(a: Arrival, ok: bool, first: CBlockIndex, pfork: CBlockIndex)

  /** An accepted block continues the replay, spends only unspent outputs and moves the
      unspent total by what it creates. */
  lemma AcceptedStep(path: seq<CBlockIndex>, k: nat, f: Files, stakeSubsidy: int, v: Verdict)
    requires 1 <= k < |path| && NoRepeats(path) && SpendsAlong(path[..k])
    requires forall i :: 0 <= i < |path| ==> StoredAt(path[i].block, f)
    requires ConnectBlockSpec(ReplayIndex(path[..k]), f, path[k].block, stakeSubsidy, v).Some?
    ensures
      var t := ConnectBlockSpec(ReplayIndex(path[..k]), f, path[k].block, stakeSubsidy, v).value;
      && t.idx == ReplayIndex(path[..k + 1])
      && UnspentValue(t.idx, f) == UnspentValue(ReplayIndex(path[..k]), f) + t.sum.Created()
    ensures SpendsAlong(path[..k + 1])
  {
    hide *;
    var idx, b := ReplayIndex(path[..k]), path[k].block;
    AcceptedMeans(idx, f, b, stakeSubsidy, v);
    ReplayStep(path, k);
    FreshNext(path, k);
    NoRepeatsPrefix(path, k);
    SoundReplay(path[..k], f);
    ConnectedValue(idx, f, b, |b.vtx|, v);
    BalancedMeans(ConnectUpTo(idx, f, b, |b.vtx|, v).value, f, UnspentValue(idx, f));
    SpendsOneMore(path, k);
  }

  lemma AcceptedMeans(idx: Index, f: Files, b: Block, stakeSubsidy: int, v: Verdict)
    requires ConnectBlockSpec(idx, f, b, stakeSubsidy, v).Some?
    ensures ConnectBlockSpec(idx, f, b, stakeSubsidy, v) == ConnectUpTo(idx, f, b, |b.vtx|, v)
    ensures ConnectUpTo(idx, f, b, |b.vtx|, v).value.idx == ApplyBlock(idx, b)
    ensures BlockSpends(idx, b) && DistinctHashes(b.vtx)
  {
    hide ConnectUpTo, RewardOk, CheckTransaction, DistinctHashes;
    ConnectedEffect(idx, f, b, |b.vtx|, v);
  }

  lemma BalancedMeans(t: Tally, f: Files, base: int)
    requires Balanced(t, f, base)
    ensures UnspentValue(t.idx, f) == base + t.sum.Created()
  {
  }

  lemma NoRepeatsPrefix(path: seq<CBlockIndex>, k: nat)
    requires k <= |path| && NoRepeats(path)
    ensures NoRepeats(path[..k])
  {
    hide Disjoint;
  }

  lemma SpendsOneMore(path: seq<CBlockIndex>, k: nat)
    requires 1 <= k < |path| && SpendsAlong(path[..k])
    requires BlockSpends(ReplayIndex(path[..k]), path[k].block) && DistinctHashes(path[k].block.vtx)
    ensures SpendsAlong(path[..k + 1])
  {
    hide BlockSpends, ReplayIndex, DistinctHashes;
    assert path[..k + 1][..k] == path[..k];
  }

  class ChainState {
    const files: Files
    const stakeSubsidy: nat -> int
    const txdb: CTxDB
    const pindexGenesisBlock: CBlockIndex

    var mapBlockIndex: map<Hash, CBlockIndex>
    var pindexBest: CBlockIndex
    var hashBestChain: Hash
    var nBestHeight: nat
    var nBestChainTrust: nat
    var pblockindexFBBHLast: CBlockIndex?

    ghost var nodes: set<CBlockIndex>   // the blocks of mapBlockIndex

    // -------------------------------------------------------------- invariants

    ghost predicate NodeStored(p: CBlockIndex) {
      NoRepeats(p.Path()) && |p.block.vtx| > 0 && StoredAt(p.block, files)
    }

    ghost predicate TreeInv()
      reads this`nodes, this`mapBlockIndex
    {
      && Tree(nodes, pindexGenesisBlock)
      && (forall h :: h in mapBlockIndex ==> mapBlockIndex[h] in nodes && mapBlockIndex[h].hash == h)
      && (forall p :: p in nodes ==> p.hash in mapBlockIndex && mapBlockIndex[p.hash] == p)
      && (forall p :: p in nodes ==> NodeStored(p))
    }

    /** The next block towards `tip`, for a proper ancestor of it. */
    ghost function NextTowards(p: CBlockIndex, tip: CBlockIndex): CBlockIndex? {
      var path := tip.Path();
      if p.nHeight + 1 < |path| && path[p.nHeight] == p then path[p.nHeight + 1] else null
    }

    ghost predicate Links(tip: CBlockIndex)
      reads this`nodes, nodes`pnext
    {
      forall p :: p in nodes ==> p.pnext == NextTowards(p, tip)
    }

    /** Along the first n blocks of the branch, the recorded supply is the unspent total. */
    ghost predicate Supplies(path: seq<CBlockIndex>, n: nat)
      requires n <= |path|
      reads path`nMoneySupply
    {
      forall k {:trigger path[k]} :: 0 <= k < n ==>
        path[k].nMoneySupply == UnspentValue(ReplayIndex(path[..k + 1]), files)
    }

    /** The database and the links describe the branch that ends in `tip`. */
    ghost predicate Attached(tip: CBlockIndex)
      reads this`nodes, txdb, nodes, tip.Path()
    {
      && tip in nodes
      && SpendsAlong(tip.Path())
      && txdb.disk == ReplayIndex(tip.Path())
      && txdb.diskBest == tip.hash
      && Links(tip)
      && Supplies(tip.Path(), |tip.Path()|)
    }

    ghost predicate Idle()
      reads this, txdb
    {
      TreeInv() && txdb.activeBatch.None?
    }

    ghost predicate TipIs(tip: CBlockIndex)
      reads this
    {
      && pindexBest == tip
      && hashBestChain == tip.hash
      && nBestHeight == tip.nHeight
      && nBestChainTrust == tip.nChainTrust
      && (pblockindexFBBHLast != null ==> OnBranch(pblockindexFBBHLast, tip))
    }

    ghost predicate Valid()
      reads this, txdb, nodes, pindexBest.Path()
    {
      Idle() && TipIs(pindexBest) && Attached(pindexBest)
    }

    /** Start from the genesis block, whose transactions are never indexed. */
    constructor (files: Files, stakeSubsidy: nat -> int, hash: Hash, genesis: Block, nTrust: nat)
      requires |genesis.vtx| > 0 && StoredAt(genesis, files)
      ensures Valid() && fresh(txdb) && fresh(nodes)
      ensures nodes == {pindexGenesisBlock} && pindexBest == pindexGenesisBlock && mapBlockIndex == map[hash := pindexBest]
      ensures pindexBest.hash == hash && pindexBest.nChainTrust == nTrust && pindexBest.Path() == [pindexBest] && pindexBest.nHeight == 0
      ensures this.files == files && this.stakeSubsidy == stakeSubsidy
    {
      var g := new CBlockIndex(hash, genesis, null, nTrust);
      var db := new CTxDB();
      db.TxnBegin();
      db.WriteHashBestChain(hash);
      var ok := db.TxnCommit(true);
      this.files := files;
      this.stakeSubsidy := stakeSubsidy;
      txdb := db;
      pindexGenesisBlock := g;
      mapBlockIndex := map[hash := g];
      pindexBest := g;
      hashBestChain := hash;
      nBestHeight := 0;
      nBestChainTrust := nTrust;
      pblockindexFBBHLast := null;
      nodes := {g};
      new;
      hide *;
      StartsValid(g);
    }

    lemma StartsValid(g: CBlockIndex)
      requires nodes == {g} && pindexGenesisBlock == g && pindexBest == g && mapBlockIndex == map[g.hash := g]
      requires g.pprev == null && g.ancestors == [] && g.nHeight == 0 && g.pnext == null && g.nMoneySupply == 0
      requires hashBestChain == g.hash && nBestHeight == 0 && nBestChainTrust == g.nChainTrust && pblockindexFBBHLast == null
      requires txdb.disk == map[] && txdb.diskBest == g.hash && txdb.activeBatch.None?
      requires |g.block.vtx| > 0 && StoredAt(g.block, files)
      ensures Valid() && g.Path() == [g]
    {
      hide StoredAt;
      assert g.Path() == [g];
      assert g.Path()[..1] == [g];
    }

    // -------------------------------------------------------------- fork and branches

    /** Reorganize's walk: always lower the higher block, else the current branch. */
    method FindFork(pindexNew: CBlockIndex) returns (pfork: CBlockIndex)
      requires TreeInv() && pindexBest in nodes && pindexNew in nodes
      ensures IsFork(pfork, pindexBest, pindexNew) && pfork in nodes
    {
      hide CBlockIndex.Path, NodeOk, NodeStored;
      ghost var common := set a | a in nodes && a in pindexBest.Path() && a in pindexNew.Path();
      var plonger := pindexNew;
      pfork := pindexBest;
      OnOwnBranch(pindexBest);
      OnOwnBranch(pindexNew);
      while pfork != plonger
        invariant pfork in nodes && plonger in nodes && OnBranch(pfork, pindexBest) && OnBranch(plonger, pindexNew)
        invariant forall a :: a in common ==> a in pfork.Path() && a in plonger.Path()
        decreases pfork.nHeight + plonger.nHeight
      {
        ghost var start := plonger.nHeight;
        while plonger.nHeight > pfork.nHeight
          invariant plonger in nodes && OnBranch(plonger, pindexNew) && plonger.nHeight <= start
          invariant forall a :: a in common ==> a in plonger.Path()
          decreases plonger.nHeight
        {
          StepDown(nodes, pindexGenesisBlock, plonger, pfork, pindexNew, common);
          plonger := plonger.pprev;
        }
        if pfork == plonger {
          break;
        }
        StepDown(nodes, pindexGenesisBlock, pfork, plonger, pindexBest, common);
        pfork := pfork.pprev;
      }
      forall a | a in pindexBest.Path() && a in pindexNew.Path() ensures a.nHeight <= pfork.nHeight {
        OnBranchAt(nodes, pindexGenesisBlock, a, pindexNew);
        assert a in common;
        OnBranchAt(nodes, pindexGenesisBlock, a, pfork);
      }
    }

    /** The blocks from `p` down to, and without, its ancestor `pfork`. */
    method BranchAbove(p: CBlockIndex, pfork: CBlockIndex) returns (v: seq<CBlockIndex>)
      requires TreeInv() && p in nodes && pfork in nodes && OnBranch(pfork, p)
      ensures pfork.nHeight <= p.nHeight && |v| == p.nHeight - pfork.nHeight && |p.Path()| == p.nHeight + 1
      ensures forall i :: 0 <= i < |v| ==> v[i] == p.Path()[p.nHeight - i]
    {
      hide CBlockIndex.Path, NodeOk, NodeStored;
      OnBranchAt(nodes, pindexGenesisBlock, pfork, p);
      ghost var path := p.Path();
      v := [];
      var pindex := p;
      OnOwnBranch(p);
      PathAt(nodes, pindexGenesisBlock, p, p.nHeight);
      while pindex != pfork
        invariant pindex in nodes && OnBranch(pindex, p) && OnBranch(pfork, pindex)
        invariant |v| == p.nHeight - pindex.nHeight
        invariant forall i :: 0 <= i < |v| ==> v[i] == path[p.nHeight - i]
        decreases pindex.nHeight
      {
        OnBranchAt(nodes, pindexGenesisBlock, pindex, p);
        assert pindex == path[p.nHeight - |v|];
        v := v + [pindex];
        OnBranchAt(nodes, pindexGenesisBlock, pfork, pindex);
        OnBranchAt(nodes, pindexGenesisBlock, pindex, pindex);
        StepDown(nodes, pindexGenesisBlock, pindex, pfork, p, {pfork});
        pindex := pindex.pprev;
      }
    }

    // -------------------------------------------------------------- Reorganize

    ghost predicate Accepts(path: seq<CBlockIndex>, k: nat, env: Verdicts)
      requires k < |path|
    {
      ConnectBlockSpec(ReplayIndex(path[..k]), files, path[k].block, stakeSubsidy(k), env(path[k].hash)).Some?
    }

    /** The block can be read back and connects on top of its branch. */
    ghost predicate Connects(path: seq<CBlockIndex>, k: nat, env: Verdicts)
      requires k < |path|
    {
      env(path[k].hash).readable && Accepts(path, k, env)
    }

    ghost predicate ConnectsBetween(path: seq<CBlockIndex>, lo: nat, hi: nat, env: Verdicts)
      requires hi <= |path|
    {
      forall k :: lo <= k < hi ==> Connects(path, k, env)
    }

    ghost predicate ReadableBetween(path: seq<CBlockIndex>, lo: nat, hi: nat, env: Verdicts)
      requires hi <= |path|
    {
      forall k :: lo <= k < hi ==> env(path[k].hash).readable
    }

    /** Disconnects the blocks of the current branch above the fork, tip first. */
    method DisconnectBranch(vDisconnect: seq<CBlockIndex>, tip: CBlockIndex, pfork: CBlockIndex, env: Verdicts)
      returns (ok: bool)
      requires TreeInv() && tip in nodes && pfork in nodes && OnBranch(pfork, tip) && SpendsAlong(tip.Path())
      requires txdb.activeBatch.Some? && txdb.View() == ReplayIndex(tip.Path())
      requires pfork.nHeight <= tip.nHeight && |vDisconnect| == tip.nHeight - pfork.nHeight && |tip.Path()| == tip.nHeight + 1
      requires forall i :: 0 <= i < |vDisconnect| ==> vDisconnect[i] == tip.Path()[tip.nHeight - i]
      modifies txdb
      ensures ok <==> ReadableBetween(tip.Path(), pfork.nHeight + 1, tip.nHeight + 1, env)
      ensures ok ==> txdb.View() == ReplayIndex(pfork.Path())
      ensures txdb.activeBatch.Some? && txdb.disk == old(txdb.disk) && txdb.diskBest == old(txdb.diskBest)
    {
      hide CBlockIndex.Path, ReplayIndex, SpendsAlong, NodeOk, Tree, UndoBlock;
      ghost var path := tip.Path();
      OnBranchAt(nodes, pindexGenesisBlock, pfork, tip);
      assert NodeStored(tip);
      assert path[..tip.nHeight + 1] == path;
      for i := 0 to |vDisconnect|
        invariant txdb.View() == ReplayIndex(path[..tip.nHeight + 1 - i])
        invariant txdb.activeBatch.Some? && txdb.disk == old(txdb.disk) && txdb.diskBest == old(txdb.diskBest)
        invariant forall k :: tip.nHeight + 1 - i <= k < tip.nHeight + 1 ==> env(path[k].hash).readable
      {
        var pindex := vDisconnect[i];
        if !env(pindex.hash).readable {
          assert !env(path[tip.nHeight - i].hash).readable;
          return false;
        }
        UndoLast(path, tip.nHeight - i);
        var done := DisconnectBlock(txdb, pindex.block);
      }
      return true;
    }

    /** Connects the blocks of the new branch above the fork, lowest first. */
    method ConnectBranch(vConnect: seq<CBlockIndex>, tip: CBlockIndex, pfork: CBlockIndex, env: Verdicts)
      returns (ok: bool)
      requires TreeInv() && tip in nodes && pfork in nodes && OnBranch(pfork, tip)
      requires pfork.nHeight <= tip.nHeight && |vConnect| == tip.nHeight - pfork.nHeight && |tip.Path()| == tip.nHeight + 1
      requires forall i :: 0 <= i < |vConnect| ==> vConnect[i] == tip.Path()[pfork.nHeight + 1 + i]
      requires SpendsAlong(pfork.Path()) && Supplies(tip.Path(), pfork.nHeight + 1)
      requires txdb.activeBatch.Some? && txdb.View() == ReplayIndex(pfork.Path())
      modifies txdb, (set p | p in vConnect)`nMint, (set p | p in vConnect)`nMoneySupply
      ensures ok <==> ConnectsBetween(tip.Path(), pfork.nHeight + 1, tip.nHeight + 1, env)
      ensures ok ==>
        && txdb.View() == ReplayIndex(tip.Path())
        && SpendsAlong(tip.Path())
        && Supplies(tip.Path(), tip.nHeight + 1)
      ensures txdb.activeBatch.Some? && txdb.disk == old(txdb.disk) && txdb.diskBest == old(txdb.diskBest)
    {
      hide CBlockIndex.Path, ReplayIndex, SpendsAlong, NodeOk, Tree, ConnectBlockSpec, UnspentValue;
      ghost var path := tip.Path();
      OnBranchAt(nodes, pindexGenesisBlock, pfork, tip);
      assert path[..tip.nHeight + 1] == path;
      for i := 0 to |vConnect|
        invariant txdb.View() == ReplayIndex(path[..pfork.nHeight + 1 + i])
        invariant SpendsAlong(path[..pfork.nHeight + 1 + i])
        invariant Supplies(path, pfork.nHeight + 1 + i)
        invariant txdb.activeBatch.Some? && txdb.disk == old(txdb.disk) && txdb.diskBest == old(txdb.diskBest)
        invariant ConnectsBetween(path, pfork.nHeight + 1, pfork.nHeight + 1 + i, env)
      {
        var pindex := vConnect[i];
        ghost var k := pfork.nHeight + 1 + i;
        if !env(pindex.hash).readable {
          assert !Connects(path, k, env);
          return false;
        }
        ok := ConnectNext(tip, k, pindex, env);
        if !ok {
          assert !Connects(path, k, env);
          return;
        }
      }
      return true;
    }

    lemma BranchStored(tip: CBlockIndex)
      requires TreeInv() && tip in nodes
      ensures |tip.Path()| == tip.nHeight + 1 && NoRepeats(tip.Path())
      ensures forall i :: 0 <= i < |tip.Path()| ==>
        tip.Path()[i] in nodes && tip.Path()[i].nHeight == i && StoredAt(tip.Path()[i].block, files)
      ensures forall i :: 1 <= i < |tip.Path()| ==> tip.Path()[i].pprev == tip.Path()[i - 1]
    {
      hide NoRepeats, StoredAt;
      BranchNodes(nodes, pindexGenesisBlock, tip);
      assert NodeStored(tip);
      forall i | 0 <= i < |tip.Path()| ensures StoredAt(tip.Path()[i].block, files) {
        assert NodeStored(tip.Path()[i]);
      }
    }

    /** Connects block k of a branch whose first k blocks are replayed in the database. */
    method ConnectNext(ghost tip: CBlockIndex, ghost k: nat, pindex: CBlockIndex, env: Verdicts) returns (ok: bool)
      requires TreeInv() && tip in nodes && 1 <= k < |tip.Path()| && pindex == tip.Path()[k]
      requires txdb.View() == ReplayIndex(tip.Path()[..k]) && SpendsAlong(tip.Path()[..k]) && Supplies(tip.Path(), k)
      modifies txdb, pindex`nMint, pindex`nMoneySupply
      ensures ok <==> Accepts(tip.Path(), k, env)
      ensures ok ==>
        && txdb.View() == ReplayIndex(tip.Path()[..k + 1])
        && SpendsAlong(tip.Path()[..k + 1])
        && Supplies(tip.Path(), k + 1)
      ensures !ok ==> txdb.View() == old(txdb.View()) && unchanged(pindex)
      ensures txdb.ViewBest() == old(txdb.ViewBest())
      ensures txdb.activeBatch.Some? == old(txdb.activeBatch.Some?)
      ensures txdb.activeBatch.Some? ==> txdb.disk == old(txdb.disk) && txdb.diskBest == old(txdb.diskBest)
    {
      hide CBlockIndex.Path, ReplayIndex, SpendsAlong, Tree, ConnectBlockSpec, UnspentValue, NoRepeats, StoredAt;
      ghost var path := tip.Path();
      BranchStored(tip);
      assert path[k - 1] == pindex.pprev;
      ok := ConnectBlock(txdb, files, pindex, stakeSubsidy, env(pindex.hash));
      if ok {
        AcceptedStep(path, k, files, stakeSubsidy(k), env(pindex.hash));
        assert forall j :: 0 <= j < k ==> path[j] != pindex;
      }
    }

    // -------------------------------------------------------------- forward links

    /** Moving the end of a branch up or down by one block changes one forward link. */
    lemma NextTowardsParent(q: CBlockIndex)
      requires TreeInv() && q in nodes && q.pprev != null
      ensures q.pprev in nodes && NextTowards(q.pprev, q.pprev) == null
      ensures forall p :: p in nodes ==>
        NextTowards(p, q) == if p == q.pprev then q else NextTowards(p, q.pprev)
    {
      hide NodeStored;
      assert NodeOk(nodes, pindexGenesisBlock, q) && NodeOk(nodes, pindexGenesisBlock, q.pprev);
      assert q.Path()[..q.nHeight] == q.pprev.Path();
      assert q.pprev.Path()[q.nHeight - 1] == q.pprev;
      forall p | p in nodes ensures NextTowards(p, q) == if p == q.pprev then q else NextTowards(p, q.pprev) {
        assert p.nHeight + 1 < q.nHeight ==> q.Path()[p.nHeight] == q.pprev.Path()[p.nHeight];
      }
    }

    method Unlink(q: CBlockIndex)
      requires TreeInv() && q in nodes && q.pprev != null && Links(q)
      modifies nodes`pnext
      ensures Links(q.pprev)
    {
      NextTowardsParent(q);
      hide NextTowards;
      q.pprev.pnext := null;
    }

    method Link(q: CBlockIndex)
      requires TreeInv() && q in nodes && q.pprev != null && Links(q.pprev)
      modifies nodes`pnext
      ensures Links(q)
    {
      NextTowardsParent(q);
      hide NextTowards;
      q.pprev.pnext := q;
    }

    /** The link updates of Reorganize: clear the old branch, then set the new one. */
    method Relink(tip: CBlockIndex, pindexNew: CBlockIndex, pfork: CBlockIndex,
                  vDisconnect: seq<CBlockIndex>, vConnect: seq<CBlockIndex>)
      requires TreeInv() && {tip, pindexNew, pfork} <= nodes && OnBranch(pfork, tip) && OnBranch(pfork, pindexNew)
      requires Links(tip)
      requires |tip.Path()| == tip.nHeight + 1 == pfork.nHeight + |vDisconnect| + 1
      requires |pindexNew.Path()| == pindexNew.nHeight + 1 == pfork.nHeight + |vConnect| + 1
      requires forall i :: 0 <= i < |vDisconnect| ==> vDisconnect[i] == tip.Path()[tip.nHeight - i]
      requires forall i :: 0 <= i < |vConnect| ==> vConnect[i] == pindexNew.Path()[pfork.nHeight + 1 + i]
      modifies nodes`pnext
      ensures Links(pindexNew)
    {
      hide CBlockIndex.Path, NodeStored, NodeOk, Tree, Links, NextTowards;
      BranchStored(tip);
      BranchStored(pindexNew);
      OnBranchAt(nodes, pindexGenesisBlock, pfork, tip);
      OnBranchAt(nodes, pindexGenesisBlock, pfork, pindexNew);
      BranchEnd(tip);
      BranchEnd(pindexNew);
      for i := 0 to |vDisconnect|
        invariant Links(tip.Path()[tip.nHeight - i])
      {
        assert vDisconnect[i].pprev == tip.Path()[tip.nHeight - i - 1];
        Unlink(vDisconnect[i]);
      }
      for i := 0 to |vConnect|
        invariant Links(pindexNew.Path()[pfork.nHeight + i])
      {
        Link(vConnect[i]);
      }
    }

    lemma BranchEnd(tip: CBlockIndex)
      requires TreeInv() && tip in nodes
      ensures |tip.Path()| == tip.nHeight + 1 && tip.Path()[tip.nHeight] == tip
    {
      assert NodeOk(nodes, pindexGenesisBlock, tip);
    }

    // -------------------------------------------------------------- switching branches

    /** Reorganizing from `tip` to `pindexNew` over their fork succeeds: everything can be
        read, every new block connects and the commit goes through. */
    ghost predicate Reorganizable(tip: CBlockIndex, pindexNew: CBlockIndex, pfork: CBlockIndex, env: Verdicts) {
      && |tip.Path()| == tip.nHeight + 1
      && |pindexNew.Path()| == pindexNew.nHeight + 1
      && ReadableBetween(tip.Path(), pfork.nHeight + 1, tip.nHeight + 1, env)
      && ConnectsBetween(pindexNew.Path(), pfork.nHeight + 1, pindexNew.nHeight + 1, env)
      && env(pindexNew.hash).commit
    }

    method Reversed(v: seq<CBlockIndex>) returns (r: seq<CBlockIndex>)
      ensures |r| == |v| && forall i :: 0 <= i < |v| ==> r[i] == v[|v| - 1 - i]
    {
      r := [];
      for i := 0 to |v|
        invariant |r| == i && forall j :: 0 <= j < i ==> r[j] == v[|v| - 1 - j]
      {
        r := r + [v[|v| - 1 - i]];
      }
    }

    /** The database part of Reorganize: disconnect, connect and commit, in one batch. */
    method SwitchInDatabase(tip: CBlockIndex, pindexNew: CBlockIndex, pfork: CBlockIndex,
                            vDisconnect: seq<CBlockIndex>, vConnect: seq<CBlockIndex>, env: Verdicts)
      returns (ok: bool)
      requires TreeInv() && {tip, pindexNew, pfork} <= nodes && OnBranch(pfork, tip) && OnBranch(pfork, pindexNew)
      requires |tip.Path()| == tip.nHeight + 1 == pfork.nHeight + |vDisconnect| + 1
      requires |pindexNew.Path()| == pindexNew.nHeight + 1 == pfork.nHeight + |vConnect| + 1
      requires SpendsAlong(tip.Path()) && SpendsAlong(pfork.Path()) && Supplies(pindexNew.Path(), pfork.nHeight + 1)
      requires txdb.activeBatch.Some? && txdb.View() == txdb.disk == ReplayIndex(tip.Path())
      requires forall i :: 0 <= i < |vDisconnect| ==> vDisconnect[i] == tip.Path()[tip.nHeight - i]
      requires forall i :: 0 <= i < |vConnect| ==> vConnect[i] == pindexNew.Path()[pfork.nHeight + 1 + i]
      modifies txdb, (set p | p in vConnect)`nMint, (set p | p in vConnect)`nMoneySupply
      ensures ok <==> Reorganizable(tip, pindexNew, pfork, env)
      ensures ok ==>
        && SpendsAlong(pindexNew.Path())
        && txdb.disk == ReplayIndex(pindexNew.Path())
        && txdb.diskBest == pindexNew.hash
        && Supplies(pindexNew.Path(), |pindexNew.Path()|)
        && txdb.activeBatch.None?
      ensures !ok ==> txdb.disk == old(txdb.disk) && txdb.diskBest == old(txdb.diskBest)
    {
      hide CBlockIndex.Path, NodeStored, NodeOk, Tree, ReplayIndex, SpendsAlong, Connects, UnspentValue, OnBranch, NoRepeats;
      BranchStored(pindexNew);
      ok := DisconnectBranch(vDisconnect, tip, pfork, env);
      if !ok {
        return;
      }
      ok := ConnectBranch(vConnect, pindexNew, pfork, env);
      if !ok {
        return;
      }
      txdb.WriteHashBestChain(pindexNew.hash);
      ok := txdb.TxnCommit(env(pindexNew.hash).commit);
    }

    /** All or nothing: either the database, the links and the supplies describe the new
        branch, or nothing that describes the old one has changed. */
    method Reorganize(pindexNew: CBlockIndex, env: Verdicts) returns (ok: bool, ghost pfork: CBlockIndex)
      requires TreeInv() && pindexBest in nodes && pindexNew in nodes && Attached(pindexBest)
      requires txdb.activeBatch.Some? && txdb.View() == txdb.disk
      modifies txdb, nodes`pnext, nodes`nMint, nodes`nMoneySupply
      ensures IsFork(pfork, pindexBest, pindexNew)
      ensures ok <==> Reorganizable(pindexBest, pindexNew, pfork, env)
      ensures ok ==> Attached(pindexNew) && txdb.activeBatch.None?
      ensures !ok ==> Attached(pindexBest) && txdb.disk == old(txdb.disk) && txdb.diskBest == old(txdb.diskBest)
      ensures !ok ==> forall p :: p in nodes ==> p.pnext == old(p.pnext)
      ensures forall p :: p in nodes && (!OnBranch(p, pindexNew) || OnBranch(p, pindexBest)) ==>
        p.nMoneySupply == old(p.nMoneySupply)
    {
      hide *;
      ghost var tip := pindexBest;
      AttachedParts(tip);
      BranchStored(tip);
      BranchStored(pindexNew);
      var fork := FindFork(pindexNew);
      pfork := fork;
      AttachedParts(tip);
      ForkSplits(tip, pindexNew, fork);
      SharedSupplies(tip, pindexNew, fork);
      var vDisconnect := BranchAbove(pindexBest, fork);
      var vConnect := BranchAbove(pindexNew, fork);
      vConnect := Reversed(vConnect);
      AboveFork(tip, pindexNew, fork, vConnect);
      ok := SwitchInDatabase(pindexBest, pindexNew, fork, vDisconnect, vConnect, env);
      AttachedParts(tip);
      if ok {
        Relink(pindexBest, pindexNew, fork, vDisconnect, vConnect);
        AttachedParts(pindexNew);
      }
    }

    /** What is connected lies on the new branch and not on the old one. */
    lemma AboveFork(tip: CBlockIndex, pindexNew: CBlockIndex, pfork: CBlockIndex, vConnect: seq<CBlockIndex>)
      requires TreeInv() && tip in nodes && pindexNew in nodes && pfork.nHeight <= pindexNew.nHeight
      requires |pindexNew.Path()| == pindexNew.nHeight + 1 == pfork.nHeight + |vConnect| + 1
      requires forall i :: 0 <= i < |vConnect| ==> vConnect[i] == pindexNew.Path()[pfork.nHeight + 1 + i]
      requires forall k :: pfork.nHeight < k <= pindexNew.nHeight ==>
        OnBranch(pindexNew.Path()[k], pindexNew) && !OnBranch(pindexNew.Path()[k], tip)
      ensures forall p :: p in vConnect ==> p in nodes && OnBranch(p, pindexNew) && !OnBranch(p, tip)
      ensures forall k :: 0 <= k < |tip.Path()| ==> tip.Path()[k] in nodes && OnBranch(tip.Path()[k], tip) && tip.Path()[k] !in vConnect
    {
      hide CBlockIndex.Path, NodeStored, NoRepeats, StoredAt;
      BranchStored(pindexNew);
      BranchStored(tip);
    }

    /** Blocks of the new branch above the fork are not on the old one. */
    lemma ForkSplits(tip: CBlockIndex, pindexNew: CBlockIndex, pfork: CBlockIndex)
      requires TreeInv() && tip in nodes && pindexNew in nodes && IsFork(pfork, tip, pindexNew)
      requires Attached(tip)
      ensures SpendsAlong(pfork.Path()) && pfork in nodes && OnBranch(pfork, tip) && OnBranch(pfork, pindexNew)
      ensures pfork.nHeight <= tip.nHeight && pfork.nHeight <= pindexNew.nHeight
      ensures |tip.Path()| == tip.nHeight + 1 && |pindexNew.Path()| == pindexNew.nHeight + 1
      ensures tip.Path()[..pfork.nHeight + 1] == pindexNew.Path()[..pfork.nHeight + 1]
      ensures forall k :: 0 <= k < |tip.Path()| ==> OnBranch(tip.Path()[k], tip)
      ensures forall k :: pfork.nHeight < k <= pindexNew.nHeight ==>
        OnBranch(pindexNew.Path()[k], pindexNew) && !OnBranch(pindexNew.Path()[k], tip)
    {
      hide NodeStored, NextTowards, ReplayIndex, UnspentValue, BlockSpends;
      OnBranchAt(nodes, pindexGenesisBlock, pfork, tip);
      OnBranchAt(nodes, pindexGenesisBlock, pfork, pindexNew);
      if pfork.nHeight < tip.nHeight {
        if 1 <= pfork.nHeight + 1 < |tip.Path()| { SpendsAlongAt(tip.Path(), pfork.nHeight + 1); }
      } else {
        assert tip.Path()[..pfork.nHeight + 1] == tip.Path();
      }
      forall k | pfork.nHeight < k <= pindexNew.nHeight ensures !OnBranch(pindexNew.Path()[k], tip) {
        PathAt(nodes, pindexGenesisBlock, pindexNew, k);
      }
    }

    lemma SharedSupplies(tip: CBlockIndex, pindexNew: CBlockIndex, pfork: CBlockIndex)
      requires pfork.nHeight < |tip.Path()| && pfork.nHeight < |pindexNew.Path()|
      requires tip.Path()[..pfork.nHeight + 1] == pindexNew.Path()[..pfork.nHeight + 1]
      requires Supplies(tip.Path(), |tip.Path()|)
      ensures Supplies(pindexNew.Path(), pfork.nHeight + 1)
    {
      hide CBlockIndex.Path, ReplayIndex, UnspentValue;
      var path := pindexNew.Path();
      forall k | 0 <= k < pfork.nHeight + 1
        ensures path[k].nMoneySupply == UnspentValue(ReplayIndex(path[..k + 1]), files)
      {
        var a, b := tip.Path()[..pfork.nHeight + 1], pindexNew.Path()[..pfork.nHeight + 1];
        assert a[k] == b[k] && a[..k + 1] == b[..k + 1];
        assert a[..k + 1] == tip.Path()[..k + 1] && b[..k + 1] == pindexNew.Path()[..k + 1];
        assert tip.Path()[k] == path[k];
      }
    }

    // -------------------------------------------------------------- extending by one block

    ghost predicate Extends(q: CBlockIndex, env: Verdicts) {
      |q.Path()| == q.nHeight + 1 && Accepts(q.Path(), q.nHeight, env) && env(q.hash).commit
    }

    /** Attaches a block whose parent the database describes, or changes nothing. */
    method SetBestChainInner(pindexNew: CBlockIndex, env: Verdicts) returns (ok: bool)
      requires TreeInv() && pindexNew in nodes && pindexNew.pprev != null && Attached(pindexNew.pprev)
      requires txdb.activeBatch.Some? && txdb.View() == txdb.disk
      modifies txdb, nodes`pnext, pindexNew`nMint, pindexNew`nMoneySupply
      ensures ok <==> Extends(pindexNew, env)
      ensures ok ==> Attached(pindexNew)
      ensures !ok ==> Attached(pindexNew.pprev) && txdb.disk == old(txdb.disk) && txdb.diskBest == old(txdb.diskBest)
      ensures !ok ==> forall p :: p in nodes ==> p.pnext == old(p.pnext)
      ensures txdb.activeBatch.None?
    {
      hide CBlockIndex.Path, NodeStored, NodeOk, Tree, NextTowards, ReplayIndex, SpendsAlong, UnspentValue, Accepts,
        NoRepeats;
      BranchStored(pindexNew);
      BranchStored(pindexNew.pprev);
      ParentBranch(pindexNew);
      ghost var k := pindexNew.nHeight;
      ok := ConnectNext(pindexNew, k, pindexNew, env);
      if !ok {
        txdb.TxnAbort();
        return;
      }
      txdb.WriteHashBestChain(pindexNew.hash);
      ok := txdb.TxnCommit(env(pindexNew.hash).commit);
      if ok {
        Link(pindexNew);
      }
    }

    lemma ParentBranch(q: CBlockIndex)
      requires TreeInv() && q in nodes && q.pprev != null
      ensures q.pprev in nodes && q.nHeight == q.pprev.nHeight + 1 && |q.Path()| == q.nHeight + 1
      ensures q.Path()[q.nHeight] == q && q.Path()[..q.nHeight + 1] == q.Path()
      ensures q.Path()[..q.nHeight] == q.pprev.Path()
      ensures forall k {:trigger q.Path()[k]} :: 0 <= k < q.nHeight ==>
        && q.Path()[k] == q.pprev.Path()[k]
        && q.Path()[k] != q
        && q.Path()[..k + 1] == q.pprev.Path()[..k + 1]
    {
      hide NodeStored;
      BranchStored(q);
      assert NodeOk(nodes, pindexGenesisBlock, q) && NodeOk(nodes, pindexGenesisBlock, q.pprev);
      assert q.Path()[..q.nHeight] == q.pprev.Path();
    }

    // -------------------------------------------------------------- a new best chain

    /** The lowest block of the new branch that already has more trust than the tip. */
    method FirstHeavier(pindexNew: CBlockIndex) returns (pindexIntermediate: CBlockIndex, vpindexSecondary: seq<CBlockIndex>)
      requires TreeInv() && pindexBest in nodes && pindexNew in nodes && pindexNew.nChainTrust > pindexBest.nChainTrust
      ensures OnBranch(pindexIntermediate, pindexNew) && pindexIntermediate in nodes
      ensures pindexIntermediate.nChainTrust > pindexBest.nChainTrust && !OnBranch(pindexIntermediate, pindexBest)
      ensures pindexIntermediate.pprev != null ==> pindexIntermediate.pprev.nChainTrust <= pindexBest.nChainTrust
      ensures |pindexNew.Path()| == pindexNew.nHeight + 1 == pindexIntermediate.nHeight + |vpindexSecondary| + 1
      ensures forall i :: 0 <= i < |vpindexSecondary| ==> vpindexSecondary[i] == pindexNew.Path()[pindexNew.nHeight - i]
    {
      hide CBlockIndex.Path, NodeStored, NodeOk, Tree, NoRepeats;
      ghost var path := pindexNew.Path();
      BranchStored(pindexNew);
      BranchEnd(pindexNew);
      OnOwnBranch(pindexNew);
      pindexIntermediate, vpindexSecondary := pindexNew, [];
      while pindexIntermediate.pprev != null && pindexIntermediate.pprev.nChainTrust > pindexBest.nChainTrust
        invariant pindexIntermediate in nodes && OnBranch(pindexIntermediate, pindexNew)
        invariant pindexIntermediate.nChainTrust > pindexBest.nChainTrust
        invariant pindexNew.nHeight == pindexIntermediate.nHeight + |vpindexSecondary|
        invariant forall i :: 0 <= i < |vpindexSecondary| ==> vpindexSecondary[i] == path[pindexNew.nHeight - i]
        decreases pindexIntermediate.nHeight
      {
        OnBranchAt(nodes, pindexGenesisBlock, pindexIntermediate, pindexNew);
        ParentBranch(pindexIntermediate);
        assert pindexIntermediate == path[pindexNew.nHeight - |vpindexSecondary|];
        assert OnBranch(pindexIntermediate.pprev, pindexNew) by {
          assert path[pindexIntermediate.nHeight].pprev == path[pindexIntermediate.nHeight - 1];
          assert path[pindexIntermediate.nHeight - 1] in path;
        }
        vpindexSecondary := vpindexSecondary + [pindexIntermediate];
        pindexIntermediate := pindexIntermediate.pprev;
      }
      if OnBranch(pindexIntermediate, pindexBest) {
        OnBranchAt(nodes, pindexGenesisBlock, pindexIntermediate, pindexBest);
      }
    }

    ghost predicate Follows(q: CBlockIndex, env: Verdicts) {
      env(q.hash).readable && Extends(q, env)
    }

    /** Reads one postponed block and extends the chain by it, or leaves everything as it was. */
    method ConnectFollowing(pindex: CBlockIndex, env: Verdicts) returns (ok: bool)
      requires TreeInv() && pindex in nodes && pindex.pprev != null && Attached(pindex.pprev) && txdb.activeBatch.None?
      modifies txdb, nodes`pnext, nodes`nMint, nodes`nMoneySupply
      ensures ok <==> Follows(pindex, env)
      ensures Attached(if ok then pindex else pindex.pprev) && txdb.activeBatch.None?
    {
      hide CBlockIndex.Path, TreeInv, Extends, SpendsAlong, ReplayIndex, Links, Supplies;
      if !env(pindex.hash).readable {
        return false;
      }
      BranchStored(pindex);
      ParentKnown(pindex);
      BranchStored(pindex.pprev);
      txdb.TxnBegin();
      ok := SetBestChainInner(pindex, env);
    }

    lemma ParentKnown(q: CBlockIndex)
      requires TreeInv() && q in nodes && q.pprev != null
      ensures q.pprev in nodes
    {
      assert NodeOk(nodes, pindexGenesisBlock, q);
    }

    /** The postponed connects after a reorganisation: stop at the first that fails. */
    method ConnectPostponed(vpindexSecondary: seq<CBlockIndex>, pindexNew: CBlockIndex, start: CBlockIndex, env: Verdicts)
      returns (attached: CBlockIndex)
      requires TreeInv() && pindexNew in nodes && start in nodes && OnBranch(start, pindexNew) && Attached(start)
      requires |pindexNew.Path()| == pindexNew.nHeight + 1 == start.nHeight + |vpindexSecondary| + 1
      requires forall i :: 0 <= i < |vpindexSecondary| ==> vpindexSecondary[i] == pindexNew.Path()[pindexNew.nHeight - i]
      requires txdb.activeBatch.None?
      modifies txdb, nodes`pnext, nodes`nMint, nodes`nMoneySupply
      ensures Attached(attached) && OnBranch(attached, pindexNew) && attached.nHeight >= start.nHeight
      ensures attached == pindexNew <==>
        forall k :: start.nHeight < k < |pindexNew.Path()| ==> Follows(pindexNew.Path()[k], env)
      ensures txdb.activeBatch.None?
    {
      hide CBlockIndex.Path, NodeStored, NodeOk, Tree, Follows, NoRepeats, StoredAt, Attached;
      ghost var path := pindexNew.Path();
      BranchStored(pindexNew);
      BranchEnd(pindexNew);
      OnBranchAt(nodes, pindexGenesisBlock, start, pindexNew);
      attached := start;
      var i := |vpindexSecondary|;
      while i > 0
        invariant 0 <= i <= |vpindexSecondary|
        invariant attached == path[pindexNew.nHeight - i] && Attached(attached)
        invariant forall k :: start.nHeight < k <= pindexNew.nHeight - i ==> Follows(path[k], env)
        invariant txdb.activeBatch.None?
      {
        i := i - 1;
        var pindex := vpindexSecondary[i];
        ghost var k := pindexNew.nHeight - i;
        assert pindex == path[k] && pindex.pprev == path[k - 1] == attached;
        BranchStored(attached);
        var ok := ConnectFollowing(pindex, env);
        if !ok {
          assert !Follows(path[k], env);
          assert attached in path;
          return;
        }
        attached := pindex;
      }
      assert attached in path;
    }

    /** Every postponed block above `first` connects. */
    ghost predicate PostponedFollow(first: CBlockIndex, pindexNew: CBlockIndex, env: Verdicts) {
      forall k :: first.nHeight < k < |pindexNew.Path()| ==> Follows(pindexNew.Path()[k], env)
    }

    /** The switch to `first` that decides whether SetBestChain succeeds. */
    ghost predicate Switchable(tip: CBlockIndex, first: CBlockIndex, pindexNew: CBlockIndex, pfork: CBlockIndex, env: Verdicts) {
      if pindexNew.pprev == tip then Extends(pindexNew, env) else Reorganizable(tip, first, pfork, env)
    }

    /** The lowest block of the branch of `q` with more trust than `tip`. */
    ghost predicate IsFirstHeavier(first: CBlockIndex, q: CBlockIndex, tip: CBlockIndex) {
      && OnBranch(first, q)
      && first.nChainTrust > tip.nChainTrust
      && (first.pprev != null ==> first.pprev.nChainTrust <= tip.nChainTrust)
    }

    /** The branch of SetBestChain for a block that does not sit on the tip. */
    method ReorganizeAndConnect(pindexNew: CBlockIndex, env: Verdicts)
      returns (ok: bool, attached: CBlockIndex, ghost first: CBlockIndex, ghost pfork: CBlockIndex)
      requires TreeInv() && pindexBest in nodes && pindexNew in nodes && Attached(pindexBest)
      requires pindexNew.nChainTrust > pindexBest.nChainTrust
      requires txdb.activeBatch.Some? && txdb.View() == txdb.disk
      modifies txdb, nodes`pnext, nodes`nMint, nodes`nMoneySupply
      ensures IsFirstHeavier(first, pindexNew, pindexBest) && IsFork(pfork, pindexBest, first)
      ensures ok <==> Reorganizable(pindexBest, first, pfork, env)
      ensures !ok ==> Attached(pindexBest) && txdb.disk == old(txdb.disk) && txdb.diskBest == old(txdb.diskBest)
      ensures !ok ==> forall p :: p in nodes ==> p.pnext == old(p.pnext)
      ensures ok ==>
        && Attached(attached) && OnBranch(attached, pindexNew) && attached.nHeight >= first.nHeight
        && (attached == pindexNew <==> PostponedFollow(first, pindexNew, env))
      ensures txdb.activeBatch.None?
    {
      hide CBlockIndex.Path, NodeStored, NodeOk, Tree, NextTowards, ReplayIndex, SpendsAlong, UnspentValue, NoRepeats,
        Follows, Reorganizable, IsFork, OnBranch;
      BranchStored(pindexBest);
      var pindexIntermediate, vpindexSecondary := FirstHeavier(pindexNew);
      first := pindexIntermediate;
      attached := pindexBest;
      ok, pfork := Reorganize(pindexIntermediate, env);
      if !ok {
        txdb.TxnAbort();
        return;
      }
      attached := ConnectPostponed(vpindexSecondary, pindexNew, pindexIntermediate, env);
    }

    /** The database part of SetBestChain: extend the tip, or reorganize and catch up. */
    method ConnectToBest(pindexNew: CBlockIndex, env: Verdicts)
      returns (ok: bool, attached: CBlockIndex, ghost first: CBlockIndex, ghost pfork: CBlockIndex)
      requires Valid() && pindexNew in nodes && pindexNew.nChainTrust > pindexBest.nChainTrust
      modifies txdb, nodes`pnext, nodes`nMint, nodes`nMoneySupply
      ensures IsFirstHeavier(first, pindexNew, pindexBest) && IsFork(pfork, pindexBest, first)
      ensures ok <==> Switchable(pindexBest, first, pindexNew, pfork, env)
      ensures !ok ==> Attached(pindexBest) && txdb.disk == old(txdb.disk) && txdb.diskBest == old(txdb.diskBest)
      ensures !ok ==> forall p :: p in nodes ==> p.pnext == old(p.pnext)
      ensures ok ==>
        && Attached(attached) && OnBranch(attached, pindexNew) && attached.nHeight >= first.nHeight
        && (attached == pindexNew <==> PostponedFollow(first, pindexNew, env))
      ensures txdb.activeBatch.None?
    {
      hide CBlockIndex.Path, NodeStored, NodeOk, Tree, NextTowards, ReplayIndex, SpendsAlong, UnspentValue, NoRepeats,
        Extends, Follows, Reorganizable, IsFork, OnBranch, Links;
      BranchStored(pindexBest);
      BranchStored(pindexNew);
      OnOwnBranch(pindexNew);
      NotRoot(pindexNew);
      txdb.TxnBegin();
      if pindexNew.pprev.hash == hashBestChain {
        assert pindexNew.pprev == pindexBest;
        first, pfork, attached := pindexNew, pindexBest, pindexNew;
        ParentFork(pindexNew);
        ok := SetBestChainInner(pindexNew, env);
        assert PostponedFollow(first, pindexNew, env);
      } else {
        ok, attached, first, pfork := ReorganizeAndConnect(pindexNew, env);
      }
    }

    /** On failure nothing that describes the chain changes. On success the tip is the new
        block; the database describes it exactly when every postponed block connected. */
    method SetBestChain(pindexNew: CBlockIndex, env: Verdicts)
      returns (ok: bool, attached: CBlockIndex, ghost first: CBlockIndex, ghost pfork: CBlockIndex)
      requires Valid() && pindexNew in nodes && pindexNew.nChainTrust > nBestChainTrust
      modifies this`pindexBest, this`hashBestChain, this`nBestHeight, this`nBestChainTrust, this`pblockindexFBBHLast
      modifies txdb, nodes`pnext, nodes`nMint, nodes`nMoneySupply
      ensures IsFirstHeavier(first, pindexNew, old(pindexBest)) && IsFork(pfork, old(pindexBest), first)
      ensures ok <==> Switchable(old(pindexBest), first, pindexNew, pfork, env)
      ensures !ok ==> Valid() && txdb.disk == old(txdb.disk) && txdb.diskBest == old(txdb.diskBest)
      ensures !ok ==>
        && pindexBest == old(pindexBest)
        && pblockindexFBBHLast == old(pblockindexFBBHLast)
        && forall p :: p in nodes ==> p.pnext == old(p.pnext)
      ensures ok ==>
        && Idle() && TipIs(pindexNew)
        && Attached(attached) && OnBranch(attached, pindexNew) && attached.nHeight >= first.nHeight
        && (attached == pindexNew <==> PostponedFollow(first, pindexNew, env))
      ensures ok ==> (Valid() <==> attached == pindexNew) && (Valid() <==> txdb.disk == ReplayIndex(pindexNew.Path()))
    {
      hide *;
      ValidParts();
      ok, attached, first, pfork := ConnectToBest(pindexNew, env);
      ValidParts();
      if !ok {
        return;
      }
      if attached != pindexNew {
        DetachedDiffers(attached, pindexNew);
      }
      AttachedInNodes(attached);
      hashBestChain := pindexNew.hash;
      pindexBest := pindexNew;
      pblockindexFBBHLast := null;
      nBestHeight := pindexNew.nHeight;
      nBestChainTrust := pindexNew.nChainTrust;
      TipMoved(attached, pindexNew);
    }

    lemma ValidParts()
      ensures Valid() <==>
        TreeInv() && txdb.activeBatch.None? && TipIs(pindexBest) && Attached(pindexBest)
      ensures TipIs(pindexBest) ==> nBestChainTrust == pindexBest.nChainTrust
      ensures Idle() <==> TreeInv() && txdb.activeBatch.None?
      ensures Attached(pindexBest) ==> pindexBest in nodes && txdb.disk == ReplayIndex(pindexBest.Path())
    {
      hide TreeInv, CBlockIndex.Path, ReplayIndex, SpendsAlong, Links, Supplies, OnBranch;
    }

    lemma AttachedInNodes(attached: CBlockIndex)
      requires TreeInv() && Attached(attached)
      ensures attached in nodes && forall p :: p in attached.Path() ==> p in nodes
    {
      hide ReplayIndex, SpendsAlong, Links, Supplies, NodeStored, NodeOk;
      forall p | p in attached.Path() ensures p in nodes {
        OnBranchAt(nodes, pindexGenesisBlock, p, attached);
      }
    }

    lemma TipMoved(attached: CBlockIndex, tip: CBlockIndex)
      requires TreeInv() && txdb.activeBatch.None? && Attached(attached)
      requires pindexBest == tip && hashBestChain == tip.hash && nBestHeight == tip.nHeight
      requires nBestChainTrust == tip.nChainTrust && pblockindexFBBHLast == null
      requires attached != tip ==> ReplayIndex(attached.Path()) != ReplayIndex(tip.Path())
      ensures Idle() && TipIs(tip) && (Valid() <==> attached == tip) && (Valid() <==> txdb.disk == ReplayIndex(tip.Path()))
    {
      hide CBlockIndex.Path, TreeInv, ReplayIndex, SpendsAlong, Links, Supplies;
    }

    lemma NotRoot(q: CBlockIndex)
      requires TreeInv() && q in nodes && pindexBest in nodes && q.nChainTrust > pindexBest.nChainTrust
      ensures q.pprev != null && q.pprev in nodes
    {
      PathAt(nodes, pindexGenesisBlock, pindexBest, 0);
      assert NodeOk(nodes, pindexGenesisBlock, q);
    }

    lemma ParentFork(q: CBlockIndex)
      requires TreeInv() && q in nodes && q.pprev != null
      ensures IsFork(q.pprev, q.pprev, q)
    {
      hide NodeStored;
      ParentBranch(q);
      OnOwnBranch(q.pprev);
      forall a | a in q.pprev.Path() && a in q.Path() ensures a.nHeight <= q.pprev.nHeight {
        OnBranchAt(nodes, pindexGenesisBlock, a, q.pprev);
      }
    }

    /** A tip above the last connected block is not described by the database. */
    lemma DetachedDiffers(attached: CBlockIndex, tip: CBlockIndex)
      requires TreeInv() && tip in nodes && OnBranch(attached, tip) && attached != tip
      ensures ReplayIndex(attached.Path()) != ReplayIndex(tip.Path())
    {
      hide ReplayIndex, NoRepeats, StoredAt;
      OnBranchAt(nodes, pindexGenesisBlock, attached, tip);
      BranchStored(tip);
      BranchEnd(tip);
      forall i | 0 <= i < |tip.Path()| ensures |tip.Path()[i].block.vtx| > 0 {
        assert NodeStored(tip.Path()[i]);
      }
      ShorterReplayDiffers(tip.Path(), attached.nHeight + 1);
    }

    // -------------------------------------------------------------- accepting blocks

    /** The block repeats no transaction hash of the branch it extends (genesis excepted). */
    ghost predicate NewTransactions(prev: CBlockIndex, b: Block) {
      forall i :: 1 <= i < |prev.Path()| ==> Disjoint(prev.Path()[i].block, b)
    }

    lemma GrownTree(prev: CBlockIndex, q: CBlockIndex)
      requires TreeInv() && prev in nodes && q.pprev == prev && q.ancestors == prev.Path()
      requires q.nHeight == prev.nHeight + 1 && prev.nChainTrust <= q.nChainTrust
      requires NewTransactions(prev, q.block) && |q.block.vtx| > 0 && StoredAt(q.block, files)
      ensures Tree(nodes + {q}, pindexGenesisBlock) && NodeStored(q)
    {
      hide StoredAt, Disjoint;
      BranchStored(prev);
      assert NodeStored(prev);
      forall p | p in nodes + {q} ensures NodeOk(nodes + {q}, pindexGenesisBlock, p) {
        assert p in nodes ==> NodeOk(nodes, pindexGenesisBlock, p);
      }
      forall i, j | 1 <= i < j < |q.Path()| ensures Disjoint(q.Path()[i].block, q.Path()[j].block) {
        assert q.Path()[i] == prev.Path()[i];
        if j == |q.Path()| - 1 {
          assert q.Path()[j] == q;
        } else {
          assert q.Path()[j] == prev.Path()[j];
        }
      }
    }

    ghost predicate ChildOf(q: CBlockIndex, prev: CBlockIndex, a: Arrival) {
      && q.hash == a.hash && q.block == a.block
      && q.pprev == prev && q.ancestors == prev.Path() && q.nHeight == prev.nHeight + 1
      && q.nChainTrust == prev.nChainTrust + a.nBlockTrust
    }

    /** Puts a new block into the tree. */
    method InsertIntoIndex(a: Arrival) returns (pindexNew: CBlockIndex)
      requires Valid() && a.hash !in mapBlockIndex && a.hashPrevBlock in mapBlockIndex
      requires NewTransactions(mapBlockIndex[a.hashPrevBlock], a.block)
      requires |a.block.vtx| > 0 && StoredAt(a.block, files)
      modifies this`mapBlockIndex, this`nodes
      ensures Valid() && fresh(pindexNew) && nodes == old(nodes) + {pindexNew}
      ensures mapBlockIndex == old(mapBlockIndex)[a.hash := pindexNew]
      ensures ChildOf(pindexNew, old(mapBlockIndex)[a.hashPrevBlock], a)
    {
      hide *;
      var prev := mapBlockIndex[a.hashPrevBlock];
      ValidParts();
      TipParts(pindexBest);
      AttachedParts(pindexBest);
      KnownBlock(a.hashPrevBlock);
      BranchStored(pindexBest);
      AttachedInNodes(pindexBest);
      pindexNew := new CBlockIndex(a.hash, a.block, prev, a.nBlockTrust);
      NewAncestors(pindexNew, prev);
      GrownTree(prev, pindexNew);
      ghost var nodes0, index0 := nodes, mapBlockIndex;
      NodesKnown(nodes0, index0);
      LinksSet(pindexBest);
      mapBlockIndex := mapBlockIndex[a.hash := pindexNew];
      nodes := nodes + {pindexNew};
      GrownIndex(nodes0, index0, pindexNew);
      GrownLinks(nodes0, pindexNew);
      AttachedParts(pindexBest);
      TipParts(pindexBest);
      ValidParts();
      ChildIs(pindexNew, prev, a);
    }

    lemma ChildIs(q: CBlockIndex, prev: CBlockIndex, a: Arrival)
      requires q.hash == a.hash && q.block == a.block && q.pprev == prev && q.ancestors == prev.Path()
      requires q.nHeight == prev.nHeight + 1 && q.nChainTrust == prev.nChainTrust + a.nBlockTrust
      ensures ChildOf(q, prev, a)
    {
    }

    lemma TipParts(tip: CBlockIndex)
      ensures TipIs(tip) <==>
        && pindexBest == tip && hashBestChain == tip.hash
        && nBestHeight == tip.nHeight && nBestChainTrust == tip.nChainTrust
        && (pblockindexFBBHLast != null ==> OnBranch(pblockindexFBBHLast, tip))
    {
      hide OnBranch;
    }

    lemma AttachedParts(tip: CBlockIndex)
      ensures Attached(tip) <==>
        && tip in nodes && SpendsAlong(tip.Path()) && txdb.disk == ReplayIndex(tip.Path()) && txdb.diskBest == tip.hash
        && Links(tip) && Supplies(tip.Path(), |tip.Path()|)
    {
      hide CBlockIndex.Path, SpendsAlong, ReplayIndex, Links, Supplies;
    }

    lemma NodesKnown(nodes0: set<CBlockIndex>, index0: map<Hash, CBlockIndex>)
      requires TreeInv() && nodes0 == nodes && index0 == mapBlockIndex
      ensures Indexed(nodes0, index0) && forall p :: p in nodes0 ==> NodeStored(p)
    {
      hide NodeStored, Tree;
    }

    ghost predicate Indexed(ps: set<CBlockIndex>, index: map<Hash, CBlockIndex>) {
      && (forall h :: h in index ==> index[h] in ps && index[h].hash == h)
      && (forall p :: p in ps ==> p.hash in index && index[p.hash] == p)
    }

    lemma GrownIndex(nodes0: set<CBlockIndex>, index0: map<Hash, CBlockIndex>, q: CBlockIndex)
      requires Indexed(nodes0, index0) && (forall p :: p in nodes0 ==> NodeStored(p)) && NodeStored(q)
      requires q.hash !in index0 && nodes == nodes0 + {q} && mapBlockIndex == index0[q.hash := q]
      requires Tree(nodes, pindexGenesisBlock)
      ensures TreeInv()
    {
      hide NodeStored, Tree;
    }

    lemma LinksSet(tip: CBlockIndex)
      requires Links(tip)
      ensures forall p :: p in nodes ==> p.pnext == NextTowards(p, tip)
    {
      hide NextTowards;
    }

    lemma GrownLinks(nodes0: set<CBlockIndex>, q: CBlockIndex)
      requires nodes == nodes0 + {q} && q !in nodes0 && q.pnext == null
      requires forall p :: p in nodes0 ==> p.pnext == NextTowards(p, pindexBest)
      requires forall p :: p in pindexBest.Path() ==> p in nodes0
      ensures Links(pindexBest)
    {
    }

    lemma NewAncestors(q: CBlockIndex, prev: CBlockIndex)
      requires q.ancestors == prev.ancestors + [prev]
      ensures q.ancestors == prev.Path()
    {
    }

    /** Known already, without a known parent, misshapen, or without a stake modifier. */
    ghost predicate Refused(index: map<Hash, CBlockIndex>, a: Arrival) {
      a.hash in index || a.hashPrevBlock !in index || !CheckBlockShape(a.block) || !a.stakeModifierOk
    }

    /** Everything that offering a block does: a refused block changes nothing; any other is
        known afterwards; the tip moves exactly to a block with more trust to whose first
        heavier ancestor the node can switch. */
    ghost predicate Takes(l: Ledger, t: Turn, l': Ledger) {
      if Refused(l.index, t.a) then !t.ok && l' == l
      else
        && t.a.hash in l'.index
        && var q := l'.index[t.a.hash];
        && l'.index == l.index[t.a.hash := q]
        && ChildOf(q, l.index[t.a.hashPrevBlock], t.a)
        && if !t.a.recordWritten || q.nChainTrust <= l.tip.nChainTrust then t.ok == t.a.recordWritten && l'.tip == l.tip
           else
             && IsFirstHeavier(t.first, q, l.tip) && IsFork(t.pfork, l.tip, t.first)
             && (t.ok <==> Switchable(l.tip, t.first, q, t.pfork, t.a.verdicts))
             && l'.tip == if t.ok then q else l.tip
    }

    /** The turn leaves no postponed block unconnected. */
    ghost predicate CatchesUp(l: Ledger, t: Turn, l': Ledger) {
      l'.tip == l.tip || PostponedFollow(t.first, l'.tip, t.a.verdicts)
    }

    /** AcceptBlock and AddToBlockIndex for a block whose bytes are in the block files. The
        invariant survives exactly when no postponed connect was left undone. */
    method AcceptBlock(a: Arrival) returns (ok: bool, attached: CBlockIndex, ghost first: CBlockIndex, ghost pfork: CBlockIndex)
      requires Valid() && StoredAt(a.block, files)
      requires a.hashPrevBlock in mapBlockIndex ==> NewTransactions(mapBlockIndex[a.hashPrevBlock], a.block)
      modifies this, txdb, nodes`pnext, nodes`nMint, nodes`nMoneySupply
      ensures Takes(old(Ledger(mapBlockIndex, pindexBest)), Turn(a, ok, first, pfork), Ledger(mapBlockIndex, pindexBest))
      ensures Valid() <==> attached == pindexBest
      ensures Valid() <==> txdb.disk == ReplayIndex(pindexBest.Path())
      ensures Valid() <==>
        CatchesUp(old(Ledger(mapBlockIndex, pindexBest)), Turn(a, ok, first, pfork), Ledger(mapBlockIndex, pindexBest))
      ensures Idle() && TipIs(pindexBest) && pindexBest in nodes && fresh(nodes - old(nodes))
      ensures pindexBest == old(pindexBest) ==>
        txdb.disk == old(txdb.disk) && forall p :: p in old(nodes) ==> p.pnext == old(p.pnext)
    {
      attached, first, pfork := pindexBest, pindexBest, pindexBest;
      ghost var l := Ledger(mapBlockIndex, pindexBest);
      hide *;
      ValidParts();
      TipKnown();
      if a.hash in mapBlockIndex || a.hashPrevBlock !in mapBlockIndex || !CheckBlockShape(a.block) || !a.stakeModifierOk {
        TakesRefused(l, Turn(a, false, first, pfork));
        return false, attached, first, pfork;
      }
      ShapeNonEmpty(a.block);
      var pindexNew := InsertIntoIndex(a);
      ValidParts();
      ghost var mid := Ledger(mapBlockIndex, pindexBest);
      if !a.recordWritten {
        TakesKnown(l, Turn(a, false, first, pfork), mid);
        return false, attached, first, pfork;
      }
      if pindexNew.nChainTrust > nBestChainTrust {
        ok, attached, first, pfork := SetBestChain(pindexNew, a.verdicts);
        if ok {
          TipParts(pindexNew);
        }
        TakesSwitch(l, Turn(a, ok, first, pfork), Ledger(mapBlockIndex, pindexBest));
        ValidParts();
        if !ok {
          attached := pindexBest;
        }
        return;
      }
      ok := true;
      TakesKnown(l, Turn(a, true, first, pfork), mid);
    }

    lemma TipKnown()
      requires TreeInv() && pindexBest in nodes
      ensures pindexBest in mapBlockIndex.Values
    {
      hide Tree, NodeStored;
      assert mapBlockIndex[pindexBest.hash] == pindexBest;
    }

    lemma TakesRefused(l: Ledger, t: Turn)
      requires !t.ok
      requires t.a.hash in l.index || t.a.hashPrevBlock !in l.index || !CheckBlockShape(t.a.block) || !t.a.stakeModifierOk
      ensures Takes(l, t, l) && CatchesUp(l, t, l)
    {
      hide CheckBlockShape;
    }

    lemma TakesKnown(l: Ledger, t: Turn, l': Ledger)
      requires t.a.hash !in l.index && t.a.hashPrevBlock in l.index && CheckBlockShape(t.a.block) && t.a.stakeModifierOk
      requires t.a.hash in l'.index && l'.index == l.index[t.a.hash := l'.index[t.a.hash]]
      requires ChildOf(l'.index[t.a.hash], l.index[t.a.hashPrevBlock], t.a)
      requires !t.a.recordWritten || l'.index[t.a.hash].nChainTrust <= l.tip.nChainTrust
      requires t.ok == t.a.recordWritten && l'.tip == l.tip
      ensures Takes(l, t, l') && CatchesUp(l, t, l')
    {
      hide CheckBlockShape, ChildOf;
    }

    lemma TakesSwitch(l: Ledger, t: Turn, l': Ledger)
      requires t.a.hash !in l.index && t.a.hashPrevBlock in l.index && CheckBlockShape(t.a.block) && t.a.stakeModifierOk
      requires t.a.hash in l'.index && l'.index == l.index[t.a.hash := l'.index[t.a.hash]]
      requires ChildOf(l'.index[t.a.hash], l.index[t.a.hashPrevBlock], t.a)
      requires t.a.recordWritten && l'.index[t.a.hash].nChainTrust > l.tip.nChainTrust
      requires IsFirstHeavier(t.first, l'.index[t.a.hash], l.tip) && IsFork(t.pfork, l.tip, t.first)
      requires t.ok <==> Switchable(l.tip, t.first, l'.index[t.a.hash], t.pfork, t.a.verdicts)
      requires l'.tip == if t.ok then l'.index[t.a.hash] else l.tip
      requires l.tip in l.index.Values
      ensures Takes(l, t, l')
      ensures CatchesUp(l, t, l') <==> !t.ok || PostponedFollow(t.first, l'.tip, t.a.verdicts)
    {
      hide CheckBlockShape, ChildOf, Switchable, PostponedFollow, IsFirstHeavier, IsFork;
    }

    // -------------------------------------------------------------- runs

    /** Walks down the branch looking for a repeated transaction hash. */
    method RepeatsOnBranch(prev: CBlockIndex, b: Block) returns (repeats: bool)
      requires Valid() && prev in nodes
      ensures Valid() && (repeats <==> !NewTransactions(prev, b))
    {
      hide *;
      ValidParts();
      ghost var path := prev.Path();
      var pindex := prev;
      BranchStored(prev);
      BranchEnd(prev);
      while pindex.pprev != null
        invariant Valid() && TreeInv() && pindex in nodes && pindex.nHeight <= prev.nHeight && path[pindex.nHeight] == pindex
        invariant forall i :: pindex.nHeight < i < |path| ==> Disjoint(path[i].block, b)
        decreases pindex.nHeight
      {
        ParentBranch(pindex);
        assert path[pindex.nHeight].pprev == path[pindex.nHeight - 1];
        if !Disjoint(pindex.block, b) {
          NewMeans(prev, b);
          return true;
        }
        pindex := pindex.pprev;
      }
      RootHeight(pindex);
      NewMeans(prev, b);
      return false;
    }

    lemma NewMeans(prev: CBlockIndex, b: Block)
      ensures NewTransactions(prev, b) <==> forall i :: 1 <= i < |prev.Path()| ==> Disjoint(prev.Path()[i].block, b)
    {
      hide CBlockIndex.Path, Disjoint;
    }

    lemma RootHeight(p: CBlockIndex)
      requires TreeInv() && p in nodes && p.pprev == null
      ensures p.nHeight == 0
    {
      assert NodeOk(nodes, pindexGenesisBlock, p);
    }

    /** The block repeats a transaction hash of the branch it would extend. */
    ghost predicate Repeats(index: map<Hash, CBlockIndex>, a: Arrival) {
      a.hashPrevBlock in index && !NewTransactions(index[a.hashPrevBlock], a.block)
    }

    /** One block of a run; a block that repeats a transaction hash of its branch is passed by. */
    ghost predicate Offered(l: Ledger, t: Turn, l': Ledger) {
      if Repeats(l.index, t.a) then !t.ok && l' == l else Takes(l, t, l')
    }

    /** The turns lead from the first state to the last, one offered block each. */
    ghost predicate Trace(states: seq<Ledger>, turns: seq<Turn>, arrivals: seq<Arrival>) {
      && |states| == |turns| + 1 && |turns| <= |arrivals|
      && forall i :: 0 <= i < |turns| ==> turns[i].a == arrivals[i] && Offered(states[i], turns[i], states[i + 1])
    }

    ghost predicate AllCatchUp(states: seq<Ledger>, turns: seq<Turn>)
      requires |states| == |turns| + 1
    {
      forall i :: 0 <= i < |turns| ==> CatchesUp(states[i], turns[i], states[i + 1])
    }

    /** Any sequence of offered blocks, in any order and with any verdicts: the run is a trace
        of turns, it ends early only after a turn that leaves postponed blocks unconnected, and
        the invariant holds at its end exactly when no turn did. */
    method Run(arrivals: seq<Arrival>) returns (intact: bool, ghost states: seq<Ledger>, ghost turns: seq<Turn>)
      requires Valid() && forall i :: 0 <= i < |arrivals| ==> StoredAt(arrivals[i].block, files)
      modifies this, txdb, nodes`pnext, nodes`nMint, nodes`nMoneySupply
      ensures Trace(states, turns, arrivals)
      ensures states[0] == old(Ledger(mapBlockIndex, pindexBest)) && states[|turns|] == Ledger(mapBlockIndex, pindexBest)
      ensures intact <==> AllCatchUp(states, turns)
      ensures intact <==> Valid()
      ensures intact <==> txdb.disk == ReplayIndex(pindexBest.Path())
      ensures if intact then |turns| == |arrivals| else turns != [] && AllCatchUp(states[..|turns|], turns[..|turns| - 1])
      ensures Idle() && TipIs(pindexBest)
    {
      hide *;
      states, turns := [Ledger(mapBlockIndex, pindexBest)], [];
      TraceStart(states[0], arrivals);
      for i := 0 to |arrivals|
        invariant Valid() && fresh(nodes - old(nodes)) && |turns| == i && Trace(states, turns, arrivals)
        invariant states != [] && |states| == |turns| + 1 && AllCatchUp(states, turns)
        invariant states[0] == old(Ledger(mapBlockIndex, pindexBest)) && states[i] == Ledger(mapBlockIndex, pindexBest)
      {
        ValidParts();
        var a := arrivals[i];
        var repeats := false;
        if a.hashPrevBlock in mapBlockIndex {
          KnownBlock(a.hashPrevBlock);
          repeats := RepeatsOnBranch(mapBlockIndex[a.hashPrevBlock], a.block);
        }
        RepeatsIs(mapBlockIndex, a);
        ghost var t := Turn(a, false, pindexBest, pindexBest);
        var attached := pindexBest;
        if !repeats {
          var ok;
          ghost var first, pfork;
          ok, attached, first, pfork := AcceptBlock(a);
          t := Turn(a, ok, first, pfork);
        }
        ghost var l := Ledger(mapBlockIndex, pindexBest);
        OfferedIs(states[i], t, l);
        TraceNext(states, turns, arrivals, t, l);
        assert (states + [l])[..|turns| + 1] == states && (turns + [t])[..|turns|] == turns;
        states, turns := states + [l], turns + [t];
        if attached != pindexBest {
          ValidParts();
          return false, states, turns;
        }
      }
      ValidParts();
      intact := true;
    }

    /** What a turn can do, in words: only a new, well-shaped block with a known parent enters, as
        its child; the tip only moves to that block, and only if it has more trust. */
    lemma TurnMeans(l: Ledger, t: Turn, l': Ledger)
      requires Offered(l, t, l')
      ensures l' != l ==>
        && t.a.hash !in l.index && t.a.hashPrevBlock in l.index && CheckBlockShape(t.a.block) && t.a.stakeModifierOk
        && l'.index.Keys == l.index.Keys + {t.a.hash} && (forall h :: h in l.index ==> l'.index[h] == l.index[h])
        && l'.index[t.a.hash].pprev == l.index[t.a.hashPrevBlock] && l'.index[t.a.hash].block == t.a.block
      ensures l'.tip != l.tip ==>
        && t.ok && t.a.recordWritten && t.a.hash in l'.index && l'.tip == l'.index[t.a.hash]
        && l'.tip.nChainTrust > l.tip.nChainTrust
        && l'.tip.nChainTrust == l'.tip.pprev.nChainTrust + t.a.nBlockTrust
    {
      hide CheckBlockShape, Switchable, IsFirstHeavier, IsFork, Repeats, CBlockIndex.Path;
    }

    /** Along a run known blocks stay known and the tip never loses trust. */
    lemma {:induction false} RunOnlyGains(states: seq<Ledger>, turns: seq<Turn>, arrivals: seq<Arrival>, i: nat, j: nat)
      requires Trace(states, turns, arrivals) && i <= j < |states|
      ensures states[i].tip.nChainTrust <= states[j].tip.nChainTrust
      ensures forall h :: h in states[i].index ==> h in states[j].index && states[j].index[h] == states[i].index[h]
      decreases j - i
    {
      hide Offered;
      if i < j {
        RunOnlyGains(states, turns, arrivals, i, j - 1);
        TurnMeans(states[j - 1], turns[j - 1], states[j]);
      }
    }

    lemma RepeatsIs(index: map<Hash, CBlockIndex>, a: Arrival)
      ensures Repeats(index, a) <==> a.hashPrevBlock in index && !NewTransactions(index[a.hashPrevBlock], a.block)
    {
    }

    lemma OfferedIs(l: Ledger, t: Turn, l': Ledger)
      requires if Repeats(l.index, t.a) then !t.ok && l' == l else Takes(l, t, l')
      ensures Offered(l, t, l') && (l' == l ==> CatchesUp(l, t, l'))
    {
      hide Repeats, Takes;
    }

    lemma TraceStart(l: Ledger, arrivals: seq<Arrival>)
      ensures Trace([l], [], arrivals) && AllCatchUp([l], [])
    {
    }

    lemma TraceNext(states: seq<Ledger>, turns: seq<Turn>, arrivals: seq<Arrival>, t: Turn, l: Ledger)
      requires Trace(states, turns, arrivals) && |turns| < |arrivals| && t.a == arrivals[|turns|]
      requires |states| == |turns| + 1 && Offered(states[|turns|], t, l)
      ensures Trace(states + [l], turns + [t], arrivals)
      ensures AllCatchUp(states, turns) ==> (AllCatchUp(states + [l], turns + [t]) <==> CatchesUp(states[|turns|], t, l))
    {
      hide Offered, CatchesUp;
      var more, with := turns + [t], states + [l];
      assert more[|turns|] == t && with[|turns| + 1] == l && with[|turns|] == states[|turns|];
      assert more[..|turns|] == turns && with[..|turns| + 1] == states;
    }

    lemma KnownBlock(h: Hash)
      requires TreeInv() && h in mapBlockIndex
      ensures mapBlockIndex[h] in nodes && mapBlockIndex[h].hash == h
    {
    }

    // -------------------------------------------------------------- what the invariant means

    predicate IsInMainChain(p: CBlockIndex)
      reads this`pindexBest, p`pnext
    {
      p.pnext != null || p == pindexBest
    }

    /** A forward link sits exactly on the proper ancestors of the tip and inverts the parent
        link; so "in the main chain" means the tip or one of its ancestors. */
    lemma MainChainIsTipBranch(p: CBlockIndex)
      requires Valid() && p in nodes
      ensures p.pnext != null <==> p in pindexBest.ancestors
      ensures p.pnext != null ==> p.pnext in nodes && p.pnext.pprev == p && OnBranch(p.pnext, pindexBest)
      ensures IsInMainChain(p) <==> OnBranch(p, pindexBest)
    {
      hide NodeStored, NodeOk, Tree, ReplayIndex, SpendsAlong, UnspentValue, NoRepeats, StoredAt;
      BranchStored(pindexBest);
      var path := pindexBest.Path();
      assert path[pindexBest.nHeight] == pindexBest && path[..pindexBest.nHeight] == pindexBest.ancestors;
      if OnBranch(p, pindexBest) {
        OnBranchAt(nodes, pindexGenesisBlock, p, pindexBest);
        if p.nHeight < pindexBest.nHeight {
          assert path[p.nHeight + 1].pprev == path[p.nHeight];
          assert pindexBest.ancestors[p.nHeight] == p;
        } else {
          forall i | 0 <= i < pindexBest.nHeight ensures path[i] != p {
          }
        }
      }
    }

    /** The recorded supply of the tip is the total of the outputs the index holds unspent. */
    lemma SupplyIsUnspentTotal()
      requires Valid()
      ensures pindexBest.nMoneySupply == UnspentValue(txdb.disk, files)
    {
      hide NodeStored, Tree, ReplayIndex, SpendsAlong, UnspentValue, Links;
      BranchEnd(pindexBest);
      assert pindexBest.Path()[..pindexBest.nHeight + 1] == pindexBest.Path();
    }

    /** Starts from the genesis block, the tip or the cached block, whichever is nearest, and
        walks; the cache never changes the answer. */
    method FindBlockByHeight(nHeight: nat) returns (pblockindex: CBlockIndex)
      requires Valid() && nHeight <= nBestHeight
      modifies this`pblockindexFBBHLast
      ensures Valid() && |pindexBest.Path()| == nBestHeight + 1
      ensures pblockindex == pindexBest.Path()[nHeight] && pblockindex.nHeight == nHeight
      ensures pblockindexFBBHLast == pblockindex
    {
      hide CBlockIndex.Path, NodeStored, NodeOk, Tree, ReplayIndex, SpendsAlong, UnspentValue, OnBranch, NextTowards;
      BranchStored(pindexBest);
      OnOwnBranch(pindexBest);
      RootOnBranch(pindexBest);
      pblockindex := if nHeight < nBestHeight / 2 then pindexGenesisBlock else pindexBest;
      if pblockindexFBBHLast != null &&
         Distance(nHeight, pblockindex.nHeight) > Distance(nHeight, pblockindexFBBHLast.nHeight)
      {
        pblockindex := pblockindexFBBHLast;
      }
      OnTipBranch(pblockindex);
      while pblockindex.nHeight > nHeight
        invariant pblockindex in nodes && pblockindex.nHeight < |pindexBest.Path()|
        invariant pindexBest.Path()[pblockindex.nHeight] == pblockindex
        decreases pblockindex.nHeight
      {
        assert pblockindex.pprev == pindexBest.Path()[pblockindex.nHeight - 1];
        pblockindex := pblockindex.pprev;
      }
      while pblockindex.nHeight < nHeight
        invariant pblockindex.nHeight <= nHeight
        invariant pblockindex in nodes && pblockindex.nHeight < |pindexBest.Path()|
        invariant pindexBest.Path()[pblockindex.nHeight] == pblockindex
        decreases nHeight - pblockindex.nHeight
      {
        TipLink(pblockindex);
        pblockindex := pblockindex.pnext;
      }
      pblockindexFBBHLast := pblockindex;
      AtOnBranch(pindexBest, nHeight);
    }

    function Distance(a: int, b: int): nat {
      if a >= b then a - b else b - a
    }

    lemma RootOnBranch(p: CBlockIndex)
      requires TreeInv() && p in nodes
      ensures OnBranch(pindexGenesisBlock, p)
    {
      PathAt(nodes, pindexGenesisBlock, p, 0);
    }

    lemma OnTipBranch(p: CBlockIndex)
      requires TreeInv() && pindexBest in nodes && OnBranch(p, pindexBest)
      ensures p in nodes && p.nHeight < |pindexBest.Path()| && pindexBest.Path()[p.nHeight] == p
    {
      OnBranchAt(nodes, pindexGenesisBlock, p, pindexBest);
    }

    lemma AtOnBranch(tip: CBlockIndex, k: nat)
      requires k < |tip.Path()|
      ensures OnBranch(tip.Path()[k], tip)
    {
    }

    lemma TipLink(p: CBlockIndex)
      requires Links(pindexBest) && p in nodes && p.nHeight + 1 < |pindexBest.Path()| && pindexBest.Path()[p.nHeight] == p
      ensures p.pnext == pindexBest.Path()[p.nHeight + 1]
    {
    }
  }
}
