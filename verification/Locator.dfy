/** Block locators (src/main.h, class CBlockLocator): a short list of block hashes that lets
    another node find where two chains part. */
module Locator {
  import opened Transactions
  import opened BlockIndex
  import opened Branches
  import opened Chain

  function Pow2(n: nat): (p: nat)
    ensures p >= 1
  {
    if n == 0 then 1 else 2 * Pow2(n - 1)
  }

  /** The largest k with Pow2(k) <= n. */
  function Log2(n: nat): (k: nat)
    requires n >= 1
    ensures Pow2(k) <= n < Pow2(k + 1)
  {
    if n == 1 then 0 else 1 + Log2(n / 2)
  }

  lemma {:induction false} Pow2Monotone(a: nat, b: nat)
    requires a <= b
    ensures Pow2(a) <= Pow2(b)
    decreases b - a
  {
    if a < b {
      Pow2Monotone(a, b - 1);
    }
  }

  /** How far below the starting block entry j lies: 0, 1, ..., 10, 11, 13, 17, 25, ... */
  function Back(j: nat): nat {
    if j <= 10 then j else 9 + Pow2(j - 10)
  }

  lemma BackSteps(j: nat)
    ensures Back(j + 1) == Back(j) + (if j <= 10 then 1 else Pow2(j - 10))
    ensures Back(j) < Back(j + 1) <= 2 * Back(j) + 2
  {
    assert j > 10 ==> Pow2(j - 9) == 2 * Pow2(j - 10);
    assert Pow2(1) == 2;
  }

  lemma BackZero()
    ensures Back(0) == 0
  {
  }

  /** The hashes listed for a branch: the entries that exist, then the genesis hash. */
  ghost predicate LocatesBranch(vHave: seq<Hash>, path: seq<CBlockIndex>, hashGenesis: Hash) {
    && |vHave| >= 1 && vHave[|vHave| - 1] == hashGenesis
    && (forall j :: 0 <= j < |vHave| - 1 ==> Back(j) < |path| && vHave[j] == path[|path| - 1 - Back(j)].hash)
    && Back(|vHave| - 1) >= |path|
  }

  /** nStep parents up from a block of the branch of `start`, or past the root. */
  method StepBack(pindex: CBlockIndex, nStep: nat, ghost start: CBlockIndex,
                  ghost nodes: set<CBlockIndex>, ghost root: CBlockIndex)
    returns (p: CBlockIndex?)
    requires Tree(nodes, root) && start in nodes
    requires pindex.nHeight < |start.Path()| && start.Path()[pindex.nHeight] == pindex
    ensures p == if nStep <= pindex.nHeight then start.Path()[pindex.nHeight - nStep] else null
  {
    hide CBlockIndex.Path, Tree, NodeOk;
    BranchNodes(nodes, root, start);
    p := pindex;
    var i := 0;
    while p != null && i < nStep
      invariant i <= nStep
      invariant p == if i <= pindex.nHeight then start.Path()[pindex.nHeight - i] else null
    {
      RootHasNoParent(nodes, root, p, start);
      p := p.pprev;
      i := i + 1;
    }
  }

  lemma RootHasNoParent(nodes: set<CBlockIndex>, root: CBlockIndex, p: CBlockIndex, start: CBlockIndex)
    requires Tree(nodes, root) && start in nodes && OnBranch(p, start)
    ensures p.nHeight < |start.Path()|
    ensures p.pprev == if p.nHeight == 0 then null else start.Path()[p.nHeight - 1]
  {
    OnBranchAt(nodes, root, p, start);
    BranchNodes(nodes, root, start);
  }

  class CBlockLocator {
    var vHave: seq<Hash>

    /** Lists the branch of `start` with exponentially growing gaps. */
    constructor Set(start: CBlockIndex?, hashGenesis: Hash, ghost nodes: set<CBlockIndex>, ghost root: CBlockIndex)
      requires Tree(nodes, root) && (start != null ==> start in nodes)
      ensures LocatesBranch(vHave, if start == null then [] else start.Path(), hashGenesis)
    {
      hide CBlockIndex.Path, Tree, NodeOk, Back;
      ghost var path := if start == null then [] else start.Path();
      var have: seq<Hash> := [];
      var nStep := 1;
      var pindex := start;
      BackSteps(0);
      BackZero();
      if start != null {
        BranchNodes(nodes, root, start);
      }
      while pindex != null
        invariant pindex == if Back(|have|) < |path| then path[|path| - 1 - Back(|have|)] else null
        invariant forall j :: 0 <= j < |have| ==> Back(j) < |path| && have[j] == path[|path| - 1 - Back(j)].hash
        invariant nStep == if |have| <= 10 then 1 else Pow2(|have| - 10)
        decreases |path| - Back(|have|)
      {
        BackSteps(|have|);
        have := have + [pindex.hash];
        pindex := StepBack(pindex, nStep, start, nodes, root);
        if |have| > 10 {
          nStep := nStep * 2;
        }
      }
      vHave := have + [hashGenesis];
    }

    /** The first listed block that is in this node's main chain, else the genesis block. */
    method GetBlockIndex(node: ChainState) returns (pindex: CBlockIndex)
      requires node.Valid()
      ensures Resolves(vHave, node, pindex)
    {
      hide *;
      NoneYet(vHave, node);
      for i := 0 to |vHave|
        invariant node.Valid() && NoneKnown(vHave, i, node)
      {
        var hash := vHave[i];
        if hash in node.mapBlockIndex {
          pindex := node.mapBlockIndex[hash];
          node.ValidParts();
          node.KnownBlock(hash);
          node.MainChainIsTipBranch(pindex);
          if node.IsInMainChain(pindex) {
            FirstHit(vHave, i, node);
            return;
          }
        }
        OneMoreMiss(vHave, i, node);
      }
      pindex := node.pindexGenesisBlock;
      node.ValidParts();
      node.RootOnBranch(node.pindexBest);
      AllMissed(vHave, node);
    }
  }

  /** The hash names a block of this node's main chain. */
  ghost predicate KnownInMain(hash: Hash, node: ChainState)
    reads node
  {
    hash in node.mapBlockIndex && OnBranch(node.mapBlockIndex[hash], node.pindexBest)
  }

  ghost predicate NoneKnown(vHave: seq<Hash>, n: nat, node: ChainState)
    requires n <= |vHave|
    reads node
  {
    forall j :: 0 <= j < n ==> !KnownInMain(vHave[j], node)
  }

  /** The answer is the first listed block of the main chain, or genesis if there is none. */
  ghost predicate Resolves(vHave: seq<Hash>, node: ChainState, p: CBlockIndex)
    reads node
  {
    || (exists j :: 0 <= j < |vHave| && NoneKnown(vHave, j, node)
                    && KnownInMain(vHave[j], node) && node.mapBlockIndex[vHave[j]] == p)
    || (NoneKnown(vHave, |vHave|, node) && p == node.pindexGenesisBlock)
  }

  lemma NoneYet(vHave: seq<Hash>, node: ChainState)
    ensures NoneKnown(vHave, 0, node)
  {
  }

  lemma OneMoreMiss(vHave: seq<Hash>, i: nat, node: ChainState)
    requires i < |vHave| && NoneKnown(vHave, i, node)
    requires vHave[i] in node.mapBlockIndex ==> !OnBranch(node.mapBlockIndex[vHave[i]], node.pindexBest)
    ensures NoneKnown(vHave, i + 1, node)
  {
  }

  lemma FirstHit(vHave: seq<Hash>, i: nat, node: ChainState)
    requires i < |vHave| && NoneKnown(vHave, i, node)
    requires vHave[i] in node.mapBlockIndex && OnBranch(node.mapBlockIndex[vHave[i]], node.pindexBest)
    ensures Resolves(vHave, node, node.mapBlockIndex[vHave[i]])
  {
  }

  lemma AllMissed(vHave: seq<Hash>, node: ChainState)
    requires NoneKnown(vHave, |vHave|, node)
    ensures Resolves(vHave, node, node.pindexGenesisBlock)
  {
  }

  // ---------------------------------------------------------------- length

  /** A locator of a branch of height h >= 1 has at most 12 + log2(h) entries. */
  lemma LocatorLength(vHave: seq<Hash>, path: seq<CBlockIndex>, hashGenesis: Hash)
    requires LocatesBranch(vHave, path, hashGenesis) && |path| >= 2
    ensures |vHave| <= 12 + Log2(|path| - 1)
  {
    var n := |vHave| - 1;
    if n >= 12 {
      assert Back(n - 1) < |path|;
      assert Pow2(n - 11) <= |path| - 1;
      if Log2(|path| - 1) + 1 <= n - 11 {
        Pow2Monotone(Log2(|path| - 1) + 1, n - 11);
      }
    }
  }

  // ---------------------------------------------------------------- resolution on another node

  /** A block's hash fixes its parent's hash, and the genesis hash names only the root. */
  ghost predicate HashLinked(nodes: set<CBlockIndex>, parentOf: Hash -> Hash, hashGenesis: Hash) {
    forall p :: p in nodes ==>
      if p.pprev == null then p.hash == hashGenesis else p.hash != hashGenesis && parentOf(p.hash) == p.pprev.hash
  }

  /** Where two branches carry the same hash, they agree from there down. */
  lemma {:induction false} SameHashSamePrefix(a: ChainState, s: CBlockIndex, i: nat, b: ChainState, t: CBlockIndex, j: nat,
                                             parentOf: Hash -> Hash, hashGenesis: Hash)
    requires a.TreeInv() && s in a.nodes && HashLinked(a.nodes, parentOf, hashGenesis)
    requires b.TreeInv() && t in b.nodes && HashLinked(b.nodes, parentOf, hashGenesis)
    requires i <= s.nHeight && j <= t.nHeight && |s.Path()| == s.nHeight + 1 && |t.Path()| == t.nHeight + 1
    requires s.Path()[i].hash == t.Path()[j].hash
    ensures i == j && forall k :: 0 <= k <= i ==> s.Path()[k].hash == t.Path()[k].hash
    decreases i
  {
    hide CBlockIndex.Path, NodeOk, ChainState.NodeStored;
    BranchNodes(a.nodes, a.pindexGenesisBlock, s);
    BranchNodes(b.nodes, b.pindexGenesisBlock, t);
    if i > 0 && j > 0 {
      SameHashSamePrefix(a, s, i - 1, b, t, j - 1, parentOf, hashGenesis);
    }
  }

  /** The height at which the branch of `s` leaves the main chain of `node`. */
  ghost predicate ForkHeight(s: CBlockIndex, node: ChainState, f: nat)
    reads node
  {
    && |s.Path()| == s.nHeight + 1 && |node.pindexBest.Path()| == node.pindexBest.nHeight + 1
    && f <= s.nHeight && f <= node.pindexBest.nHeight
    && s.Path()[f].hash == node.pindexBest.Path()[f].hash
    && forall k :: f < k <= s.nHeight && k <= node.pindexBest.nHeight ==>
         s.Path()[k].hash != node.pindexBest.Path()[k].hash
  }

  lemma {:induction false} LastShared(p: seq<CBlockIndex>, q: seq<CBlockIndex>, k: nat) returns (f: nat)
    requires k < |p| && k < |q| && p[0].hash == q[0].hash
    ensures f <= k && p[f].hash == q[f].hash && forall j :: f < j <= k ==> p[j].hash != q[j].hash
  {
    if p[k].hash == q[k].hash {
      f := k;
    } else {
      f := LastShared(p, q, k - 1);
    }
  }

  /** Two nodes with the same genesis block always have a fork. */
  lemma SomeForkHeight(a: ChainState, s: CBlockIndex, node: ChainState, parentOf: Hash -> Hash, hashGenesis: Hash)
    returns (f: nat)
    requires a.TreeInv() && s in a.nodes && HashLinked(a.nodes, parentOf, hashGenesis)
    requires node.TreeInv() && node.pindexBest in node.nodes && HashLinked(node.nodes, parentOf, hashGenesis)
    ensures ForkHeight(s, node, f)
  {
    hide CBlockIndex.Path, NodeOk, ChainState.NodeStored;
    var t := node.pindexBest;
    BranchNodes(a.nodes, a.pindexGenesisBlock, s);
    BranchNodes(node.nodes, node.pindexGenesisBlock, t);
    RootHash(a, s, parentOf, hashGenesis);
    RootHash(node, t, parentOf, hashGenesis);
    f := LastShared(s.Path(), t.Path(), if s.nHeight < t.nHeight then s.nHeight else t.nHeight);
  }

  /** A block of the sender's branch is in the receiver's main chain exactly up to the fork. */
  lemma KnownUpToFork(a: ChainState, s: CBlockIndex, node: ChainState, f: nat, i: nat,
                      parentOf: Hash -> Hash, hashGenesis: Hash)
    requires a.TreeInv() && s in a.nodes && HashLinked(a.nodes, parentOf, hashGenesis)
    requires node.TreeInv() && node.pindexBest in node.nodes && HashLinked(node.nodes, parentOf, hashGenesis)
    requires ForkHeight(s, node, f) && i <= s.nHeight
    ensures KnownInMain(s.Path()[i].hash, node) <==> i <= f
    ensures i <= f ==> s.Path()[i].hash == node.pindexBest.Path()[i].hash
    ensures i <= f ==> node.mapBlockIndex[s.Path()[i].hash] == node.pindexBest.Path()[i]
  {
    hide CBlockIndex.Path, NodeOk, ChainState.NodeStored;
    var t := node.pindexBest;
    BranchNodes(node.nodes, node.pindexGenesisBlock, t);
    if i <= f {
      SameHashSamePrefix(a, s, f, node, t, f, parentOf, hashGenesis);
      assert t.Path()[i] in t.Path();
    } else if KnownInMain(s.Path()[i].hash, node) {
      var q := node.mapBlockIndex[s.Path()[i].hash];
      OnBranchAt(node.nodes, node.pindexGenesisBlock, q, t);
      SameHashSamePrefix(a, s, i, node, t, q.nHeight, parentOf, hashGenesis);
    }
  }

  /** An entry that is not known lies above the fork, so the next entry is near it. */
  lemma EntryNearFork(a: ChainState, s: CBlockIndex, vHave: seq<Hash>, node: ChainState, j: nat, f: nat,
                      parentOf: Hash -> Hash, hashGenesis: Hash)
    requires a.TreeInv() && s in a.nodes && HashLinked(a.nodes, parentOf, hashGenesis)
    requires node.TreeInv() && node.pindexBest in node.nodes && HashLinked(node.nodes, parentOf, hashGenesis)
    requires LocatesBranch(vHave, s.Path(), hashGenesis) && ForkHeight(s, node, f)
    requires j < |vHave| && NoneKnown(vHave, j, node)
    ensures Back(j) <= 2 * (s.nHeight - f)
  {
    hide CBlockIndex.Path, NodeOk, ChainState.NodeStored, KnownInMain;
    if j > 0 {
      BackSteps(j - 1);
      KnownUpToFork(a, s, node, f, s.nHeight - Back(j - 1), parentOf, hashGenesis);
    } else {
      BackZero();
    }
  }

  lemma RootHash(a: ChainState, s: CBlockIndex, parentOf: Hash -> Hash, hashGenesis: Hash)
    requires a.TreeInv() && s in a.nodes && HashLinked(a.nodes, parentOf, hashGenesis)
    ensures |s.Path()| == s.nHeight + 1 && s.Path()[0].hash == hashGenesis
  {
    hide ChainState.NodeStored;
    BranchNodes(a.nodes, a.pindexGenesisBlock, s);
  }

  /** Whatever block another node resolves the locator to is an ancestor of both tips, at
      most twice as far below the sender's tip as the fork is. */
  lemma ResolvedNearFork(a: ChainState, s: CBlockIndex, vHave: seq<Hash>, node: ChainState, p: CBlockIndex, f: nat,
                         parentOf: Hash -> Hash, hashGenesis: Hash)
    requires a.TreeInv() && s in a.nodes && HashLinked(a.nodes, parentOf, hashGenesis)
    requires node.TreeInv() && node.pindexBest in node.nodes && HashLinked(node.nodes, parentOf, hashGenesis)
    requires LocatesBranch(vHave, s.Path(), hashGenesis) && Resolves(vHave, node, p) && ForkHeight(s, node, f)
    ensures OnBranch(p, node.pindexBest) && p.nHeight <= f
    ensures s.Path()[p.nHeight].hash == p.hash
    ensures s.nHeight - p.nHeight <= 2 * (s.nHeight - f)
  {
    hide CBlockIndex.Path, NodeOk, ChainState.NodeStored, Back, Tree;
    var n, t := |vHave| - 1, node.pindexBest;
    RootHash(a, s, parentOf, hashGenesis);
    BranchNodes(node.nodes, node.pindexGenesisBlock, t);
    KnownUpToFork(a, s, node, f, 0, parentOf, hashGenesis);
    assert KnownInMain(vHave[n], node);
    var j :| 0 <= j < |vHave| && NoneKnown(vHave, j, node)
             && KnownInMain(vHave[j], node) && node.mapBlockIndex[vHave[j]] == p;
    EntryNearFork(a, s, vHave, node, j, f, parentOf, hashGenesis);
    if j < n {
      KnownUpToFork(a, s, node, f, s.nHeight - Back(j), parentOf, hashGenesis);
    }
  }
}
