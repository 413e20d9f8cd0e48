/** Facts about the block tree that no run changes: branches, common ancestors, and the
    index obtained by replaying a branch from just after the genesis block. */
module Branches {
  import opened Collections
  import opened Transactions
  import opened IndexEffects
  import opened ConnectSpec
  import opened BlockIndex

  ghost predicate NodeOk(nodes: set<CBlockIndex>, root: CBlockIndex, p: CBlockIndex) {
    && p.nHeight == |p.ancestors|
    && (p.pprev == null ==> p == root && p.ancestors == [])
    && (p.pprev != null ==>
          p.pprev in nodes && p.ancestors == p.pprev.Path() && p.pprev.nChainTrust <= p.nChainTrust)
  }

  /** Every node hangs below the root and carries the height and branch its parent implies. */
  ghost predicate Tree(nodes: set<CBlockIndex>, root: CBlockIndex) {
    root in nodes && root.pprev == null && forall p :: p in nodes ==> NodeOk(nodes, root, p)
  }

  lemma {:induction false} PathAt(nodes: set<CBlockIndex>, root: CBlockIndex, p: CBlockIndex, i: nat)
    requires Tree(nodes, root) && p in nodes && i <= p.nHeight
    ensures |p.Path()| == p.nHeight + 1 && p.Path()[0] == root
    ensures p.Path()[i] in nodes && p.Path()[i].nHeight == i
    ensures p.Path()[i].Path() == p.Path()[..i + 1]
    ensures p.Path()[i].nChainTrust <= p.nChainTrust
    decreases p.nHeight
  {
    assert NodeOk(nodes, root, p);
    if p.pprev != null {
      assert NodeOk(nodes, root, p.pprev);
      var j := if i == p.nHeight then i - 1 else i;
      PathAt(nodes, root, p.pprev, j);
      assert p.Path()[..p.nHeight] == p.pprev.Path();
      assert p.Path()[..j + 1] == p.pprev.Path()[..j + 1];
    }
    if i == p.nHeight {
      assert p.Path()[..i + 1] == p.Path();
    }
  }

  /** a is p or one of its ancestors. */
  ghost predicate OnBranch(a: CBlockIndex, p: CBlockIndex) {
    a in p.Path()
  }

  lemma OnOwnBranch(p: CBlockIndex)
    ensures OnBranch(p, p)
  {
    assert p.Path()[|p.ancestors|] == p;
  }

  lemma OnBranchAt(nodes: set<CBlockIndex>, root: CBlockIndex, a: CBlockIndex, p: CBlockIndex)
    requires Tree(nodes, root) && p in nodes && OnBranch(a, p)
    ensures a in nodes && a.nHeight <= p.nHeight && |p.Path()| == p.nHeight + 1 && p.Path()[a.nHeight] == a
    ensures a.Path() == p.Path()[..a.nHeight + 1] && a.nChainTrust <= p.nChainTrust
  {
    var i :| 0 <= i < |p.Path()| && p.Path()[i] == a;
    PathAt(nodes, root, p, 0);
    PathAt(nodes, root, p, i);
  }

  /** A branch lists its blocks by height, each above its parent. */
  lemma BranchNodes(nodes: set<CBlockIndex>, root: CBlockIndex, tip: CBlockIndex)
    requires Tree(nodes, root) && tip in nodes
    ensures |tip.Path()| == tip.nHeight + 1 && tip.Path()[tip.nHeight] == tip && tip.Path()[0] == root
    ensures forall i :: 0 <= i < |tip.Path()| ==> tip.Path()[i] in nodes && tip.Path()[i].nHeight == i
    ensures forall i :: 1 <= i < |tip.Path()| ==> tip.Path()[i].pprev == tip.Path()[i - 1]
  {
    PathAt(nodes, root, tip, 0);
    forall i | 0 <= i < |tip.Path()|
      ensures tip.Path()[i] in nodes && tip.Path()[i].nHeight == i
      ensures i >= 1 ==> tip.Path()[i].pprev == tip.Path()[i - 1]
    {
      PathAt(nodes, root, tip, i);
      var q := tip.Path()[i];
      assert NodeOk(nodes, root, q);
      assert i >= 1 ==> q.Path()[i - 1] == q.pprev;
    }
  }

  /** The last block two branches share. */
  ghost predicate IsFork(f: CBlockIndex, p: CBlockIndex, q: CBlockIndex) {
    OnBranch(f, p) && OnBranch(f, q) &&
    forall a :: a in p.Path() && a in q.Path() ==> a.nHeight <= f.nHeight
  }

  /** Stepping down from a block x that is not above-or-equal a common ancestor keeps every
      common ancestor below it: x is at least as high as the other walker and differs from it. */
  lemma StepDown(nodes: set<CBlockIndex>, root: CBlockIndex, x: CBlockIndex, other: CBlockIndex, end: CBlockIndex,
                 common: set<CBlockIndex>)
    requires Tree(nodes, root) && {x, other, end} <= nodes && OnBranch(x, end)
    requires x != other && x.nHeight >= other.nHeight
    requires forall a :: a in common ==> a in x.Path() && a in other.Path()
    ensures x.pprev != null && x.pprev in nodes && OnBranch(x.pprev, end) && x.pprev.nHeight + 1 == x.nHeight
    ensures forall a :: a in common ==> a in x.pprev.Path()
  {
    assert NodeOk(nodes, root, x);
    assert NodeOk(nodes, root, other);
    OnBranchAt(nodes, root, x, end);
    if x.pprev != null {
      assert NodeOk(nodes, root, x.pprev);
      assert end.Path()[x.nHeight - 1] == x.Path()[x.nHeight - 1] == x.pprev;
      forall a | a in common ensures a in x.pprev.Path() {
        OnBranchAt(nodes, root, a, other);
        OnBranchAt(nodes, root, x, x);
        assert a == x ==> a == other;
      }
    }
  }

  // ---------------------------------------------------------------- replay

  /** The index after connecting the blocks of a branch, the first one (genesis) excepted. */
  ghost function ReplayIndex(path: seq<CBlockIndex>): Index {
    if |path| <= 1 then map[]
    else ApplyBlock(ReplayIndex(path[..|path| - 1]), path[|path| - 1].block)
  }

  predicate Disjoint(a: Block, b: Block) {
    forall i, j :: 0 <= i < |a.vtx| && 0 <= j < |b.vtx| ==> a.vtx[i].hash != b.vtx[j].hash
  }

  /** No branch repeats a transaction hash (genesis is never indexed). */
  ghost predicate NoRepeats(path: seq<CBlockIndex>) {
    forall i, j :: 1 <= i < j < |path| ==> Disjoint(path[i].block, path[j].block)
  }

  /** Each block of the branch spends only what is unspent when its turn comes. */
  ghost predicate SpendsAlong(path: seq<CBlockIndex>) {
    |path| <= 1 ||
    (&& SpendsAlong(path[..|path| - 1])
     && BlockSpends(ReplayIndex(path[..|path| - 1]), path[|path| - 1].block)
     && DistinctHashes(path[|path| - 1].block.vtx))
  }

  lemma {:induction false} FreshAfter(idx: Index, a: Block, k: nat, b: Block)
    requires k <= |a.vtx| && Fresh(idx, b) && Disjoint(a, b)
    ensures Fresh(ApplyUpTo(idx, a, k), b)
    decreases k
  {
    if k > 0 {
      FreshAfter(idx, a, k - 1, b);
      SpendAllKeys(ApplyUpTo(idx, a, k - 1), a.vtx[k - 1].vin, a.PosOf(k - 1));
    }
  }

  lemma {:induction false} FreshReplay(path: seq<CBlockIndex>, b: Block)
    requires forall i :: 1 <= i < |path| ==> Disjoint(path[i].block, b)
    ensures Fresh(ReplayIndex(path), b)
  {
    if |path| > 1 {
      var n := |path| - 1;
      FreshReplay(path[..n], b);
      FreshAfter(ReplayIndex(path[..n]), path[n].block, |path[n].block.vtx|, b);
    }
  }

  lemma FreshNext(path: seq<CBlockIndex>, k: nat)
    requires 1 <= k < |path| && NoRepeats(path)
    ensures Fresh(ReplayIndex(path[..k]), path[k].block)
  {
    FreshReplay(path[..k], path[k].block);
  }

  lemma {:induction false} SpendsAlongAt(path: seq<CBlockIndex>, k: nat)
    requires SpendsAlong(path) && 1 <= k < |path|
    ensures SpendsAlong(path[..k]) && BlockSpends(ReplayIndex(path[..k]), path[k].block)
    ensures DistinctHashes(path[k].block.vtx)
    decreases |path|
  {
    var n := |path| - 1;
    if k < n {
      SpendsAlongAt(path[..n], k);
      assert path[..n][..k] == path[..k];
    }
  }

  lemma ReplayStep(path: seq<CBlockIndex>, k: nat)
    requires 1 <= k < |path|
    ensures ReplayIndex(path[..k + 1]) == ApplyBlock(ReplayIndex(path[..k]), path[k].block)
  {
    assert path[..k + 1][..k] == path[..k];
  }

  /** Disconnecting the last block of a branch never fails and gives the shorter replay. */
  lemma UndoLast(path: seq<CBlockIndex>, k: nat)
    requires 1 <= k < |path| && SpendsAlong(path) && NoRepeats(path)
    ensures UndoBlock(ReplayIndex(path[..k + 1]), path[k].block) == Some(ReplayIndex(path[..k]))
  {
    SpendsAlongAt(path, k);
    FreshNext(path, k);
    ReplayStep(path, k);
    UndoRestoresIffFresh(ReplayIndex(path[..k]), path[k].block);
  }

  lemma {:induction false} AppliedHashesKnown(idx: Index, b: Block, k: nat, i: nat)
    requires i < k <= |b.vtx|
    ensures b.vtx[i].hash in ApplyUpTo(idx, b, k)
    decreases k
  {
    SpendAllKeys(ApplyUpTo(idx, b, k - 1), b.vtx[k - 1].vin, b.PosOf(k - 1));
    if i < k - 1 {
      AppliedHashesKnown(idx, b, k - 1, i);
    }
  }

  /** Stopping short of a block gives a different index. */
  lemma ShorterReplayDiffers(path: seq<CBlockIndex>, k: nat)
    requires 1 <= k < |path| && NoRepeats(path)
    requires forall i :: 0 <= i < |path| ==> |path[i].block.vtx| > 0
    ensures ReplayIndex(path[..k]) != ReplayIndex(path)
  {
    var n := |path| - 1;
    var b := path[n].block;
    FreshReplay(path[..k], b);
    AppliedHashesKnown(ReplayIndex(path[..n]), b, |b.vtx|, 0);
    assert b.vtx[0].hash in ReplayIndex(path);
  }

  // ---------------------------------------------------------------- supply along a branch

  lemma {:induction false} SoundReplay(path: seq<CBlockIndex>, f: Files)
    requires SpendsAlong(path) && NoRepeats(path)
    requires forall i :: 0 <= i < |path| ==> StoredAt(path[i].block, f)
    ensures Sound(ReplayIndex(path), f)
  {
    if |path| > 1 {
      var n := |path| - 1;
      SoundReplay(path[..n], f);
      FreshNext(path, n);
      SoundApplied(ReplayIndex(path[..n]), path[n].block, |path[n].block.vtx|, f);
    }
  }

  lemma {:induction false} SoundApplied(idx: Index, b: Block, k: nat, f: Files)
    requires k <= |b.vtx| && Sound(idx, f) && SpendsUpTo(idx, b, k)
    requires StoredAt(b, f) && DistinctHashes(b.vtx) && Fresh(idx, b)
    ensures Sound(ApplyUpTo(idx, b, k), f)
    decreases k
  {
    hide ApplyTx, TxSpends, Sound;
    if k > 0 {
      SoundApplied(idx, b, k - 1, f);
      FreshWhenApplied(idx, b, k - 1);
      OffsetAfterStart(b, k - 1);
      ApplyTxValue(ApplyUpTo(idx, b, k - 1), f, b.vtx[k - 1], b.PosOf(k - 1));
    }
  }
}
