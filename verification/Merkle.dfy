/** The Merkle tree of a block kept as one flat vector, level after level, and the branches
    that prove a transaction is in it (src/main.h:751-799). */
module Merkle {
  import opened Collections

  type Uint256 = nat
  type PairHash = (Uint256, Uint256) -> Uint256

  // ---------------------------------------------------------------- the recursive tree

  /** The level above: neighbours are paired, an odd last node with itself. */
  function Above(s: seq<Uint256>, pair: PairHash): (t: seq<Uint256>)
    ensures |t| == (|s| + 1) / 2
  {
    seq((|s| + 1) / 2, i requires 0 <= i < (|s| + 1) / 2 => pair(s[2 * i], s[Min(2 * i + 1, |s| - 1)]))
  }

  lemma AboveAt(s: seq<Uint256>, pair: PairHash, i: nat)
    requires i < (|s| + 1) / 2
    ensures Above(s, pair)[i] == pair(s[2 * i], s[Min(2 * i + 1, |s| - 1)])
  {
  }

  function Root(s: seq<Uint256>, pair: PairHash): Uint256
    decreases |s|
  {
    if s == [] then 0 else if |s| == 1 then s[0] else Root(Above(s, pair), pair)
  }

  /** All levels, the leaves first. */
  function Flat(s: seq<Uint256>, pair: PairHash): seq<Uint256>
    decreases |s|
  {
    if |s| <= 1 then s else s + Flat(Above(s, pair), pair)
  }

  function Levels(n: nat): nat {
    if n <= 1 then 0 else 1 + Levels((n + 1) / 2)
  }

  function Width(n: nat, k: nat): nat {
    if k == 0 then n else Width((n + 1) / 2, k - 1)
  }

  /** Node i at height k above the leaves, from its two children. */
  function NodeAt(s: seq<Uint256>, pair: PairHash, k: nat, i: nat): Uint256
    requires i < Width(|s|, k)
    decreases k
  {
    if k == 0 then s[i]
    else
      WidthAbove(|s|, k);
      pair(NodeAt(s, pair, k - 1, 2 * i), NodeAt(s, pair, k - 1, Min(2 * i + 1, Width(|s|, k - 1) - 1)))
  }

  lemma {:induction false} WidthAbove(n: nat, k: nat)
    requires k > 0
    ensures Width(n, k) == (Width(n, k - 1) + 1) / 2
  {
    if k > 1 {
      WidthAbove((n + 1) / 2, k - 1);
    }
  }

  lemma NodeStep(s: seq<Uint256>, pair: PairHash, k: nat, i: nat)
    requires i < Width(|s|, k + 1)
    ensures 2 * i < Width(|s|, k) && Width(|s|, k + 1) == (Width(|s|, k) + 1) / 2
    ensures NodeAt(s, pair, k + 1, i) ==
      pair(NodeAt(s, pair, k, 2 * i), NodeAt(s, pair, k, Min(2 * i + 1, Width(|s|, k) - 1)))
  {
    WidthAbove(|s|, k + 1);
  }

  lemma {:induction false} NodeOfAbove(s: seq<Uint256>, pair: PairHash, k: nat, i: nat)
    requires i < Width(|s|, k + 1)
    ensures i < Width(|Above(s, pair)|, k) && NodeAt(s, pair, k + 1, i) == NodeAt(Above(s, pair), pair, k, i)
    decreases k
  {
    hide Above, NodeAt, Width, Min;
    WidthUp(|s|, k);
    NodeStep(s, pair, k, i);
    if k == 0 {
      WidthZero(|s|);
      WidthZero(|Above(s, pair)|);
      AboveAt(s, pair, i);
      LeafNode(Above(s, pair), pair, i);
      LeafNode(s, pair, 2 * i);
      MinBelow(2 * i + 1, |s|);
      LeafNode(s, pair, Min(2 * i + 1, |s| - 1));
    } else {
      MinBelow(2 * i + 1, Width(|s|, k));
      WidthUp(|s|, k - 1);
      NodeStep(Above(s, pair), pair, k - 1, i);
      NodeOfAbove(s, pair, k - 1, 2 * i);
      NodeOfAbove(s, pair, k - 1, Min(2 * i + 1, Width(|s|, k) - 1));
    }
  }

  lemma WidthZero(n: nat)
    ensures Width(n, 0) == n
  {
  }

  lemma MinBelow(a: nat, n: nat)
    requires n > 0
    ensures Min(a, n - 1) < n
  {
  }

  lemma WidthUp(n: nat, k: nat)
    ensures Width(n, k + 1) == Width((n + 1) / 2, k)
  {
  }

  lemma {:induction false} TopWidth(n: nat)
    requires n > 0
    ensures Width(n, Levels(n)) == 1
  {
    if n > 1 {
      TopWidth((n + 1) / 2);
    }
  }

  /** Where level k starts in the flat vector. */
  function Offset(n: nat, k: nat): nat {
    if k == 0 then 0 else n + Offset((n + 1) / 2, k - 1)
  }

  /** The flat vector holds node i of level k at the level's offset, and the root is the only
      node of the top level. */
  lemma {:induction false} FlatIsTree(s: seq<Uint256>, pair: PairHash, k: nat, i: nat)
    requires k <= Levels(|s|) && i < Width(|s|, k)
    ensures Offset(|s|, k) + i < |Flat(s, pair)|
    ensures Flat(s, pair)[Offset(|s|, k) + i] == NodeAt(s, pair, k, i)
    decreases k
  {
    hide Above, NodeAt;
    if k > 0 {
      WidthUp(|s|, k - 1);
      FlatIsTree(Above(s, pair), pair, k - 1, i);
      NodeOfAbove(s, pair, k - 1, i);
    } else {
      LeafNode(s, pair, i);
    }
  }

  lemma LeafNode(s: seq<Uint256>, pair: PairHash, i: nat)
    requires i < |s|
    ensures NodeAt(s, pair, 0, i) == s[i]
  {
  }

  lemma {:induction false} RootIsTop(s: seq<Uint256>, pair: PairHash)
    requires s != []
    ensures Width(|s|, Levels(|s|)) == 1 && Root(s, pair) == NodeAt(s, pair, Levels(|s|), 0)
    decreases |s|
  {
    hide Above, NodeAt, Width;
    TopWidth(|s|);
    if |s| > 1 {
      RootIsTop(Above(s, pair), pair);
      NodeOfAbove(s, pair, Levels(|s|) - 1, 0);
    } else {
      LeafNode(s, pair, 0);
    }
  }

  /** The last entry of the flat vector is the root. */
  lemma {:induction false} RootIsLast(s: seq<Uint256>, pair: PairHash)
    requires s != []
    ensures |Flat(s, pair)| > 0 && Flat(s, pair)[|Flat(s, pair)| - 1] == Root(s, pair)
    decreases |s|
  {
    hide Above;
    if |s| > 1 {
      RootIsLast(Above(s, pair), pair);
    }
  }

  /** The root of few transactions, written out: left before right, an odd last one twice. */
  lemma SmallRoots(a: Uint256, b: Uint256, c: Uint256, d: Uint256, pair: PairHash)
    ensures Root([], pair) == 0 && Root([a], pair) == a && Root([a, b], pair) == pair(a, b)
    ensures Root([a, b, c], pair) == pair(pair(a, b), pair(c, c))
    ensures Root([a, b, c, d], pair) == pair(pair(a, b), pair(c, d))
  {
    assert Above([a, b], pair) == [pair(a, b)];
    assert Above([a, b, c], pair) == [pair(a, b), pair(c, c)];
    assert Above([a, b, c, d], pair) == [pair(a, b), pair(c, d)];
    var x, y, z := pair(a, b), pair(c, c), pair(c, d);
    assert Above([x, y], pair) == [pair(x, y)];
    assert Above([x, z], pair) == [pair(x, z)];
    assert Root([a, b, c], pair) == Root([x, y], pair) == Root([pair(x, y)], pair);
    assert Root([a, b, c, d], pair) == Root([x, z], pair) == Root([pair(x, z)], pair);
  }

  // ---------------------------------------------------------------- branches

  /** Position of the sibling: the lowest bit flipped. */
  function Sibling(i: nat): nat {
    if i % 2 == 0 then i + 1 else i - 1
  }

  function Branch(s: seq<Uint256>, pair: PairHash, i: nat): (b: seq<Uint256>)
    ensures |b| == Levels(|s|)
    decreases |s|
  {
    if |s| <= 1 then [] else [s[Min(Sibling(i), |s| - 1)]] + Branch(Above(s, pair), pair, i / 2)
  }

  /** Siblings join left or right by the bits of the index, the lowest first; a negative index
      is read in two's complement. */
  function Climb(hash: Uint256, branch: seq<Uint256>, pair: PairHash, i: int): Uint256
    decreases |branch|
  {
    if branch == [] then hash
    else
      Climb(if i % 2 == 1 then pair(branch[0], hash) else pair(hash, branch[0]), branch[1..], pair, i / 2)
  }

  /** Every leaf climbs its own branch to the root. */
  lemma {:induction false} BranchReachesRoot(s: seq<Uint256>, pair: PairHash, i: nat)
    requires i < |s|
    ensures Climb(s[i], Branch(s, pair, i), pair, i) == Root(s, pair)
    decreases |s|
  {
    hide Above;
    if |s| > 1 {
      var t := Above(s, pair);
      var b := Branch(s, pair, i);
      AboveAt(s, pair, i / 2);
      assert b[1..] == Branch(t, pair, i / 2);
      assert t[i / 2] == if i % 2 == 1 then pair(b[0], s[i]) else pair(s[i], b[0]);
      BranchReachesRoot(t, pair, i / 2);
    }
  }

  ghost predicate Injective(pair: PairHash) {
    forall a, b, c, d :: pair(a, b) == pair(c, d) ==> a == c && b == d
  }

  lemma {:induction false} ClimbInjective(h: Uint256, g: Uint256, branch: seq<Uint256>, pair: PairHash, i: int)
    requires Injective(pair) && Climb(h, branch, pair, i) == Climb(g, branch, pair, i)
    ensures h == g
    decreases |branch|
  {
    if branch != [] {
      var o := branch[0];
      var h', g' := if i % 2 == 1 then pair(o, h) else pair(h, o), if i % 2 == 1 then pair(o, g) else pair(g, o);
      ClimbInjective(h', g', branch[1..], pair, i / 2);
    }
  }

  /** With an injective pair hash, a branch and its index verify one leaf only. */
  lemma BranchVerifiesIff(s: seq<Uint256>, pair: PairHash, i: nat, hash: Uint256)
    requires i < |s| && Injective(pair)
    ensures Climb(hash, Branch(s, pair, i), pair, i) == Root(s, pair) <==> hash == s[i]
  {
    BranchReachesRoot(s, pair, i);
    if Climb(hash, Branch(s, pair, i), pair, i) == Root(s, pair) {
      ClimbInjective(hash, s[i], Branch(s, pair, i), pair, i);
    }
  }

  lemma SameParts(pair: PairHash, a: Uint256, b: Uint256, c: Uint256, d: Uint256)
    requires Injective(pair) && pair(a, b) == pair(c, d)
    ensures a == c && b == d
  {
  }

  // ---------------------------------------------------------------- what the root commits to

  function Pow2(d: nat): nat {
    if d == 0 then 1 else 2 * Pow2(d - 1)
  }

  /** The leaf, of n, that stands at place i of the full row below a tree of d levels: where a
      last node was paired with itself, its leaves stand twice. */
  function Slot(n: nat, d: nat, i: nat): (k: nat)
    requires n > 0
    ensures k < n
  {
    if d == 0 then 0 else Min(2 * Slot((n + 1) / 2, d - 1, i / 2) + i % 2, n - 1)
  }

  predicate SamePlace(s: seq<Uint256>, t: seq<Uint256>, d: nat, i: nat)
    requires s != [] && t != []
  {
    s[Slot(|s|, d, i)] == t[Slot(|t|, d, i)]
  }

  ghost predicate SameRow(s: seq<Uint256>, t: seq<Uint256>, d: nat)
    requires s != [] && t != []
  {
    forall i: nat :: i < Pow2(d) ==> SamePlace(s, t, d, i)
  }

  lemma SameChildren(s: seq<Uint256>, t: seq<Uint256>, pair: PairHash, a: nat, b: nat)
    requires Injective(pair) && a < (|s| + 1) / 2 && b < (|t| + 1) / 2
    ensures Above(s, pair)[a] == Above(t, pair)[b] <==>
      s[2 * a] == t[2 * b] && s[Min(2 * a + 1, |s| - 1)] == t[Min(2 * b + 1, |t| - 1)]
  {
    hide Above, Injective, Min;
    AboveAt(s, pair, a);
    AboveAt(t, pair, b);
    MinBelow(2 * a + 1, |s|);
    MinBelow(2 * b + 1, |t|);
    if Above(s, pair)[a] == Above(t, pair)[b] {
      SameParts(pair, s[2 * a], s[Min(2 * a + 1, |s| - 1)], t[2 * b], t[Min(2 * b + 1, |t| - 1)]);
    }
  }

  /** The two places below place i of the row above. */
  lemma SlotBelow(n: nat, d: nat, i: nat)
    requires n > 0 && d > 0
    ensures Slot(n, d, 2 * i) == 2 * Slot((n + 1) / 2, d - 1, i)
    ensures Slot(n, d, 2 * i + 1) == Min(2 * Slot((n + 1) / 2, d - 1, i) + 1, n - 1)
  {
    assert 2 * i / 2 == i && (2 * i + 1) / 2 == i && (2 * i + 1) % 2 == 1;
  }

  lemma PlaceAbove(s: seq<Uint256>, t: seq<Uint256>, pair: PairHash, d: nat, i: nat)
    requires Injective(pair) && s != [] && t != [] && d > 0
    ensures
      var p, q := Above(s, pair), Above(t, pair);
      SamePlace(p, q, d - 1, i) <==> SamePlace(s, t, d, 2 * i) && SamePlace(s, t, d, 2 * i + 1)
  {
    hide Above, Injective, Slot, Min;
    SlotBelow(|s|, d, i);
    SlotBelow(|t|, d, i);
    SameChildren(s, t, pair, Slot((|s| + 1) / 2, d - 1, i), Slot((|t| + 1) / 2, d - 1, i));
  }

  lemma RowAbove(s: seq<Uint256>, t: seq<Uint256>, pair: PairHash, d: nat)
    requires Injective(pair) && s != [] && t != [] && d > 0
    ensures SameRow(Above(s, pair), Above(t, pair), d - 1) <==> SameRow(s, t, d)
  {
    hide Above, Injective, Slot, Min, SamePlace;
    var p, q := Above(s, pair), Above(t, pair);
    if SameRow(p, q, d - 1) {
      forall i: nat | i < Pow2(d) ensures SamePlace(s, t, d, i) {
        PlaceAbove(s, t, pair, d, i / 2);
        assert SamePlace(p, q, d - 1, i / 2);
        assert i == 2 * (i / 2) || i == 2 * (i / 2) + 1;
      }
    }
    if SameRow(s, t, d) {
      var e: nat := d - 1;
      forall i: nat | i < Pow2(e) ensures SamePlace(p, q, e, i) {
        PlaceAbove(s, t, pair, d, i);
        assert SamePlace(s, t, d, 2 * i) && SamePlace(s, t, d, 2 * i + 1);
      }
    }
  }

  /** Trees of as many levels have the same root exactly when they have the same full row. */
  lemma {:induction false} SameLevelsRootIff(s: seq<Uint256>, t: seq<Uint256>, pair: PairHash)
    requires Injective(pair) && s != [] && t != [] && Levels(|s|) == Levels(|t|)
    ensures Root(s, pair) == Root(t, pair) <==> SameRow(s, t, Levels(|s|))
    decreases |s|
  {
    hide Above, Injective;
    if |s| == 1 {
      assert |t| == 1;
      assert Slot(1, 0, 0) == 0 && (SamePlace(s, t, 0, 0) <==> s[0] == t[0]);
    } else {
      SameLevelsRootIff(Above(s, pair), Above(t, pair), pair);
      RowAbove(s, t, pair, Levels(|s|));
    }
  }

  /** Level k of the tree. */
  function LevelOf(s: seq<Uint256>, pair: PairHash, k: nat): seq<Uint256>
    decreases k
  {
    if k == 0 then s else LevelOf(Above(s, pair), pair, k - 1)
  }

  lemma {:induction false} LevelRoot(s: seq<Uint256>, pair: PairHash, k: nat)
    requires s != [] && k <= Levels(|s|)
    ensures LevelOf(s, pair, k) != [] && Levels(|LevelOf(s, pair, k)|) == Levels(|s|) - k
    ensures Root(LevelOf(s, pair, k), pair) == Root(s, pair)
    decreases k
  {
    hide Above;
    if k > 0 {
      LevelRoot(Above(s, pair), pair, k - 1);
    }
  }

  /** Two lists have the same root if and only if the full row of the one with fewer levels is
      that of the other's level of the same depth. */
  lemma SameRootIff(s: seq<Uint256>, t: seq<Uint256>, pair: PairHash)
    requires Injective(pair) && s != [] && t != [] && Levels(|s|) <= Levels(|t|)
    ensures
      var u := LevelOf(t, pair, Levels(|t|) - Levels(|s|));
      u != [] && (Root(s, pair) == Root(t, pair) <==> SameRow(s, u, Levels(|s|)))
  {
    hide Injective, SameRow, LevelOf, Levels, Root;
    var k := Levels(|t|) - Levels(|s|);
    LevelRoot(t, pair, k);
    SameLevelsRootIff(s, LevelOf(t, pair, k), pair);
  }

  /** A list of three and the list with its last entry repeated. */
  lemma RepeatedLeafSameRoot(a: Uint256, b: Uint256, c: Uint256, pair: PairHash)
    ensures Root([a, b, c], pair) == Root([a, b, c, c], pair)
  {
    assert Above([a, b, c], pair) == Above([a, b, c, c], pair);
  }

  /** Among lists of the same length the root commits to the whole list. */
  lemma RootInjective(s: seq<Uint256>, t: seq<Uint256>, pair: PairHash)
    requires Injective(pair) && |s| == |t| && Root(s, pair) == Root(t, pair)
    ensures s == t
  {
    if s != [] {
      SameLevelsRootIff(s, t, pair);
      var d := Levels(|s|);
      forall k | 0 <= k < |s| ensures s[k] == t[k] {
        OwnSlot(|s|, k);
        assert SamePlace(s, t, d, k);
      }
    }
  }

  /** The full row starts with the leaves. */
  lemma {:induction false} OwnSlot(n: nat, k: nat)
    requires k < n
    ensures k < Pow2(Levels(n)) && Slot(n, Levels(n), k) == k
  {
    if n > 1 {
      OwnSlot((n + 1) / 2, k / 2);
    }
  }

  // ---------------------------------------------------------------- one level at a time

  lemma FlatNext(s: seq<Uint256>, pair: PairHash)
    requires |s| > 1
    ensures Flat(s, pair) == s + Flat(Above(s, pair), pair)
  {
  }

  lemma FlatLast(s: seq<Uint256>, pair: PairHash)
    requires |s| <= 1
    ensures Flat(s, pair) == s
  {
  }

  lemma RootLast(s: seq<Uint256>, pair: PairHash)
    ensures Root(s, pair) == if Flat(s, pair) == [] then 0 else Flat(s, pair)[|Flat(s, pair)| - 1]
  {
    if s != [] {
      RootIsLast(s, pair);
    }
  }

  lemma BranchNext(s: seq<Uint256>, pair: PairHash, i: nat)
    requires |s| > 1
    ensures Branch(s, pair, i) == [s[Min(Sibling(i), |s| - 1)]] + Branch(Above(s, pair), pair, i / 2)
  {
  }

  lemma BranchEnd(s: seq<Uint256>, pair: PairHash, i: nat)
    requires |s| <= 1
    ensures Branch(s, pair, i) == []
  {
  }

  // ---------------------------------------------------------------- the block's methods

  class CBlock {
    /** The hashes of the transactions. */
    var vtx: seq<Uint256>
    /** Memory only. */
    var vMerkleTree: seq<Uint256>
    const pair: PairHash

    constructor (vtx: seq<Uint256>, pair: PairHash)
      ensures this.vtx == vtx && this.pair == pair && CacheOk()
    {
      this.vtx, this.pair, vMerkleTree := vtx, pair, [];
    }

    /** The cached tree is empty or that of the block's transactions. */
    ghost predicate CacheOk()
      reads this
    {
      vMerkleTree == [] || vMerkleTree == Flat(vtx, pair)
    }

    method BuildMerkleTree() returns (root: Uint256)
      modifies this`vMerkleTree
      ensures vMerkleTree == Flat(vtx, pair) && root == Root(vtx, pair)
    {
      hide Above, Flat, Root;
      vMerkleTree := vtx;
      var j, nSize := 0, |vtx|;
      ghost var done, level := [], vtx;
      while nSize > 1
        invariant |level| == nSize && j == |done| && vMerkleTree == done + level
        invariant Flat(vtx, pair) == done + Flat(level, pair)
      {
        AppendLevel(j, level);
        FlatNext(level, pair);
        j := j + nSize;
        nSize := (nSize + 1) / 2;
        done, level := done + level, Above(level, pair);
      }
      FlatLast(level, pair);
      RootLast(vtx, pair);
      root := if vMerkleTree == [] then 0 else vMerkleTree[|vMerkleTree| - 1];
    }

    /** One round of the outer loop: the level that starts at j gets the one above it appended. */
    method AppendLevel(j: nat, ghost level: seq<Uint256>)
      requires j <= |vMerkleTree| && vMerkleTree[j..] == level
      modifies this`vMerkleTree
      ensures vMerkleTree == old(vMerkleTree) + Above(level, pair)
    {
      hide Above;
      ghost var was, above := vMerkleTree, Above(level, pair);
      var i, nSize := 0, |vMerkleTree| - j;
      while i < nSize
        invariant i % 2 == 0 && i / 2 <= |above| && vMerkleTree == was + above[..i / 2]
      {
        var i2 := Min(i + 1, nSize - 1);
        assert was[j + i] == was[j..][i] && was[j + i2] == was[j..][i2];
        AboveAt(level, pair, i / 2);
        vMerkleTree := vMerkleTree + [pair(vMerkleTree[j + i], vMerkleTree[j + i2])];
        i := i + 2;
      }
      assert above[..i / 2] == above;
    }

    method GetMerkleBranch(nIndex: nat) returns (vMerkleBranch: seq<Uint256>)
      requires CacheOk()
      modifies this`vMerkleTree
      ensures vMerkleTree == Flat(vtx, pair) && vMerkleBranch == Branch(vtx, pair, nIndex)
    {
      hide Above, Flat, Branch;
      if vMerkleTree == [] {
        var _ := BuildMerkleTree();
      }
      assert vMerkleTree == Flat(vtx, pair);
      vMerkleBranch := [];
      var index, j, nSize := nIndex, 0, |vtx|;
      ghost var level := vtx;
      while nSize > 1
        invariant |level| == nSize && j + |Flat(level, pair)| == |vMerkleTree| && vMerkleTree[j..] == Flat(level, pair)
        invariant vMerkleTree == Flat(vtx, pair)
        invariant Branch(vtx, pair, nIndex) == vMerkleBranch + Branch(level, pair, index)
      {
        var i := Min(Sibling(index), nSize - 1);
        FlatNext(level, pair);
        BranchNext(level, pair, index);
        assert vMerkleTree[j + i] == Flat(level, pair)[i] == level[i];
        vMerkleBranch := vMerkleBranch + [vMerkleTree[j + i]];
        assert vMerkleTree[j + nSize..] == vMerkleTree[j..][nSize..] == Flat(Above(level, pair), pair);
        level := Above(level, pair);
        index := index / 2;
        j := j + nSize;
        nSize := (nSize + 1) / 2;
      }
      BranchEnd(level, pair, index);
    }

    static method CheckMerkleBranch(hash: Uint256, vMerkleBranch: seq<Uint256>, nIndex: int, pair: PairHash)
      returns (root: Uint256)
      ensures root == if nIndex == -1 then 0 else Climb(hash, vMerkleBranch, pair, nIndex)
    {
      if nIndex == -1 {
        return 0;
      }
      root := hash;
      var index := nIndex;
      for k := 0 to |vMerkleBranch|
        invariant Climb(root, vMerkleBranch[k..], pair, index) == Climb(hash, vMerkleBranch, pair, nIndex)
      {
        var otherside := vMerkleBranch[k];
        assert vMerkleBranch[k..][1..] == vMerkleBranch[k + 1..];
        if index % 2 == 1 {
          root := pair(otherside, root);
        } else {
          root := pair(root, otherside);
        }
        index := index / 2;
      }
    }
  }
}
