/** The stake modifier (src/kernel.cpp:26-191): candidate blocks in order of time, 64 rounds
    that each pick one, one entropy bit from each. Hashing is an opaque function. */
module StakeModifier {
  import opened Numerals

  type Hash = nat

  const MODIFIER_INTERVAL_RATIO: nat := 3

  /** What the modifier needs of a block index entry. */
  datatype StakeBlock = StakeBlock(
    hash: Hash, nHeight: nat, nTime: nat, hashProof: Hash, fProofOfStake: bool, entropyBit: nat,
    fGenerated: bool, nStakeModifier: nat)

  /** An entry of the candidate vector. */
  datatype Item = Item(nTime: nat, hash: Hash)

  type SelectionHash = (Hash, nat) -> nat

  predicate Earlier(a: Item, b: Item) {
    a.nTime < b.nTime || (a.nTime == b.nTime && a.hash <= b.hash)
  }

  ghost predicate Sorted(s: seq<Item>) {
    forall i, j :: 0 <= i < j < |s| ==> Earlier(s[i], s[j])
  }

  /** The chain from the genesis block up, all of it in the block map. */
  ghost predicate ChainOk(chain: seq<StakeBlock>, mapBlockIndex: map<Hash, StakeBlock>) {
    && (forall i :: 0 <= i < |chain| ==> chain[i].nHeight == i && chain[i].entropyBit < 2)
    && (forall i :: 0 <= i < |chain| ==> chain[i].hash in mapBlockIndex && mapBlockIndex[chain[i].hash] == chain[i])
  }

  // ---------------------------------------------------------------- selection interval

  function Divisor(nSection: nat): (d: nat)
    requires nSection < 64
    ensures 63 <= d <= 189
  {
    63 + (63 - nSection) * (MODIFIER_INTERVAL_RATIO - 1)
  }

  function Quotient(x: nat, d: nat): nat
    requires d > 0
  {
    x / d
  }

  function Section(nModifierInterval: nat, nSection: nat): nat
    requires nSection < 64
  {
    Quotient(nModifierInterval * 63, Divisor(nSection))
  }

  /** The first n sections together. */
  function Sections(nModifierInterval: nat, n: nat): nat
    requires n <= 64
  {
    if n == 0 then 0 else Sections(nModifierInterval, n - 1) + Section(nModifierInterval, n - 1)
  }

  method GetSelectionInterval(nModifierInterval: nat) returns (nSelectionInterval: nat)
    ensures nSelectionInterval == Sections(nModifierInterval, 64)
  {
    nSelectionInterval := 0;
    for nSection := 0 to 64
      invariant nSelectionInterval == Sections(nModifierInterval, nSection)
    {
      nSelectionInterval := nSelectionInterval + Section(nModifierInterval, nSection);
    }
  }

  /** Later rounds add longer sections, the last one a whole modifier interval, the first one
      a third of it. */
  lemma SectionsGrow(nModifierInterval: nat, m: nat, n: nat)
    requires m <= n < 64
    ensures Section(nModifierInterval, m) <= Section(nModifierInterval, n)
    ensures Section(nModifierInterval, 63) == nModifierInterval && Section(nModifierInterval, 0) == nModifierInterval / 3
  {
    DivDown(nModifierInterval * 63, Divisor(n), Divisor(m));
  }

  lemma DivDown(x: nat, small: nat, large: nat)
    requires 0 < small <= large
    ensures Quotient(x, large) <= Quotient(x, small)
  {
    var q, r := x / large, x / small;
    assert q * large <= x < (r + 1) * small by {
      assert x == q * large + x % large && x == r * small + x % small;
      assert (r + 1) * small == r * small + small;
    }
    MulUp(small, large, q);
    MulLess(q, r + 1, small);
  }

  // ---------------------------------------------------------------- the current modifier

  /** The last block that generated a modifier; none if there is no block. */
  method GetLastStakeModifier(chain: seq<StakeBlock>) returns (ok: bool, at: nat)
    ensures ok <==> exists i :: 0 <= i < |chain| && chain[i].fGenerated
    ensures ok ==> at < |chain| && chain[at].fGenerated && forall i :: at < i < |chain| ==> !chain[i].fGenerated
  {
    if chain == [] {
      return false, 0;
    }
    at := |chain| - 1;
    while at > 0 && !chain[at].fGenerated
      invariant at < |chain| && forall i :: at < i < |chain| ==> !chain[i].fGenerated
    {
      at := at - 1;
    }
    ok := chain[at].fGenerated;
  }

  // ---------------------------------------------------------------- candidates

  function ItemOf(n: StakeBlock): Item {
    Item(n.nTime, n.hash)
  }

  function ItemsOf(nodes: seq<StakeBlock>): (s: seq<Item>)
    ensures |s| == |nodes| && forall i :: 0 <= i < |s| ==> s[i] == ItemOf(nodes[i])
  {
    if nodes == [] then [] else ItemsOf(nodes[..|nodes| - 1]) + [ItemOf(nodes[|nodes| - 1])]
  }

  /** The blocks from the tip down to the first one before the start of the interval. */
  method WalkBack(chain: seq<StakeBlock>, start: int) returns (items: seq<Item>, first: nat)
    ensures first <= |chain| && items == ItemsOf(chain[first..])
    ensures (forall i :: first <= i < |chain| ==> chain[i].nTime >= start) && (first > 0 ==> chain[first - 1].nTime < start)
  {
    first := |chain|;
    var pushed: seq<Item> := [];
    while first > 0 && chain[first - 1].nTime >= start
      invariant first <= |chain| && |pushed| == |chain| - first
      invariant forall i :: 0 <= i < |pushed| ==> pushed[i] == ItemOf(chain[|chain| - 1 - i])
      invariant forall i :: first <= i < |chain| ==> chain[i].nTime >= start
    {
      pushed := pushed + [ItemOf(chain[first - 1])];
      first := first - 1;
    }
    items := [];
    var k: nat := |pushed|;
    while k > 0
      invariant k <= |pushed| && |items| == |pushed| - k
      invariant forall i :: 0 <= i < |items| ==> items[i] == pushed[|pushed| - 1 - i]
    {
      k := k - 1;
      items := items + [pushed[k]];
    }
    assert items == ItemsOf(chain[first..]);
  }

  method Sort(items: seq<Item>) returns (sorted: seq<Item>)
    ensures Sorted(sorted) && multiset(sorted) == multiset(items)
  {
    sorted := [];
    assert items[..0] == [];
    for i := 0 to |items|
      invariant Sorted(sorted) && multiset(sorted) == multiset(items[..i])
    {
      sorted := Insert(sorted, items[i]);
      assert items[..i + 1] == items[..i] + [items[i]];
    }
    assert items[..|items|] == items;
  }

  method Insert(s: seq<Item>, x: Item) returns (t: seq<Item>)
    requires Sorted(s)
    ensures Sorted(t) && multiset(t) == multiset(s) + multiset{x}
  {
    var k := 0;
    while k < |s| && Earlier(s[k], x)
      invariant k <= |s| && forall i :: 0 <= i < k ==> Earlier(s[i], x)
    {
      k := k + 1;
    }
    t := s[..k] + [x] + s[k..];
    assert s == s[..k] + s[k..];
    forall i | k <= i < |s| ensures Earlier(x, s[i]) {
      assert Earlier(s[k], s[i]) || i == k;
    }
  }

  /** Earlier candidates come first, of equally old ones the one with the smaller hash. */
  lemma SortedMeans(s: seq<Item>, i: nat, j: nat)
    requires Sorted(s) && i < j < |s|
    ensures s[i].nTime <= s[j].nTime && (s[i].nTime == s[j].nTime ==> s[i].hash <= s[j].hash)
  {
    assert Earlier(s[i], s[j]);
  }

  /** The candidates are blocks of the map, each once. */
  ghost predicate CandidatesOk(sorted: seq<Item>, mapBlockIndex: map<Hash, StakeBlock>) {
    && Sorted(sorted)
    && (forall i :: 0 <= i < |sorted| ==>
          && sorted[i].hash in mapBlockIndex && mapBlockIndex[sorted[i].hash].nTime == sorted[i].nTime
          && mapBlockIndex[sorted[i].hash].hash == sorted[i].hash && mapBlockIndex[sorted[i].hash].entropyBit < 2)
    && (forall i, j :: 0 <= i < j < |sorted| ==> sorted[i].hash != sorted[j].hash)
  }

  lemma {:induction false} CountItem(nodes: seq<StakeBlock>, x: Item)
    requires forall i, j :: 0 <= i < j < |nodes| ==> nodes[i].hash != nodes[j].hash
    ensures multiset(ItemsOf(nodes))[x] <= 1
  {
    if nodes != [] {
      var p, l := nodes[..|nodes| - 1], ItemOf(nodes[|nodes| - 1]);
      CountItem(p, x);
      assert ItemsOf(nodes) == ItemsOf(p) + [l];
      assert l !in ItemsOf(p);
    }
  }

  lemma SortedCandidates(chain: seq<StakeBlock>, first: nat, mapBlockIndex: map<Hash, StakeBlock>, sorted: seq<Item>)
    requires ChainOk(chain, mapBlockIndex) && first <= |chain|
    requires Sorted(sorted) && multiset(sorted) == multiset(ItemsOf(chain[first..]))
    ensures CandidatesOk(sorted, mapBlockIndex) && |sorted| == |chain| - first
  {
    var nodes := chain[first..];
    assert |multiset(sorted)| == |sorted| && |multiset(ItemsOf(nodes))| == |nodes|;
    forall i | 0 <= i < |sorted| ensures exists k :: 0 <= k < |nodes| && sorted[i] == ItemOf(nodes[k]) {
      assert sorted[i] in multiset(sorted);
      assert sorted[i] in ItemsOf(nodes);
    }
    forall i, j | 0 <= i < j < |nodes| ensures nodes[i].hash != nodes[j].hash {
      assert nodes[i] == chain[first + i] && nodes[j] == chain[first + j];
    }
    forall i, j | 0 <= i < j < |sorted| ensures sorted[i].hash != sorted[j].hash {
      CountItem(nodes, sorted[i]);
      if sorted[i] == sorted[j] {
        TwiceCounted(sorted, i, j);
      }
    }
  }

  lemma TwiceCounted(s: seq<Item>, i: nat, j: nat)
    requires i < j < |s| && s[i] == s[j]
    ensures multiset(s)[s[i]] >= 2
  {
    assert s == s[..j] + [s[j]] + s[j + 1..];
    assert s[i] in s[..j];
  }

  // ---------------------------------------------------------------- one round

  function SelHash(mapBlockIndex: map<Hash, StakeBlock>, item: Item, modifier: nat, h: SelectionHash): nat
    requires item.hash in mapBlockIndex
  {
    var node := mapBlockIndex[item.hash];
    if node.fProofOfStake then h(node.hashProof, modifier) / 0x1_0000_0000 else h(node.hashProof, modifier)
  }

  predicate Free(sorted: seq<Item>, selected: map<Hash, StakeBlock>, i: int) {
    0 <= i < |sorted| && sorted[i].hash !in selected
  }

  /** Candidate k is the round's choice: of the unselected ones up to the stop time the one
      with the least selection hash, the earliest of equals; with none up to the stop time
      the earliest unselected. */
  ghost predicate Chosen(sorted: seq<Item>, mapBlockIndex: map<Hash, StakeBlock>, selected: map<Hash, StakeBlock>,
                         stop: int, modifier: nat, h: SelectionHash, k: nat)
    requires CandidatesOk(sorted, mapBlockIndex)
  {
    && Free(sorted, selected, k)
    && if exists i :: Free(sorted, selected, i) && sorted[i].nTime <= stop then
         && sorted[k].nTime <= stop
         && forall i :: Free(sorted, selected, i) && sorted[i].nTime <= stop ==>
              NotBetter(sorted, mapBlockIndex, modifier, h, k, i)
       else forall i :: Free(sorted, selected, i) ==> k <= i
  }

  predicate NotBetter(sorted: seq<Item>, mapBlockIndex: map<Hash, StakeBlock>, modifier: nat, h: SelectionHash, k: nat, i: int)
    requires k < |sorted| && 0 <= i < |sorted| && sorted[k].hash in mapBlockIndex && sorted[i].hash in mapBlockIndex
  {
    var a, b := SelHash(mapBlockIndex, sorted[k], modifier, h), SelHash(mapBlockIndex, sorted[i], modifier, h);
    a <= b && (i < k ==> a < b)
  }

  method SelectBlockFromCandidates(sorted: seq<Item>, mapBlockIndex: map<Hash, StakeBlock>, mapSelectedBlocks: map<Hash, StakeBlock>,
                                   nSelectionIntervalStop: int, nStakeModifierPrev: nat, h: SelectionHash)
    returns (fSelected: bool, pindexSelected: nat)
    requires CandidatesOk(sorted, mapBlockIndex)
    ensures fSelected <==> exists i :: Free(sorted, mapSelectedBlocks, i)
    ensures fSelected ==>
      Chosen(sorted, mapBlockIndex, mapSelectedBlocks, nSelectionIntervalStop, nStakeModifierPrev, h, pindexSelected)
  {
    hide SelHash;
    fSelected, pindexSelected := false, 0;
    var hashBest: nat := 0;
    ghost var first: nat := 0;
    var i := 0;
    while i < |sorted|
      invariant 0 <= i <= |sorted| && (fSelected <==> exists j :: 0 <= j < i && Free(sorted, mapSelectedBlocks, j))
      invariant fSelected ==> pindexSelected < i && Free(sorted, mapSelectedBlocks, pindexSelected)
      invariant fSelected ==> hashBest == SelHash(mapBlockIndex, sorted[pindexSelected], nStakeModifierPrev, h)
      invariant fSelected ==> forall j :: 0 <= j < i && Free(sorted, mapSelectedBlocks, j) ==>
                  NotBetter(sorted, mapBlockIndex, nStakeModifierPrev, h, pindexSelected, j)
      invariant fSelected ==> first <= pindexSelected && Free(sorted, mapSelectedBlocks, first)
      invariant fSelected ==> forall j :: 0 <= j < i && Free(sorted, mapSelectedBlocks, j) ==>
                  first <= j && (j == first || sorted[j].nTime <= nSelectionIntervalStop)
    {
      var pindex := mapBlockIndex[sorted[i].hash];
      assert Free(sorted, mapSelectedBlocks, i) <==> pindex.hash !in mapSelectedBlocks;
      if fSelected && pindex.nTime > nSelectionIntervalStop {
        break;
      }
      if pindex.hash !in mapSelectedBlocks {
        var hashSelection := SelHash(mapBlockIndex, sorted[i], nStakeModifierPrev, h);
        if fSelected && hashSelection < hashBest {
          hashBest, pindexSelected := hashSelection, i;
        } else if !fSelected {
          fSelected, hashBest, pindexSelected, first := true, hashSelection, i, i;
        }
      }
      i := i + 1;
    }
    if fSelected {
      SelectedIs(sorted, mapBlockIndex, mapSelectedBlocks, nSelectionIntervalStop, nStakeModifierPrev, h, pindexSelected, first, i);
    }
  }

  /** From what the loop knows when it ends at position i. */
  lemma SelectedIs(sorted: seq<Item>, mapBlockIndex: map<Hash, StakeBlock>, selected: map<Hash, StakeBlock>,
                   stop: int, modifier: nat, h: SelectionHash, k: nat, first: nat, i: nat)
    requires CandidatesOk(sorted, mapBlockIndex) && i <= |sorted| && k < i && Free(sorted, selected, k)
    requires i < |sorted| ==> sorted[i].nTime > stop
    requires forall j :: 0 <= j < i && Free(sorted, selected, j) ==> NotBetter(sorted, mapBlockIndex, modifier, h, k, j)
    requires first <= k && Free(sorted, selected, first)
    requires forall j :: 0 <= j < i && Free(sorted, selected, j) ==> first <= j && (j == first || sorted[j].nTime <= stop)
    ensures Chosen(sorted, mapBlockIndex, selected, stop, modifier, h, k)
  {
    hide NotBetter;
    forall j | i <= j < |sorted| ensures sorted[j].nTime > stop {
      assert i == j || Earlier(sorted[i], sorted[j]);
    }
    if sorted[first].nTime > stop {
      forall j | first < j < |sorted| ensures sorted[j].nTime > stop {
        assert Earlier(sorted[first], sorted[j]);
      }
    } else {
      assert Free(sorted, selected, first) && sorted[first].nTime <= stop;
    }
  }

  /** The choice k against any unselected candidate i up to the stop time: proof-of-stake hashes
      count as divided by 2^32; of equals the earlier one is chosen. */
  lemma ChosenInNumbers(sorted: seq<Item>, mapBlockIndex: map<Hash, StakeBlock>, selected: map<Hash, StakeBlock>,
                        stop: int, modifier: nat, h: SelectionHash, k: nat, i: nat)
    requires CandidatesOk(sorted, mapBlockIndex) && Chosen(sorted, mapBlockIndex, selected, stop, modifier, h, k)
    requires i < |sorted| && sorted[i].hash !in selected && sorted[i].nTime <= stop
    ensures k < |sorted| && sorted[k].hash !in selected && sorted[k].nTime <= stop
    ensures
      var a, b := mapBlockIndex[sorted[k].hash], mapBlockIndex[sorted[i].hash];
      var x, y := h(a.hashProof, modifier), h(b.hashProof, modifier);
      && (a.fProofOfStake && b.fProofOfStake ==> x / 0x1_0000_0000 <= y / 0x1_0000_0000)
      && (!a.fProofOfStake && !b.fProofOfStake ==> x <= y)
      && (!a.fProofOfStake && b.fProofOfStake ==> x <= y / 0x1_0000_0000)
      && (a.fProofOfStake && !b.fProofOfStake ==> x / 0x1_0000_0000 <= y)
      && (i < k && a.fProofOfStake == b.fProofOfStake ==> x < y)
  {
    assert Free(sorted, selected, i);
    assert NotBetter(sorted, mapBlockIndex, modifier, h, k, i);
    if i < k && mapBlockIndex[sorted[k].hash].fProofOfStake && mapBlockIndex[sorted[i].hash].fProofOfStake {
      QuotientLess(h(mapBlockIndex[sorted[k].hash].hashProof, modifier), h(mapBlockIndex[sorted[i].hash].hashProof, modifier));
    }
  }

  lemma QuotientLess(x: nat, y: nat)
    requires x / 0x1_0000_0000 < y / 0x1_0000_0000
    ensures x < y
  {
  }

  /** Proof of stake is favoured: a candidate of that kind up to the stop time is not passed over
      for a proof-of-work block unless that one hashes below 2^224. */
  lemma StakeFavoured(sorted: seq<Item>, mapBlockIndex: map<Hash, StakeBlock>, selected: map<Hash, StakeBlock>,
                      stop: int, modifier: nat, h: SelectionHash, k: nat, i: nat)
    requires CandidatesOk(sorted, mapBlockIndex) && Chosen(sorted, mapBlockIndex, selected, stop, modifier, h, k)
    requires i < |sorted| && sorted[i].hash !in selected && sorted[i].nTime <= stop
    requires mapBlockIndex[sorted[i].hash].fProofOfStake
    requires h(mapBlockIndex[sorted[i].hash].hashProof, modifier) < Pow(2, 256)
    ensures k < |sorted|
    ensures mapBlockIndex[sorted[k].hash].fProofOfStake || h(mapBlockIndex[sorted[k].hash].hashProof, modifier) < Pow(2, 224)
  {
    hide Chosen;
    ChosenInNumbers(sorted, mapBlockIndex, selected, stop, modifier, h, k, i);
    ShiftedBelow(h(mapBlockIndex[sorted[i].hash].hashProof, modifier));
  }

  lemma ShiftedBelow(y: nat)
    requires y < Pow(2, 256)
    ensures y / 0x1_0000_0000 < Pow(2, 224)
  {
    Pow32();
    PowSum(2, 224, 32);
    hide Pow;
    var q := y / 0x1_0000_0000;
    assert q * 0x1_0000_0000 <= y;
    MulLess(q, Pow(2, 224), 0x1_0000_0000);
  }

  lemma Pow32()
    ensures Pow(2, 32) == 0x1_0000_0000
  {
    PowSum(2, 16, 16);
    PowSum(2, 8, 8);
    assert Pow(2, 8) == 256;
    hide Pow;
  }

  // ---------------------------------------------------------------- bits

  /** m with bit r set if `bit` is: m | (bit << r). */
  function SetBit(m: nat, r: nat, bit: nat): nat {
    PowUp(2, 0, r);
    if bit == 1 && m / Pow(2, r) % 2 == 0 then m + Pow(2, r) else m
  }

  function BitAt(m: nat, r: nat): nat {
    PowUp(2, 0, r);
    m / Pow(2, r) % 2
  }

  lemma NewBit(m: nat, r: nat, bit: nat)
    requires m < Pow(2, r) && bit < 2
    ensures SetBit(m, r, bit) == m + bit * Pow(2, r) < Pow(2, r + 1) && BitAt(SetBit(m, r, bit), r) == bit
  {
    DivMod(0, Pow(2, r), m);
    DivMod(1, Pow(2, r), m);
  }

  lemma OldBit(m: nat, r: nat, bit: nat, q: nat)
    requires m < Pow(2, r) && bit < 2 && q < r
    ensures BitAt(SetBit(m, r, bit), q) == BitAt(m, q)
  {
    NewBit(m, r, bit);
    if bit == 1 {
      PowSum(2, q + 1, r - q - 1);
      PowUp(2, 0, q);
      ShiftBit(m, Pow(2, q), Pow(2, r - q - 1));
    }
  }

  /** Adding an even multiple of p does not change the bit that p selects. */
  lemma ShiftBit(m: nat, p: nat, c: nat)
    requires p > 0
    ensures (m + p * 2 * c) / p % 2 == m / p % 2
  {
    var q := m / p;
    assert m == q * p + m % p;
    assert m + p * 2 * c == (q + 2 * c) * p + m % p by {
      assert p * 2 * c == 2 * c * p;
    }
    DivMod(q + 2 * c, p, m % p);
  }

  // ---------------------------------------------------------------- all rounds

  /** The blocks picked so far, by hash. */
  ghost function PickedMap(sorted: seq<Item>, mapBlockIndex: map<Hash, StakeBlock>, picks: seq<nat>): map<Hash, StakeBlock>
    requires CandidatesOk(sorted, mapBlockIndex) && forall r :: 0 <= r < |picks| ==> picks[r] < |sorted|
  {
    if picks == [] then map[]
    else
      var item := sorted[picks[|picks| - 1]];
      PickedMap(sorted, mapBlockIndex, picks[..|picks| - 1])[item.hash := mapBlockIndex[item.hash]]
  }

  /** Each round's pick is its choice among those that earlier rounds left, up to a stop time
      that moves on by the round's section. */
  ghost predicate Rounds(sorted: seq<Item>, mapBlockIndex: map<Hash, StakeBlock>, start: int, nModifierInterval: nat,
                         modifier: nat, h: SelectionHash, picks: seq<nat>)
    requires CandidatesOk(sorted, mapBlockIndex)
  {
    picks == [] ||
    (var p := picks[..|picks| - 1];
     && Rounds(sorted, mapBlockIndex, start, nModifierInterval, modifier, h, p)
     && |picks| <= 64 && (forall r :: 0 <= r < |picks| ==> picks[r] < |sorted|)
     && Chosen(sorted, mapBlockIndex, PickedMap(sorted, mapBlockIndex, p),
               start + Sections(nModifierInterval, |picks|), modifier, h, picks[|picks| - 1]))
  }

  /** Bit r is the entropy bit of round r's block, and there are no further bits. */
  ghost predicate BitsOf(m: nat, sorted: seq<Item>, mapBlockIndex: map<Hash, StakeBlock>, picks: seq<nat>)
    requires CandidatesOk(sorted, mapBlockIndex) && forall r :: 0 <= r < |picks| ==> picks[r] < |sorted|
  {
    && m < Pow(2, |picks|)
    && forall r :: 0 <= r < |picks| ==> BitAt(m, r) == mapBlockIndex[sorted[picks[r]].hash].entropyBit
  }

  lemma BitsMore(m: nat, sorted: seq<Item>, mapBlockIndex: map<Hash, StakeBlock>, picks: seq<nat>, k: nat)
    requires CandidatesOk(sorted, mapBlockIndex) && (forall r :: 0 <= r < |picks| ==> picks[r] < |sorted|) && k < |sorted|
    requires BitsOf(m, sorted, mapBlockIndex, picks)
    ensures BitsOf(SetBit(m, |picks|, mapBlockIndex[sorted[k].hash].entropyBit), sorted, mapBlockIndex, picks + [k])
  {
    hide SetBit, BitAt;
    var bit := mapBlockIndex[sorted[k].hash].entropyBit;
    NewBit(m, |picks|, bit);
    forall r | 0 <= r < |picks|
      ensures BitAt(SetBit(m, |picks|, bit), r) == mapBlockIndex[sorted[picks[r]].hash].entropyBit
    {
      OldBit(m, |picks|, bit, r);
    }
  }

  lemma {:induction false} PickedKeys(sorted: seq<Item>, mapBlockIndex: map<Hash, StakeBlock>, picks: seq<nat>)
    requires CandidatesOk(sorted, mapBlockIndex) && forall r :: 0 <= r < |picks| ==> picks[r] < |sorted|
    ensures |PickedMap(sorted, mapBlockIndex, picks)| <= |picks|
    ensures forall r :: 0 <= r < |picks| ==> sorted[picks[r]].hash in PickedMap(sorted, mapBlockIndex, picks)
  {
    if picks != [] {
      var p := picks[..|picks| - 1];
      PickedKeys(sorted, mapBlockIndex, p);
      var m := PickedMap(sorted, mapBlockIndex, p);
      var h := sorted[picks[|picks| - 1]].hash;
      assert m[h := mapBlockIndex[h]].Keys == m.Keys + {h};
      assert |m.Keys + {h}| <= |m.Keys| + 1;
    }
  }

  /** The picks of the rounds are pairwise distinct. */
  lemma {:induction false} PicksDistinct(sorted: seq<Item>, mapBlockIndex: map<Hash, StakeBlock>, start: int, nModifierInterval: nat,
                                         modifier: nat, h: SelectionHash, picks: seq<nat>)
    requires CandidatesOk(sorted, mapBlockIndex) && Rounds(sorted, mapBlockIndex, start, nModifierInterval, modifier, h, picks)
    ensures (forall r :: 0 <= r < |picks| ==> picks[r] < |sorted|) && forall q, r :: 0 <= q < r < |picks| ==> picks[q] != picks[r]
  {
    hide CandidatesOk, NotBetter, PickedMap, Sections;
    if picks != [] {
      var p := picks[..|picks| - 1];
      PicksDistinct(sorted, mapBlockIndex, start, nModifierInterval, modifier, h, p);
      PickedKeys(sorted, mapBlockIndex, p);
      var k := picks[|picks| - 1];
      assert Free(sorted, PickedMap(sorted, mapBlockIndex, p), k);
      assert forall q :: 0 <= q < |p| ==> p[q] == picks[q];
      hide Chosen, Rounds;
    }
  }

  lemma {:induction false} AllPicked(sorted: seq<Item>, selected: map<Hash, StakeBlock>)
    requires forall i, j :: 0 <= i < j < |sorted| ==> sorted[i].hash != sorted[j].hash
    requires forall i :: 0 <= i < |sorted| ==> sorted[i].hash in selected
    ensures |sorted| <= |selected|
    decreases |sorted|
  {
    if sorted != [] {
      var l := sorted[|sorted| - 1].hash;
      AllPicked(sorted[..|sorted| - 1], selected - {l});
      assert (selected - {l}).Keys == selected.Keys - {l};
      assert |selected - {l}| == |(selected - {l}).Keys|;
    }
  }

  /** With fewer picks than candidates there is one to pick: the "unable to select" exit is
      never taken. */
  lemma SomeFree(sorted: seq<Item>, mapBlockIndex: map<Hash, StakeBlock>, picks: seq<nat>)
    requires CandidatesOk(sorted, mapBlockIndex) && (forall r :: 0 <= r < |picks| ==> picks[r] < |sorted|) && |picks| < |sorted|
    ensures exists i :: Free(sorted, PickedMap(sorted, mapBlockIndex, picks), i)
  {
    hide PickedMap;
    var m := PickedMap(sorted, mapBlockIndex, picks);
    PickedKeys(sorted, mapBlockIndex, picks);
    if forall i :: 0 <= i < |sorted| ==> sorted[i].hash in m {
      AllPicked(sorted, m);
    } else {
      var i :| 0 <= i < |sorted| && sorted[i].hash !in m;
      assert Free(sorted, m, i);
    }
  }

  method RunRounds(sorted: seq<Item>, mapBlockIndex: map<Hash, StakeBlock>, start: int, nModifierInterval: nat,
                   nStakeModifier: nat, h: SelectionHash)
    returns (ok: bool, nStakeModifierNew: nat, ghost picks: seq<nat>)
    requires CandidatesOk(sorted, mapBlockIndex)
    ensures ok && |picks| == (if |sorted| < 64 then |sorted| else 64)
    ensures Rounds(sorted, mapBlockIndex, start, nModifierInterval, nStakeModifier, h, picks)
    ensures (forall r :: 0 <= r < |picks| ==> picks[r] < |sorted|) && BitsOf(nStakeModifierNew, sorted, mapBlockIndex, picks)
  {
    hide Chosen, Sections, SetBit, CandidatesOk;
    nStakeModifierNew, picks := 0, [];
    var nSelectionIntervalStop := start;
    var mapSelectedBlocks: map<Hash, StakeBlock> := map[];
    NoSections(nModifierInterval);
    for nRound := 0 to if |sorted| < 64 then |sorted| else 64
      invariant |picks| == nRound && forall r :: 0 <= r < |picks| ==> picks[r] < |sorted|
      invariant Rounds(sorted, mapBlockIndex, start, nModifierInterval, nStakeModifier, h, picks)
      invariant mapSelectedBlocks == PickedMap(sorted, mapBlockIndex, picks)
      invariant nSelectionIntervalStop == start + Sections(nModifierInterval, nRound)
      invariant BitsOf(nStakeModifierNew, sorted, mapBlockIndex, picks)
    {
      NextSection(nModifierInterval, nRound);
      nSelectionIntervalStop := nSelectionIntervalStop + Section(nModifierInterval, nRound);
      SomeFree(sorted, mapBlockIndex, picks);
      var pindex;
      ok, pindex := SelectBlockFromCandidates(sorted, mapBlockIndex, mapSelectedBlocks, nSelectionIntervalStop, nStakeModifier, h);
      assert ok;
      ChosenIsCandidate(sorted, mapBlockIndex, mapSelectedBlocks, nSelectionIntervalStop, nStakeModifier, h, pindex);
      BitsMore(nStakeModifierNew, sorted, mapBlockIndex, picks, pindex);
      nStakeModifierNew := SetBit(nStakeModifierNew, nRound, mapBlockIndex[sorted[pindex].hash].entropyBit);
      mapSelectedBlocks := mapSelectedBlocks[sorted[pindex].hash := mapBlockIndex[sorted[pindex].hash]];
      picks := picks + [pindex];
      assert picks[..|picks| - 1] == picks[..nRound];
    }
    ok := true;
  }

  lemma NoSections(nModifierInterval: nat)
    ensures Sections(nModifierInterval, 0) == 0
  {
  }

  lemma NextSection(nModifierInterval: nat, n: nat)
    requires n < 64
    ensures Sections(nModifierInterval, n + 1) == Sections(nModifierInterval, n) + Section(nModifierInterval, n)
  {
  }

  lemma ChosenIsCandidate(sorted: seq<Item>, mapBlockIndex: map<Hash, StakeBlock>, selected: map<Hash, StakeBlock>,
                          stop: int, modifier: nat, h: SelectionHash, k: nat)
    requires CandidatesOk(sorted, mapBlockIndex) && Chosen(sorted, mapBlockIndex, selected, stop, modifier, h, k)
    ensures k < |sorted| && sorted[k].hash in mapBlockIndex && mapBlockIndex[sorted[k].hash].entropyBit < 2
  {
  }

  /** Whether the tip is in a later modifier interval than the last generated modifier. */
  predicate NewInterval(chain: seq<StakeBlock>, at: nat, nModifierInterval: nat)
    requires at < |chain| && nModifierInterval > 0
  {
    chain[at].nTime / nModifierInterval < chain[|chain| - 1].nTime / nModifierInterval
  }

  /** A modifier is due exactly when a multiple of the interval has passed since the last one was
      generated. */
  lemma NewIntervalIff(chain: seq<StakeBlock>, at: nat, nModifierInterval: nat)
    requires at < |chain| && nModifierInterval > 0
    ensures NewInterval(chain, at, nModifierInterval) <==>
      exists m: nat :: Passed(chain[at].nTime, m * nModifierInterval, chain[|chain| - 1].nTime)
  {
    hide Passed;
    var a, b, q := chain[at].nTime, chain[|chain| - 1].nTime, nModifierInterval;
    if a / q < b / q {
      MultiplePassed(a, b, q);
    }
    if m: nat :| Passed(a, m * q, b) {
      QuotientsApart(a, b, q, m);
    }
  }

  lemma MultiplePassed(a: nat, b: nat, q: nat)
    requires q > 0 && a / q < b / q
    ensures Passed(a, b / q * q, b)
  {
    var x, y := a / q, b / q;
    assert a == x * q + a % q && b == y * q + b % q;
    MulUp(x + 1, y, q);
    assert (x + 1) * q == x * q + q;
  }

  lemma QuotientsApart(a: nat, b: nat, q: nat, m: nat)
    requires q > 0 && Passed(a, m * q, b)
    ensures a / q < b / q
  {
    var x, y := a / q, b / q;
    assert a == x * q + a % q && b == y * q + b % q;
    assert (y + 1) * q == y * q + q;
    MulLess(x, m, q);
    MulLess(m, y + 1, q);
  }

  /** The time t lies after a and has come by b. */
  predicate Passed(a: nat, t: nat, b: nat) {
    a < t <= b
  }

  /** chain is the branch up to pindexPrev; `at` is where the current modifier was generated,
      `first` the first candidate. */
  method ComputeNextStakeModifier(chain: seq<StakeBlock>, mapBlockIndex: map<Hash, StakeBlock>, nModifierInterval: nat, h: SelectionHash)
    returns (ok: bool, nStakeModifier: nat, fGeneratedStakeModifier: bool,
             ghost at: nat, ghost first: nat, ghost sorted: seq<Item>, ghost picks: seq<nat>)
    requires ChainOk(chain, mapBlockIndex) && nModifierInterval > 0
    ensures chain == [] ==> ok && fGeneratedStakeModifier && nStakeModifier == 0
    ensures chain != [] ==> (ok <==> exists i :: 0 <= i < |chain| && chain[i].fGenerated)
    ensures ok && chain != [] ==>
      && at < |chain| && chain[at].fGenerated && (forall i :: at < i < |chain| ==> !chain[i].fGenerated)
      && (fGeneratedStakeModifier <==> NewInterval(chain, at, nModifierInterval))
      && (!fGeneratedStakeModifier ==> nStakeModifier == chain[at].nStakeModifier)
    ensures ok && chain != [] && fGeneratedStakeModifier ==>
      var start := chain[|chain| - 1].nTime / nModifierInterval * nModifierInterval - Sections(nModifierInterval, 64);
      && first <= |chain| && (forall i :: first <= i < |chain| ==> chain[i].nTime >= start)
      && (first > 0 ==> chain[first - 1].nTime < start)
      && CandidatesOk(sorted, mapBlockIndex) && multiset(sorted) == multiset(ItemsOf(chain[first..]))
      && |picks| == (if |sorted| < 64 then |sorted| else 64)
      && Rounds(sorted, mapBlockIndex, start, nModifierInterval, chain[at].nStakeModifier, h, picks)
      && (forall r :: 0 <= r < |picks| ==> picks[r] < |sorted|)
      && BitsOf(nStakeModifier, sorted, mapBlockIndex, picks)
  {
    hide Rounds, BitsOf, Sections, CandidatesOk, ItemsOf, ChainOk;
    nStakeModifier, fGeneratedStakeModifier := 0, false;
    at, first, sorted, picks := 0, 0, [], [];
    if chain == [] {
      return true, 0, true, at, first, sorted, picks;
    }
    var last: nat;
    ok, last := GetLastStakeModifier(chain);
    if !ok {
      return;
    }
    at := last;
    nStakeModifier := chain[last].nStakeModifier;
    var prevTime := chain[|chain| - 1].nTime;
    if chain[last].nTime / nModifierInterval >= prevTime / nModifierInterval {
      return;
    }
    var nSelectionInterval := GetSelectionInterval(nModifierInterval);
    var start := prevTime / nModifierInterval * nModifierInterval - nSelectionInterval;
    var items, from := WalkBack(chain, start);
    first := from;
    var vSortedByTimestamp := Sort(items);
    sorted := vSortedByTimestamp;
    SortedCandidates(chain, from, mapBlockIndex, vSortedByTimestamp);
    ok, nStakeModifier, picks := RunRounds(vSortedByTimestamp, mapBlockIndex, start, nModifierInterval, nStakeModifier, h);
    fGeneratedStakeModifier := true;
  }
}
