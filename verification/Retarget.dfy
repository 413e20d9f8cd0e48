/** The next target (src/main.cpp:1392-1435): an exponential move toward the target spacing
    every block, held in range and cut to the compact form. */
module Retarget {
  import opened Numerals
  import opened Compact

  const TARGET_SPACING: int := 90
  const TARGET_TIMESPAN: int := 25 * 60
  const INTERVAL: int := TARGET_TIMESPAN / TARGET_SPACING

  /** What retargeting reads of a block index entry. */
  datatype StoredTarget = StoredTarget(fProofOfStake: bool, nTime: nat, nBits: nat)

  // ---------------------------------------------------------------- the last block of a kind

  /** The last position up to k whose block is of the kind, or the root. */
  function LastOfKind(chain: seq<StoredTarget>, k: nat, fProofOfStake: bool): (i: nat)
    requires k < |chain|
    ensures i <= k && (i > 0 ==> chain[i].fProofOfStake == fProofOfStake)
    ensures forall j :: i < j <= k ==> chain[j].fProofOfStake != fProofOfStake
  {
    if k == 0 || chain[k].fProofOfStake == fProofOfStake then k else LastOfKind(chain, k - 1, fProofOfStake)
  }

  method GetLastBlockIndex(chain: seq<StoredTarget>, pindex: nat, fProofOfStake: bool) returns (i: nat)
    requires pindex < |chain|
    ensures i == LastOfKind(chain, pindex, fProofOfStake)
  {
    i := pindex;
    while i > 0 && chain[i].fProofOfStake != fProofOfStake
      invariant i <= pindex && LastOfKind(chain, i, fProofOfStake) == LastOfKind(chain, pindex, fProofOfStake)
    {
      i := i - 1;
    }
  }

  // ---------------------------------------------------------------- the new target

  /** Division of big numbers drops the fraction. */
  function TruncatedQuotient(a: int, b: int): int
    requires b > 0
  {
    if a >= 0 then a / b else -(-a / b)
  }

  function Scaled(target: int, spacing: int): int {
    TruncatedQuotient(target * ((INTERVAL - 1) * TARGET_SPACING + spacing + spacing), (INTERVAL + 1) * TARGET_SPACING)
  }

  /** The target for the next block, before it is put into compact form. */
  function Moved(target: int, nActualSpacing: int, limit: nat): int {
    var n := Scaled(target, if nActualSpacing < 0 then TARGET_SPACING else nActualSpacing);
    if n <= 0 || n > limit then limit else n
  }

  function NextBits(nBits: nat, nActualSpacing: int, limit: nat): nat {
    CompactOf(Moved(FromCompact(nBits), nActualSpacing, limit))
  }

  /** chain is the branch up to pindexLast, the genesis block first. For proof of stake the limit
      is read off the height of pindexLast before it is tested for null, so there must be one. */
  method GetNextTargetRequired(chain: seq<StoredTarget>, fProofOfStake: bool, limit: nat) returns (nBits: nat)
    requires fProofOfStake ==> chain != []
    requires forall i :: 0 <= i < |chain| ==> chain[i].nBits < 0x1_0000_0000
    ensures nBits ==
      if chain == [] then CompactOf(limit)
      else
        var p := LastOfKind(chain, |chain| - 1, fProofOfStake);
        if p == 0 then CompactOf(limit)
        else
          var q := LastOfKind(chain, p - 1, fProofOfStake);
          if q == 0 then CompactOf(limit)
          else NextBits(chain[p].nBits, chain[p].nTime - chain[q].nTime, limit)
  {
    hide CompactOf, FromCompact, LastOfKind;
    if chain == [] {
      nBits := GetCompact(limit);
      return;
    }
    var pindexPrev := GetLastBlockIndex(chain, |chain| - 1, fProofOfStake);
    if pindexPrev == 0 {
      nBits := GetCompact(limit);
      return;
    }
    var pindexPrevPrev := GetLastBlockIndex(chain, pindexPrev - 1, fProofOfStake);
    if pindexPrevPrev == 0 {
      nBits := GetCompact(limit);
      return;
    }
    var nActualSpacing := chain[pindexPrev].nTime - chain[pindexPrevPrev].nTime;
    if nActualSpacing < 0 {
      nActualSpacing := TARGET_SPACING;
    }
    var bnNew := SetCompact(chain[pindexPrev].nBits);
    bnNew := bnNew * ((INTERVAL - 1) * TARGET_SPACING + nActualSpacing + nActualSpacing);
    bnNew := TruncatedQuotient(bnNew, (INTERVAL + 1) * TARGET_SPACING);
    if bnNew <= 0 || bnNew > limit {
      bnNew := limit;
    }
    nBits := GetCompact(bnNew);
  }

  // ---------------------------------------------------------------- what it guarantees

  /** The scaling in numbers: fifteen parts of ninety seconds and twice the spacing over
      seventeen parts; at ninety seconds nothing changes. */
  lemma ScaledInNumbers(target: nat, spacing: nat)
    ensures Scaled(target, spacing) == target * (1350 + 2 * spacing) / 1530
    ensures Scaled(target, 90) == target
  {
    DivMod(target, 1530, 0);
  }

  /** The chains' limits, ~0 >> 16 and ~0 >> 20 in 256 bits, have few enough bytes. */
  lemma LimitsFit(limit: nat)
    requires 0 < limit < Pow(256, 30)
    ensures |Magnitude(limit)| < 256
  {
    SizeBounds(limit);
    var n := |Magnitude(limit)|;
    if n >= 32 {
      PowUp(256, 30, n - 2);
    }
  }

  /** Every result, whatever the old bits and the spacing, names a target in (0, limit]. */
  lemma InRange(nBits: nat, spacing: int, limit: nat)
    requires limit > 0 && |Magnitude(limit)| < 256
    ensures 0 < FromCompact(NextBits(nBits, spacing, limit)) <= limit
  {
    hide Magnitude, CompactOf, Truncated, FromCompact, Scaled;
    var n := Moved(FromCompact(nBits), spacing, limit);
    TruncatedMonotone(n, limit);
    CompactTruncates(n);
    TruncationError(n);
  }

  /** Bits that are the compact form of the target they name. */
  ghost predicate Canonical(nBits: nat, target: nat) {
    FromCompact(nBits) == target && CompactOf(target) == nBits
  }

  /** At the target spacing, or a negative one, the bits do not change. */
  lemma UnchangedOnTarget(nBits: nat, target: nat, spacing: int, limit: nat)
    requires Canonical(nBits, target) && 0 < target <= limit && (spacing == TARGET_SPACING || spacing < 0)
    ensures NextBits(nBits, spacing, limit) == nBits
  {
    hide CompactOf, FromCompact;
    assert INTERVAL == 16;
    DivMod(target, 1530, 0);
  }

  lemma ScaledIs(target: nat, spacing: nat)
    ensures Scaled(target, spacing) == target * (1350 + 2 * spacing) / 1530
  {
    assert INTERVAL == 16;
    assert target * (1350 + 2 * spacing) >= 0;
  }

  /** In one step the target never shrinks below 15/17, up to the integer division. */
  lemma ShrinksSlowly(target: nat, spacing: int, limit: nat)
    requires 0 < target <= limit
    ensures Moved(target, spacing, limit) >= target * 15 / 17 || Moved(target, spacing, limit) == limit
  {
    var s := if spacing < 0 then TARGET_SPACING else spacing;
    ScaledIs(target, s);
    hide Scaled;
    assert target * (1350 + 2 * s) == target * 1350 + target * s * 2;
    assert target * s >= 0;
    FractionUp(target * 1350, target * (1350 + 2 * s), 1530);
    assert target * 15 / 17 == target * 1350 / 1530;
  }

  lemma FractionUp(x: nat, y: nat, d: nat)
    requires d > 0 && x <= y
    ensures x / d <= y / d
  {
    assert x / d * d < (y / d + 1) * d by {
      assert x == x / d * d + x % d && y == y / d * d + y % d;
      assert (y / d + 1) * d == y / d * d + d;
    }
    MulLess(x / d, y / d + 1, d);
  }

  /** A target of at least 2 is never scaled to 0. */
  lemma ScaledUp(target: nat, s: nat, t: nat)
    requires s <= t
    ensures Scaled(target, s) <= Scaled(target, t) && (target >= 2 ==> Scaled(target, s) > 0)
  {
    ScaledIs(target, s);
    ScaledIs(target, t);
    hide Scaled;
    MulUp(1350 + 2 * s, 1350 + 2 * t, target);
    FractionUp(target * (1350 + 2 * s), target * (1350 + 2 * t), 1530);
    if target >= 2 {
      MulUp(2, target, 1350 + 2 * s);
      FractionUp(2 * (1350 + 2 * s), target * (1350 + 2 * s), 1530);
    }
  }

  /** A longer spacing never gives a lower target. */
  lemma MonotoneFrom2(nBits: nat, s: nat, t: nat, limit: nat)
    requires 2 <= FromCompact(nBits) && s <= t && |Magnitude(limit)| < 256 && limit > 0
    ensures FromCompact(NextBits(nBits, s, limit)) <= FromCompact(NextBits(nBits, t, limit))
  {
    hide Magnitude, CompactOf, Truncated, FromCompact, Scaled;
    ScaledUp(FromCompact(nBits), s, t);
    var m, n := Moved(FromCompact(nBits), s, limit), Moved(FromCompact(nBits), t, limit);
    TruncatedMonotone(m, n);
    TruncatedMonotone(m, limit);
    TruncatedMonotone(n, limit);
    CompactTruncates(m);
    CompactTruncates(n);
  }

  ghost predicate Monotone(nBits: nat, limit: nat) {
    forall s: nat, t: nat :: s <= t ==> FromCompact(NextBits(nBits, s, limit)) <= FromCompact(NextBits(nBits, t, limit))
  }

  /** The target 1 is scaled to 0 by a short spacing, and then jumps to the limit; every
      other canonical target in range moves monotonely with the spacing. */
  lemma MonotoneIff(nBits: nat, target: nat, limit: nat)
    requires Canonical(nBits, target) && 0 < target <= limit && limit >= 2 && |Magnitude(limit)| < 256
    ensures Monotone(nBits, limit) <==> target != 1
  {
    hide Magnitude, CompactOf, Truncated, FromCompact, Scaled;
    if target == 1 {
      ScaledIs(1, 0);
      ScaledIs(1, 90);
      assert Scaled(1, 0) == 0 && Scaled(1, 90) == 1;
      assert Moved(1, 0, limit) == limit && Moved(1, 90, limit) == 1;
      TruncatedMonotone(1, limit);
      CompactTruncates(limit);
      CompactTruncates(1);
      TruncationError(limit);
      TruncationError(1);
      assert Truncated(limit) > 1;
      var s: nat, t: nat := 0, 90;
      assert s <= t && FromCompact(NextBits(nBits, s, limit)) > FromCompact(NextBits(nBits, t, limit));
    } else {
      forall s: nat, t: nat | s <= t ensures FromCompact(NextBits(nBits, s, limit)) <= FromCompact(NextBits(nBits, t, limit)) {
        MonotoneFrom2(nBits, s, t, limit);
      }
    }
  }
}
