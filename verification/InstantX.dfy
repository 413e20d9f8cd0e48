/** Transaction locks by primenode votes (src/instantx.cpp, src/instantx.h). Ranks,
    signatures, the clock and the memory pool's decision are parameters. */
module InstantX {
  import opened Collections
  import opened Transactions

  const INSTANTX_SIGNATURES_REQUIRED: int := 10
  const INSTANTX_SIGNATURES_TOTAL: int := 15
  const TWO_256: int := 0x1_0000_0000_0000_0000_0000_0000_0000_0000_0000_0000_0000_0000_0000_0000_0000_0000

  datatype CConsensusVote = CConsensusVote(vinPrimenode: OutPoint, txHash: Hash, nBlockHeight: int) {
    /** The sum of the three parts, in 256 bits. */
    function GetHash(): Hash {
      (vinPrimenode.hash + vinPrimenode.n + txHash) % TWO_256
    }
  }

  datatype CTransactionLock = CTransactionLock(
    nBlockHeight: int, txHash: Hash, vecConsensusVotes: seq<CConsensusVote>, nExpiration: int, nTimeout: int)

  // ---------------------------------------------------------------- counting

  function Matching(votes: seq<CConsensusVote>, nBlockHeight: int): nat {
    if votes == [] then 0
    else Matching(votes[..|votes| - 1], nBlockHeight) + (if votes[|votes| - 1].nBlockHeight == nBlockHeight then 1 else 0)
  }

  /** Votes for the lock's own height count; without a height there is no count. */
  method CountSignatures(lock: CTransactionLock) returns (n: int)
    ensures n == Count(lock)
  {
    if lock.nBlockHeight == 0 {
      return -1;
    }
    n := 0;
    var votes := lock.vecConsensusVotes;
    for i := 0 to |votes|
      invariant n == Matching(votes[..i], lock.nBlockHeight)
    {
      assert votes[..i + 1][..i] == votes[..i];
      if votes[i].nBlockHeight == lock.nBlockHeight {
        n := n + 1;
      }
    }
    assert votes[..|votes|] == votes;
  }

  function Count(lock: CTransactionLock): int {
    if lock.nBlockHeight == 0 then -1 else Matching(lock.vecConsensusVotes, lock.nBlockHeight)
  }

  predicate CompleteLock(lock: CTransactionLock) {
    Count(lock) >= INSTANTX_SIGNATURES_REQUIRED
  }

  // ---------------------------------------------------------------- what every run keeps

  datatype State = State(
    mapTxLockReq: map<Hash, Tx>,
    mapTxLockReqRejected: map<Hash, Tx>,
    mapTxLockVote: map<Hash, CConsensusVote>,
    mapTxLocks: map<Hash, CTransactionLock>,
    mapLockedInputs: map<OutPoint, Hash>)

  type Rank = (OutPoint, int) -> int

  predicate InTop(rank: Rank, v: CConsensusVote) {
    rank(v.vinPrimenode, v.nBlockHeight) != -1 && rank(v.vinPrimenode, v.nBlockHeight) <= INSTANTX_SIGNATURES_TOTAL
  }

  /** A lock's votes are for its transaction, from top primenodes, known by their hashes. */
  ghost predicate LockOk(mapTxLockVote: map<Hash, CConsensusVote>, h: Hash, lock: CTransactionLock, rank: Rank) {
    && lock.txHash == h
    && forall i :: 0 <= i < |lock.vecConsensusVotes| ==>
         var v := lock.vecConsensusVotes[i];
         v.txHash == h && InTop(rank, v) && v.GetHash() in mapTxLockVote
  }

  predicate IsVote(mapTxLocks: map<Hash, CTransactionLock>, h: Hash, i: int) {
    h in mapTxLocks && 0 <= i < |mapTxLocks[h].vecConsensusVotes|
  }

  function VoteHash(mapTxLocks: map<Hash, CTransactionLock>, h: Hash, i: int): Hash
    requires IsVote(mapTxLocks, h, i)
  {
    mapTxLocks[h].vecConsensusVotes[i].GetHash()
  }

  /** No two votes in any locks have the same hash. */
  ghost predicate VotesApart(mapTxLocks: map<Hash, CTransactionLock>) {
    forall g, i, h, j ::
      IsVote(mapTxLocks, g, i) && IsVote(mapTxLocks, h, j) && VoteHash(mapTxLocks, g, i) == VoteHash(mapTxLocks, h, j)
      ==> g == h && i == j
  }

  ghost predicate Consistent(s: State, rank: Rank) {
    && (forall h :: h in s.mapTxLocks ==> LockOk(s.mapTxLockVote, h, s.mapTxLocks[h], rank))
    && VotesApart(s.mapTxLocks)
  }

  // ---------------------------------------------------------------- quorums

  /** The primenodes whose votes count. */
  function Voters(votes: seq<CConsensusVote>, nBlockHeight: int): set<OutPoint> {
    set i | 0 <= i < |votes| && votes[i].nBlockHeight == nBlockHeight :: votes[i].vinPrimenode
  }

  predicate DistinctVoters(votes: seq<CConsensusVote>) {
    forall i, j :: 0 <= i < j < |votes| ==> votes[i].vinPrimenode != votes[j].vinPrimenode
  }

  /** No lock holds two votes from the same primenode. */
  lemma OneVoteEach(s: State, rank: Rank, h: Hash)
    requires Consistent(s, rank) && h in s.mapTxLocks
    ensures DistinctVoters(s.mapTxLocks[h].vecConsensusVotes)
  {
    var votes := s.mapTxLocks[h].vecConsensusVotes;
    assert LockOk(s.mapTxLockVote, h, s.mapTxLocks[h], rank);
    forall i, j | 0 <= i < j < |votes| ensures votes[i].vinPrimenode != votes[j].vinPrimenode {
      assert VoteHash(s.mapTxLocks, h, i) != VoteHash(s.mapTxLocks, h, j);
    }
  }

  lemma {:induction false} CountsVoters(votes: seq<CConsensusVote>, nBlockHeight: int)
    requires DistinctVoters(votes)
    ensures Matching(votes, nBlockHeight) == |Voters(votes, nBlockHeight)|
  {
    if votes != [] {
      var p, v := votes[..|votes| - 1], votes[|votes| - 1];
      CountsVoters(p, nBlockHeight);
      var more: set<OutPoint> := if v.nBlockHeight == nBlockHeight then {v.vinPrimenode} else {};
      assert Voters(votes, nBlockHeight) == Voters(p, nBlockHeight) + more;
      assert v.vinPrimenode !in Voters(p, nBlockHeight);
    }
  }

  /** A complete lock has at least ten different voters among the top fifteen at its height. */
  lemma CompleteHasQuorum(s: State, rank: Rank, h: Hash)
    requires Consistent(s, rank) && h in s.mapTxLocks && CompleteLock(s.mapTxLocks[h])
    ensures
      var lock := s.mapTxLocks[h];
      var voters := Voters(lock.vecConsensusVotes, lock.nBlockHeight);
      && |voters| >= 10
      && forall o :: o in voters ==> rank(o, lock.nBlockHeight) != -1 && rank(o, lock.nBlockHeight) <= 15
  {
    var lock := s.mapTxLocks[h];
    OneVoteEach(s, rank, h);
    CountsVoters(lock.vecConsensusVotes, lock.nBlockHeight);
    assert LockOk(s.mapTxLockVote, h, lock, rank);
  }

  /** Ranks at a height: 1, 2, ... each given once, or -1. */
  ghost predicate RanksOk(rank: Rank, nBlockHeight: int) {
    && (forall o :: rank(o, nBlockHeight) == -1 || rank(o, nBlockHeight) >= 1)
    && (forall o, p :: rank(o, nBlockHeight) == rank(p, nBlockHeight) != -1 ==> o == p)
  }

  lemma {:induction false} RankedFew(voters: set<OutPoint>, rank: Rank, nBlockHeight: int, top: nat)
    requires RanksOk(rank, nBlockHeight)
    requires forall o :: o in voters ==> 1 <= rank(o, nBlockHeight) <= top
    ensures |voters| <= top
    decreases top
  {
    if top == 0 {
      if voters != {} {
        var o := Pick(voters);
      }
    } else if exists o :: o in voters && rank(o, nBlockHeight) == top {
      var o :| o in voters && rank(o, nBlockHeight) == top;
      RankedFew(voters - {o}, rank, nBlockHeight, top - 1);
    } else {
      RankedFew(voters, rank, nBlockHeight, top - 1);
    }
  }

  /** Any two complete locks at the same height share at least five voters. */
  lemma QuorumsOverlap(s: State, rank: Rank, g: Hash, h: Hash)
    requires Consistent(s, rank) && g in s.mapTxLocks && h in s.mapTxLocks
    requires CompleteLock(s.mapTxLocks[g]) && CompleteLock(s.mapTxLocks[h])
    requires s.mapTxLocks[g].nBlockHeight == s.mapTxLocks[h].nBlockHeight && RanksOk(rank, s.mapTxLocks[g].nBlockHeight)
    ensures
      var a, b := s.mapTxLocks[g], s.mapTxLocks[h];
      |Voters(a.vecConsensusVotes, a.nBlockHeight) * Voters(b.vecConsensusVotes, b.nBlockHeight)| >= 5
  {
    hide Voters, Consistent, CompleteLock;
    CompleteHasQuorum(s, rank, g);
    CompleteHasQuorum(s, rank, h);
    var a, b := s.mapTxLocks[g], s.mapTxLocks[h];
    var p, q := Voters(a.vecConsensusVotes, a.nBlockHeight), Voters(b.vecConsensusVotes, b.nBlockHeight);
    RankedFew(p + q, rank, a.nBlockHeight, 15);
    assert |p + q| == |p| + |q| - |p * q|;
  }

  // ---------------------------------------------------------------- the steps keep it

  lemma VoteKept(s: State, rank: Rank, votes: map<Hash, CConsensusVote>)
    requires Consistent(s, rank) && forall x :: x in s.mapTxLockVote ==> x in votes
    ensures Consistent(s.(mapTxLockVote := votes), rank)
  {
    forall h | h in s.mapTxLocks ensures LockOk(votes, h, s.mapTxLocks[h], rank) {
      assert LockOk(s.mapTxLockVote, h, s.mapTxLocks[h], rank);
    }
  }

  /** A lock replaced by one with the same votes, or a new one without any. */
  lemma LockReplaced(s: State, rank: Rank, h: Hash, lock: CTransactionLock)
    requires Consistent(s, rank) && lock.txHash == h
    requires lock.vecConsensusVotes == if h in s.mapTxLocks then s.mapTxLocks[h].vecConsensusVotes else []
    ensures Consistent(s.(mapTxLocks := s.mapTxLocks[h := lock]), rank)
  {
    var locks := s.mapTxLocks[h := lock];
    forall g | g in locks ensures LockOk(s.mapTxLockVote, g, locks[g], rank) {
      assert g in s.mapTxLocks ==> LockOk(s.mapTxLockVote, g, s.mapTxLocks[g], rank);
    }
    forall g, i, k, j | IsVote(locks, g, i) && IsVote(locks, k, j) && VoteHash(locks, g, i) == VoteHash(locks, k, j)
      ensures g == k && i == j
    {
      assert IsVote(s.mapTxLocks, g, i) && IsVote(s.mapTxLocks, k, j);
      assert VoteHash(s.mapTxLocks, g, i) == VoteHash(s.mapTxLocks, k, j);
    }
  }

  /** A vote whose hash is not known yet joins its lock. */
  lemma VoteJoins(s: State, rank: Rank, v: CConsensusVote, votes: map<Hash, CConsensusVote>)
    requires Consistent(s, rank) && v.txHash in s.mapTxLocks && InTop(rank, v)
    requires v.GetHash() !in s.mapTxLockVote && v.GetHash() in votes && forall x :: x in s.mapTxLockVote ==> x in votes
    ensures
      var lock := s.mapTxLocks[v.txHash];
      Consistent(s.(mapTxLockVote := votes,
                    mapTxLocks := s.mapTxLocks[v.txHash := lock.(vecConsensusVotes := lock.vecConsensusVotes + [v])]), rank)
  {
    var h, lock := v.txHash, s.mapTxLocks[v.txHash];
    var locks := s.mapTxLocks[h := lock.(vecConsensusVotes := lock.vecConsensusVotes + [v])];
    forall g | g in locks ensures LockOk(votes, g, locks[g], rank) {
      assert LockOk(s.mapTxLockVote, g, s.mapTxLocks[g], rank);
    }
    forall g, i | IsVote(locks, g, i) && !(g == h && i == |lock.vecConsensusVotes|)
      ensures IsVote(s.mapTxLocks, g, i) && VoteHash(locks, g, i) == VoteHash(s.mapTxLocks, g, i) != v.GetHash()
    {
      assert LockOk(s.mapTxLockVote, g, s.mapTxLocks[g], rank);
    }
  }

  /** Hashes of a lock's votes. */
  function VoteHashes(votes: seq<CConsensusVote>): set<Hash> {
    set i | 0 <= i < |votes| :: votes[i].GetHash()
  }

  /** A lock goes, and with it the hashes of its votes or none. */
  lemma LockRemoved(s: State, rank: Rank, h: Hash, gone: set<Hash>)
    requires Consistent(s, rank) && h in s.mapTxLocks && gone <= VoteHashes(s.mapTxLocks[h].vecConsensusVotes)
    ensures Consistent(s.(mapTxLocks := s.mapTxLocks - {h}, mapTxLockVote := s.mapTxLockVote - gone), rank)
  {
    var locks := s.mapTxLocks - {h};
    forall g | g in locks ensures LockOk(s.mapTxLockVote - gone, g, locks[g], rank) {
      assert LockOk(s.mapTxLockVote, g, s.mapTxLocks[g], rank);
      forall i | 0 <= i < |locks[g].vecConsensusVotes| ensures locks[g].vecConsensusVotes[i].GetHash() !in gone {
        assert IsVote(s.mapTxLocks, g, i);
        if VoteHash(s.mapTxLocks, g, i) in gone {
          var j :| 0 <= j < |s.mapTxLocks[h].vecConsensusVotes| && s.mapTxLocks[h].vecConsensusVotes[j].GetHash() == VoteHash(s.mapTxLocks, g, i);
          assert IsVote(s.mapTxLocks, h, j);
        }
      }
    }
    forall g, i, k, j | IsVote(locks, g, i) && IsVote(locks, k, j) && VoteHash(locks, g, i) == VoteHash(locks, k, j)
      ensures g == k && i == j
    {
      assert IsVote(s.mapTxLocks, g, i) && IsVote(s.mapTxLocks, k, j);
      assert VoteHash(s.mapTxLocks, g, i) == VoteHash(s.mapTxLocks, k, j);
    }
  }

  // ---------------------------------------------------------------- the message handlers

  /** The same locks with the same heights and votes; only times may differ. */
  ghost predicate SameVotes(a: map<Hash, CTransactionLock>, b: map<Hash, CTransactionLock>) {
    && (forall h :: h in a <==> h in b)
    && forall h :: h in a ==>
         b[h].txHash == a[h].txHash && b[h].nBlockHeight == a[h].nBlockHeight && b[h].vecConsensusVotes == a[h].vecConsensusVotes
  }

  /** The inputs that were not locked yet are locked for `h`. */
  function LockInputs(locked: map<OutPoint, Hash>, vin: seq<OutPoint>, h: Hash): map<OutPoint, Hash> {
    if vin == [] then locked
    else
      var m := LockInputs(locked, vin[..|vin| - 1], h);
      var o := vin[|vin| - 1];
      if o in m then m else m[o := h]
  }

  /** The lock's time is over now. */
  function Expired(locks: map<Hash, CTransactionLock>, h: Hash, now: int): map<Hash, CTransactionLock> {
    if h in locks then locks[h := locks[h].(nExpiration := now)] else locks
  }

  predicate LockedForOther(locked: map<OutPoint, Hash>, o: OutPoint, h: Hash) {
    o in locked && locked[o] != h
  }

  predicate Conflicts(locked: map<OutPoint, Hash>, vin: seq<OutPoint>, h: Hash) {
    exists i :: 0 <= i < |vin| && LockedForOther(locked, vin[i], h)
  }

  /** The first input locked for another transaction ends the time of both locks. */
  function Cancelled(locks: map<Hash, CTransactionLock>, locked: map<OutPoint, Hash>, vin: seq<OutPoint>, h: Hash, now: int):
    map<Hash, CTransactionLock>
  {
    if vin == [] then locks
    else if LockedForOther(locked, vin[0], h) then Expired(Expired(locks, h, now), locked[vin[0]], now)
    else Cancelled(locks, locked, vin[1..], h, now)
  }

  /** Two conflicting locks cancel each other out: both end now, and no other lock changes. */
  lemma {:induction false} CancelsBoth(locks: map<Hash, CTransactionLock>, locked: map<OutPoint, Hash>, vin: seq<OutPoint>, h: Hash, now: int)
    ensures !Conflicts(locked, vin, h) ==> Cancelled(locks, locked, vin, h, now) == locks
    ensures Conflicts(locked, vin, h) ==> exists i ::
      && 0 <= i < |vin| && LockedForOther(locked, vin[i], h)
      && var after := Cancelled(locks, locked, vin, h, now);
      && after.Keys == locks.Keys
      && forall g :: g in locks ==>
           after[g] == if g == h || g == locked[vin[i]] then locks[g].(nExpiration := now) else locks[g]
  {
    if vin != [] && !LockedForOther(locked, vin[0], h) {
      CancelsBoth(locks, locked, vin[1..], h, now);
      assert Conflicts(locked, vin, h) <==> Conflicts(locked, vin[1..], h) by {
        assert forall i :: 0 <= i < |vin| - 1 ==> vin[i + 1] == vin[1..][i];
      }
      if Conflicts(locked, vin, h) {
        var after := Cancelled(locks, locked, vin, h, now);
        var i :| 0 <= i < |vin[1..]| && LockedForOther(locked, vin[1..][i], h)
          && forall g :: g in locks ==>
               after[g] == if g == h || g == locked[vin[1..][i]] then locks[g].(nExpiration := now) else locks[g];
        assert vin[i + 1] == vin[1..][i];
      }
    }
  }

  /** What a complete lock does: its request, or a made-up empty one, conflicts and both locks
      end, or its free inputs are locked. */
  function Completed(s: State, h: Hash, emptyTx: Tx, now: int): State {
    var requests := if h in s.mapTxLockReq then s.mapTxLockReq else s.mapTxLockReq[h := emptyTx];
    var tx := requests[h];
    if Conflicts(s.mapLockedInputs, tx.vin, tx.hash)
    then s.(mapTxLockReq := requests, mapTxLocks := Cancelled(s.mapTxLocks, s.mapLockedInputs, tx.vin, tx.hash, now))
    else s.(mapTxLockReq := requests, mapLockedInputs := LockInputs(s.mapLockedInputs, tx.vin, h))
  }

  /** What a vote does. */
  function Voted(s: State, rank: Rank, ctx: CConsensusVote, signatureValid: bool, emptyTx: Tx, now: int): State {
    if ctx.GetHash() in s.mapTxLockVote then s
    else
      var known := s.(mapTxLockVote := s.mapTxLockVote[ctx.GetHash() := ctx]);
      if !InTop(rank, ctx) || !signatureValid then known
      else
        var joined := known.(mapTxLocks := JoinedLock(s.mapTxLocks, ctx, now));
        if CompleteLock(joined.mapTxLocks[ctx.txHash]) then Completed(joined, ctx.txHash, emptyTx, now) else joined
  }

  predicate TooNew(ages: seq<int>) {
    exists i :: 0 <= i < |ages| && ages[i] < 9
  }

  /** Four blocks after the one of the first input. */
  function LockHeight(ages: seq<int>, nBestHeight: int): int {
    nBestHeight - (if ages == [] then 0 else ages[0]) + 4
  }

  function WithLock(locks: map<Hash, CTransactionLock>, h: Hash, nBlockHeight: int, now: int): map<Hash, CTransactionLock> {
    locks[h := if h in locks then locks[h].(nBlockHeight := nBlockHeight)
               else CTransactionLock(nBlockHeight, h, [], now + 20 * 60, now + 60 * 5)]
  }

  /** The votes with the node's own one, if it is a signing primenode of the top. */
  function OwnVote(votes: map<Hash, CConsensusVote>, rank: Rank, tx: Tx, nBlockHeight: int, self: Option<OutPoint>, signed: bool):
    map<Hash, CConsensusVote>
  {
    if self.None? || !signed then votes
    else
      var ctx := CConsensusVote(self.value, tx.hash, nBlockHeight);
      if InTop(rank, ctx) then votes[ctx.GetHash() := ctx] else votes
  }

  /** What a first lock request does once its transaction was refused by the memory pool. */
  function Rejected(s: State, tx: Tx, now: int): State {
    var locked := LockInputs(s.mapLockedInputs, tx.vin, tx.hash);
    s.(mapTxLockReqRejected := s.mapTxLockReqRejected[tx.hash := tx], mapLockedInputs := locked,
       mapTxLocks := if tx.hash in s.mapTxLocks && CompleteLock(s.mapTxLocks[tx.hash])
                     then Cancelled(s.mapTxLocks, locked, tx.vin, tx.hash, now) else s.mapTxLocks)
  }

  /** The votes of these locks, as far as they were requested. */
  function VotesOf(s: State, gone: set<Hash>): set<Hash> {
    set h, i | h in gone && h in s.mapTxLocks && h in s.mapTxLockReq && 0 <= i < |s.mapTxLocks[h].vecConsensusVotes| ::
      s.mapTxLocks[h].vecConsensusVotes[i].GetHash()
  }

  function InputsOf(s: State, gone: set<Hash>): set<OutPoint> {
    set h, i | h in gone && h in s.mapTxLockReq && 0 <= i < |s.mapTxLockReq[h].vin| :: s.mapTxLockReq[h].vin[i]
  }

  /** Without these locks; a requested one takes its votes' hashes, its request and its inputs
      with it. */
  function Cleaned(s: State, gone: set<Hash>): State {
    State(s.mapTxLockReq - gone, s.mapTxLockReqRejected - (gone * s.mapTxLockReq.Keys),
          s.mapTxLockVote - VotesOf(s, gone), s.mapTxLocks - gone, s.mapLockedInputs - InputsOf(s, gone))
  }

  function Overdue(s: State, now: int): set<Hash> {
    set h | h in s.mapTxLocks && now > s.mapTxLocks[h].nExpiration
  }

  lemma CleanedMore(s: State, gone: set<Hash>, h: Hash)
    requires h in s.mapTxLocks && h !in gone
    ensures Cleaned(Cleaned(s, gone), {h}) == Cleaned(s, gone + {h})
  {
    var c := Cleaned(s, gone);
    VotesOfOne(s, h);
    VotesOfOne(c, h);
    VotesOfMore(s, gone, h);
    assert c.mapTxLocks[h] == s.mapTxLocks[h];
    hide VotesOf, InputsOf, VoteHashes;
    assert VotesOf(c, {h}) == VotesOf(s, {h});
    assert InputsOf(c, {h}) == InputsOf(s, {h});
    MinusTwice(s.mapTxLockReq, gone, {h});
    MinusTwice(s.mapTxLocks, gone, {h});
    MinusTwice(s.mapTxLockVote, VotesOf(s, gone), VotesOf(s, {h}));
    MinusTwice(s.mapLockedInputs, InputsOf(s, gone), InputsOf(s, {h}));
    assert {h} * (s.mapTxLockReq - gone).Keys == {h} * s.mapTxLockReq.Keys;
    MinusTwice(s.mapTxLockReqRejected, gone * s.mapTxLockReq.Keys, {h} * s.mapTxLockReq.Keys);
    assert (gone + {h}) * s.mapTxLockReq.Keys == gone * s.mapTxLockReq.Keys + {h} * s.mapTxLockReq.Keys;
  }

  lemma MinusTwice<K, V>(m: map<K, V>, a: set<K>, b: set<K>)
    ensures m - a - b == m - (a + b)
  {
  }

  lemma VotesOfMore(s: State, gone: set<Hash>, h: Hash)
    ensures VotesOf(s, gone + {h}) == VotesOf(s, gone) + VotesOf(s, {h})
    ensures InputsOf(s, gone + {h}) == InputsOf(s, gone) + InputsOf(s, {h})
  {
    forall x | x in VotesOf(s, gone + {h}) ensures x in VotesOf(s, gone) + VotesOf(s, {h}) {
      var g, i :| g in gone + {h} && g in s.mapTxLocks && g in s.mapTxLockReq
        && 0 <= i < |s.mapTxLocks[g].vecConsensusVotes| && x == s.mapTxLocks[g].vecConsensusVotes[i].GetHash();
      assert g in gone || g in {h};
    }
    forall o | o in InputsOf(s, gone + {h}) ensures o in InputsOf(s, gone) + InputsOf(s, {h}) {
      var g, i :| g in gone + {h} && g in s.mapTxLockReq && 0 <= i < |s.mapTxLockReq[g].vin| && o == s.mapTxLockReq[g].vin[i];
      assert g in gone || g in {h};
    }
  }

  lemma LocksLeft(s: State, gone: set<Hash>)
    ensures Cleaned(s, gone).mapTxLocks == s.mapTxLocks - gone
  {
  }

  lemma VotesOfOne(s: State, h: Hash)
    requires h in s.mapTxLocks
    ensures VotesOf(s, {h}) == if h in s.mapTxLockReq then VoteHashes(s.mapTxLocks[h].vecConsensusVotes) else {}
    ensures InputsOf(s, {h}) ==
      if h in s.mapTxLockReq then set i | 0 <= i < |s.mapTxLockReq[h].vin| :: s.mapTxLockReq[h].vin[i] else {}
  {
  }

  lemma CleanedNone(s: State)
    ensures Cleaned(s, {}) == s
  {
  }

  // ---------------------------------------------------------------- how long a lock lives

  /** A lock made at time t, for a request or for a first vote, survives a cleaning exactly up
      to twenty minutes later, its votes and height with it. */
  lemma MadeLockLives(s: State, h: Hash, nBlockHeight: int, v: CConsensusVote, t: int, now: int)
    requires h !in s.mapTxLocks && v.txHash == h
    ensures
      var s' := s.(mapTxLocks := WithLock(s.mapTxLocks, h, nBlockHeight, t));
      var kept := Cleaned(s', Overdue(s', now)).mapTxLocks;
      (h in kept <==> now <= t + 1200) && (h in kept ==> kept[h].nBlockHeight == nBlockHeight && kept[h].nTimeout == t + 300)
    ensures
      var s' := s.(mapTxLocks := JoinedLock(s.mapTxLocks, v, t));
      var kept := Cleaned(s', Overdue(s', now)).mapTxLocks;
      (h in kept <==> now <= t + 1200) && (h in kept ==> kept[h].vecConsensusVotes == [v])
  {
  }

  /** Naming the height of a lock or adding a vote to it does not move its end. */
  lemma EndKept(locks: map<Hash, CTransactionLock>, h: Hash, nBlockHeight: int, v: CConsensusVote, t: int, g: Hash)
    requires g in locks
    ensures g in WithLock(locks, h, nBlockHeight, t) && WithLock(locks, h, nBlockHeight, t)[g].nExpiration == locks[g].nExpiration
    ensures g in JoinedLock(locks, v, t) && JoinedLock(locks, v, t)[g].nExpiration == locks[g].nExpiration
  {
  }

  /** Both locks that cancelled each other at time t are gone after any later cleaning; the
      others live as long as before. */
  lemma CancelledGo(s: State, vin: seq<OutPoint>, h: Hash, t: int, now: int)
    requires Conflicts(s.mapLockedInputs, vin, h) && now > t
    ensures
      var s' := s.(mapTxLocks := Cancelled(s.mapTxLocks, s.mapLockedInputs, vin, h, t));
      var kept := Cleaned(s', Overdue(s', now)).mapTxLocks;
      && h !in kept
      && exists i ::
           && 0 <= i < |vin| && LockedForOther(s.mapLockedInputs, vin[i], h) && s.mapLockedInputs[vin[i]] !in kept
           && forall g :: g in s.mapTxLocks && g != h && g != s.mapLockedInputs[vin[i]] ==>
                (g in kept <==> now <= s.mapTxLocks[g].nExpiration)
  {
    CancelsBoth(s.mapTxLocks, s.mapLockedInputs, vin, h, t);
    var after := Cancelled(s.mapTxLocks, s.mapLockedInputs, vin, h, t);
    var s' := s.(mapTxLocks := after);
    hide Cancelled, VotesOf, InputsOf;
    var i :| 0 <= i < |vin| && LockedForOther(s.mapLockedInputs, vin[i], h)
      && forall g :: g in s.mapTxLocks ==>
           after[g] == if g == h || g == s.mapLockedInputs[vin[i]] then s.mapTxLocks[g].(nExpiration := t) else s.mapTxLocks[g];
    assert Cleaned(s', Overdue(s', now)).mapTxLocks == after - Overdue(s', now);
  }

  // ---------------------------------------------------------------- the rules in numbers

  /** Afterwards every input of the transaction is locked: for it, if it was free. */
  lemma {:induction false} LockInputsMeans(locked: map<OutPoint, Hash>, vin: seq<OutPoint>, h: Hash)
    ensures forall o :: o in LockInputs(locked, vin, h) <==> o in locked || o in vin
    ensures forall o :: o in locked ==> LockInputs(locked, vin, h)[o] == locked[o]
    ensures forall o :: o in vin && o !in locked ==> LockInputs(locked, vin, h)[o] == h
  {
    if vin != [] {
      LockInputsMeans(locked, vin[..|vin| - 1], h);
      assert vin == vin[..|vin| - 1] + [vin[|vin| - 1]];
    }
  }

  /** What counts is the votes for the lock's own height. */
  lemma {:induction false} CountMeans(votes: seq<CConsensusVote>, nBlockHeight: int)
    ensures Matching(votes, nBlockHeight) == |set i | 0 <= i < |votes| && votes[i].nBlockHeight == nBlockHeight|
  {
    if votes != [] {
      var n := |votes| - 1;
      CountMeans(votes[..n], nBlockHeight);
      var p := set i | 0 <= i < n && votes[..n][i].nBlockHeight == nBlockHeight;
      var more: set<int> := if votes[n].nBlockHeight == nBlockHeight then {n} else {};
      assert (set i | 0 <= i < |votes| && votes[i].nBlockHeight == nBlockHeight) == p + more;
    }
  }

  /** A vote is known by the sum of its primenode's outpoint and its transaction: not by its
      height, so a primenode votes once for a transaction, and not by the outpoint alone, so the
      votes of two primenodes can be taken for the same. */
  lemma VoteHashMeans(h: Hash, n: nat, txHash: Hash, x: int, y: int)
    requires 0 <= h && 0 <= txHash
    ensures h + n + txHash < TWO_256 ==> CConsensusVote(OutPoint(h, n), txHash, x).GetHash() == h + n + txHash
    ensures CConsensusVote(OutPoint(h, n), txHash, x).GetHash() == CConsensusVote(OutPoint(h, n), txHash, y).GetHash()
    ensures CConsensusVote(OutPoint(h, n + 1), txHash, x).GetHash() == CConsensusVote(OutPoint(h + 1, n), txHash, x).GetHash()
  {
  }

  /** Votes count from the top fifteen; a lock is complete with a height and ten votes for it;
      inputs must be nine blocks old; the height is four above the first input's block. */
  lemma LockRules(rank: Rank, v: CConsensusVote, lock: CTransactionLock, ages: seq<int>, nBestHeight: int)
    requires forall o, n :: rank(o, n) == -1 || rank(o, n) >= 1
    ensures InTop(rank, v) <==> 1 <= rank(v.vinPrimenode, v.nBlockHeight) <= 15
    ensures CompleteLock(lock) <==> lock.nBlockHeight != 0 && Matching(lock.vecConsensusVotes, lock.nBlockHeight) >= 10
    ensures !TooNew(ages) <==> forall i :: 0 <= i < |ages| ==> ages[i] >= 9
    ensures ages != [] ==> LockHeight(ages, nBestHeight) + ages[0] == nBestHeight + 4
  {
    hide Matching;
  }

  class CInstantX {
    var mapTxLockReq: map<Hash, Tx>
    var mapTxLockReqRejected: map<Hash, Tx>
    var mapTxLockVote: map<Hash, CConsensusVote>
    var mapTxLocks: map<Hash, CTransactionLock>
    var mapLockedInputs: map<OutPoint, Hash>
    const rank: Rank
    /** A transaction that operator[] makes up. */
    const emptyTx: Tx

    ghost function T(): State
      reads this
    {
      State(mapTxLockReq, mapTxLockReqRejected, mapTxLockVote, mapTxLocks, mapLockedInputs)
    }

    ghost predicate Valid()
      reads this
    {
      Consistent(T(), rank) && emptyTx.vin == []
    }

    constructor (rank: Rank, emptyTx: Tx)
      requires emptyTx.vin == []
      ensures Valid() && T() == State(map[], map[], map[], map[], map[]) && this.rank == rank
    {
      this.rank, this.emptyTx := rank, emptyTx;
      mapTxLockReq, mapTxLockReqRejected, mapTxLockVote, mapTxLocks, mapLockedInputs := map[], map[], map[], map[], map[];
    }

    /** The height a few blocks after the first input's; 0, and no lock, when an input is too new. */
    method CreateNewLock(tx: Tx, ages: seq<int>, nBestHeight: int, now: int) returns (nBlockHeight: int)
      requires Valid() && |ages| == |tx.vin|
      modifies this`mapTxLocks
      ensures Valid()
      ensures nBlockHeight == if TooNew(ages) then 0 else LockHeight(ages, nBestHeight)
      ensures mapTxLocks == if TooNew(ages) then old(mapTxLocks) else WithLock(old(mapTxLocks), tx.hash, nBlockHeight, now)
    {
      hide LockOk, VotesApart, InTop;
      var nTxAge := 0;
      var i := |tx.vin|;
      while i > 0
        invariant 0 <= i <= |ages| && nTxAge == (if i == |ages| then 0 else ages[i])
        invariant forall j :: i <= j < |ages| ==> ages[j] >= 9
      {
        i := i - 1;
        nTxAge := ages[i];
        if nTxAge < 9 {
          return 0;
        }
      }
      nBlockHeight := nBestHeight - nTxAge + 4;
      var lock :=
        if tx.hash !in mapTxLocks then CTransactionLock(nBlockHeight, tx.hash, [], now + 20 * 60, now + 60 * 5)
        else mapTxLocks[tx.hash].(nBlockHeight := nBlockHeight);
      KeyIsHash(T(), rank, tx.hash);
      LockReplaced(T(), rank, tx.hash, lock);
      mapTxLocks := mapTxLocks[tx.hash := lock];
    }

    /** Votes itself if it is a primenode of the top; its own vote is only remembered. */
    method DoConsensusVote(tx: Tx, nBlockHeight: int, self: Option<OutPoint>, signed: bool)
      requires Valid()
      modifies this`mapTxLockVote
      ensures Valid()
      ensures mapTxLockVote == OwnVote(old(mapTxLockVote), rank, tx, nBlockHeight, self, signed)
    {
      hide LockOk, VotesApart, Consistent;
      if self.None? {
        return;
      }
      var n := rank(self.value, nBlockHeight);
      if n == -1 || n > INSTANTX_SIGNATURES_TOTAL || !signed {
        return;
      }
      var ctx := CConsensusVote(self.value, tx.hash, nBlockHeight);
      VoteKept(T(), rank, mapTxLockVote[ctx.GetHash() := ctx]);
      mapTxLockVote := mapTxLockVote[ctx.GetHash() := ctx];
    }

    /** An input locked for another transaction ends the time of both locks. */
    method CheckForConflictingLocks(tx: Tx, hash: Hash, now: int) returns (conflict: bool)
      requires Valid()
      modifies this`mapTxLocks
      ensures Valid() && SameVotes(old(mapTxLocks), mapTxLocks)
      ensures conflict <==> Conflicts(mapLockedInputs, tx.vin, hash)
      ensures mapTxLocks == Cancelled(old(mapTxLocks), mapLockedInputs, tx.vin, hash, now)
    {
      hide LockOk, VotesApart, Consistent;
      for i := 0 to |tx.vin|
        invariant forall j :: 0 <= j < i ==> !LockedForOther(mapLockedInputs, tx.vin[j], hash)
        invariant Cancelled(mapTxLocks, mapLockedInputs, tx.vin, hash, now) ==
                  Cancelled(mapTxLocks, mapLockedInputs, tx.vin[i..], hash, now)
        invariant mapTxLocks == old(mapTxLocks) && Valid()
      {
        assert tx.vin[i..][1..] == tx.vin[i + 1..];
        if tx.vin[i] in mapLockedInputs && mapLockedInputs[tx.vin[i]] != hash {
          Expire(hash, now);
          Expire(mapLockedInputs[tx.vin[i]], now);
          return true;
        }
      }
      return false;
    }

    method Expire(h: Hash, now: int)
      requires Valid()
      modifies this`mapTxLocks
      ensures Valid() && SameVotes(old(mapTxLocks), mapTxLocks) && mapTxLocks == Expired(old(mapTxLocks), h, now)
    {
      hide LockOk, VotesApart, InTop;
      if h in mapTxLocks {
        KeyIsHash(T(), rank, h);
        LockReplaced(T(), rank, h, mapTxLocks[h].(nExpiration := now));
        mapTxLocks := mapTxLocks[h := mapTxLocks[h].(nExpiration := now)];
      }
    }

    /** Locks those inputs that no transaction has locked yet. */
    method LockFreeInputs(vin: seq<OutPoint>, h: Hash)
      requires Valid()
      modifies this`mapLockedInputs
      ensures Valid() && mapLockedInputs == LockInputs(old(mapLockedInputs), vin, h)
    {
      hide LockOk, VotesApart;
      assert vin[..0] == [];
      for i := 0 to |vin|
        invariant mapLockedInputs == LockInputs(old(mapLockedInputs), vin[..i], h)
      {
        assert vin[..i + 1][..i] == vin[..i];
        if vin[i] !in mapLockedInputs {
          mapLockedInputs := mapLockedInputs[vin[i] := h];
        }
      }
      assert vin[..|vin|] == vin;
    }

    /** The request is known already, or the transaction may not be locked. */
    predicate Refused(tx: Tx, valid: bool)
      reads this
    {
      tx.hash in mapTxLockReq || tx.hash in mapTxLockReqRejected || !valid
    }

    /** "txlreq": the first request for a transaction gets a lock and is accepted or rejected. */
    method ProcessLockRequest(tx: Tx, valid: bool, ages: seq<int>, nBestHeight: int, now: int, fAccepted: bool,
                              self: Option<OutPoint>, signed: bool)
      requires Valid() && |ages| == |tx.vin|
      modifies this
      ensures Valid()
      ensures old(Refused(tx, valid)) ==> T() == old(T())
      ensures !old(Refused(tx, valid)) ==>
        var nBlockHeight := if TooNew(ages) then 0 else LockHeight(ages, nBestHeight);
        var s := if TooNew(ages) then old(T())
                 else old(T()).(mapTxLocks := WithLock(old(mapTxLocks), tx.hash, nBlockHeight, now));
        if fAccepted
        then T() == s.(mapTxLockReq := s.mapTxLockReq[tx.hash := tx],
                       mapTxLockVote := OwnVote(s.mapTxLockVote, rank, tx, nBlockHeight, self, signed))
        else T() == Rejected(s, tx, now)
      ensures forall h :: h in old(mapTxLocks) ==>
                h in mapTxLocks && mapTxLocks[h].vecConsensusVotes == old(mapTxLocks)[h].vecConsensusVotes
    {
      hide LockOk, VotesApart, InTop, Consistent;
      if Refused(tx, valid) {
        return;
      }
      var nBlockHeight := CreateNewLock(tx, ages, nBestHeight, now);
      if fAccepted {
        DoConsensusVote(tx, nBlockHeight, self, signed);
        SameLocks(T(), T().(mapTxLockReq := mapTxLockReq[tx.hash := tx]), rank);
        mapTxLockReq := mapTxLockReq[tx.hash := tx];
      } else {
        SameLocks(T(), T().(mapTxLockReqRejected := mapTxLockReqRejected[tx.hash := tx]), rank);
        mapTxLockReqRejected := mapTxLockReqRejected[tx.hash := tx];
        LockFreeInputs(tx.vin, tx.hash);
        if tx.hash in mapTxLocks {
          var n := CountSignatures(mapTxLocks[tx.hash]);
          if n >= INSTANTX_SIGNATURES_REQUIRED {
            var _ := CheckForConflictingLocks(tx, tx.hash, now);
          }
        }
      }
    }

    /** "txlvote": a vote with a known hash is dropped; a new one from the top joins its lock. */
    method ProcessVote(ctx: CConsensusVote, signatureValid: bool, now: int) returns (counted: bool)
      requires Valid()
      modifies this
      ensures Valid() && T() == Voted(old(T()), rank, ctx, signatureValid, emptyTx, now)
      ensures counted <==> ctx.GetHash() !in old(mapTxLockVote) && InTop(rank, ctx) && signatureValid
      ensures counted ==> SameVotes(JoinedLock(old(mapTxLocks), ctx, now), mapTxLocks)
    {
      hide LockOk, VotesApart, InTop, Consistent;
      if ctx.GetHash() in mapTxLockVote {
        return false;
      }
      var votes := mapTxLockVote[ctx.GetHash() := ctx];
      var n := rank(ctx.vinPrimenode, ctx.nBlockHeight);
      TopIs(rank, ctx);
      if n == -1 || n > INSTANTX_SIGNATURES_TOTAL || !signatureValid {
        VoteKept(T(), rank, votes);
        mapTxLockVote := votes;
        return false;
      }
      if ctx.txHash !in mapTxLocks {
        var newLock := CTransactionLock(0, ctx.txHash, [], now + 20 * 60, now + 60 * 5);
        LockReplaced(T(), rank, ctx.txHash, newLock);
        mapTxLocks := mapTxLocks[ctx.txHash := newLock];
      }
      var lock := mapTxLocks[ctx.txHash];
      VoteJoins(T(), rank, ctx, votes);
      mapTxLockVote := votes;
      mapTxLocks := mapTxLocks[ctx.txHash := lock.(vecConsensusVotes := lock.vecConsensusVotes + [ctx])];
      counted := true;
      SameVotesSelf(mapTxLocks);
      n := CountSignatures(mapTxLocks[ctx.txHash]);
      if n >= INSTANTX_SIGNATURES_REQUIRED {
        OnComplete(ctx.txHash, now);
      }
    }

    /** A complete lock: its request, or a made-up empty one, is checked for conflicts and its
        inputs are locked. */
    method OnComplete(h: Hash, now: int)
      requires Valid()
      modifies this`mapTxLockReq, this`mapTxLocks, this`mapLockedInputs
      ensures Valid() && SameVotes(old(mapTxLocks), mapTxLocks) && T() == Completed(old(T()), h, emptyTx, now)
    {
      hide LockOk, VotesApart, InTop, Consistent;
      var requests := if h in mapTxLockReq then mapTxLockReq else mapTxLockReq[h := emptyTx];
      SameLocks(T(), T().(mapTxLockReq := requests), rank);
      mapTxLockReq := requests;
      var tx := mapTxLockReq[h];
      var conflict := CheckForConflictingLocks(tx, tx.hash, now);
      if !conflict {
        CancelsBoth(old(mapTxLocks), mapLockedInputs, tx.vin, tx.hash, now);
        LockFreeInputs(tx.vin, h);
      }
    }

    // -------------------------------------------------------------- cleaning

    /** Removes the locks whose time is over; the votes of a requested one are forgotten. */
    method CleanTransactionLocksList(order: seq<Hash>, now: int)
      requires Valid() && forall h :: h in mapTxLocks <==> h in order
      requires forall i, j :: 0 <= i < j < |order| ==> order[i] != order[j]
      modifies this
      ensures Valid() && T() == Cleaned(old(T()), Overdue(old(T()), now))
      ensures forall h :: h in old(mapTxLocks) ==> (h in mapTxLocks <==> now <= old(mapTxLocks)[h].nExpiration)
      ensures forall h :: h in mapTxLocks ==> h in old(mapTxLocks) && mapTxLocks[h] == old(mapTxLocks)[h]
    {
      hide LockOk, VotesApart, InTop, Consistent, Cleaned;
      ghost var s := T();
      ghost var gone: set<Hash> := {};
      CleanedNone(s);
      assert forall h :: h in s.mapTxLocks ==> h in order;
      for k := 0 to |order|
        invariant Valid() && T() == Cleaned(s, gone)
        invariant forall h :: h in gone <==> h in order[..k] && h in s.mapTxLocks && now > s.mapTxLocks[h].nExpiration
      {
        assert order[k] in order;
        assert order[k] in s.mapTxLocks;
        assert order[..k + 1] == order[..k] + [order[k]] && order[k] !in order[..k];
        LocksLeft(s, gone);
        if now > mapTxLocks[order[k]].nExpiration {
          CleanedMore(s, gone, order[k]);
          RemoveLock(order[k]);
          gone := gone + {order[k]};
        }
      }
      assert order[..|order|] == order;
      assert forall h :: h in gone <==> h in Overdue(s, now);
      assert gone == Overdue(s, now);
      LocksLeft(s, gone);
    }

    method RemoveLock(h: Hash)
      requires Valid() && h in mapTxLocks
      modifies this
      ensures Valid() && T() == Cleaned(old(T()), {h})
    {
      hide LockOk, VotesApart, InTop, Consistent;
      KeyIsHash(T(), rank, h);
      var lock := mapTxLocks[h];
      VotesOfOne(T(), h);
      LockRemoved(T(), rank, h, VotesOf(T(), {h}));
      if lock.txHash in mapTxLockReq {
        var tx := mapTxLockReq[lock.txHash];
        mapLockedInputs := mapLockedInputs - set i | 0 <= i < |tx.vin| :: tx.vin[i];
        mapTxLockReq := mapTxLockReq - {lock.txHash};
        mapTxLockReqRejected := mapTxLockReqRejected - {lock.txHash};
        EraseVotes(lock.vecConsensusVotes);
      }
      mapTxLocks := mapTxLocks - {h};
      assert T() == Cleaned(old(T()), {h});
      SameLocks(old(T()).(mapTxLocks := mapTxLocks, mapTxLockVote := mapTxLockVote), T(), rank);
    }

    method EraseVotes(votes: seq<CConsensusVote>)
      modifies this`mapTxLockVote
      ensures mapTxLockVote == old(mapTxLockVote) - VoteHashes(votes)
    {
      for i := 0 to |votes|
        invariant mapTxLockVote == old(mapTxLockVote) - VoteHashes(votes[..i])
      {
        assert VoteHashes(votes[..i + 1]) == VoteHashes(votes[..i]) + {votes[i].GetHash()};
        mapTxLockVote := mapTxLockVote - {votes[i].GetHash()};
      }
      assert votes[..|votes|] == votes;
    }
  }

  /** The locks with the vote added to its lock, which is made if it is new. */
  function JoinedLock(locks: map<Hash, CTransactionLock>, v: CConsensusVote, now: int): map<Hash, CTransactionLock> {
    var lock := if v.txHash in locks then locks[v.txHash]
                else CTransactionLock(0, v.txHash, [], now + 20 * 60, now + 60 * 5);
    locks[v.txHash := lock.(vecConsensusVotes := lock.vecConsensusVotes + [v])]
  }

  lemma KeyIsHash(s: State, rank: Rank, h: Hash)
    requires Consistent(s, rank)
    ensures h in s.mapTxLocks ==> s.mapTxLocks[h].txHash == h
  {
    hide VotesApart;
  }

  lemma SameLocks(s: State, s': State, rank: Rank)
    requires Consistent(s, rank) && s'.mapTxLocks == s.mapTxLocks && s'.mapTxLockVote == s.mapTxLockVote
    ensures Consistent(s', rank)
  {
    hide LockOk, VotesApart;
  }

  lemma SameVotesSelf(a: map<Hash, CTransactionLock>)
    ensures SameVotes(a, a)
  {
  }

  lemma TopIs(rank: Rank, v: CConsensusVote)
    ensures InTop(rank, v) <==>
      rank(v.vinPrimenode, v.nBlockHeight) != -1 && rank(v.vinPrimenode, v.nBlockHeight) <= INSTANTX_SIGNATURES_TOTAL
  {
  }
}
