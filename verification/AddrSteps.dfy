/** What the operations of the address manager (src/addrman.cpp) do to the tables, and the
    steps of the proofs that they keep the invariant. */
module AddrSteps {
  import opened Collections
  import opened AddrTables
  import opened AddrMoves
  import opened IdOrder
  import opened AddrFile

  /** An address as received from the network. */
  datatype CAddress = CAddress(addr: Service, nServices: bv64, nTime: nat)

  const TRIED_ENTRIES_INSPECT_ON_EVICT: nat := 4
  const HORIZON_DAYS: int := 30
  const RETRIES: int := 3
  const MAX_FAILURES: int := 10
  const MIN_FAIL_DAYS: int := 7
  const GETADDR_MAX_PCT: nat := 23
  const GETADDR_MAX: nat := 2500

  /** Assignment to the 32-bit nTime field. */
  function U32(x: int): nat {
    x % 0x1_0000_0000
  }

  function Max(x: int, y: int): int {
    if x < y then y else x
  }

  predicate IsTerrible(info: Info, nNow: int) {
    if info.nLastTry != 0 && info.nLastTry >= nNow - 60 then false
    else
      || info.nTime > nNow + 10 * 60
      || info.nTime == 0 || nNow - info.nTime > HORIZON_DAYS * 86400
      || (info.nLastSuccess == 0 && info.nAttempts >= RETRIES)
      || (nNow - info.nLastSuccess > MIN_FAIL_DAYS * 86400 && info.nAttempts >= MAX_FAILURES)
  }

  function NewInfo(a: CAddress, source: NetAddr): Info {
    Info(a.addr, a.nServices, a.nTime, 0, source, 0, 0, 0, false, -1)
  }

  // ---------------------------------------------------------------- choosing a victim

  /** The oldest of the inspected entries, the first of several equally old ones. */
  function OldestOf(mapInfo: map<Id, Info>, order: seq<Id>, k: nat, n: seq<nat>): Option<Id>
    requires k <= |order| && forall i :: 0 <= i < |order| ==> order[i] in mapInfo
    ensures k > 0 || OldestOf(mapInfo, order, k, n).None?
    ensures OldestOf(mapInfo, order, k, n).Some? ==> OldestOf(mapInfo, order, k, n).value in mapInfo
  {
    if k == 0 then None
    else
      var best := OldestOf(mapInfo, order, k - 1, n);
      var x := order[k - 1];
      if k - 1 in n && (best.None? || mapInfo[x].nTime < mapInfo[best.value].nTime) then Some(x) else best
  }

  lemma {:induction false} OldestOfMeans(mapInfo: map<Id, Info>, order: seq<Id>, k: nat, n: seq<nat>)
    requires k <= |order| && forall i :: 0 <= i < |order| ==> order[i] in mapInfo
    ensures
      var best := OldestOf(mapInfo, order, k, n);
      && (best.None? <==> forall i :: 0 <= i < k ==> i !in n)
      && (best.Some? ==> exists i :: 0 <= i < k && i in n && order[i] == best.value)
      && (best.Some? ==> forall i :: 0 <= i < k && i in n ==> mapInfo[best.value].nTime <= mapInfo[order[i]].nTime)
    decreases k
  {
    if k > 0 {
      OldestOfMeans(mapInfo, order, k - 1, n);
    }
  }

  /** Whom ShrinkNew removes from a bucket: the terrible entry with the least id, if there
      is one, else the oldest among four inspected positions. */
  ghost predicate IsShrinkVictim(mapInfo: map<Id, Info>, bucket: set<Id>, n: seq<nat>, nNow: int, v: Id) {
    && v in bucket && v in mapInfo
    && (if exists x :: x in bucket && x in mapInfo && IsTerrible(mapInfo[x], nNow)
        then IsTerrible(mapInfo[v], nNow) &&
             forall x :: x in bucket && x in mapInfo && IsTerrible(mapInfo[x], nNow) ==> v <= x
        else
          && (exists i :: 0 <= i < |Ascending(bucket)| && i in n && Ascending(bucket)[i] == v)
          && forall i :: 0 <= i < |Ascending(bucket)| && i in n && Ascending(bucket)[i] in mapInfo ==>
               mapInfo[v].nTime <= mapInfo[Ascending(bucket)[i]].nTime)
  }

  // ---------------------------------------------------------------- writing the address file

  /** The map gives each written id its position. */
  ghost predicate Indexes(mapUnkIds: map<Id, Id>, ids: seq<Id>) {
    forall i: Id :: i as int < |ids| ==> ids[i] in mapUnkIds && mapUnkIds[ids[i]] == i
  }

  lemma NotChosenYet(m: map<Id, Info>, order: seq<Id>, tried: bool, k: nat)
    requires k < |order| && (forall i :: 0 <= i < |order| ==> order[i] in m) && Increasing(order)
    ensures order[k] !in Chosen(m, order, tried, k)
  {
    assert order[k] !in order[..k];
  }

  lemma ChosenNone(m: map<Id, Info>, order: seq<Id>, tried: bool)
    requires forall i :: 0 <= i < |order| ==> order[i] in m
    ensures Chosen(m, order, tried, 0) == [] && StoreAll(m, []) == [] && Indexes(map[], [])
  {
  }

  lemma ChosenNext(m: map<Id, Info>, order: seq<Id>, tried: bool, k: nat)
    requires k < |order| && forall i :: 0 <= i < |order| ==> order[i] in m
    ensures
      var q, q' := Chosen(m, order, tried, k), Chosen(m, order, tried, k + 1);
      && q' == (if Picks(m[order[k]], tried) then q + [order[k]] else q)
      && StoreAll(m, q') == StoreAll(m, q) + (if Picks(m[order[k]], tried) then [StoredOf(m[order[k]])] else [])
      && |StoreAll(m, q)| == |q|
  {
    hide Picks, StoredOf;
    var q, q' := Chosen(m, order, tried, k), Chosen(m, order, tried, k + 1);
    assert q' == if Picks(m[order[k]], tried) then q + [order[k]] else q;
    hide Chosen;
  }

  lemma IndexMore(mapUnkIds: map<Id, Id>, ids: seq<Id>, x: Id)
    requires Indexes(mapUnkIds, ids) && x !in ids
    ensures Indexes(mapUnkIds[x := |ids| as Id], ids) && Indexes(mapUnkIds[x := |ids| as Id], ids + [x])
  {
    assert forall i: Id :: i as int < |ids| ==> ids[i] != x;
  }

  lemma IndexedAll(mapUnkIds: map<Id, Id>, ids: seq<Id>, order: seq<Id>)
    requires Indexes(mapUnkIds, ids) && forall x :: x in order ==> x in ids
    ensures forall j :: 0 <= j < |order| ==> order[j] in mapUnkIds
  {
    forall j | 0 <= j < |order| ensures order[j] in mapUnkIds {
      assert order[j] in order;
      var i :| 0 <= i < |ids| && ids[i] == order[j];
      assert ids[i as Id] in mapUnkIds;
    }
  }

  lemma BucketWritten(bucket: set<Id>, mapUnkIds: map<Id, Id>, ids: seq<Id>, order: seq<Id>, q: seq<Id>)
    requires Indexes(mapUnkIds, ids) && Increasing(ids) && Increasing(order) && |order| == |bucket|
    requires (forall x :: x in order <==> x in bucket) && forall x :: x in bucket ==> x in ids
    requires |q| == |order| && forall j :: 0 <= j < |q| ==> order[j] in mapUnkIds && q[j] == mapUnkIds[order[j]]
    ensures WritesBucket(bucket, ids, q)
  {
    forall j | 0 <= j < |q| ensures q[j] as int < |ids| && ids[q[j]] == order[j] {
      assert order[j] in order;
      var i :| 0 <= i < |ids| && ids[i] == order[j];
      assert mapUnkIds[ids[i as Id]] == i as Id;
    }
    forall i, j | 0 <= i < j < |q| ensures q[i] < q[j] {
      assert ids[q[i]] == order[i] && ids[q[j]] == order[j] && order[i] < order[j];
    }
    forall x | x in bucket ensures exists i :: 0 <= i < |q| && q[i] as int < |ids| && ids[q[i]] == x {
      var i :| 0 <= i < |order| && order[i] == x;
      assert ids[q[i]] == x;
    }
  }

  lemma ToWrite(t: Tables, key: Key)
    requires Inv(t, key)
    ensures forall x :: x in NewIds(t.mapInfo) <==> x in t.mapInfo && Picks(t.mapInfo[x], false)
    ensures forall x :: x in TriedIds(t.mapInfo) <==> x in t.mapInfo && Picks(t.mapInfo[x], true)
    ensures t.nNew == |NewIds(t.mapInfo)| && t.nTried == |TriedIds(t.mapInfo)| && |t.vvNew| == NEW_BUCKET_COUNT
    ensures forall b, x :: 0 <= b < |t.vvNew| && x in t.vvNew[b] ==> x in NewIds(t.mapInfo)
  {
    hide RecordsOk, RandomOk, AddrOk, TriedOk, NewBuckets;
  }

  lemma KeysInOrder(m: map<Id, Info>, order: seq<Id>)
    requires order == Ascending(m.Keys)
    ensures forall x :: x in order <==> x in m
  {
  }

  lemma AllKeys(m: map<Id, Info>, order: seq<Id>)
    requires order == Ascending(m.Keys)
    ensures Increasing(order) && forall i :: 0 <= i < |order| ==> order[i] in m
  {
    assert forall i :: 0 <= i < |order| ==> order[i] in m.Keys;
  }

  lemma ListsWritten(t: Tables, key: Key, order: seq<Id>, newIds: seq<Id>, triedIds: seq<Id>)
    requires Inv(t, key) && order == Ascending(t.mapInfo.Keys) && forall i :: 0 <= i < |order| ==> order[i] in t.mapInfo
    requires newIds == Chosen(t.mapInfo, order, false, |order|) && triedIds == Chosen(t.mapInfo, order, true, |order|)
    ensures Increasing(newIds) && forall x :: x in newIds <==> x in NewIds(t.mapInfo)
    ensures Increasing(triedIds) && forall x :: x in triedIds <==> x in TriedIds(t.mapInfo)
    ensures |newIds| == t.nNew && |triedIds| == t.nTried
    ensures forall b, x :: 0 <= b < |t.vvNew| && x in t.vvNew[b] ==> x in newIds
  {
    hide *;
    ToWrite(t, key);
    ChosenIs(t.mapInfo, order, false, NewIds(t.mapInfo));
    ChosenIs(t.mapInfo, order, true, TriedIds(t.mapInfo));
  }

  lemma ChosenIs(m: map<Id, Info>, order: seq<Id>, tried: bool, wanted: set<Id>)
    requires order == Ascending(m.Keys) && forall i :: 0 <= i < |order| ==> order[i] in m
    requires forall x :: x in wanted <==> x in m && Picks(m[x], tried)
    ensures
      var q := Chosen(m, order, tried, |order|);
      Increasing(q) && (forall x :: x in q <==> x in wanted) && |q| == |wanted|
  {
    AllKeys(m, order);
    hide Increasing, Picks, Chosen, Ascending;
    assert order[..|order|] == order;
    ChosenIncreasing(m, order, tried, |order|);
    var q := Chosen(m, order, tried, |order|);
    assert forall x :: x in m ==> x in order;
    SizeOf(q, wanted);
  }

  lemma SizeOf(q: seq<Id>, s: set<Id>)
    requires Increasing(q) && forall x :: x in q <==> x in s
    ensures |q| == |s|
  {
    DistinctCard(q);
    assert s == set x | x in q;
  }

  lemma IsWritten(t: Tables, key: Key, s: AddrDat, newIds: seq<Id>, triedIds: seq<Id>)
    requires Increasing(newIds) && (forall x :: x in newIds <==> x in NewIds(t.mapInfo)) && |newIds| == t.nNew
    requires Increasing(triedIds) && (forall x :: x in triedIds <==> x in TriedIds(t.mapInfo)) && |triedIds| == t.nTried
    requires (forall x :: x in newIds ==> x in t.mapInfo) && (forall x :: x in triedIds ==> x in t.mapInfo)
    requires |s.buckets| == |t.vvNew| == NEW_BUCKET_COUNT
    requires forall c :: 0 <= c < |t.vvNew| ==> WritesBucket(t.vvNew[c], newIds, s.buckets[c])
    requires s == AddrDat(key, t.nNew, t.nTried, NEW_BUCKET_COUNT, StoreAll(t.mapInfo, newIds), StoreAll(t.mapInfo, triedIds), s.buckets)
    ensures Writes(t, key, s, newIds, triedIds)
  {
    hide WritesBucket, Increasing, StoreAll;
  }

  // ---------------------------------------------------------------- reading the address file

  /** Before the first record. */
  lemma RecordsStart(s: AddrDat)
    requires WellFormed(s)
    ensures s.nNew == |s.newInfos| && s.nTried == |s.triedInfos| && s.nUBuckets == |s.buckets|
    ensures LoadNew(s, 0) == Empty(s)
    ensures LoadTried(s, 0) == LoadNew(s, |s.newInfos|).(nIdCount := |s.newInfos| as Id)
  {
    hide Empty;
  }

  lemma LoadNewNext(s: AddrDat, n: nat)
    requires n < |s.newInfos|
    ensures LoadNew(s, n + 1) == ReadNew(LoadNew(s, n), s.nKey, s.newInfos[n], n as Id, s.nUBuckets != NEW_BUCKET_COUNT)
  {
    hide ReadNew;
  }

  lemma LoadTriedNext(s: AddrDat, n: nat, t: Tables, left: int)
    requires n < |s.triedInfos| && t.(nTried := left) == LoadTried(s, n)
    ensures |t.vvTried| == TRIED_BUCKET_COUNT
    ensures LoadTried(s, n + 1) ==
      var v := ReadTried(t, s.nKey, s.triedInfos[n]);
      v.(nTried := left + v.nTried - t.nTried)
  {
    hide LoadNew;
  }

  lemma LoadedFrom(s: AddrDat)
    requires WellFormed(s)
    ensures LoadBuckets(s, 0) == LoadTried(s, |s.triedInfos|) && Loaded(s) == LoadBuckets(s, |s.buckets|)
    ensures s.nUBuckets == |s.buckets|
  {
    hide LoadTried;
  }

  /** Before the first entry of a list and after its last one. */
  lemma LoadBucketEnds(s: AddrDat, u: Tables, b: nat)
    requires WellFormed(s) && b < |s.buckets| && u == LoadBuckets(s, b)
    ensures LoadBucket(s, u, b, 0) == u
    ensures LoadBuckets(s, b + 1) == LoadBucket(s, u, b, |s.buckets[b]|)
  {
  }

  lemma LoadBucketNext(s: AddrDat, u: Tables, b: nat, n: nat)
    requires WellFormed(s) && b < |s.buckets| && n < |s.buckets[b]| && u == LoadBuckets(s, b)
    ensures b < |LoadBucket(s, u, b, n).vvNew|
    ensures LoadBucket(s, u, b, n + 1) ==
      ReadIndex(LoadBucket(s, u, b, n), b, s.buckets[b][n], s.nUBuckets == NEW_BUCKET_COUNT)
  {
    hide ReadIndex, LoadBuckets;
  }

  // ---------------------------------------------------------------- what Good_ does

  function MarkedGood(info: Info, nTime: int): Info {
    info.(nLastSuccess := nTime, nLastTry := nTime, nTime := U32(nTime), nAttempts := 0)
  }

  ghost predicate GoodEffect(t: Tables, t': Tables, key: Key, addr: Service, nTime: int, pos: seq<nat>, origin: nat) {
    if addr.ip in t.mapAddr && t.mapAddr[addr.ip] in t.mapInfo && t.mapInfo[t.mapAddr[addr.ip]].addr == addr then
      var id := t.mapAddr[addr.ip];
      var touched := Touch(t, id, MarkedGood(t.mapInfo[id], nTime));
      if t.mapInfo[id].fInTried then t' == touched
      else origin < |t.vvNew| && id in t.vvNew[origin] && Promoted(touched, t', key, id, origin, pos)
    else t' == t
  }

  lemma GoodNothing(t: Tables, key: Key, addr: Service, nTime: int, pos: seq<nat>, origin: nat)
    requires addr.ip !in t.mapAddr || (t.mapAddr[addr.ip] in t.mapInfo && t.mapInfo[t.mapAddr[addr.ip]].addr != addr)
    ensures GoodEffect(t, t, key, addr, nTime, pos, origin)
  {
    hide Promoted;
  }

  lemma TriedGood(t: Tables, key: Key, id: Id, nTime: int)
    requires Inv(t, key) && id in t.mapInfo && nTime > 0
    ensures Inv(Touch(t, id, MarkedGood(t.mapInfo[id], nTime)), key)
    ensures MarkedGood(t.mapInfo[id], nTime).addr == t.mapInfo[id].addr
    ensures MarkedGood(t.mapInfo[id], nTime).nLastSuccess == nTime
  {
    hide InvMid;
    TouchInv(t, key, None, None, id, MarkedGood(t.mapInfo[id], nTime));
  }

  lemma GoodTouched(t: Tables, key: Key, addr: Service, nTime: int, pos: seq<nat>, origin: nat)
    requires addr.ip in t.mapAddr && t.mapAddr[addr.ip] in t.mapInfo && t.mapInfo[t.mapAddr[addr.ip]].addr == addr
    requires MarkedGood(t.mapInfo[t.mapAddr[addr.ip]], nTime).fInTried
    ensures
      var id := t.mapAddr[addr.ip];
      GoodEffect(t, Touch(t, id, MarkedGood(t.mapInfo[id], nTime)), key, addr, nTime, pos, origin)
  {
    hide Promoted;
  }

  lemma GoodPromoted(t: Tables, touched: Tables, t': Tables, key: Key, addr: Service, nTime: int, pos: seq<nat>, origin: nat)
    requires addr.ip in t.mapAddr && t.mapAddr[addr.ip] in t.mapInfo && t.mapInfo[t.mapAddr[addr.ip]].addr == addr
    requires touched == Touch(t, t.mapAddr[addr.ip], MarkedGood(t.mapInfo[t.mapAddr[addr.ip]], nTime))
    requires !MarkedGood(t.mapInfo[t.mapAddr[addr.ip]], nTime).fInTried
    requires origin < |touched.vvNew| && t.mapAddr[addr.ip] in touched.vvNew[origin]
    requires Promoted(touched, t', key, t.mapAddr[addr.ip], origin, pos)
    ensures GoodEffect(t, t', key, addr, nTime, pos, origin)
  {
    hide Promoted;
  }

  /** An untried id lies in some new bucket. */
  lemma LiesSomewhere(t: Tables, key: Key, id: Id)
    requires Inv(t, key) && id in t.mapInfo && !t.mapInfo[id].fInTried
    ensures |t.vvNew| == NEW_BUCKET_COUNT && NEW_BUCKET_COUNT == 256
    ensures exists b :: 0 <= b < |t.vvNew| && id in t.vvNew[b]
    ensures |t.vvTried| == TRIED_BUCKET_COUNT
  {
    hide RandomOk, AddrOk, CountsOk, RecordsOk;
    assert |NewBuckets(t.vvNew, id)| > 0;
    var b := Pick(NewBuckets(t.vvNew, id));
  }

  function Cyclic(n: nat, nRnd: nat): (b: nat)
    ensures b < NEW_BUCKET_COUNT
  {
    (n + nRnd) % NEW_BUCKET_COUNT
  }

  // ---------------------------------------------------------------- leaving the new buckets

  function ClearedTo(vvNew: seq<set<Id>>, id: Id, k: nat): seq<set<Id>> {
    seq(|vvNew|, b requires 0 <= b < |vvNew| => if b < k then vvNew[b] - {id} else vvNew[b])
  }

  /** Before the first bucket the count is the number of buckets the id lies in. */
  lemma ClearStarts(t: Tables, key: Key, id: Id)
    requires Inv(t, key) && id in t.mapInfo
    ensures ClearedTo(t.vvNew, id, 0) == t.vvNew
    ensures t.mapInfo == t.mapInfo[id := t.mapInfo[id].(nRefCount := |NewBuckets(t.vvNew, id)|)]
  {
    hide RandomOk, AddrOk, CountsOk, RecordsOk, TriedOk, NewOk, NewBuckets;
  }

  lemma ClearedNext(vvNew: seq<set<Id>>, id: Id, b: nat)
    requires b < |vvNew|
    ensures ClearedTo(vvNew, id, b + 1) ==
      (if id in ClearedTo(vvNew, id, b)[b] then TakeNew(ClearedTo(vvNew, id, b), b, id) else ClearedTo(vvNew, id, b))
    ensures |ClearedTo(vvNew, id, b)| == |vvNew|
  {
    assert ClearedTo(vvNew, id, b)[b] == vvNew[b];
    if id !in vvNew[b] {
      assert vvNew[b] - {id} == vvNew[b];
      assert ClearedTo(vvNew, id, b + 1) == ClearedTo(vvNew, id, b);
    }
  }

  lemma ClearedAll(vvNew: seq<set<Id>>, id: Id)
    ensures ClearedTo(vvNew, id, |vvNew|) == ClearNew(vvNew, id)
  {
  }

  lemma TakenIs(vvNew: seq<set<Id>>, b: nat, id: Id)
    requires b < |vvNew|
    ensures TakeNew(vvNew, b, id) == vvNew[b := vvNew[b] - {id}]
  {
  }

  /** The entry is out of the new buckets and no longer counted, but not yet flagged. */
  function LeftNew(t: Tables, id: Id): Tables
    requires id in t.mapInfo
  {
    t.(mapInfo := t.mapInfo[id := t.mapInfo[id].(nRefCount := 0)], vvNew := ClearNew(t.vvNew, id), nNew := t.nNew - 1)
  }

  lemma LeftNewIs(t: Tables, id: Id, key: Key)
    requires id in t.mapInfo
    ensures LeftNew(t, id).mapInfo == t.mapInfo[id := t.mapInfo[id].(nRefCount := 0)]
    ensures LeftNew(t, id).vvNew == ClearNew(t.vvNew, id) && |LeftNew(t, id).vvNew| == |t.vvNew|
    ensures LeftNew(t, id).vvTried == t.vvTried && LeftNew(t, id).nNew == t.nNew - 1
    ensures LeftNew(t, id).vRandom == t.vRandom && LeftNew(t, id).nTried == t.nTried
    ensures LeftNew(t, id).mapAddr == t.mapAddr && LeftNew(t, id).nIdCount == t.nIdCount
    ensures Inspected(64) == 4 && TRIED_BUCKET_SIZE == 64 && NEW_BUCKET_COUNT == 256
  {
  }

  lemma IsLeftNew(t: Tables, t': Tables, id: Id)
    requires id in t.mapInfo
    requires t' == t.(mapInfo := t.mapInfo[id := t.mapInfo[id].(nRefCount := 0)], vvNew := ClearNew(t.vvNew, id),
                      nNew := t.nNew - 1)
    ensures t' == LeftNew(t, id)
  {
  }

  lemma IsAppended(t: Tables, t': Tables, key: Key, id: Id, origin: nat, pos: seq<nat>)
    requires id in t.mapInfo && |t.vvTried| == TRIED_BUCKET_COUNT && |t.vvNew| == NEW_BUCKET_COUNT && origin < |t.vvNew|
    requires |t.vvTried[TriedBucket(key, t.mapInfo[id].addr)]| < TRIED_BUCKET_SIZE
    requires t' ==
      var k := TriedBucket(key, t.mapInfo[id].addr);
      var m := t.mapInfo[id := t.mapInfo[id].(nRefCount := 0)];
      t.(mapInfo := m[id := m[id].(fInTried := true)], vvNew := ClearNew(t.vvNew, id), nNew := t.nNew - 1,
         vvTried := t.vvTried[k := t.vvTried[k] + [id]], nTried := t.nTried + 1)
    ensures Promoted(t, t', key, id, origin, pos)
  {
    var m := t.mapInfo[id := t.mapInfo[id].(nRefCount := 0)];
    assert m[id := m[id].(fInTried := true)] == t.mapInfo[id := t.mapInfo[id].(nRefCount := 0, fInTried := true)];
  }

  /** Selection looks only at the times of success. */
  lemma SelectedMembers(m: map<Id, Info>, bucket: seq<Id>, pos: seq<nat>, k: nat)
    requires k <= |pos| && k <= |bucket| && DrawsOk(pos, |bucket|) && forall x :: x in bucket ==> x in m
    ensures forall i :: 0 <= i < |bucket| ==> Selected(m, bucket, pos, k).order[i] in bucket
  {
    SelectedReorders(m, bucket, pos, k);
    hide Selected, Distinct;
  }

  lemma SelectedSameNext(m: map<Id, Info>, m': map<Id, Info>, bucket: seq<Id>, pos: seq<nat>, i: nat)
    requires i < |pos| && i < |bucket| && DrawsOk(pos, |bucket|)
    requires forall x :: x in bucket ==> x in m && x in m' && m[x].nLastSuccess == m'[x].nLastSuccess
    requires Selected(m, bucket, pos, i) == Selected(m', bucket, pos, i)
    ensures Selected(m, bucket, pos, i + 1) == Selected(m', bucket, pos, i + 1)
  {
    SelectedMembers(m, bucket, pos, i);
    SelectedNext(m, bucket, pos, i);
    SelectedNext(m', bucket, pos, i);
    hide Selected, SwapAt;
    var s := Selected(m, bucket, pos, i);
    var x, y := s.order[pos[i]], s.order[s.round];
    assert x in bucket && y in bucket;
  }

  lemma {:induction false} SelectedSame(m: map<Id, Info>, m': map<Id, Info>, bucket: seq<Id>, pos: seq<nat>, k: nat)
    requires k <= |pos| && k <= |bucket| && DrawsOk(pos, |bucket|)
    requires forall x :: x in bucket ==> x in m && x in m' && m[x].nLastSuccess == m'[x].nLastSuccess
    ensures Selected(m, bucket, pos, k) == Selected(m', bucket, pos, k)
    ensures forall i :: 0 <= i < |bucket| ==> Selected(m, bucket, pos, k).order[i] in bucket
  {
    hide Selected;
    if k == 0 {
      SelectedNone(m, bucket, pos);
      SelectedNone(m', bucket, pos);
    } else {
      SelectedSame(m, m', bucket, pos, k - 1);
      SelectedSameNext(m, m', bucket, pos, k - 1);
    }
    SelectedMembers(m, bucket, pos, k);
  }

  lemma VictimIs(t: Tables, m: map<Id, Info>, key: Key, id: Id, k: nat, pos: seq<nat>)
    requires Inv(t, key) && id in t.mapInfo && !t.mapInfo[id].fInTried
    requires m == t.mapInfo[id := t.mapInfo[id].(nRefCount := 0)]
    requires k == TriedBucket(key, t.mapInfo[id].addr) && k < |t.vvTried| && |t.vvTried[k]| == TRIED_BUCKET_SIZE
    requires |pos| == 4 && DrawsOk(pos, |t.vvTried[k]|)
    ensures (forall x :: x in t.vvTried[k] ==> x in t.mapInfo) && 4 <= |t.vvTried[k]|
    ensures forall x :: x in t.vvTried[k] ==> x in m
    ensures
      var s := Selected(m, t.vvTried[k], pos, 4);
      && s == Selected(t.mapInfo, t.vvTried[k], pos, 4)
      && s.round < 4 && pos[s.round] < |s.order|
      && s.order[pos[s.round]] in m && s.order[pos[s.round]] != id
      && m[s.order[pos[s.round]]] == t.mapInfo[s.order[pos[s.round]]]
  {
    InvTried(t, key);
    hide Inv, Selected;
    SelectedSame(t.mapInfo, m, t.vvTried[k], pos, 4);
    var s := Selected(t.mapInfo, t.vvTried[k], pos, 4);
    assert s.order[pos[s.round]] in t.vvTried[k];
  }

  lemma IsDisplaced(t: Tables, t': Tables, key: Key, id: Id, origin: nat, pos: seq<nat>, s: Selection, victim: Id, target: nat)
    requires id in t.mapInfo && |t.vvTried| == TRIED_BUCKET_COUNT && |t.vvNew| == NEW_BUCKET_COUNT && origin < |t.vvNew|
    requires |t.vvTried[TriedBucket(key, t.mapInfo[id].addr)]| == TRIED_BUCKET_SIZE && |pos| == 4
    requires DrawsOk(pos, |t.vvTried[TriedBucket(key, t.mapInfo[id].addr)]|)
    requires forall x :: x in t.vvTried[TriedBucket(key, t.mapInfo[id].addr)] ==> x in t.mapInfo
    requires s == Selected(t.mapInfo, t.vvTried[TriedBucket(key, t.mapInfo[id].addr)], pos, 4)
    requires s.round < 4 && pos[s.round] < |s.order| && victim == s.order[pos[s.round]] && victim in t.mapInfo && victim != id
    requires target ==
      var own := NewBucket(key, t.mapInfo[victim].addr.ip, t.mapInfo[victim].source);
      if |ClearNew(t.vvNew, id)[own]| < NEW_BUCKET_SIZE then own else origin
    requires t' ==
      var k := TriedBucket(key, t.mapInfo[id].addr);
      var vv := ClearNew(t.vvNew, id);
      var m := t.mapInfo[id := t.mapInfo[id].(nRefCount := 0)];
      var m' := m[victim := m[victim].(fInTried := false, nRefCount := 1)];
      var tried := t.vvTried[k := s.order];
      t.(mapInfo := m'[id := m'[id].(fInTried := true)], vvNew := vv[target := vv[target] + {victim}],
         nNew := t.nNew - 1 + 1, vvTried := tried[k := tried[k][pos[s.round] := id]])
    ensures Promoted(t, t', key, id, origin, pos)
  {
    hide Selected, TriedBucket, NewBucket;
    var m := t.mapInfo[id := t.mapInfo[id].(nRefCount := 0)];
    var m' := m[victim := m[victim].(fInTried := false, nRefCount := 1)];
    var f := t.mapInfo[id := t.mapInfo[id].(nRefCount := 0, fInTried := true)];
    assert m'[id := m'[id].(fInTried := true)] == f[victim := f[victim].(fInTried := false, nRefCount := 1)];
  }

  // ---------------------------------------------------------------- what Add_ does

  /** A known record after its time and services were brought up to date. */
  function Refreshed(info: Info, a: CAddress, nTimePenalty: int, nNow: int): Info {
    var nUpdateInterval := if nNow - a.nTime < 24 * 60 * 60 then 60 * 60 else 24 * 60 * 60;
    var newTime :=
      if a.nTime != 0 && (info.nTime == 0 || info.nTime < a.nTime - nUpdateInterval - nTimePenalty)
      then U32(Max(0, a.nTime - nTimePenalty)) else info.nTime;
    info.(nTime := newTime, nServices := info.nServices | a.nServices)
  }

  /** The reasons for which a known record is not listed once more. */
  predicate KeepsOut(info: Info, a: CAddress, roll: nat) {
    || a.nTime == 0 || (info.nTime != 0 && a.nTime <= info.nTime)
    || info.fInTried
    || info.nRefCount == NEW_BUCKETS_PER_ADDRESS
    || (info.nRefCount > 0 && roll != 0)
  }

  function Penalised(a: CAddress, source: NetAddr, nTimePenalty: int): Info {
    NewInfo(a, source).(nTime := U32(Max(0, a.nTime - nTimePenalty)))
  }

  /** The tables before listing: the record refreshed, or freshly created. */
  function Prepared(t: Tables, a: CAddress, source: NetAddr, nTimePenalty: int, nNow: int): Tables {
    if a.addr.ip in t.mapAddr && t.mapAddr[a.addr.ip] in t.mapInfo then
      var id := t.mapAddr[a.addr.ip];
      Touch(t, id, Refreshed(t.mapInfo[id], a, nTimePenalty, nNow))
    else Created(t, Penalised(a, source, nTimePenalty))
  }

  /** The whole effect of Add_. */
  ghost predicate AddEffect(t: Tables, t': Tables, key: Key, a: CAddress, routable: bool, source: NetAddr,
                            nTimePenalty: int, nNow: int, roll: nat, n: seq<nat>, victim: Id) {
    if !routable || a.addr.port == 0 then t' == t
    else
      var s := Prepared(t, a, source, nTimePenalty, nNow);
      var id := if a.addr.ip in t.mapAddr then t.mapAddr[a.addr.ip] else t.nIdCount;
      && id in s.mapInfo && s.mapInfo[id].addr.ip == a.addr.ip
      && if a.addr.ip in t.mapAddr && KeepsOut(s.mapInfo[id], a, roll) then t' == s
         else Listed(s, t', NewBucket(key, a.addr.ip, source), id, n, nNow, victim)
  }

  lemma RefreshInv(t: Tables, key: Key, a: CAddress, nTimePenalty: int, nNow: int)
    requires Inv(t, key) && a.addr.ip in t.mapAddr
    ensures
      var id := t.mapAddr[a.addr.ip];
      && id in t.mapInfo && t.mapInfo[id].addr.ip == a.addr.ip
      && Refreshed(t.mapInfo[id], a, nTimePenalty, nNow).addr.ip == a.addr.ip
      && Inv(Touch(t, id, Refreshed(t.mapInfo[id], a, nTimePenalty, nNow)), key)
      && InvMid(Touch(t, id, Refreshed(t.mapInfo[id], a, nTimePenalty, nNow)), key, None, None)
  {
    hide TriedOk, CountsOk, RandomOk, RefsOk, NewOk, Touch;
    var id := t.mapAddr[a.addr.ip];
    TouchInv(t, key, None, None, id, Refreshed(t.mapInfo[id], a, nTimePenalty, nNow));
  }

  lemma AddNothing(t: Tables, key: Key, a: CAddress, routable: bool, source: NetAddr,
                   nTimePenalty: int, nNow: int, roll: nat, n: seq<nat>, victim: Id)
    requires Inv(t, key)
    ensures !routable || a.addr.port == 0 ==>
      AddEffect(t, t, key, a, routable, source, nTimePenalty, nNow, roll, n, victim)
    ensures routable && a.addr.port != 0 && a.addr.ip in t.mapAddr ==>
      var id := t.mapAddr[a.addr.ip];
      id in t.mapInfo &&
      (var info := Refreshed(t.mapInfo[id], a, nTimePenalty, nNow);
       KeepsOut(info, a, roll) ==>
         AddEffect(t, Touch(t, id, info), key, a, routable, source, nTimePenalty, nNow, roll, n, victim))
  {
    hide TriedOk, CountsOk, RandomOk, RefsOk, NewOk, KeepsOut, Listed;
  }

  lemma IsTouched(t: Tables, t': Tables, id: Id, info: Info)
    requires t' == t.(mapInfo := t.mapInfo[id := info])
    ensures t' == Touch(t, id, info) && t'.mapInfo[id] == info
  {
  }

  lemma KeptIn(t: Tables, key: Key, id: Id, a: CAddress, roll: nat)
    requires Inv(t, key) && id in t.mapInfo && !KeepsOut(t.mapInfo[id], a, roll)
    ensures !t.mapInfo[id].fInTried && t.mapInfo[id].nRefCount < NEW_BUCKETS_PER_ADDRESS
  {
    hide TriedOk, CountsOk, RandomOk, NewOk, AddrOk;
  }

  lemma AddListed(t: Tables, s: Tables, t': Tables, key: Key, a: CAddress, routable: bool, source: NetAddr,
                  nTimePenalty: int, nNow: int, roll: nat, n: seq<nat>, id: Id, victim: Id)
    requires Inv(t, key) && routable && a.addr.port != 0
    requires id == if a.addr.ip in t.mapAddr then t.mapAddr[a.addr.ip] else t.nIdCount
    requires id in s.mapInfo && s.mapInfo[id].addr.ip == a.addr.ip
    requires
      if a.addr.ip in t.mapAddr then
        && id in t.mapInfo && s == Touch(t, id, Refreshed(t.mapInfo[id], a, nTimePenalty, nNow))
        && !KeepsOut(s.mapInfo[id], a, roll)
      else s == Created(t, Penalised(a, source, nTimePenalty))
    requires Listed(s, t', NewBucket(key, a.addr.ip, source), id, n, nNow, victim)
    ensures AddEffect(t, t', key, a, routable, source, nTimePenalty, nNow, roll, n, victim)
  {
    hide Inv, KeepsOut, Listed, Created, Touch;
  }

  lemma IsCreated(t: Tables, t': Tables, a: CAddress, source: NetAddr, nTimePenalty: int)
    requires t' ==
      var c := Created(t, NewInfo(a, source));
      c.(mapInfo := c.mapInfo[t.nIdCount := c.mapInfo[t.nIdCount].(nTime := U32(Max(0, a.nTime - nTimePenalty)))])
    ensures t' == Created(t, Penalised(a, source, nTimePenalty))
  {
    var c := Created(t, NewInfo(a, source));
    var info := c.mapInfo[t.nIdCount].(nTime := U32(Max(0, a.nTime - nTimePenalty)));
    assert c.mapInfo[t.nIdCount := info] == Created(t, Penalised(a, source, nTimePenalty)).mapInfo;
  }

  lemma PenalisedInv(t: Tables, key: Key, a: CAddress, source: NetAddr, nTimePenalty: int)
    requires Inv(t, key) && a.addr.ip !in t.mapAddr
    ensures
      var s := Created(t, Penalised(a, source, nTimePenalty));
      && InvMid(s, key, None, Some(t.nIdCount))
      && t.nIdCount in s.mapInfo && s.mapInfo[t.nIdCount].addr == a.addr
      && !s.mapInfo[t.nIdCount].fInTried && s.mapInfo[t.nIdCount].nRefCount == 0
  {
    hide Inv, InvMid;
    CreatedInv(t, key, Penalised(a, source, nTimePenalty));
  }

  lemma FoundRecord(t: Tables, key: Key, ip: NetAddr)
    requires Inv(t, key)
    ensures ip in t.mapAddr ==> t.mapAddr[ip] in t.mapInfo && t.mapInfo[t.mapAddr[ip]].addr.ip == ip
    ensures ip in t.mapAddr ==> TimesOk(t.mapInfo[t.mapAddr[ip]])
  {
    hide TriedOk, CountsOk, RandomOk, RefsOk, NewOk;
  }

  lemma AllListed(t: Tables, key: Key)
    requires Inv(t, key)
    ensures forall i :: 0 <= i < |t.vRandom| ==> t.vRandom[i] in t.mapInfo
  {
    hide TriedOk, CountsOk, AddrOk, RefsOk, NewOk;
  }

  lemma SwapKeepsSize(t: Tables, i: nat, j: nat)
    requires i < |t.vRandom| && j < |t.vRandom| && t.vRandom[i] in t.mapInfo && t.vRandom[j] in t.mapInfo
    ensures |SwapRandom(t, i, j).vRandom| == |t.vRandom|
  {
  }

  /** vAddr are the addresses of the records at the first random positions. */
  ghost predicate FrontOf(m: map<Id, Info>, vRandom: seq<Id>, vAddr: seq<Info>) {
    && |vAddr| <= |vRandom|
    && forall i :: 0 <= i < |vAddr| ==> vRandom[i] in m && vAddr[i].addr == m[vRandom[i]].addr
  }

  lemma NoneYet(m: map<Id, Info>, vRandom: seq<Id>)
    ensures FrontOf(m, vRandom, []) && GETADDR_MAX_PCT == 23 && GETADDR_MAX == 2500
  {
  }

  lemma SwapKeepsFront(t: Tables, i: nat, j: nat, vAddr: seq<Info>)
    requires |vAddr| == i <= j < |t.vRandom| && forall k :: 0 <= k < |t.vRandom| ==> t.vRandom[k] in t.mapInfo
    requires FrontOf(t.mapInfo, t.vRandom, vAddr)
    ensures FrontOf(SwapRandom(t, i, j).mapInfo, SwapRandom(t, i, j).vRandom, vAddr)
    ensures |SwapRandom(t, i, j).vRandom| == |t.vRandom|
    ensures Alike(t.mapInfo, SwapRandom(t, i, j).mapInfo)
  {
  }

  lemma OneMore(m: map<Id, Info>, vRandom: seq<Id>, vAddr: seq<Info>, info: Info)
    requires FrontOf(m, vRandom, vAddr) && |vAddr| < |vRandom|
    requires vRandom[|vAddr|] in m && info == m[vRandom[|vAddr|]]
    ensures FrontOf(m, vRandom, vAddr + [info])
  {
  }

  lemma AlikeChain(a: map<Id, Info>, b: map<Id, Info>, c: map<Id, Info>)
    ensures Alike(a, a) && (Alike(a, b) && Alike(b, c) ==> Alike(a, c))
  {
  }

  lemma DistinctAddresses(t: Tables, key: Key, vAddr: seq<Info>)
    requires Inv(t, key) && |vAddr| <= |t.vRandom|
    requires FrontOf(t.mapInfo, t.vRandom, vAddr)
    ensures forall i, j :: 0 <= i < j < |vAddr| ==> vAddr[i].addr.ip != vAddr[j].addr.ip
  {
    hide TriedOk, CountsOk, RefsOk, NewOk;
    forall i, j | 0 <= i < j < |vAddr| ensures vAddr[i].addr.ip != vAddr[j].addr.ip {
      assert t.mapInfo[t.vRandom[i]].nRandomPos == i && t.mapInfo[t.vRandom[j]].nRandomPos == j;
    }
  }

  /** DropRef in the order the code works: uncount, erase, leave the bucket. */
  lemma DropSteps(t: Tables, b: nat, id: Id)
    requires b < |t.vvNew| && Droppable(t, id)
    ensures
      var u := SetRefCount(t, id, t.mapInfo[id].nRefCount - 1);
      && Droppable(u, id)
      && DropRef(t, b, id) == (if u.mapInfo[id].nRefCount == 0 then Erase(u, id) else u).(vvNew := TakeNew(t.vvNew, b, id))
      && (if u.mapInfo[id].nRefCount == 0 then Erase(u, id) else u).vvNew == t.vvNew
  {
  }

  // ---------------------------------------------------------------- listing

  /** t' is t with `id` listed in new bucket b, one reference more; a full bucket first
      loses a reference of its victim. Nothing happens to an id already listed there. */
  ghost predicate Listed(t: Tables, t': Tables, b: nat, id: Id, n: seq<nat>, nNow: int, victim: Id) {
    && id in t.mapInfo && b < |t.vvNew|
    && if id in t.vvNew[b] then t' == t
       else
         var a := SetRefCount(t, id, t.mapInfo[id].nRefCount + 1);
         if |t.vvNew[b]| != NEW_BUCKET_SIZE then t' == a.(vvNew := PutNew(a.vvNew, b, id))
         else
           && IsShrinkVictim(a.mapInfo, a.vvNew[b], n, nNow, victim) && Droppable(a, victim)
           && |DropRef(a, b, victim).vvNew| == |t.vvNew|
           && t' == DropRef(a, b, victim).(vvNew := PutNew(DropRef(a, b, victim).vvNew, b, id))
  }

  lemma MidBuckets(t: Tables, key: Key, unref: Option<Id>, id: Id, b: nat)
    requires InvMid(t, key, None, unref) && b < NEW_BUCKET_COUNT
    ensures |t.vvNew| == NEW_BUCKET_COUNT && |t.vvNew[b]| <= NEW_BUCKET_SIZE
  {
    hide TriedOk, AddrOk, CountsOk, RecordsOk, RandomOk, RefsOk;
  }

  lemma Announced(t: Tables, a: Tables, id: Id)
    requires id in t.mapInfo
    requires a == t.(mapInfo := t.mapInfo[id := t.mapInfo[id].(nRefCount := t.mapInfo[id].nRefCount + 1)])
    ensures a == SetRefCount(t, id, t.mapInfo[id].nRefCount + 1) && a.vvNew == t.vvNew
    ensures id in a.mapInfo && a.mapInfo[id].fInTried == t.mapInfo[id].fInTried
  {
  }

  lemma AfterShrink(a: Tables, d: Tables, key: Key, b: nat, id: Id, n: seq<nat>, nNow: int, victim: Id)
    requires InvMid(a, key, Some(id), None) && b < |a.vvNew| && id !in a.vvNew[b]
    requires IsShrinkVictim(a.mapInfo, a.vvNew[b], n, nNow, victim) && id in a.mapInfo && !a.mapInfo[id].fInTried
    requires Droppable(a, victim) && d == DropRef(a, b, victim)
    ensures id in d.mapInfo && !d.mapInfo[id].fInTried && |d.vvNew| == |a.vvNew| && id !in d.vvNew[b]
    ensures |a.vvNew[b]| <= NEW_BUCKET_SIZE ==> |d.vvNew[b]| < NEW_BUCKET_SIZE
  {
    hide TriedOk, AddrOk, CountsOk, RecordsOk, RandomOk, RefsOk;
  }

  lemma ListedFrom(t: Tables, a: Tables, d: Tables, t': Tables, b: nat, id: Id, n: seq<nat>, nNow: int, victim: Id)
    requires id in t.mapInfo && b < |t.vvNew| && id !in t.vvNew[b]
    requires a == SetRefCount(t, id, t.mapInfo[id].nRefCount + 1) && |d.vvNew| == |t.vvNew|
    requires
      if |t.vvNew[b]| != NEW_BUCKET_SIZE then d == a
      else IsShrinkVictim(a.mapInfo, a.vvNew[b], n, nNow, victim) && Droppable(a, victim) && d == DropRef(a, b, victim)
    requires t' == d.(vvNew := d.vvNew[b := d.vvNew[b] + {id}])
    ensures Listed(t, t', b, id, n, nNow, victim) && t' == d.(vvNew := PutNew(d.vvNew, b, id))
  {
    hide IsShrinkVictim, DropRef, Droppable;
  }

  lemma AlreadyListed(t: Tables, key: Key, unref: Option<Id>, b: nat, id: Id, n: seq<nat>, nNow: int, victim: Id)
    requires InvMid(t, key, None, unref) && b < |t.vvNew| && id in t.vvNew[b] && (unref.None? || unref == Some(id))
    requires id in t.mapInfo && (unref.Some? ==> t.mapInfo[id].nRefCount == 0)
    ensures Inv(t, key) && Listed(t, t, b, id, n, nNow, victim)
  {
    hide TriedOk, AddrOk, CountsOk, RecordsOk, RandomOk;
    assert b in NewBuckets(t.vvNew, id);
  }

  lemma IsDroppable(t: Tables, id: Id)
    requires id in t.mapInfo && 0 <= t.mapInfo[id].nRandomPos < |t.vRandom|
    requires t.vRandom[t.mapInfo[id].nRandomPos] == id && t.vRandom[|t.vRandom| - 1] in t.mapInfo
    ensures Droppable(t, id)
  {
  }

  /** The record is known and stands where it says in the random order. */
  predicate Droppable(t: Tables, id: Id) {
    && id in t.mapInfo && 0 <= t.mapInfo[id].nRandomPos < |t.vRandom|
    && t.vRandom[t.mapInfo[id].nRandomPos] == id && t.vRandom[|t.vRandom| - 1] in t.mapInfo
  }

  lemma BucketKnown(t: Tables, key: Key, pending: Option<Id>, b: nat)
    requires InvMid(t, key, pending, None) && b < |t.vvNew|
    ensures forall id :: id in t.vvNew[b] ==> id in t.mapInfo && !t.mapInfo[id].fInTried
    ensures |t.vvNew| == NEW_BUCKET_COUNT && |t.vvNew[b]| <= NEW_BUCKET_SIZE
  {
    hide TriedOk, AddrOk, CountsOk, RecordsOk, RandomOk, RefsOk;
  }

  lemma FirstTerrible(mapInfo: map<Id, Info>, bucket: set<Id>, n: seq<nat>, nNow: int, i: nat)
    requires i < |Ascending(bucket)| && forall x :: x in bucket ==> x in mapInfo
    requires IsTerrible(mapInfo[Ascending(bucket)[i]], nNow)
    requires forall j :: 0 <= j < i ==> !IsTerrible(mapInfo[Ascending(bucket)[j]], nNow)
    ensures IsShrinkVictim(mapInfo, bucket, n, nNow, Ascending(bucket)[i]) && Ascending(bucket)[i] in bucket
  {
    hide IsTerrible, Ascending;
    var order := Ascending(bucket);
    assert order[i] in order;
    forall x | x in bucket && IsTerrible(mapInfo[x], nNow) ensures order[i] <= x {
      assert x in order;
      var j :| 0 <= j < |order| && order[j] == x;
    }
  }

  lemma OldestIsVictim(mapInfo: map<Id, Info>, bucket: set<Id>, n: seq<nat>, nNow: int)
    requires |n| == 4 && (forall i :: 0 <= i < 4 ==> n[i] < |bucket|) && forall x :: x in bucket ==> x in mapInfo
    requires forall j :: 0 <= j < |Ascending(bucket)| ==> !IsTerrible(mapInfo[Ascending(bucket)[j]], nNow)
    ensures
      var order := Ascending(bucket);
      var best := OldestOf(mapInfo, order, |order|, n);
      best.Some? && IsShrinkVictim(mapInfo, bucket, n, nNow, best.value)
      && best.value in bucket && !IsTerrible(mapInfo[best.value], nNow)
  {
    hide IsTerrible, OldestOf, Ascending;
    var order := Ascending(bucket);
    OldestOfMeans(mapInfo, order, |order|, n);
    assert n[0] in n;
    assert forall x :: x in bucket ==> x in order;
  }
}
