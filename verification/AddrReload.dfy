/** Reading back the address file of valid tables gives the same tables up to a renaming of
    the ids, and valid ones (src/addrman.h:258-390). */
module AddrReload {
  import opened Collections
  import opened AddrTables
  import opened AddrMoves
  import opened AddrFile

  /** u is t with id ids[i] renamed to i: the same records but for nLastTry and the random
      position, the same buckets, the tried ones up to order. */
  ghost predicate Renamed(t: Tables, u: Tables, ids: seq<Id>) {
    && RenamedRecords(t, u, ids, |ids|) && u.nIdCount as int == |ids|
    && (forall x :: x in t.mapInfo ==> exists i :: 0 <= i < |ids| && ids[i] == x)
    && (forall i: Id :: i as int < |ids| ==> u.mapInfo[i].nRefCount == t.mapInfo[ids[i]].nRefCount)
    && u.nNew == t.nNew && u.nTried == t.nTried
    && RenamedNew(t.vvNew, u.vvNew, ids)
    && |u.vvTried| == |t.vvTried|
    && (forall b :: 0 <= b < |t.vvTried| ==> RenamedTried(t.vvTried[b], u.vvTried[b], ids))
  }

  /** The records, addresses and random order after the first k ids, reference counts aside. */
  ghost predicate RenamedRecords(t: Tables, u: Tables, ids: seq<Id>, k: nat) {
    && k <= |ids| && Distinct(ids) && (forall i :: 0 <= i < |ids| ==> ids[i] in t.mapInfo)
    && (forall i: Id :: i in u.mapInfo <==> i as int < k)
    && (forall i: Id :: i as int < k ==> RenamedRecord(t.mapInfo[ids[i]], u.mapInfo[i], i as int))
    && RenamedAddrs(t.mapInfo, u.mapAddr, ids, k)
    && |u.vRandom| == k && (forall i: Id :: i as int < k ==> u.vRandom[i] == i)
  }

  ghost predicate RenamedAddrs(m: map<Id, Info>, mapAddr: map<NetAddr, Id>, ids: seq<Id>, k: nat)
    requires k <= |ids| && forall i :: 0 <= i < |ids| ==> ids[i] in m
  {
    && (forall i: Id :: i as int < k ==> m[ids[i]].addr.ip in mapAddr && mapAddr[m[ids[i]].addr.ip] == i)
    && (forall ip :: ip in mapAddr ==> mapAddr[ip] as int < k && m[ids[mapAddr[ip]]].addr.ip == ip)
  }

  predicate RenamedRecord(a: Info, b: Info, i: int) {
    b == a.(nLastTry := 0, nRandomPos := i, nRefCount := b.nRefCount)
  }

  ghost predicate RenamedNew(vvNew: seq<set<Id>>, vvNew': seq<set<Id>>, ids: seq<Id>) {
    && |vvNew'| == |vvNew|
    && forall b :: 0 <= b < |vvNew| ==> RenamedBucket(vvNew[b], vvNew'[b], ids)
  }

  ghost predicate RenamedBucket(bucket: set<Id>, bucket': set<Id>, ids: seq<Id>) {
    forall i: Id :: i in bucket' <==> i as int < |ids| && ids[i] in bucket
  }

  ghost predicate RenamedTried(bucket: seq<Id>, bucket': seq<Id>, ids: seq<Id>) {
    && Distinct(bucket') && |bucket'| <= TRIED_BUCKET_SIZE
    && forall i: Id :: i in bucket' <==> i as int < |ids| && ids[i] in bucket
  }

  // ---------------------------------------------------------------- a renaming keeps the invariant

  /** A renaming maps a set into one at least as large. */
  lemma {:induction false} IntoCard(a: set<Id>, b: set<Id>, ids: seq<Id>)
    requires Distinct(ids) && forall x :: x in a ==> x as int < |ids| && ids[x] in b
    ensures |a| <= |b|
    decreases |a|
  {
    if a != {} {
      var x := Pick(a);
      IntoCard(a - {x}, b - {ids[x]}, ids);
    }
  }

  /** A renaming that hits every member keeps the size. */
  lemma {:induction false} OntoCard(a: set<Id>, b: set<Id>, ids: seq<Id>)
    requires Distinct(ids) && forall x :: x in a ==> x as int < |ids| && ids[x] in b
    requires forall y :: y in b ==> exists x: Id :: x in a && x as int < |ids| && ids[x] == y
    ensures |a| == |b|
    decreases |a|
  {
    if a != {} {
      var x := Pick(a);
      OntoCard(a - {x}, b - {ids[x]}, ids);
    }
  }

  lemma RenamedRandom(t: Tables, u: Tables, ids: seq<Id>)
    requires RecordsOk(t.nIdCount, t.mapInfo) && RenamedRecords(t, u, ids, |ids|) && u.nIdCount as int == |ids|
    ensures RecordsOk(u.nIdCount, u.mapInfo) && RandomOk(u.mapInfo, u.vRandom)
  {
    forall i | 0 <= i < |u.vRandom| ensures u.vRandom[i] in u.mapInfo && u.mapInfo[u.vRandom[i]].nRandomPos == i {
      assert u.vRandom[i as Id] == i as Id;
    }
  }

  lemma RenamedAddr(t: Tables, u: Tables, ids: seq<Id>)
    requires RenamedRecords(t, u, ids, |ids|)
    ensures AddrOk(u.mapInfo, u.mapAddr)
  {
  }

  lemma RenamedNewOk(t: Tables, u: Tables, key: Key, ids: seq<Id>)
    requires NewOk(t.mapInfo, t.vvNew) && RenamedRecords(t, u, ids, |ids|) && RenamedNew(t.vvNew, u.vvNew, ids)
    ensures NewOk(u.mapInfo, u.vvNew)
  {
    forall b | 0 <= b < |u.vvNew| ensures |u.vvNew[b]| <= NEW_BUCKET_SIZE {
      assert RenamedBucket(t.vvNew[b], u.vvNew[b], ids);
      IntoCard(u.vvNew[b], t.vvNew[b], ids);
    }
    forall b, i | 0 <= b < |u.vvNew| && i in u.vvNew[b] ensures i in u.mapInfo && !u.mapInfo[i].fInTried {
      assert RenamedBucket(t.vvNew[b], u.vvNew[b], ids);
    }
  }

  lemma SameBuckets(vvNew: seq<set<Id>>, vvNew': seq<set<Id>>, ids: seq<Id>, i: Id)
    requires RenamedNew(vvNew, vvNew', ids) && i as int < |ids|
    ensures NewBuckets(vvNew', i) == NewBuckets(vvNew, ids[i])
  {
    forall b: nat | b < |vvNew| ensures i in vvNew'[b] <==> ids[i] in vvNew[b] {
      assert RenamedBucket(vvNew[b], vvNew'[b], ids);
    }
  }

  lemma RefsSame(t: Tables, u: Tables, ids: seq<Id>)
    requires RenamedRecords(t, u, ids, |ids|)
    requires forall i: Id :: i as int < |ids| ==> u.mapInfo[i].nRefCount == t.mapInfo[ids[i]].nRefCount
    ensures forall i: Id :: i in u.mapInfo ==> i as int < |ids| && ids[i] in t.mapInfo
    ensures forall i: Id :: i in u.mapInfo ==>
      u.mapInfo[i].fInTried == t.mapInfo[ids[i]].fInTried && u.mapInfo[i].nRefCount == t.mapInfo[ids[i]].nRefCount
  {
    hide RenamedAddrs, Distinct;
  }

  /** What RefsOk says about one record. */
  ghost predicate RefOk(info: Info, buckets: nat) {
    && info.nRefCount == buckets
    && (if info.fInTried then info.nRefCount == 0 else 1 <= info.nRefCount <= NEW_BUCKETS_PER_ADDRESS)
  }

  lemma RefsEach(m: map<Id, Info>, vvNew: seq<set<Id>>)
    ensures RefsOk(m, vvNew, None, None) <==> forall id :: id in m ==> RefOk(m[id], |NewBuckets(vvNew, id)|)
  {
    hide NewBuckets;
  }

  lemma RenamedRefs(t: Tables, u: Tables, ids: seq<Id>)
    requires RefsOk(t.mapInfo, t.vvNew, None, None) && RenamedRecords(t, u, ids, |ids|) && RenamedNew(t.vvNew, u.vvNew, ids)
    requires forall i: Id :: i as int < |ids| ==> u.mapInfo[i].nRefCount == t.mapInfo[ids[i]].nRefCount
    ensures RefsOk(u.mapInfo, u.vvNew, None, None)
  {
    RefsSame(t, u, ids);
    hide NewBuckets, RenamedNew, RenamedRecords, RefsOk;
    RefsEach(t.mapInfo, t.vvNew);
    forall i | i in u.mapInfo ensures RefOk(u.mapInfo[i], |NewBuckets(u.vvNew, i)|) {
      SameBuckets(t.vvNew, u.vvNew, ids, i);
      assert RefOk(t.mapInfo[ids[i]], |NewBuckets(t.vvNew, ids[i])|);
    }
    RefsEach(u.mapInfo, u.vvNew);
  }

  lemma RenamedTriedOk(t: Tables, u: Tables, key: Key, ids: seq<Id>)
    requires TriedOk(t.mapInfo, t.vvTried, key) && RenamedRecords(t, u, ids, |ids|) && |u.vvTried| == |t.vvTried|
    requires forall b :: 0 <= b < |t.vvTried| ==> RenamedTried(t.vvTried[b], u.vvTried[b], ids)
    ensures TriedOk(u.mapInfo, u.vvTried, key)
  {
    hide TriedBucket;
    forall b, i | 0 <= b < |u.vvTried| && 0 <= i < |u.vvTried[b]|
      ensures u.vvTried[b][i] in u.mapInfo && u.mapInfo[u.vvTried[b][i]].fInTried
      ensures TriedBucket(key, u.mapInfo[u.vvTried[b][i]].addr) == b
    {
      assert u.vvTried[b][i] in u.vvTried[b];
      assert ids[u.vvTried[b][i]] in t.vvTried[b];
    }
  }

  lemma RenamedCounts(t: Tables, u: Tables, key: Key, ids: seq<Id>)
    requires CountsOk(t) && Renamed(t, u, ids)
    ensures CountsOk(u)
  {
    hide RenamedNew, RenamedTried;
    forall y | y in t.mapInfo ensures exists x: Id :: x in u.mapInfo && x as int < |ids| && ids[x] == y {
      var i :| 0 <= i < |ids| && ids[i] == y;
      assert ids[i as Id] == y;
    }
    OntoCard(NewIds(u.mapInfo), NewIds(t.mapInfo), ids);
    OntoCard(TriedIds(u.mapInfo), TriedIds(t.mapInfo), ids);
  }

  lemma RenamedInv(t: Tables, u: Tables, key: Key, ids: seq<Id>)
    requires Inv(t, key) && Renamed(t, u, ids)
    ensures Inv(u, key)
  {
    hide RecordsOk, RandomOk, AddrOk, NewOk, RefsOk, TriedOk, CountsOk, RenamedRecords, RenamedNew, RenamedTried;
    RenamedRandom(t, u, ids);
    RenamedAddr(t, u, ids);
    RenamedNewOk(t, u, key, ids);
    RenamedRefs(t, u, ids);
    RenamedTriedOk(t, u, key, ids);
    RenamedCounts(t, u, key, ids);
  }

  // ---------------------------------------------------------------- reading the records

  ghost predicate AllEmpty(vvNew: seq<set<Id>>) {
    |vvNew| == NEW_BUCKET_COUNT && forall b :: 0 <= b < |vvNew| ==> vvNew[b] == {}
  }

  /** The first k ids fill the tried buckets as far as they are tried. */
  ghost predicate TriedSoFar(t: Tables, key: Key, ids: seq<Id>, vvTried: seq<seq<Id>>, k: nat) {
    && |vvTried| == TRIED_BUCKET_COUNT && k <= |ids| && (forall i :: 0 <= i < |ids| ==> ids[i] in t.mapInfo)
    && forall b :: 0 <= b < |vvTried| ==> FilledTo(t, key, ids, vvTried[b], b, k)
  }

  ghost predicate FilledTo(t: Tables, key: Key, ids: seq<Id>, bucket: seq<Id>, b: nat, k: nat)
    requires k <= |ids| && forall i :: 0 <= i < |ids| ==> ids[i] in t.mapInfo
  {
    && Distinct(bucket) && |bucket| <= TRIED_BUCKET_SIZE
    && forall i: Id :: i in bucket <==>
         i as int < k && t.mapInfo[ids[i]].fInTried && TriedBucket(key, t.mapInfo[ids[i]].addr) == b
  }

  ghost predicate ReadSoFar(t: Tables, key: Key, ids: seq<Id>, u: Tables, k: nat) {
    && RenamedRecords(t, u, ids, k) && (forall i: Id :: i as int < k ==> u.mapInfo[i].nRefCount == 0)
    && AllEmpty(u.vvNew) && TriedSoFar(t, key, ids, u.vvTried, k)
    && u.nNew == t.nNew && u.nTried == t.nTried
  }

  lemma RecordStep(t: Tables, u: Tables, u': Tables, ids: seq<Id>, k: Id, info: Info)
    requires RenamedRecords(t, u, ids, k as int) && k as int < |ids| && AddrOk(t.mapInfo, t.mapAddr)
    requires RenamedRecord(t.mapInfo[ids[k]], info, k as int)
    requires u'.mapInfo == u.mapInfo[k := info] && u'.mapAddr == u.mapAddr[info.addr.ip := k]
    requires u'.vRandom == u.vRandom + [k]
    ensures RenamedRecords(t, u', ids, k as int + 1)
  {
    assert info.addr == t.mapInfo[ids[k]].addr;
    AddrStep(t, u.mapAddr, ids, k);
    hide AddrOk, Distinct, RenamedAddrs;
  }

  lemma AddrStep(t: Tables, mapAddr: map<NetAddr, Id>, ids: seq<Id>, k: Id)
    requires k as int < |ids| && Distinct(ids) && AddrOk(t.mapInfo, t.mapAddr)
    requires (forall i :: 0 <= i < |ids| ==> ids[i] in t.mapInfo) && RenamedAddrs(t.mapInfo, mapAddr, ids, k as int)
    ensures RenamedAddrs(t.mapInfo, mapAddr[t.mapInfo[ids[k]].addr.ip := k], ids, k as int + 1)
  {
    OtherAddresses(t, ids, k);
    hide AddrOk, Distinct;
  }

  lemma OtherAddresses(t: Tables, ids: seq<Id>, k: Id)
    requires AddrOk(t.mapInfo, t.mapAddr) && Distinct(ids) && k as int < |ids|
    requires forall i :: 0 <= i < |ids| ==> ids[i] in t.mapInfo
    ensures forall i: Id :: i < k ==> t.mapInfo[ids[i]].addr.ip != t.mapInfo[ids[k]].addr.ip
  {
    forall i: Id | i < k ensures t.mapInfo[ids[i]].addr.ip != t.mapInfo[ids[k]].addr.ip {
      assert t.mapAddr[t.mapInfo[ids[i]].addr.ip] == ids[i];
      assert ids[i as int] != ids[k as int];
    }
  }

  lemma TriedKept(t: Tables, key: Key, ids: seq<Id>, vvTried: seq<seq<Id>>, k: Id)
    requires TriedSoFar(t, key, ids, vvTried, k as int) && k as int < |ids| && !t.mapInfo[ids[k]].fInTried
    ensures TriedSoFar(t, key, ids, vvTried, k as int + 1)
  {
    hide TriedBucket, Distinct;
    forall c | 0 <= c < |vvTried| ensures FilledTo(t, key, ids, vvTried[c], c, k as int + 1) {
      assert FilledTo(t, key, ids, vvTried[c], c, k as int);
    }
  }

  lemma NewStep(t: Tables, key: Key, ids: seq<Id>, u: Tables, k: Id)
    requires AddrOk(t.mapInfo, t.mapAddr) && ReadSoFar(t, key, ids, u, k as int) && k as int < |ids|
    requires !t.mapInfo[ids[k]].fInTried
    ensures ReadSoFar(t, key, ids, ReadNew(u, key, StoredOf(t.mapInfo[ids[k]]), k, false), k as int + 1)
  {
    assert |u.vvNew| == NEW_BUCKET_COUNT;
    assert ids[k as int] in t.mapInfo by {
      RecordsMean(t, u, ids, k as int);
    }
    RecordsMean(t, u, ids, k as int);
    TriedKept(t, key, ids, u.vvTried, k);
    hide RenamedRecords, AddrOk, Distinct, AllEmpty, TriedBucket, TriedSoFar;
    var info := Restored(StoredOf(t.mapInfo[ids[k]])).(nRandomPos := |u.vRandom|);
    RecordStep(t, u, ReadNew(u, key, StoredOf(t.mapInfo[ids[k]]), k, false), ids, k, info);
  }

  lemma RecordsMean(t: Tables, u: Tables, ids: seq<Id>, k: nat)
    requires RenamedRecords(t, u, ids, k)
    ensures Distinct(ids) && |u.vRandom| == k && (forall i: Id :: i in u.mapInfo <==> i as int < k)
    ensures k <= |ids| && forall i :: 0 <= i < |ids| ==> ids[i] in t.mapInfo
  {
  }

  // ---------------------------------------------------------------- room for the tried ids

  /** The tried bucket of the next tried id is not full yet: its members and that id all come
      from one bucket of valid tables. */
  lemma RoomForNext(t: Tables, key: Key, ids: seq<Id>, bucket: seq<Id>, b: nat, k: Id)
    requires TriedOk(t.mapInfo, t.vvTried, key) && Distinct(ids) && k as int < |ids|
    requires forall i :: 0 <= i < |ids| ==> ids[i] in t.mapInfo
    requires FilledTo(t, key, ids, bucket, b, k as int)
    requires t.mapInfo[ids[k]].fInTried && TriedBucket(key, t.mapInfo[ids[k]].addr) == b
    ensures |bucket| < TRIED_BUCKET_SIZE
  {
    hide TriedBucket;
    assert ids[k as int] in t.mapInfo;
    var members := set x | x in bucket;
    var whole := set x | x in t.vvTried[b];
    forall x: Id | x in members + {k} ensures x as int < |ids| && ids[x] in whole {
      assert ids[x as int] in t.mapInfo;
    }
    DistinctCard(bucket);
    DistinctCard(t.vvTried[b]);
    IntoCard(members + {k}, whole, ids);
  }

  lemma TriedAdded(t: Tables, key: Key, ids: seq<Id>, vvTried: seq<seq<Id>>, k: Id)
    requires TriedSoFar(t, key, ids, vvTried, k as int) && k as int < |ids|
    requires t.mapInfo[ids[k]].fInTried && |vvTried[TriedBucket(key, t.mapInfo[ids[k]].addr)]| < TRIED_BUCKET_SIZE
    ensures
      var b := TriedBucket(key, t.mapInfo[ids[k]].addr);
      TriedSoFar(t, key, ids, vvTried[b := vvTried[b] + [k]], k as int + 1)
  {
    hide TriedBucket;
    var b := TriedBucket(key, t.mapInfo[ids[k]].addr);
    var vv := vvTried[b := vvTried[b] + [k]];
    forall c | 0 <= c < |vv| ensures FilledTo(t, key, ids, vv[c], c, k as int + 1) {
      assert FilledTo(t, key, ids, vvTried[c], c, k as int);
    }
  }

  lemma TriedStep(t: Tables, key: Key, ids: seq<Id>, u: Tables, k: Id)
    requires AddrOk(t.mapInfo, t.mapAddr) && TriedOk(t.mapInfo, t.vvTried, key)
    requires ReadSoFar(t, key, ids, u, k as int) && k as int < |ids| && u.nIdCount == k
    requires t.mapInfo[ids[k]].fInTried && t.mapInfo[ids[k]].nRefCount == 0
    ensures
      var v := ReadTried(u, key, StoredOf(t.mapInfo[ids[k]]));
      ReadSoFar(t, key, ids, v, k as int + 1) && v.nIdCount == k + 1
  {
    hide AddrOk, TriedOk, Distinct, AllEmpty, TriedBucket;
    RecordsMean(t, u, ids, k as int);
    hide RenamedRecords;
    assert ids[k as int] in t.mapInfo;
    var x := StoredOf(t.mapInfo[ids[k]]);
    var b := TriedBucket(key, x.addr);
    RoomForNext(t, key, ids, u.vvTried[b], b, k);
    hide FilledTo;
    var info := Restored(x).(nRandomPos := |u.vRandom|, fInTried := true);
    RecordStep(t, u, ReadTried(u, key, x), ids, k, info);
    TriedAdded(t, key, ids, u.vvTried, k);
  }

  // ---------------------------------------------------------------- all records

  /** What the records of a written file say, without the order of the ids. */
  ghost predicate ListsRecords(t: Tables, key: Key, s: AddrDat, newIds: seq<Id>, triedIds: seq<Id>) {
    && Distinct(newIds + triedIds) && (forall x :: x in newIds + triedIds ==> x in t.mapInfo)
    && s.nNew == t.nNew && s.nTried == t.nTried && s.nKey == key && s.nUBuckets == NEW_BUCKET_COUNT
    && |s.newInfos| == |newIds| && |s.triedInfos| == |triedIds|
    && (forall i :: 0 <= i < |newIds| ==>
          && newIds[i] in t.mapInfo && !t.mapInfo[newIds[i]].fInTried && s.newInfos[i] == StoredOf(t.mapInfo[newIds[i]]))
    && (forall i :: 0 <= i < |triedIds| ==>
          && triedIds[i] in t.mapInfo && t.mapInfo[triedIds[i]].fInTried && s.triedInfos[i] == StoredOf(t.mapInfo[triedIds[i]])
          && t.mapInfo[triedIds[i]].nRefCount == 0)
  }

  lemma DistinctParts(t: Tables, newIds: seq<Id>, triedIds: seq<Id>)
    requires Increasing(newIds) && (forall x :: x in newIds <==> x in NewIds(t.mapInfo))
    requires Increasing(triedIds) && (forall x :: x in triedIds <==> x in TriedIds(t.mapInfo))
    ensures Distinct(newIds + triedIds) && forall x :: x in newIds + triedIds <==> x in t.mapInfo
    ensures forall i :: 0 <= i < |newIds| ==> newIds[i] in t.mapInfo && !t.mapInfo[newIds[i]].fInTried
    ensures forall i :: 0 <= i < |triedIds| ==> triedIds[i] in t.mapInfo && t.mapInfo[triedIds[i]].fInTried
  {
    var ids := newIds + triedIds;
    assert forall i :: 0 <= i < |newIds| ==> newIds[i] in NewIds(t.mapInfo);
    assert forall i :: 0 <= i < |triedIds| ==> triedIds[i] in TriedIds(t.mapInfo);
    forall i, j | 0 <= i < j < |ids| ensures ids[i] != ids[j] {
      if j >= |newIds| && i < |newIds| {
        assert ids[i] == newIds[i] && ids[j] == triedIds[j - |newIds|];
      }
    }
  }

  lemma TriedUncounted(t: Tables, key: Key)
    requires Inv(t, key)
    ensures forall id :: id in t.mapInfo && t.mapInfo[id].fInTried ==> t.mapInfo[id].nRefCount == 0
  {
    hide RandomOk, AddrOk, NewOk, TriedOk, RecordsOk, CountsOk, NewBuckets;
  }

  lemma WritesRecords(t: Tables, key: Key, s: AddrDat, newIds: seq<Id>, triedIds: seq<Id>)
    requires Inv(t, key) && Writes(t, key, s, newIds, triedIds)
    ensures ListsRecords(t, key, s, newIds, triedIds) && forall x :: x in newIds + triedIds <==> x in t.mapInfo
  {
    TriedUncounted(t, key);
    hide Inv, WritesBucket;
    DistinctParts(t, newIds, triedIds);
    hide Increasing, NewIds, TriedIds, Distinct;
  }

  lemma NothingRead(t: Tables, key: Key, s: AddrDat, newIds: seq<Id>, triedIds: seq<Id>)
    requires ListsRecords(t, key, s, newIds, triedIds)
    ensures ReadSoFar(t, key, newIds + triedIds, LoadNew(s, 0), 0)
  {
  }

  lemma NewRecord(t: Tables, key: Key, s: AddrDat, newIds: seq<Id>, triedIds: seq<Id>, k: nat)
    requires ListsRecords(t, key, s, newIds, triedIds) && k < |newIds|
    ensures |s.newInfos| == |newIds| && newIds[k] in t.mapInfo && !t.mapInfo[newIds[k]].fInTried
    ensures LoadNew(s, k + 1) == ReadNew(LoadNew(s, k), key, StoredOf(t.mapInfo[newIds[k]]), k as Id, false)
    ensures (newIds + triedIds)[k as Id] == newIds[k]
  {
    hide ReadNew;
  }

  lemma {:induction false} NewLoaded(t: Tables, key: Key, s: AddrDat, newIds: seq<Id>, triedIds: seq<Id>, k: nat)
    requires AddrOk(t.mapInfo, t.mapAddr) && ListsRecords(t, key, s, newIds, triedIds) && k <= |newIds| == |s.newInfos|
    ensures ReadSoFar(t, key, newIds + triedIds, LoadNew(s, k), k)
  {
    if k == 0 {
      NothingRead(t, key, s, newIds, triedIds);
    } else {
      NewLoaded(t, key, s, newIds, triedIds, k - 1);
      hide *;
      NewRecord(t, key, s, newIds, triedIds, k - 1);
      NewStep(t, key, newIds + triedIds, LoadNew(s, k - 1), (k - 1) as Id);
    }
  }

  lemma CountIds(t: Tables, key: Key, ids: seq<Id>, u: Tables, k: nat)
    requires ReadSoFar(t, key, ids, u, k)
    ensures ReadSoFar(t, key, ids, u.(nIdCount := k as Id), k)
  {
    hide TriedSoFar, AllEmpty, RenamedRecord, Distinct;
  }

  lemma TriedRecord(t: Tables, key: Key, s: AddrDat, newIds: seq<Id>, triedIds: seq<Id>, k: nat)
    requires ListsRecords(t, key, s, newIds, triedIds) && k < |triedIds|
    ensures |s.triedInfos| == |triedIds| && triedIds[k] in t.mapInfo && t.mapInfo[triedIds[k]].fInTried
    ensures t.mapInfo[triedIds[k]].nRefCount == 0
    ensures LoadTried(s, k + 1) == ReadTried(LoadTried(s, k), key, StoredOf(t.mapInfo[triedIds[k]]))
    ensures (newIds + triedIds)[(|newIds| + k) as Id] == triedIds[k]
  {
    hide ReadTried, LoadNew;
  }

  lemma NewToTried(s: AddrDat)
    ensures LoadTried(s, 0) == LoadNew(s, |s.newInfos|).(nIdCount := |s.newInfos| as Id)
  {
    hide LoadNew;
  }

  lemma {:induction false} TriedLoaded(t: Tables, key: Key, s: AddrDat, newIds: seq<Id>, triedIds: seq<Id>, k: nat)
    requires AddrOk(t.mapInfo, t.mapAddr) && TriedOk(t.mapInfo, t.vvTried, key)
    requires ListsRecords(t, key, s, newIds, triedIds) && k <= |triedIds| == |s.triedInfos| && |newIds| == |s.newInfos|
    ensures LoadTried(s, k).nIdCount as int == |newIds| + k
    ensures ReadSoFar(t, key, newIds + triedIds, LoadTried(s, k), |newIds| + k)
  {
    hide *;
    if k == 0 {
      NewLoaded(t, key, s, newIds, triedIds, |newIds|);
      CountIds(t, key, newIds + triedIds, LoadNew(s, |newIds|), |newIds|);
      NewToTried(s);
    } else {
      TriedLoaded(t, key, s, newIds, triedIds, k - 1);
      TriedRecord(t, key, s, newIds, triedIds, k - 1);
      TriedStep(t, key, newIds + triedIds, LoadTried(s, k - 1), (|newIds| + k - 1) as Id);
    }
  }

  // ---------------------------------------------------------------- reading the bucket lists

  /** The first b buckets are read, and n entries of the next one. */
  ghost predicate BucketsTo(vvNew: seq<set<Id>>, vv: seq<set<Id>>, buckets: seq<seq<Id>>, ids: seq<Id>, b: nat, n: nat) {
    && |vv| == |vvNew| == |buckets| && b <= |buckets| && (if b == |buckets| then n == 0 else n <= |buckets[b]|)
    && forall c :: 0 <= c < |vv| ==>
         if c < b then RenamedBucket(vvNew[c], vv[c], ids)
         else vv[c] == if c == b then set x | x in buckets[b][..n] else {}
  }

  ghost predicate RefsRead(u0: Tables, u: Tables) {
    && (forall i :: i in u.mapInfo <==> i in u0.mapInfo)
    && (forall i :: i in u.mapInfo ==> u.mapInfo[i] == u0.mapInfo[i].(nRefCount := |NewBuckets(u.vvNew, i)|))
  }

  /** The next entry of a bucket list names an id in fewer buckets than it had. */
  lemma FewerBuckets(vvNew: seq<set<Id>>, vv: seq<set<Id>>, buckets: seq<seq<Id>>, ids: seq<Id>, b: nat, n: nat)
    requires BucketsTo(vvNew, vv, buckets, ids, b, n) && b < |buckets| && n < |buckets[b]| && Increasing(buckets[b])
    requires buckets[b][n] as int < |ids| && ids[buckets[b][n]] in vvNew[b]
    ensures buckets[b][n] !in vv[b]
    ensures |NewBuckets(vv, buckets[b][n])| < |NewBuckets(vvNew, ids[buckets[b][n]])|
  {
    var x := buckets[b][n];
    assert x !in buckets[b][..n];
    assert x !in vv[b];
    forall c | c in NewBuckets(vv, x) ensures c in NewBuckets(vvNew, ids[x]) - {b} {
      assert RenamedBucket(vvNew[c], vv[c], ids);
    }
    Smaller(NewBuckets(vv, x), NewBuckets(vvNew, ids[x]), b);
  }

  lemma Smaller(a: set<nat>, c: set<nat>, b: nat)
    requires b in c && a <= c - {b}
    ensures |a| < |c|
  {
    SubCard(a, c - {b});
  }

  lemma EntryRead(vvNew: seq<set<Id>>, vv: seq<set<Id>>, buckets: seq<seq<Id>>, ids: seq<Id>, b: nat, n: nat)
    requires BucketsTo(vvNew, vv, buckets, ids, b, n) && b < |buckets| && n < |buckets[b]|
    ensures BucketsTo(vvNew, PutNew(vv, b, buckets[b][n]), buckets, ids, b, n + 1)
  {
    hide RenamedBucket;
    assert buckets[b][..n + 1] == buckets[b][..n] + [buckets[b][n]];
  }

  lemma BucketRead(vvNew: seq<set<Id>>, vv: seq<set<Id>>, buckets: seq<seq<Id>>, ids: seq<Id>, newIds: seq<Id>, b: nat)
    requires b < |buckets| && BucketsTo(vvNew, vv, buckets, ids, b, |buckets[b]|)
    requires WritesBucket(vvNew[b], newIds, buckets[b]) && newIds <= ids && Distinct(ids)
    requires forall x :: x in vvNew[b] ==> x in newIds
    ensures BucketsTo(vvNew, vv, buckets, ids, b + 1, 0)
  {
    var q := buckets[b];
    assert q[..|q|] == q;
    forall i: Id ensures i in vv[b] <==> i as int < |ids| && ids[i] in vvNew[b] {
      if i as int < |ids| && ids[i] in vvNew[b] {
        var j :| 0 <= j < |q| && q[j] as int < |newIds| && newIds[q[j]] == ids[i];
        assert ids[q[j] as int] == ids[i as int];
      }
    }
    assert RenamedBucket(vvNew[b], vv[b], ids);
    assert b + 1 < |buckets| ==> buckets[b + 1][..0] == [];
  }

  lemma RefStep(u0: Tables, u: Tables, b: nat, x: Id)
    requires RefsRead(u0, u) && x in u.mapInfo && b < |u.vvNew| && x !in u.vvNew[b]
    ensures RefsRead(u0, SetRefCount(u, x, u.mapInfo[x].nRefCount + 1).(vvNew := PutNew(u.vvNew, b, x)))
  {
    hide NewBuckets;
    forall i | i in u.mapInfo
      ensures |NewBuckets(PutNew(u.vvNew, b, x), i)| == |NewBuckets(u.vvNew, i)| + (if i == x then 1 else 0)
    {
      PutNewBuckets(u.vvNew, b, x, i);
    }
  }

  ghost predicate BucketStage(t: Tables, s: AddrDat, ids: seq<Id>, u0: Tables, u: Tables, b: nat, n: nat) {
    && u == u0.(mapInfo := u.mapInfo, vvNew := u.vvNew)
    && BucketsTo(t.vvNew, u.vvNew, s.buckets, ids, b, n) && RefsRead(u0, u)
  }

  /** The bucket lists of a written file. */
  ghost predicate ListsBuckets(t: Tables, s: AddrDat, ids: seq<Id>, newIds: seq<Id>) {
    && |s.buckets| == |t.vvNew| == NEW_BUCKET_COUNT == s.nUBuckets && newIds <= ids && Distinct(ids)
    && (forall b :: 0 <= b < |s.buckets| ==>
          WritesBucket(t.vvNew[b], newIds, s.buckets[b]) && forall x :: x in t.vvNew[b] ==> x in newIds)
  }

  lemma WritesBuckets(t: Tables, key: Key, s: AddrDat, newIds: seq<Id>, triedIds: seq<Id>)
    requires Inv(t, key) && Writes(t, key, s, newIds, triedIds)
    ensures ListsBuckets(t, s, newIds + triedIds, newIds) && WellFormed(s) && NamesBelow(s, |s.newInfos|)
  {
    MembersAreNew(t, key);
    hide Inv, Distinct, Increasing, NewIds, TriedIds;
    assert Distinct(newIds + triedIds) by { DistinctParts(t, newIds, triedIds); }
    assert newIds <= newIds + triedIds;
    hide StoreAll;
  }

  lemma MembersAreNew(t: Tables, key: Key)
    requires Inv(t, key)
    ensures forall b, x :: 0 <= b < |t.vvNew| && x in t.vvNew[b] ==> x in NewIds(t.mapInfo)
  {
    hide RefsOk, TriedOk, AddrOk, RandomOk, RecordsOk, CountsOk;
  }

  lemma NextEntry(t: Tables, s: AddrDat, ids: seq<Id>, newIds: seq<Id>, u0: Tables, u: Tables, b: nat, n: nat)
    requires ListsBuckets(t, s, ids, newIds) && BucketStage(t, s, ids, u0, u, b, n)
    requires b < |s.buckets| && n < |s.buckets[b]|
    ensures s.buckets[b][n] as int < |newIds| <= |ids| && ids[s.buckets[b][n]] in t.vvNew[b] && |u.vvNew| == NEW_BUCKET_COUNT
    ensures s.buckets[b][n] !in u.vvNew[b]
    ensures |NewBuckets(u.vvNew, s.buckets[b][n])| < |NewBuckets(t.vvNew, ids[s.buckets[b][n]])|
  {
    hide Distinct, Increasing, RefsRead, BucketsTo, NewBuckets;
    assert WritesBucket(t.vvNew[b], newIds, s.buckets[b]);
    assert newIds[s.buckets[b][n]] == ids[s.buckets[b][n]];
    FewerBuckets(t.vvNew, u.vvNew, s.buckets, ids, b, n);
    BucketsSize(t.vvNew, u.vvNew, s.buckets, ids, b, n);
  }

  lemma BucketsSize(vvNew: seq<set<Id>>, vv: seq<set<Id>>, buckets: seq<seq<Id>>, ids: seq<Id>, b: nat, n: nat)
    requires BucketsTo(vvNew, vv, buckets, ids, b, n)
    ensures |vv| == |vvNew|
  {
  }

  /** Every listed index is used: its record has fewer references than it had. */
  lemma EntryStage(t: Tables, s: AddrDat, ids: seq<Id>, newIds: seq<Id>, u0: Tables, u: Tables, b: nat, n: nat)
    requires ListsBuckets(t, s, ids, newIds) && BucketStage(t, s, ids, u0, u, b, n)
    requires RefsOk(t.mapInfo, t.vvNew, None, None) && (forall x :: x in newIds ==> x in t.mapInfo && !t.mapInfo[x].fInTried)
    requires b < |s.buckets| && n < |s.buckets[b]| && b < |u.vvNew| && s.buckets[b][n] in u.mapInfo
    ensures BucketStage(t, s, ids, u0, ReadIndex(u, b, s.buckets[b][n], true), b, n + 1)
  {
    hide *;
    var x := s.buckets[b][n];
    NextEntry(t, s, ids, newIds, u0, u, b, n);
    RefBound(t, ids, newIds, x, s, u0, u, b, n);
    StageParts(t, s, ids, u0, u, b, n);
    RefStep(u0, u, b, x);
    EntryRead(t.vvNew, u.vvNew, s.buckets, ids, b, n);
    ReadIndexUses(u, b, x);
    var v := ReadIndex(u, b, x, true);
    StageParts(t, s, ids, u0, v, b, n + 1);
  }

  lemma StageParts(t: Tables, s: AddrDat, ids: seq<Id>, u0: Tables, u: Tables, b: nat, n: nat)
    ensures BucketStage(t, s, ids, u0, u, b, n) <==>
      && u == u0.(mapInfo := u.mapInfo, vvNew := u.vvNew)
      && BucketsTo(t.vvNew, u.vvNew, s.buckets, ids, b, n) && RefsRead(u0, u)
  {
    hide BucketsTo, RefsRead;
  }

  lemma ReadIndexUses(u: Tables, b: nat, x: Id)
    requires b < |u.vvNew| && x in u.mapInfo && u.mapInfo[x].nRefCount < NEW_BUCKETS_PER_ADDRESS
    ensures
      var v := ReadIndex(u, b, x, true);
      && v == SetRefCount(u, x, u.mapInfo[x].nRefCount + 1).(vvNew := PutNew(u.vvNew, b, x))
      && v == u.(mapInfo := v.mapInfo, vvNew := v.vvNew) && v.vvNew == PutNew(u.vvNew, b, x)
  {
  }

  lemma RefBound(t: Tables, ids: seq<Id>, newIds: seq<Id>, x: Id, s: AddrDat, u0: Tables, u: Tables, b: nat, n: nat)
    requires ListsBuckets(t, s, ids, newIds) && BucketStage(t, s, ids, u0, u, b, n)
    requires RefsOk(t.mapInfo, t.vvNew, None, None) && (forall y :: y in newIds ==> y in t.mapInfo && !t.mapInfo[y].fInTried)
    requires x as int < |newIds| <= |ids| && x in u.mapInfo
    requires |NewBuckets(u.vvNew, x)| < |NewBuckets(t.vvNew, ids[x])|
    ensures u.mapInfo[x].nRefCount < NEW_BUCKETS_PER_ADDRESS
  {
    hide NewBuckets, BucketsTo, WritesBucket, Distinct;
    assert ids[x] == newIds[x];
    assert newIds[x as int] in newIds;
  }

  lemma {:induction false} BucketStages(t: Tables, s: AddrDat, ids: seq<Id>, newIds: seq<Id>, u0: Tables, u: Tables, b: nat, n: nat)
    requires ListsBuckets(t, s, ids, newIds) && WellFormed(s) && NamesBelow(s, |s.newInfos|) && BucketStage(t, s, ids, u0, u, b, 0)
    requires RefsOk(t.mapInfo, t.vvNew, None, None) && (forall x :: x in newIds ==> x in t.mapInfo && !t.mapInfo[x].fInTried)
    requires b < |s.buckets| && n <= |s.buckets[b]| && |u.vvNew| == NEW_BUCKET_COUNT == s.nUBuckets
    requires forall i: Id :: i as int < |s.newInfos| ==> i in u.mapInfo
    ensures BucketStage(t, s, ids, u0, LoadBucket(s, u, b, n), b, n)
  {
    hide ListsBuckets, BucketStage, RefsOk, ReadIndex;
    if n > 0 {
      BucketStages(t, s, ids, newIds, u0, u, b, n - 1);
      EntryStage(t, s, ids, newIds, u0, LoadBucket(s, u, b, n - 1), b, n - 1);
    }
  }

  lemma NoBucketYet(t: Tables, key: Key, s: AddrDat, ids: seq<Id>, u0: Tables)
    requires ReadSoFar(t, key, ids, u0, |ids|) && |s.buckets| == |t.vvNew| == NEW_BUCKET_COUNT
    ensures BucketStage(t, s, ids, u0, u0, 0, 0)
  {
    assert s.buckets[0][..0] == [];
    assert forall i :: i in u0.mapInfo ==> NewBuckets(u0.vvNew, i) == {};
    hide TriedSoFar;
  }

  lemma NextBucket(t: Tables, s: AddrDat, ids: seq<Id>, newIds: seq<Id>, u0: Tables, u: Tables, b: nat)
    requires ListsBuckets(t, s, ids, newIds) && b < |s.buckets| && BucketStage(t, s, ids, u0, u, b, |s.buckets[b]|)
    ensures BucketStage(t, s, ids, u0, u, b + 1, 0)
  {
    hide RefsRead, BucketsTo, WritesBucket, Distinct;
    BucketRead(t.vvNew, u.vvNew, s.buckets, ids, newIds, b);
  }

  lemma {:induction false} AllBuckets(t: Tables, key: Key, s: AddrDat, ids: seq<Id>, newIds: seq<Id>, k: nat)
    requires ListsBuckets(t, s, ids, newIds) && WellFormed(s) && NamesBelow(s, |s.newInfos|) && k <= |s.buckets| && s.nUBuckets == NEW_BUCKET_COUNT
    requires RefsOk(t.mapInfo, t.vvNew, None, None) && (forall x :: x in newIds ==> x in t.mapInfo && !t.mapInfo[x].fInTried)
    requires ReadSoFar(t, key, ids, LoadTried(s, |s.triedInfos|), |ids|) && |t.vvNew| == NEW_BUCKET_COUNT
    ensures BucketStage(t, s, ids, LoadTried(s, |s.triedInfos|), LoadBuckets(s, k), k, 0)
  {
    hide ListsBuckets, BucketStage, RefsOk, LoadBucket, ReadSoFar, LoadTried;
    if k == 0 {
      NoBucketYet(t, key, s, ids, LoadTried(s, |s.triedInfos|));
    } else {
      AllBuckets(t, key, s, ids, newIds, k - 1);
      BucketStages(t, s, ids, newIds, LoadTried(s, |s.triedInfos|), LoadBuckets(s, k - 1), k - 1, |s.buckets[k - 1]|);
      NextBucket(t, s, ids, newIds, LoadTried(s, |s.triedInfos|), LoadBuckets(s, k), k - 1);
    }
  }

  // ---------------------------------------------------------------- the round trip

  lemma TriedEnd(t: Tables, key: Key, ids: seq<Id>, vvTried: seq<seq<Id>>)
    requires TriedOk(t.mapInfo, t.vvTried, key) && TriedSoFar(t, key, ids, vvTried, |ids|)
    ensures |vvTried| == |t.vvTried| && forall b :: 0 <= b < |t.vvTried| ==> RenamedTried(t.vvTried[b], vvTried[b], ids)
  {
    hide TriedBucket;
    forall b | 0 <= b < |t.vvTried| ensures RenamedTried(t.vvTried[b], vvTried[b], ids) {
      assert FilledTo(t, key, ids, vvTried[b], b, |ids|);
      forall i: Id ensures i in vvTried[b] <==> i as int < |ids| && ids[i] in t.vvTried[b] {
        if i as int < |ids| {
          assert ids[i as int] in t.mapInfo;
        }
      }
    }
  }

  lemma NewEnd(t: Tables, s: AddrDat, ids: seq<Id>, u0: Tables, u: Tables)
    requires BucketStage(t, s, ids, u0, u, |s.buckets|, 0)
    ensures RenamedNew(t.vvNew, u.vvNew, ids) && RefsRead(u0, u) && u == u0.(mapInfo := u.mapInfo, vvNew := u.vvNew)
  {
    hide RenamedBucket, RefsRead;
  }

  lemma RecordsEnd(t: Tables, ids: seq<Id>, u0: Tables, u: Tables)
    requires RenamedRecords(t, u0, ids, |ids|) && RefsRead(u0, u) && u == u0.(mapInfo := u.mapInfo, vvNew := u.vvNew)
    ensures RenamedRecords(t, u, ids, |ids|)
    ensures forall i: Id :: i as int < |ids| ==> i in u.mapInfo && ids[i] in t.mapInfo
  {
    hide NewBuckets, Distinct;
  }

  lemma RefsEnd(t: Tables, ids: seq<Id>, u0: Tables, u: Tables)
    requires RefsRead(u0, u) && (forall i: Id :: i as int < |ids| ==> i in u.mapInfo && ids[i] in t.mapInfo)
    requires RefsOk(t.mapInfo, t.vvNew, None, None) && RenamedNew(t.vvNew, u.vvNew, ids)
    ensures forall i: Id :: i as int < |ids| ==> u.mapInfo[i].nRefCount == t.mapInfo[ids[i]].nRefCount
  {
    hide NewBuckets, RenamedNew;
    forall i: Id | i as int < |ids| ensures u.mapInfo[i].nRefCount == t.mapInfo[ids[i]].nRefCount {
      SameBuckets(t.vvNew, u.vvNew, ids, i);
    }
  }

  lemma RenamedFrom(t: Tables, key: Key, s: AddrDat, ids: seq<Id>, u0: Tables, u: Tables)
    requires Inv(t, key) && ReadSoFar(t, key, ids, u0, |ids|) && u0.nIdCount as int == |ids|
    requires BucketStage(t, s, ids, u0, u, |s.buckets|, 0) && forall x :: x in ids <==> x in t.mapInfo
    ensures Renamed(t, u, ids)
  {
    assert RefsOk(t.mapInfo, t.vvNew, None, None) && TriedOk(t.mapInfo, t.vvTried, key);
    hide Inv, RefsOk, TriedOk, BucketStage, TriedSoFar, RenamedRecords, RenamedNew, RenamedTried, RefsRead, AllEmpty;
    TriedEnd(t, key, ids, u0.vvTried);
    NewEnd(t, s, ids, u0, u);
    RecordsEnd(t, ids, u0, u);
    RefsEnd(t, ids, u0, u);
  }

  /** The file of valid tables is well formed, and reading it loses no entry: it gives the
      same tables with renamed ids, which are valid again. */
  lemma ReloadRenames(t: Tables, key: Key, s: AddrDat, newIds: seq<Id>, triedIds: seq<Id>)
    requires Inv(t, key) && Writes(t, key, s, newIds, triedIds)
    ensures WellFormed(s) && Renamed(t, Loaded(s), newIds + triedIds) && Inv(Loaded(s), key)
  {
    hide *;
    var ids := newIds + triedIds;
    WritesRecords(t, key, s, newIds, triedIds);
    WritesBuckets(t, key, s, newIds, triedIds);
    InvTables(t, key);
    FileSizes(t, key, s, newIds, triedIds);
    TriedLoaded(t, key, s, newIds, triedIds, |triedIds|);
    AllBuckets(t, key, s, ids, newIds, |s.buckets|);
    RenamedFrom(t, key, s, ids, LoadTried(s, |s.triedInfos|), LoadBuckets(s, |s.buckets|));
    RenamedInv(t, LoadBuckets(s, |s.buckets|), key, ids);
    LoadedIs(s);
  }

  lemma LoadedIs(s: AddrDat)
    requires WellFormed(s)
    ensures Loaded(s) == LoadBuckets(s, |s.buckets|)
  {
  }

  lemma InvTables(t: Tables, key: Key)
    requires Inv(t, key)
    ensures AddrOk(t.mapInfo, t.mapAddr) && TriedOk(t.mapInfo, t.vvTried, key)
    ensures RefsOk(t.mapInfo, t.vvNew, None, None) && |t.vvNew| == NEW_BUCKET_COUNT
  {
    hide RecordsOk, RandomOk, AddrOk, TriedOk, RefsOk, CountsOk;
  }

  lemma FileSizes(t: Tables, key: Key, s: AddrDat, newIds: seq<Id>, triedIds: seq<Id>)
    requires ListsRecords(t, key, s, newIds, triedIds)
    ensures |s.newInfos| == |newIds| && |s.triedInfos| == |triedIds| && s.nUBuckets == NEW_BUCKET_COUNT
    ensures |newIds + triedIds| == |newIds| + |triedIds|
    ensures forall x :: x in newIds ==> x in t.mapInfo && !t.mapInfo[x].fInTried
  {
  }
}
