/** The tables of the address manager and their invariant (src/addrman.h, and Check_ in
    src/addrman.cpp), with the elementary table changes the operations are made of. */
module AddrTables {
  import opened Collections

  /** An IP address, as an opaque number. */
  newtype NetAddr = x: int | 0 <= x

  /** Identifies a record; handed out in increasing order. */
  newtype Id = x: int | 0 <= x

  datatype Service = Service(ip: NetAddr, port: nat)

  /** The secret bucket key, known by the two hashes it selects. */
  datatype Key = Key(triedHash: Service -> nat, newHash: (NetAddr, NetAddr) -> nat)

  const TRIED_BUCKET_COUNT: nat := 64
  const TRIED_BUCKET_SIZE: nat := 64
  const NEW_BUCKET_COUNT: nat := 256
  const NEW_BUCKET_SIZE: nat := 64
  const NEW_BUCKETS_PER_ADDRESS: nat := 4

  datatype Info = Info(
    addr: Service, nServices: bv64, nTime: nat, nLastTry: int, source: NetAddr,
    nLastSuccess: int, nAttempts: int, nRefCount: int, fInTried: bool, nRandomPos: int)

  function TriedBucket(key: Key, addr: Service): (b: nat)
    ensures b < TRIED_BUCKET_COUNT
  {
    key.triedHash(addr) % TRIED_BUCKET_COUNT
  }

  function NewBucket(key: Key, ip: NetAddr, source: NetAddr): (b: nat)
    ensures b < NEW_BUCKET_COUNT
  {
    key.newHash(ip, source) % NEW_BUCKET_COUNT
  }

  datatype Tables = Tables(
    nIdCount: Id,
    mapInfo: map<Id, Info>,
    mapAddr: map<NetAddr, Id>,
    vRandom: seq<Id>,
    nTried: int,
    vvTried: seq<seq<Id>>,
    nNew: int,
    vvNew: seq<set<Id>>)

  // ---------------------------------------------------------------- the invariant

  /** vRandom lists every id once, and each record knows its own position. */
  ghost predicate RandomOk(mapInfo: map<Id, Info>, vRandom: seq<Id>) {
    && (forall id :: id in mapInfo ==>
          0 <= mapInfo[id].nRandomPos < |vRandom| && vRandom[mapInfo[id].nRandomPos] == id)
    && (forall i :: 0 <= i < |vRandom| ==> vRandom[i] in mapInfo && mapInfo[vRandom[i]].nRandomPos == i)
  }

  /** mapAddr is the inverse of mapInfo on addresses. */
  ghost predicate AddrOk(mapInfo: map<Id, Info>, mapAddr: map<NetAddr, Id>) {
    && (forall id :: id in mapInfo ==> mapInfo[id].addr.ip in mapAddr && mapAddr[mapInfo[id].addr.ip] == id)
    && (forall ip :: ip in mapAddr ==> mapAddr[ip] in mapInfo && mapInfo[mapAddr[ip]].addr.ip == ip)
  }

  ghost predicate TimesOk(info: Info) {
    info.nLastTry >= 0 && info.nLastSuccess >= 0 && (info.fInTried ==> info.nLastSuccess > 0)
  }

  ghost predicate RecordsOk(nIdCount: Id, mapInfo: map<Id, Info>) {
    forall id :: id in mapInfo ==> id < nIdCount && TimesOk(mapInfo[id])
  }

  /** New buckets hold only untried ids and never overflow. */
  ghost predicate NewOk(mapInfo: map<Id, Info>, vvNew: seq<set<Id>>) {
    && |vvNew| == NEW_BUCKET_COUNT
    && (forall b :: 0 <= b < |vvNew| ==> |vvNew[b]| <= NEW_BUCKET_SIZE)
    && (forall b, id :: 0 <= b < |vvNew| && id in vvNew[b] ==> id in mapInfo && !mapInfo[id].fInTried)
  }

  function NewBuckets(vvNew: seq<set<Id>>, id: Id): set<nat> {
    set b | 0 <= b < |vvNew| && id in vvNew[b]
  }

  /** Each record's reference count is the number of new buckets it lies in, one more for
      the id that is about to be inserted; untried ids have 1 to 4 (`unref` may have none),
      tried ids none. */
  ghost predicate RefsOk(mapInfo: map<Id, Info>, vvNew: seq<set<Id>>, pending: Option<Id>, unref: Option<Id>) {
    && (forall id :: id in mapInfo ==>
          mapInfo[id].nRefCount == |NewBuckets(vvNew, id)| + (if pending == Some(id) then 1 else 0))
    && (forall id :: id in mapInfo ==>
          if mapInfo[id].fInTried then mapInfo[id].nRefCount == 0
          else (if unref == Some(id) then 0 else 1) <= mapInfo[id].nRefCount <= NEW_BUCKETS_PER_ADDRESS)
  }

  /** Each tried id lies exactly once in the bucket of its address, and nothing else does. */
  ghost predicate TriedOk(mapInfo: map<Id, Info>, vvTried: seq<seq<Id>>, key: Key) {
    && |vvTried| == TRIED_BUCKET_COUNT
    && (forall b :: 0 <= b < |vvTried| ==> |vvTried[b]| <= TRIED_BUCKET_SIZE)
    && (forall b, i :: 0 <= b < |vvTried| && 0 <= i < |vvTried[b]| ==>
          && vvTried[b][i] in mapInfo && mapInfo[vvTried[b][i]].fInTried
          && TriedBucket(key, mapInfo[vvTried[b][i]].addr) == b)
    && (forall b, i, j :: 0 <= b < |vvTried| && 0 <= i < j < |vvTried[b]| ==> vvTried[b][i] != vvTried[b][j])
    && (forall id :: id in mapInfo && mapInfo[id].fInTried ==> id in vvTried[TriedBucket(key, mapInfo[id].addr)])
  }

  function NewIds(mapInfo: map<Id, Info>): set<Id> {
    set id | id in mapInfo && !mapInfo[id].fInTried
  }

  function TriedIds(mapInfo: map<Id, Info>): set<Id> {
    set id | id in mapInfo && mapInfo[id].fInTried
  }

  ghost predicate CountsOk(t: Tables) {
    t.nNew == |NewIds(t.mapInfo)| && t.nTried == |TriedIds(t.mapInfo)|
  }

  /** The invariant in the middle of an operation: the reference of `pending` to a new
      bucket is already counted, and `unref` may lie in no bucket at all. */
  ghost predicate InvMid(t: Tables, key: Key, pending: Option<Id>, unref: Option<Id>) {
    && RecordsOk(t.nIdCount, t.mapInfo)
    && RandomOk(t.mapInfo, t.vRandom)
    && AddrOk(t.mapInfo, t.mapAddr)
    && NewOk(t.mapInfo, t.vvNew)
    && RefsOk(t.mapInfo, t.vvNew, pending, unref)
    && TriedOk(t.mapInfo, t.vvTried, key)
    && CountsOk(t)
  }

  lemma MidFromParts(t: Tables, key: Key, pending: Option<Id>, unref: Option<Id>)
    ensures
      && RecordsOk(t.nIdCount, t.mapInfo)
      && RandomOk(t.mapInfo, t.vRandom)
      && AddrOk(t.mapInfo, t.mapAddr)
      && NewOk(t.mapInfo, t.vvNew)
      && RefsOk(t.mapInfo, t.vvNew, pending, unref)
      && TriedOk(t.mapInfo, t.vvTried, key)
      && CountsOk(t)
      <==> InvMid(t, key, pending, unref)
  {
    hide RecordsOk, RandomOk, AddrOk, NewOk, RefsOk, TriedOk, CountsOk;
  }

  ghost predicate Inv(t: Tables, key: Key) {
    InvMid(t, key, None, None)
  }

  // ---------------------------------------------------------------- changing records in place

  /** The same ids with the same addresses, reference counts and flags. */
  ghost predicate Alike(m: map<Id, Info>, m': map<Id, Info>) {
    && (forall id :: id in m <==> id in m')
    && (forall id :: id in m ==>
          m'[id].addr == m[id].addr && m'[id].nRefCount == m[id].nRefCount && m'[id].fInTried == m[id].fInTried)
  }

  lemma AlikeTables(m: map<Id, Info>, m': map<Id, Info>, t: Tables, pending: Option<Id>, unref: Option<Id>)
    requires Alike(m, m')
    ensures AddrOk(m, t.mapAddr) ==> AddrOk(m', t.mapAddr)
    ensures NewOk(m, t.vvNew) ==> NewOk(m', t.vvNew)
    ensures RefsOk(m, t.vvNew, pending, unref) ==> RefsOk(m', t.vvNew, pending, unref)
    ensures NewIds(m') == NewIds(m) && TriedIds(m') == TriedIds(m)
  {
    hide NewBuckets;
  }

  lemma AlikeTried(m: map<Id, Info>, m': map<Id, Info>, vvTried: seq<seq<Id>>, key: Key)
    requires Alike(m, m') && TriedOk(m, vvTried, key)
    ensures TriedOk(m', vvTried, key)
  {
    hide TriedBucket;
  }

  lemma AlikeInv(t: Tables, t': Tables, key: Key, pending: Option<Id>, unref: Option<Id>)
    requires InvMid(t, key, pending, unref) && Alike(t.mapInfo, t'.mapInfo)
    requires t' == t.(mapInfo := t'.mapInfo, vRandom := t'.vRandom)
    requires RandomOk(t'.mapInfo, t'.vRandom) && RecordsOk(t'.nIdCount, t'.mapInfo)
    ensures InvMid(t', key, pending, unref)
  {
    hide Alike, AddrOk, NewOk, RefsOk, TriedOk, NewIds, TriedIds, RandomOk, RecordsOk;
    AlikeTables(t.mapInfo, t'.mapInfo, t, pending, unref);
    AlikeTried(t.mapInfo, t'.mapInfo, t.vvTried, key);
  }

  /** Same identity, place and flags; only times, attempts or services differ. */
  predicate SamePlace(a: Info, b: Info) {
    a.addr == b.addr && a.nRefCount == b.nRefCount && a.fInTried == b.fInTried && a.nRandomPos == b.nRandomPos
  }

  function Touch(t: Tables, id: Id, info: Info): Tables {
    t.(mapInfo := t.mapInfo[id := info])
  }

  lemma TouchInv(t: Tables, key: Key, pending: Option<Id>, unref: Option<Id>, id: Id, info: Info)
    requires InvMid(t, key, pending, unref) && id in t.mapInfo && SamePlace(t.mapInfo[id], info) && TimesOk(info)
    ensures InvMid(Touch(t, id, info), key, pending, unref)
  {
    hide TriedOk, NewOk, AddrOk, RefsOk, CountsOk;
    AlikeInv(t, Touch(t, id, info), key, pending, unref);
  }

  function SwapRandom(t: Tables, i: nat, j: nat): Tables
    requires i < |t.vRandom| && j < |t.vRandom|
    requires t.vRandom[i] in t.mapInfo && t.vRandom[j] in t.mapInfo
  {
    if i == j then t
    else
      var id1, id2 := t.vRandom[i], t.vRandom[j];
      var m := t.mapInfo[id1 := t.mapInfo[id1].(nRandomPos := j)];
      t.(mapInfo := m[id2 := m[id2].(nRandomPos := i)], vRandom := t.vRandom[i := id2][j := id1])
  }

  lemma SwapInv(t: Tables, key: Key, pending: Option<Id>, unref: Option<Id>, i: nat, j: nat)
    requires InvMid(t, key, pending, unref) && i < |t.vRandom| && j < |t.vRandom|
    ensures InvMid(SwapRandom(t, i, j), key, pending, unref)
  {
    SwapRandomOk(t, i, j);
    SwapAlike(t, i, j);
    SwapRecords(t, i, j);
    hide TriedOk, NewOk, AddrOk, RefsOk, CountsOk, RandomOk, RecordsOk, Alike, SwapRandom;
    AlikeInv(t, SwapRandom(t, i, j), key, pending, unref);
  }

  lemma SwapAlike(t: Tables, i: nat, j: nat)
    requires i < |t.vRandom| && j < |t.vRandom| && t.vRandom[i] in t.mapInfo && t.vRandom[j] in t.mapInfo
    ensures
      var s := SwapRandom(t, i, j);
      Alike(t.mapInfo, s.mapInfo) && s == t.(mapInfo := s.mapInfo, vRandom := s.vRandom)
  {
  }

  lemma SwapRecords(t: Tables, i: nat, j: nat)
    requires i < |t.vRandom| && j < |t.vRandom| && t.vRandom[i] in t.mapInfo && t.vRandom[j] in t.mapInfo
    requires RecordsOk(t.nIdCount, t.mapInfo)
    ensures RecordsOk(t.nIdCount, SwapRandom(t, i, j).mapInfo)
  {
  }

  lemma SwapRandomOk(t: Tables, i: nat, j: nat)
    requires RandomOk(t.mapInfo, t.vRandom) && i < |t.vRandom| && j < |t.vRandom|
    ensures t.vRandom[i] in t.mapInfo && t.vRandom[j] in t.mapInfo
    ensures RandomOk(SwapRandom(t, i, j).mapInfo, SwapRandom(t, i, j).vRandom)
  {
    if i != j {
      var s := SwapRandom(t, i, j);
      forall k | 0 <= k < |s.vRandom| ensures s.vRandom[k] in s.mapInfo && s.mapInfo[s.vRandom[k]].nRandomPos == k {
        assert t.vRandom[k] in t.mapInfo && t.mapInfo[t.vRandom[k]].nRandomPos == k;
      }
    }
  }

  // ---------------------------------------------------------------- new buckets

  function PutNew(vvNew: seq<set<Id>>, b: nat, id: Id): seq<set<Id>>
    requires b < |vvNew|
  {
    vvNew[b := vvNew[b] + {id}]
  }

  function TakeNew(vvNew: seq<set<Id>>, b: nat, id: Id): seq<set<Id>>
    requires b < |vvNew|
  {
    vvNew[b := vvNew[b] - {id}]
  }

  lemma PutNewBuckets(vvNew: seq<set<Id>>, b: nat, id: Id, x: Id)
    requires b < |vvNew| && id !in vvNew[b]
    ensures NewBuckets(PutNew(vvNew, b, id), x) == if x == id then NewBuckets(vvNew, x) + {b} else NewBuckets(vvNew, x)
    ensures b !in NewBuckets(vvNew, id)
  {
  }

  lemma TakeNewBuckets(vvNew: seq<set<Id>>, b: nat, id: Id, x: Id)
    requires b < |vvNew| && id in vvNew[b]
    ensures NewBuckets(TakeNew(vvNew, b, id), x) == if x == id then NewBuckets(vvNew, x) - {b} else NewBuckets(vvNew, x)
    ensures b in NewBuckets(vvNew, id)
  {
  }

  lemma SameCounts(t: Tables, t': Tables)
    requires t.mapInfo == t'.mapInfo && t.nNew == t'.nNew && t.nTried == t'.nTried
    ensures CountsOk(t) <==> CountsOk(t')
  {
  }

  lemma PutTables(mapInfo: map<Id, Info>, vvNew: seq<set<Id>>, b: nat, id: Id)
    requires NewOk(mapInfo, vvNew) && RefsOk(mapInfo, vvNew, Some(id), None)
    requires b < |vvNew| && id in mapInfo && !mapInfo[id].fInTried && id !in vvNew[b] && |vvNew[b]| < NEW_BUCKET_SIZE
    ensures NewOk(mapInfo, PutNew(vvNew, b, id)) && RefsOk(mapInfo, PutNew(vvNew, b, id), None, None)
  {
    hide NewBuckets;
    assert |vvNew[b] + {id}| == |vvNew[b]| + 1;
    forall x | x in mapInfo ensures mapInfo[x].nRefCount == |NewBuckets(PutNew(vvNew, b, id), x)| {
      PutNewBuckets(vvNew, b, id, x);
    }
  }

  /** The pending reference is realised by inserting the id into a bucket with room. */
  lemma PutInv(t: Tables, key: Key, b: nat, id: Id)
    requires InvMid(t, key, Some(id), None) && b < |t.vvNew| && id in t.mapInfo && !t.mapInfo[id].fInTried
    requires id !in t.vvNew[b] && |t.vvNew[b]| < NEW_BUCKET_SIZE
    ensures Inv(t.(vvNew := PutNew(t.vvNew, b, id)), key)
  {
    hide TriedOk, AddrOk, CountsOk, RecordsOk, RandomOk, NewOk, RefsOk, PutNew;
    SameCounts(t, t.(vvNew := PutNew(t.vvNew, b, id)));
    PutTables(t.mapInfo, t.vvNew, b, id);
  }

  lemma TakeTables(mapInfo: map<Id, Info>, vvNew: seq<set<Id>>, b: nat, id: Id, pending: Option<Id>)
    requires NewOk(mapInfo, vvNew) && RefsOk(mapInfo, vvNew, pending, None)
    requires b < |vvNew| && id in vvNew[b] && pending != Some(id)
    ensures
      var m := mapInfo[id := mapInfo[id].(nRefCount := mapInfo[id].nRefCount - 1)];
      NewOk(m, TakeNew(vvNew, b, id)) && RefsOk(m, TakeNew(vvNew, b, id), pending, Some(id))
  {
    hide NewBuckets;
    var m := mapInfo[id := mapInfo[id].(nRefCount := mapInfo[id].nRefCount - 1)];
    forall x | x in m
      ensures m[x].nRefCount == |NewBuckets(TakeNew(vvNew, b, id), x)| + (if pending == Some(x) then 1 else 0)
    {
      TakeNewBuckets(vvNew, b, id, x);
    }
  }

  function SetRefCount(t: Tables, id: Id, n: int): Tables
    requires id in t.mapInfo
  {
    Touch(t, id, t.mapInfo[id].(nRefCount := n))
  }

  lemma SetRefCountTables(t: Tables, key: Key, id: Id, n: int)
    requires id in t.mapInfo
    ensures RecordsOk(t.nIdCount, t.mapInfo) ==> RecordsOk(t.nIdCount, SetRefCount(t, id, n).mapInfo)
    ensures RandomOk(t.mapInfo, t.vRandom) ==> RandomOk(SetRefCount(t, id, n).mapInfo, t.vRandom)
    ensures AddrOk(t.mapInfo, t.mapAddr) ==> AddrOk(SetRefCount(t, id, n).mapInfo, t.mapAddr)
    ensures NewOk(t.mapInfo, t.vvNew) ==> NewOk(SetRefCount(t, id, n).mapInfo, t.vvNew)
    ensures CountsOk(t) ==> CountsOk(SetRefCount(t, id, n))
  {
    assert NewIds(SetRefCount(t, id, n).mapInfo) == NewIds(t.mapInfo);
    assert TriedIds(SetRefCount(t, id, n).mapInfo) == TriedIds(t.mapInfo);
  }

  lemma SetRefCountTried(t: Tables, key: Key, id: Id, n: int)
    requires id in t.mapInfo && TriedOk(t.mapInfo, t.vvTried, key)
    ensures TriedOk(SetRefCount(t, id, n).mapInfo, t.vvTried, key)
  {
    hide TriedBucket;
  }

  /** Counting a reference before the insertion that makes it. */
  lemma AnnounceInv(t: Tables, key: Key, id: Id, unref: Option<Id>)
    requires InvMid(t, key, None, unref) && id in t.mapInfo && !t.mapInfo[id].fInTried
    requires t.mapInfo[id].nRefCount < NEW_BUCKETS_PER_ADDRESS && (unref.None? || unref == Some(id))
    ensures InvMid(SetRefCount(t, id, t.mapInfo[id].nRefCount + 1), key, Some(id), None)
  {
    hide TriedOk, AddrOk, CountsOk, RecordsOk, RandomOk, NewOk, NewBuckets;
    SetRefCountTables(t, key, id, t.mapInfo[id].nRefCount + 1);
    SetRefCountTried(t, key, id, t.mapInfo[id].nRefCount + 1);
  }

  /** Taking an id out of one bucket and uncounting it; it may be left without any. */
  function Unref(t: Tables, b: nat, id: Id): Tables
    requires b < |t.vvNew| && id in t.mapInfo
  {
    SetRefCount(t, id, t.mapInfo[id].nRefCount - 1).(vvNew := TakeNew(t.vvNew, b, id))
  }

  lemma UnrefIs(t: Tables, b: nat, id: Id)
    requires b < |t.vvNew| && id in t.mapInfo
    ensures
      var u, s := Unref(t, b, id), SetRefCount(t, id, t.mapInfo[id].nRefCount - 1);
      && u == s.(vvNew := TakeNew(t.vvNew, b, id)) && u.vvNew == TakeNew(t.vvNew, b, id) && u.mapInfo == s.mapInfo
      && u.mapInfo == t.mapInfo[id := t.mapInfo[id].(nRefCount := t.mapInfo[id].nRefCount - 1)]
      && u.nIdCount == t.nIdCount && u.mapAddr == t.mapAddr && u.vRandom == t.vRandom && u.vvTried == t.vvTried
      && u.nNew == s.nNew && u.nTried == s.nTried
    ensures id in t.vvNew[b] ==> |Unref(t, b, id).vvNew[b]| == |t.vvNew[b]| - 1
  {
  }

  lemma BucketMember(t: Tables, key: Key, pending: Option<Id>, b: nat, id: Id)
    requires InvMid(t, key, pending, None) && b < |t.vvNew| && id in t.vvNew[b]
    ensures id in t.mapInfo && !t.mapInfo[id].fInTried
  {
    hide TriedOk, AddrOk, CountsOk, RecordsOk, RandomOk, RefsOk;
  }

  lemma UnrefInv(t: Tables, key: Key, pending: Option<Id>, b: nat, id: Id)
    requires InvMid(t, key, pending, None) && b < |t.vvNew| && id in t.vvNew[b] && pending != Some(id)
    ensures id in t.mapInfo && InvMid(Unref(t, b, id), key, pending, Some(id))
    ensures |Unref(t, b, id).vvNew[b]| == |t.vvNew[b]| - 1
    ensures id in Unref(t, b, id).mapInfo && !Unref(t, b, id).mapInfo[id].fInTried
  {
    hide *;
    BucketMember(t, key, pending, b, id);
    MidFromParts(t, key, pending, None);
    UnrefIs(t, b, id);
    MidFromParts(Unref(t, b, id), key, pending, Some(id));
    var n := t.mapInfo[id].nRefCount - 1;
    SetRefCountTables(t, key, id, n);
    SetRefCountTried(t, key, id, n);
    SameCounts(SetRefCount(t, id, n), Unref(t, b, id));
    TakeTables(t.mapInfo, t.vvNew, b, id, pending);
  }

  /** Removes an id from the address index, the id table and the random order, by swapping
      its position with the last one. */
  function Erase(t: Tables, id: Id): Tables
    requires id in t.mapInfo && 0 <= t.mapInfo[id].nRandomPos < |t.vRandom|
    requires t.vRandom[t.mapInfo[id].nRandomPos] == id && t.vRandom[|t.vRandom| - 1] in t.mapInfo
  {
    var s := SwapRandom(t, t.mapInfo[id].nRandomPos, |t.vRandom| - 1);
    s.(vRandom := s.vRandom[..|s.vRandom| - 1],
       mapAddr := s.mapAddr - {t.mapInfo[id].addr.ip},
       mapInfo := s.mapInfo - {id},
       nNew := s.nNew - 1)
  }

  lemma PopRandom(m: map<Id, Info>, vRandom: seq<Id>, id: Id)
    requires RandomOk(m, vRandom) && |vRandom| > 0 && vRandom[|vRandom| - 1] == id
    ensures RandomOk(m - {id}, vRandom[..|vRandom| - 1])
  {
  }

  lemma WithoutId(t: Tables, key: Key, pending: Option<Id>, id: Id)
    requires id in t.mapInfo && !t.mapInfo[id].fInTried && NewBuckets(t.vvNew, id) == {}
    ensures RecordsOk(t.nIdCount, t.mapInfo) ==> RecordsOk(t.nIdCount, t.mapInfo - {id})
    ensures AddrOk(t.mapInfo, t.mapAddr) ==> AddrOk(t.mapInfo - {id}, t.mapAddr - {t.mapInfo[id].addr.ip})
    ensures NewOk(t.mapInfo, t.vvNew) ==> NewOk(t.mapInfo - {id}, t.vvNew)
    ensures RefsOk(t.mapInfo, t.vvNew, pending, Some(id)) ==> RefsOk(t.mapInfo - {id}, t.vvNew, pending, None)
    ensures |NewIds(t.mapInfo - {id})| == |NewIds(t.mapInfo)| - 1
    ensures TriedIds(t.mapInfo - {id}) == TriedIds(t.mapInfo)
  {
    WithoutNewId(t.mapInfo, id);
    hide NewIds, TriedIds;
    assert forall b :: 0 <= b < |t.vvNew| && id in t.vvNew[b] ==> b in NewBuckets(t.vvNew, id);
    hide NewBuckets;
  }

  lemma WithoutNewId(m: map<Id, Info>, id: Id)
    requires id in m && !m[id].fInTried
    ensures |NewIds(m - {id})| == |NewIds(m)| - 1 && TriedIds(m - {id}) == TriedIds(m)
  {
    assert NewIds(m - {id}) == NewIds(m) - {id};
  }

  lemma WithoutIdTried(t: Tables, key: Key, id: Id)
    requires id in t.mapInfo && !t.mapInfo[id].fInTried && TriedOk(t.mapInfo, t.vvTried, key)
    ensures TriedOk(t.mapInfo - {id}, t.vvTried, key)
  {
    hide TriedBucket;
  }

  lemma LastToErase(t: Tables, key: Key, pending: Option<Id>, id: Id)
    requires InvMid(t, key, pending, Some(id)) && id in t.mapInfo && pending != Some(id)
    requires !t.mapInfo[id].fInTried && t.mapInfo[id].nRefCount == 0
    ensures 0 <= t.mapInfo[id].nRandomPos < |t.vRandom| && t.vRandom[t.mapInfo[id].nRandomPos] == id
    ensures t.vRandom[|t.vRandom| - 1] in t.mapInfo
    ensures
      var s := SwapRandom(t, t.mapInfo[id].nRandomPos, |t.vRandom| - 1);
      && id in s.mapInfo && s.vRandom[|s.vRandom| - 1] == id && s.vvNew == t.vvNew && |s.vRandom| == |t.vRandom|
      && !s.mapInfo[id].fInTried && s.mapInfo[id].addr == t.mapInfo[id].addr
      && s == t.(mapInfo := s.mapInfo, vRandom := s.vRandom)
    ensures NewBuckets(t.vvNew, id) == {}
  {
    hide TriedOk, AddrOk, CountsOk, RecordsOk, NewOk, NewBuckets;
  }

  /** Erasing an id that lies in no bucket. */
  lemma EraseInv(t: Tables, key: Key, pending: Option<Id>, id: Id)
    requires InvMid(t, key, pending, Some(id)) && id in t.mapInfo && pending != Some(id)
    requires !t.mapInfo[id].fInTried && t.mapInfo[id].nRefCount == 0
    ensures 0 <= t.mapInfo[id].nRandomPos < |t.vRandom| && t.vRandom[t.mapInfo[id].nRandomPos] == id
    ensures t.vRandom[|t.vRandom| - 1] in t.mapInfo
    ensures InvMid(Erase(t, id), key, pending, None)
  {
    hide RandomOk, AddrOk, NewOk, RefsOk, TriedOk, RecordsOk, NewIds, TriedIds, SwapRandom, NewBuckets;
    LastToErase(t, key, pending, id);
    SwapInv(t, key, pending, Some(id), t.mapInfo[id].nRandomPos, |t.vRandom| - 1);
    var s := SwapRandom(t, t.mapInfo[id].nRandomPos, |t.vRandom| - 1);
    PopRandom(s.mapInfo, s.vRandom, id);
    WithoutId(s, key, pending, id);
    WithoutIdTried(s, key, id);
  }

  /** ShrinkNew's treatment of its victim: one reference less, and gone with the last one. */
  function DropRef(t: Tables, b: nat, id: Id): Tables
    requires b < |t.vvNew| && id in t.mapInfo && 0 <= t.mapInfo[id].nRandomPos < |t.vRandom|
    requires t.vRandom[t.mapInfo[id].nRandomPos] == id && t.vRandom[|t.vRandom| - 1] in t.mapInfo
  {
    var s := Unref(t, b, id);
    if s.mapInfo[id].nRefCount == 0 then Erase(s, id) else s
  }

  lemma AtLeastOneRef(t: Tables, key: Key, pending: Option<Id>, id: Id)
    requires InvMid(t, key, pending, Some(id)) && id in t.mapInfo && t.mapInfo[id].nRefCount != 0
    ensures InvMid(t, key, pending, None)
  {
    hide TriedOk, AddrOk, CountsOk, RecordsOk, RandomOk, NewBuckets, NewOk;
  }

  lemma EraseKeepsBuckets(t: Tables, id: Id)
    requires id in t.mapInfo && 0 <= t.mapInfo[id].nRandomPos < |t.vRandom|
    requires t.vRandom[t.mapInfo[id].nRandomPos] == id && t.vRandom[|t.vRandom| - 1] in t.mapInfo
    ensures Erase(t, id).vvNew == t.vvNew && Erase(t, id).vvTried == t.vvTried
  {
  }

  lemma DropRefInv(t: Tables, key: Key, pending: Option<Id>, b: nat, id: Id)
    requires InvMid(t, key, pending, None) && b < |t.vvNew| && id in t.vvNew[b] && pending != Some(id)
    ensures id in t.mapInfo && 0 <= t.mapInfo[id].nRandomPos < |t.vRandom|
    ensures t.vRandom[t.mapInfo[id].nRandomPos] == id && t.vRandom[|t.vRandom| - 1] in t.mapInfo
    ensures InvMid(DropRef(t, b, id), key, pending, None)
    ensures |DropRef(t, b, id).vvNew[b]| == |t.vvNew[b]| - 1
  {
    DropRefDefined(t, key, pending, b, id);
    hide RandomOk, AddrOk, NewOk, RefsOk, TriedOk, RecordsOk, CountsOk, Unref, Erase, InvMid;
    UnrefInv(t, key, pending, b, id);
    var s := Unref(t, b, id);
    if s.mapInfo[id].nRefCount == 0 {
      EraseInv(s, key, pending, id);
      EraseKeepsBuckets(s, id);
    } else {
      AtLeastOneRef(s, key, pending, id);
    }
  }

  lemma DropRefDefined(t: Tables, key: Key, pending: Option<Id>, b: nat, id: Id)
    requires InvMid(t, key, pending, None) && b < |t.vvNew| && id in t.vvNew[b]
    ensures id in t.mapInfo && 0 <= t.mapInfo[id].nRandomPos < |t.vRandom|
    ensures t.vRandom[t.mapInfo[id].nRandomPos] == id && t.vRandom[|t.vRandom| - 1] in t.mapInfo
  {
    hide TriedOk, AddrOk, CountsOk, RecordsOk, RefsOk;
  }
}
