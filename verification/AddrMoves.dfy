/** Creating records and moving them between the new and the tried tables
    (src/addrman.cpp: Create, SelectTried, MakeTried), as table changes that keep the
    invariant. */
module AddrMoves {
  import opened Collections
  import opened AddrTables

  // ---------------------------------------------------------------- creating a record

  /** A fresh record at the end of the random order, counted as new but in no bucket yet. */
  function Created(t: Tables, info: Info): Tables {
    Tables(
      t.nIdCount + 1,
      t.mapInfo[t.nIdCount := info.(nRefCount := 0, fInTried := false, nRandomPos := |t.vRandom|)],
      t.mapAddr[info.addr.ip := t.nIdCount],
      t.vRandom + [t.nIdCount],
      t.nTried, t.vvTried, t.nNew + 1, t.vvNew)
  }

  lemma CreatedTables(t: Tables, key: Key, info: Info)
    requires Inv(t, key) && info.nLastTry >= 0 && info.nLastSuccess >= 0
    ensures
      var s := Created(t, info);
      RecordsOk(s.nIdCount, s.mapInfo) && NewOk(s.mapInfo, s.vvNew) && CountsOk(s)
  {
    CreatedCounts(t, key, info);
    CreatedNew(t, key, info);
    hide RefsOk, TriedOk, AddrOk, RandomOk, CountsOk, NewOk;
  }

  lemma CreatedNew(t: Tables, key: Key, info: Info)
    requires Inv(t, key)
    ensures NewOk(Created(t, info).mapInfo, t.vvNew)
  {
    hide RefsOk, TriedOk, AddrOk, RandomOk, CountsOk;
    assert t.nIdCount !in t.mapInfo;
  }

  lemma CreatedCounts(t: Tables, key: Key, info: Info)
    requires Inv(t, key)
    ensures CountsOk(Created(t, info))
  {
    hide RefsOk, TriedOk, AddrOk, RandomOk, NewOk;
    var s := Created(t, info);
    assert t.nIdCount !in t.mapInfo;
    assert NewIds(s.mapInfo) == NewIds(t.mapInfo) + {t.nIdCount};
    assert TriedIds(s.mapInfo) == TriedIds(t.mapInfo);
  }

  lemma CreatedRandom(t: Tables, key: Key, info: Info)
    requires Inv(t, key)
    ensures RandomOk(Created(t, info).mapInfo, Created(t, info).vRandom)
  {
    hide RefsOk, TriedOk, AddrOk, NewOk, CountsOk;
    assert t.nIdCount !in t.mapInfo;
  }

  lemma CreatedAddr(t: Tables, key: Key, info: Info)
    requires Inv(t, key) && info.addr.ip !in t.mapAddr
    ensures AddrOk(Created(t, info).mapInfo, Created(t, info).mapAddr)
  {
    hide RefsOk, TriedOk, NewOk, CountsOk, RandomOk;
    assert t.nIdCount !in t.mapInfo;
  }

  lemma CreatedInv(t: Tables, key: Key, info: Info)
    requires Inv(t, key) && info.addr.ip !in t.mapAddr && info.nLastTry >= 0 && info.nLastSuccess >= 0
    ensures InvMid(Created(t, info), key, None, Some(t.nIdCount))
  {
    CreatedTables(t, key, info);
    CreatedRandom(t, key, info);
    CreatedAddr(t, key, info);
    CreatedRefs(t, key, info);
    CreatedTried(t, key, info);
    hide *;
    MidFromParts(Created(t, info), key, None, Some(t.nIdCount));
  }

  lemma CreatedRefs(t: Tables, key: Key, info: Info)
    requires Inv(t, key)
    ensures RefsOk(Created(t, info).mapInfo, t.vvNew, None, Some(t.nIdCount))
  {
    hide RandomOk, AddrOk, TriedOk, CountsOk;
    var id := t.nIdCount;
    assert id !in t.mapInfo;
    assert NewBuckets(t.vvNew, id) == {};
    hide NewBuckets;
  }

  lemma CreatedTried(t: Tables, key: Key, info: Info)
    requires Inv(t, key)
    ensures TriedOk(Created(t, info).mapInfo, t.vvTried, key)
  {
    hide RandomOk, AddrOk, RefsOk, CountsOk, NewOk, TriedBucket;
    assert t.nIdCount !in t.mapInfo;
  }

  // ---------------------------------------------------------------- leaving the new table

  function ClearNew(vvNew: seq<set<Id>>, id: Id): seq<set<Id>> {
    seq(|vvNew|, b requires 0 <= b < |vvNew| => vvNew[b] - {id})
  }

  lemma ClearNewBuckets(vvNew: seq<set<Id>>, id: Id, x: Id)
    ensures NewBuckets(ClearNew(vvNew, id), x) == if x == id then {} else NewBuckets(vvNew, x)
  {
  }

  /** The id leaves every new bucket and is flagged as tried; it is in no tried bucket yet. */
  function Flagged(t: Tables, id: Id): Tables
    requires id in t.mapInfo
  {
    t.(mapInfo := t.mapInfo[id := t.mapInfo[id].(nRefCount := 0, fInTried := true)],
       vvNew := ClearNew(t.vvNew, id),
       nNew := t.nNew - 1)
  }

  lemma FlaggedRefs(t: Tables, key: Key, id: Id)
    requires Inv(t, key) && id in t.mapInfo && !t.mapInfo[id].fInTried
    ensures RefsOk(Flagged(t, id).mapInfo, Flagged(t, id).vvNew, None, None)
  {
    hide RandomOk, AddrOk, TriedOk, CountsOk, NewOk, NewBuckets;
    var s := Flagged(t, id);
    forall x | x in s.mapInfo ensures s.mapInfo[x].nRefCount == |NewBuckets(s.vvNew, x)| {
      ClearNewBuckets(t.vvNew, id, x);
    }
  }

  lemma FlaggedTables(t: Tables, key: Key, id: Id)
    requires Inv(t, key) && id in t.mapInfo && !t.mapInfo[id].fInTried && t.mapInfo[id].nLastSuccess > 0
    ensures
      var s := Flagged(t, id);
      && RecordsOk(s.nIdCount, s.mapInfo) && RandomOk(s.mapInfo, s.vRandom) && AddrOk(s.mapInfo, s.mapAddr)
      && NewOk(s.mapInfo, s.vvNew)
      && s.nNew == |NewIds(s.mapInfo)| && s.nTried + 1 == |TriedIds(s.mapInfo)|
  {
    FlaggedRecords(t, key, id);
    FlaggedNew(t, key, id);
    FlaggedCounts(t, key, id);
  }

  lemma FlaggedRecords(t: Tables, key: Key, id: Id)
    requires Inv(t, key) && id in t.mapInfo && !t.mapInfo[id].fInTried && t.mapInfo[id].nLastSuccess > 0
    ensures
      var s := Flagged(t, id);
      RecordsOk(s.nIdCount, s.mapInfo) && RandomOk(s.mapInfo, s.vRandom) && AddrOk(s.mapInfo, s.mapAddr)
  {
    hide TriedOk, RefsOk, NewOk, CountsOk, ClearNew, RecordsOk, RandomOk, AddrOk;
    SamePlaces(t.mapInfo, Flagged(t, id).mapInfo, t.nIdCount, t.vRandom, t.mapAddr);
  }

  /** Changing flags and counts of records that have succeeded. */
  lemma SamePlaces(m: map<Id, Info>, m': map<Id, Info>, nIdCount: Id, vRandom: seq<Id>, mapAddr: map<NetAddr, Id>)
    requires RecordsOk(nIdCount, m) && RandomOk(m, vRandom) && AddrOk(m, mapAddr)
    requires m'.Keys == m.Keys && forall x :: x in m ==>
      && m'[x].nRandomPos == m[x].nRandomPos && m'[x].addr == m[x].addr && m'[x].nLastTry == m[x].nLastTry
      && m'[x].nLastSuccess == m[x].nLastSuccess && (m'[x].fInTried ==> m[x].fInTried || m[x].nLastSuccess > 0)
    ensures RecordsOk(nIdCount, m') && RandomOk(m', vRandom) && AddrOk(m', mapAddr)
  {
    assert RecordsOk(nIdCount, m') by { hide RandomOk, AddrOk; }
    assert RandomOk(m', vRandom) by { hide RecordsOk, AddrOk; }
    assert AddrOk(m', mapAddr) by { hide RecordsOk, RandomOk; }
  }

  lemma FlaggedNew(t: Tables, key: Key, id: Id)
    requires Inv(t, key) && id in t.mapInfo
    ensures NewOk(Flagged(t, id).mapInfo, Flagged(t, id).vvNew)
  {
    hide TriedOk, RefsOk, RecordsOk, RandomOk, AddrOk, CountsOk;
  }

  lemma FlaggedCounts(t: Tables, key: Key, id: Id)
    requires Inv(t, key) && id in t.mapInfo && !t.mapInfo[id].fInTried
    ensures
      var s := Flagged(t, id);
      s.nNew == |NewIds(s.mapInfo)| && s.nTried + 1 == |TriedIds(s.mapInfo)|
  {
    hide TriedOk, RefsOk, NewOk, RandomOk, AddrOk, RecordsOk, ClearNew;
    var s := Flagged(t, id);
    assert NewIds(s.mapInfo) == NewIds(t.mapInfo) - {id};
    assert TriedIds(s.mapInfo) == TriedIds(t.mapInfo) + {id};
  }

  // ---------------------------------------------------------------- entering a tried bucket with room

  function Appended(t: Tables, key: Key, id: Id): Tables
    requires id in t.mapInfo && |t.vvTried| == TRIED_BUCKET_COUNT
  {
    var k := TriedBucket(key, t.mapInfo[id].addr);
    Flagged(t, id).(vvTried := t.vvTried[k := t.vvTried[k] + [id]], nTried := t.nTried + 1)
  }

  lemma AppendedTried(t: Tables, key: Key, id: Id)
    requires TriedOk(t.mapInfo, t.vvTried, key) && id in t.mapInfo && !t.mapInfo[id].fInTried
    requires |t.vvTried[TriedBucket(key, t.mapInfo[id].addr)]| < TRIED_BUCKET_SIZE
    ensures TriedOk(Appended(t, key, id).mapInfo, Appended(t, key, id).vvTried, key)
  {
    hide TriedBucket;
    var k := TriedBucket(key, t.mapInfo[id].addr);
    var m, vv := Appended(t, key, id).mapInfo, Appended(t, key, id).vvTried;
    assert vv[k][|t.vvTried[k]|] == id;
    forall x | x in m && m[x].fInTried ensures x in vv[TriedBucket(key, m[x].addr)] {
      if x != id {
        assert x in t.vvTried[TriedBucket(key, t.mapInfo[x].addr)];
      }
    }
  }

  lemma AppendedInv(t: Tables, key: Key, id: Id)
    requires Inv(t, key) && id in t.mapInfo && !t.mapInfo[id].fInTried && t.mapInfo[id].nLastSuccess > 0
    requires |t.vvTried[TriedBucket(key, t.mapInfo[id].addr)]| < TRIED_BUCKET_SIZE
    ensures Inv(Appended(t, key, id), key)
  {
    hide RandomOk, AddrOk, RefsOk, CountsOk, NewOk, RecordsOk, NewIds, TriedIds;
    AppendedTried(t, key, id);
    FlaggedTables(t, key, id);
    FlaggedRefs(t, key, id);
    CountsFrom(Appended(t, key, id));
  }

  lemma CountsFrom(t: Tables)
    ensures CountsOk(t) <==> t.nNew == |NewIds(t.mapInfo)| && t.nTried == |TriedIds(t.mapInfo)|
  {
  }

  // ---------------------------------------------------------------- displacing a tried entry

  ghost predicate Distinct(s: seq<Id>) {
    forall i, j :: 0 <= i < j < |s| ==> s[i] != s[j]
  }

  /** A reordering of a list without repetitions. */
  ghost predicate Reordered(a: seq<Id>, b: seq<Id>) {
    |a| == |b| && (Distinct(a) ==> Distinct(b)) && forall x :: x in a <==> x in b
  }

  lemma SwapReorders(a: seq<Id>, b: seq<Id>, i: nat, j: nat)
    requires Reordered(a, b) && i < |b| && j < |b|
    ensures Reordered(a, b[j := b[i]][i := b[j]])
  {
    var c := b[j := b[i]][i := b[j]];
    forall x | x in b ensures x in c {
      var k :| 0 <= k < |b| && b[k] == x;
      assert c[if k == i then j else if k == j then i else k] == x;
    }
  }

  lemma ReorderInv(t: Tables, key: Key, k: nat, order: seq<Id>)
    requires Inv(t, key) && k < |t.vvTried| && Reordered(t.vvTried[k], order)
    ensures Inv(t.(vvTried := t.vvTried[k := order]), key)
  {
    hide RandomOk, AddrOk, RefsOk, CountsOk, NewOk, RecordsOk, TriedOk, Reordered;
    ReorderTried(t, key, k, order);
    SameCounts(t, t.(vvTried := t.vvTried[k := order]));
  }

  lemma ReorderTried(t: Tables, key: Key, k: nat, order: seq<Id>)
    requires TriedOk(t.mapInfo, t.vvTried, key) && k < |t.vvTried| && Reordered(t.vvTried[k], order)
    ensures TriedOk(t.mapInfo, t.vvTried[k := order], key)
  {
    hide TriedBucket;
    var vv := t.vvTried[k := order];
    forall b, i | 0 <= b < |vv| && 0 <= i < |vv[b]|
      ensures vv[b][i] in t.mapInfo && t.mapInfo[vv[b][i]].fInTried
      ensures TriedBucket(key, t.mapInfo[vv[b][i]].addr) == b
    {
      assert vv[b][i] in t.vvTried[b];
    }
  }

  /** The same ids with the same addresses and random positions. */
  ghost predicate Stay(m: map<Id, Info>, m': map<Id, Info>) {
    && (forall id :: id in m <==> id in m')
    && (forall id :: id in m ==> m'[id].addr == m[id].addr && m'[id].nRandomPos == m[id].nRandomPos)
  }

  lemma StayTables(m: map<Id, Info>, m': map<Id, Info>, vRandom: seq<Id>, mapAddr: map<NetAddr, Id>)
    requires Stay(m, m') && RandomOk(m, vRandom) && AddrOk(m, mapAddr)
    ensures RandomOk(m', vRandom) && AddrOk(m', mapAddr)
  {
  }

  /** `id` takes the place `pos` in its full tried bucket; the entry there goes back to the
      new bucket `target`. */
  function Displaced(t: Tables, key: Key, id: Id, pos: nat, target: nat): Tables
    requires id in t.mapInfo && |t.vvTried| == TRIED_BUCKET_COUNT && target < |t.vvNew|
    requires pos < |t.vvTried[TriedBucket(key, t.mapInfo[id].addr)]|
    requires t.vvTried[TriedBucket(key, t.mapInfo[id].addr)][pos] in t.mapInfo
  {
    var k := TriedBucket(key, t.mapInfo[id].addr);
    var v := t.vvTried[k][pos];
    var s := Flagged(t, id);
    s.(mapInfo := s.mapInfo[v := s.mapInfo[v].(fInTried := false, nRefCount := 1)],
       vvNew := PutNew(s.vvNew, target, v),
       vvTried := t.vvTried[k := t.vvTried[k][pos := id]],
       nNew := s.nNew + 1)
  }

  ghost predicate CanDisplace(t: Tables, key: Key, id: Id, pos: nat, target: nat) {
    && id in t.mapInfo && !t.mapInfo[id].fInTried && t.mapInfo[id].nLastSuccess > 0
    && |t.vvTried| == TRIED_BUCKET_COUNT && target < |t.vvNew|
    && pos < |t.vvTried[TriedBucket(key, t.mapInfo[id].addr)]|
    && t.vvTried[TriedBucket(key, t.mapInfo[id].addr)][pos] in t.mapInfo
    && |t.vvNew[target] - {id}| < NEW_BUCKET_SIZE
  }

  lemma DisplacedTried(t: Tables, key: Key, id: Id, pos: nat, target: nat)
    requires CanDisplace(t, key, id, pos, target) && TriedOk(t.mapInfo, t.vvTried, key)
    ensures TriedOk(Displaced(t, key, id, pos, target).mapInfo, Displaced(t, key, id, pos, target).vvTried, key)
  {
    hide TriedBucket;
    var k := TriedBucket(key, t.mapInfo[id].addr);
    var m, vv := Displaced(t, key, id, pos, target).mapInfo, Displaced(t, key, id, pos, target).vvTried;
    assert id !in t.vvTried[k];
    forall x | x in m && m[x].fInTried ensures x in vv[TriedBucket(key, m[x].addr)] {
      if x == id {
        assert vv[k][pos] == id;
      } else {
        var b := TriedBucket(key, t.mapInfo[x].addr);
        var i :| 0 <= i < |t.vvTried[b]| && t.vvTried[b][i] == x;
        assert vv[b][i] == x;
      }
    }
  }

  lemma DisplacedRefs(t: Tables, key: Key, id: Id, pos: nat, target: nat)
    requires Inv(t, key) && CanDisplace(t, key, id, pos, target)
    ensures RefsOk(Displaced(t, key, id, pos, target).mapInfo, Displaced(t, key, id, pos, target).vvNew, None, None)
  {
    hide RandomOk, AddrOk, TriedOk, CountsOk, NewOk, NewBuckets, RecordsOk, TriedBucket, Inv;
    VictimTried(t, key, id, pos, target);
    FlaggedRefs(t, key, id);
    var k := TriedBucket(key, t.mapInfo[id].addr);
    var v := t.vvTried[k][pos];
    VictimRefs(Flagged(t, id), v, target);
  }

  /** A record in no new bucket put into one, as a new record. */
  lemma VictimRefs(s: Tables, v: Id, target: nat)
    requires RefsOk(s.mapInfo, s.vvNew, None, None) && v in s.mapInfo && target < |s.vvNew|
    requires v !in s.vvNew[target] && NewBuckets(s.vvNew, v) == {}
    ensures RefsOk(s.mapInfo[v := s.mapInfo[v].(fInTried := false, nRefCount := 1)], PutNew(s.vvNew, target, v), None, None)
  {
    hide NewBuckets;
    var m, vv := s.mapInfo[v := s.mapInfo[v].(fInTried := false, nRefCount := 1)], PutNew(s.vvNew, target, v);
    forall x | x in m ensures m[x].nRefCount == |NewBuckets(vv, x)| {
      PutNewBuckets(s.vvNew, target, v, x);
    }
  }

  lemma VictimTried(t: Tables, key: Key, id: Id, pos: nat, target: nat)
    requires Inv(t, key) && CanDisplace(t, key, id, pos, target)
    ensures
      var v := t.vvTried[TriedBucket(key, t.mapInfo[id].addr)][pos];
      && v != id && t.mapInfo[v].fInTried && t.mapInfo[v].nRefCount == 0
      && (forall b :: 0 <= b < |t.vvNew| ==> v !in t.vvNew[b])
      && v in Flagged(t, id).mapInfo && Flagged(t, id).mapInfo[v] == t.mapInfo[v]
      && NewBuckets(Flagged(t, id).vvNew, v) == {} && v !in Flagged(t, id).vvNew[target]
  {
    hide RandomOk, AddrOk, CountsOk, RecordsOk, TriedBucket;
  }

  lemma DisplacedTables(t: Tables, key: Key, id: Id, pos: nat, target: nat)
    requires Inv(t, key) && CanDisplace(t, key, id, pos, target)
    ensures
      var s := Displaced(t, key, id, pos, target);
      && RecordsOk(s.nIdCount, s.mapInfo) && RandomOk(s.mapInfo, s.vRandom) && AddrOk(s.mapInfo, s.mapAddr)
      && NewOk(s.mapInfo, s.vvNew) && CountsOk(s)
  {
    VictimTried(t, key, id, pos, target);
    FlaggedTables(t, key, id);
    var s, t' := Flagged(t, id), Displaced(t, key, id, pos, target);
    var v := t.vvTried[TriedBucket(key, t.mapInfo[id].addr)][pos];
    DisplacedStay(t, key, id, pos, target);
    VictimNew(s, t', v, target);
    hide *;
  }

  lemma DisplacedStay(t: Tables, key: Key, id: Id, pos: nat, target: nat)
    requires Inv(t, key) && CanDisplace(t, key, id, pos, target)
    ensures
      var s := Displaced(t, key, id, pos, target);
      RecordsOk(s.nIdCount, s.mapInfo) && RandomOk(s.mapInfo, s.vRandom) && AddrOk(s.mapInfo, s.mapAddr)
  {
    hide TriedOk, RefsOk, TriedBucket, NewBuckets, RandomOk, AddrOk, NewOk, CountsOk, PutNew, ClearNew;
    VictimTried(t, key, id, pos, target);
    var t' := Displaced(t, key, id, pos, target);
    StayTables(t.mapInfo, t'.mapInfo, t.vRandom, t.mapAddr);
  }

  lemma VictimNew(s: Tables, t': Tables, v: Id, target: nat)
    requires NewOk(s.mapInfo, s.vvNew) && v in s.mapInfo && s.mapInfo[v].fInTried && target < |s.vvNew|
    requires |s.vvNew[target]| < NEW_BUCKET_SIZE
    requires t'.mapInfo == s.mapInfo[v := s.mapInfo[v].(fInTried := false, nRefCount := 1)]
    requires t'.vvNew == PutNew(s.vvNew, target, v) && t'.nNew == s.nNew + 1 && t'.nTried == s.nTried
    requires s.nNew == |NewIds(s.mapInfo)| && s.nTried + 1 == |TriedIds(s.mapInfo)|
    ensures NewOk(t'.mapInfo, t'.vvNew) && CountsOk(t')
  {
    assert |s.vvNew[target] + {v}| <= |s.vvNew[target]| + 1;
    assert NewIds(t'.mapInfo) == NewIds(s.mapInfo) + {v};
    assert TriedIds(t'.mapInfo) == TriedIds(s.mapInfo) - {v};
  }

  lemma DisplacedInv(t: Tables, key: Key, id: Id, pos: nat, target: nat)
    requires Inv(t, key) && CanDisplace(t, key, id, pos, target)
    ensures Inv(Displaced(t, key, id, pos, target), key)
  {
    assert TriedOk(t.mapInfo, t.vvTried, key);
    hide *;
    DisplacedTables(t, key, id, pos, target);
    DisplacedRefs(t, key, id, pos, target);
    CanDisplaceMeans(t, key, id, pos, target);
    DisplacedTried(t, key, id, pos, target);
    MidFromParts(Displaced(t, key, id, pos, target), key, None, None);
    InvIsMid(Displaced(t, key, id, pos, target), key);
  }

  lemma CanDisplaceMeans(t: Tables, key: Key, id: Id, pos: nat, target: nat)
    requires CanDisplace(t, key, id, pos, target)
    ensures id in t.mapInfo && |t.vvTried| == TRIED_BUCKET_COUNT && target < |t.vvNew|
    ensures pos < |t.vvTried[TriedBucket(key, t.mapInfo[id].addr)]|
    ensures t.vvTried[TriedBucket(key, t.mapInfo[id].addr)][pos] in t.mapInfo
  {
  }

  lemma InvIsMid(t: Tables, key: Key)
    ensures Inv(t, key) <==> InvMid(t, key, None, None)
  {
    hide InvMid;
  }

  // ---------------------------------------------------------------- selecting a tried entry to displace

  /** The draws of SelectTried: in round i a position from i on. */
  predicate DrawsOk(pos: seq<nat>, size: nat) {
    forall i :: 0 <= i < |pos| && i < size ==> i <= pos[i] < size
  }

  function SwapAt(s: seq<Id>, i: nat, j: nat): seq<Id>
    requires i < |s| && j < |s|
  {
    s[j := s[i]][i := s[j]]
  }

  /** The order of the bucket after k rounds, and the round that drew the least recently
      tried entry so far. */
  datatype Selection = Selection(order: seq<Id>, round: nat)

  function Selected(m: map<Id, Info>, bucket: seq<Id>, pos: seq<nat>, k: nat): (s: Selection)
    requires k <= |pos| && k <= |bucket| && DrawsOk(pos, |bucket|) && forall x :: x in bucket ==> x in m
    ensures |s.order| == |bucket| && (k > 0 ==> s.round < k)
    ensures forall i :: 0 <= i < |s.order| ==> s.order[i] in m
  {
    if k == 0 then Selection(bucket, 0)
    else
      var s := Selected(m, bucket, pos, k - 1);
      var order := SwapAt(s.order, k - 1, pos[k - 1]);
      var better := k == 1 || m[order[k - 1]].nLastSuccess < m[s.order[s.round]].nLastSuccess;
      Selection(order, if better then k - 1 else s.round)
  }

  lemma SelectedNone(m: map<Id, Info>, bucket: seq<Id>, pos: seq<nat>)
    requires DrawsOk(pos, |bucket|) && forall x :: x in bucket ==> x in m
    ensures Selected(m, bucket, pos, 0) == Selection(bucket, 0)
  {
  }

  lemma SelectedNext(m: map<Id, Info>, bucket: seq<Id>, pos: seq<nat>, i: nat)
    requires i < |pos| && i < |bucket| && DrawsOk(pos, |bucket|) && forall x :: x in bucket ==> x in m
    ensures
      var s := Selected(m, bucket, pos, i);
      var order := SwapAt(s.order, i, pos[i]);
      && order == s.order[pos[i] := s.order[i]][i := s.order[pos[i]]] && s.order[pos[i]] in m
      && (i > 0 ==> order[s.round] == s.order[s.round])
      && Selected(m, bucket, pos, i + 1) == Selection(order,
           if i == 0 || m[s.order[pos[i]]].nLastSuccess < m[s.order[s.round]].nLastSuccess then i else s.round)
  {
  }

  lemma {:induction false} SelectedReorders(m: map<Id, Info>, bucket: seq<Id>, pos: seq<nat>, k: nat)
    requires k <= |pos| && k <= |bucket| && DrawsOk(pos, |bucket|) && forall x :: x in bucket ==> x in m
    ensures Reordered(bucket, Selected(m, bucket, pos, k).order)
  {
    if k > 0 {
      SelectedReorders(m, bucket, pos, k - 1);
      hide Reordered;
      SwapReorders(bucket, Selected(m, bucket, pos, k - 1).order, k - 1, pos[k - 1]);
    }
  }

  ghost predicate LeastAmong(m: map<Id, Info>, s: Selection, k: nat) {
    && s.round < k <= |s.order| && (forall i :: 0 <= i < |s.order| ==> s.order[i] in m)
    && forall i :: 0 <= i < k ==> m[s.order[s.round]].nLastSuccess <= m[s.order[i]].nLastSuccess
  }

  /** The chosen round's draw stands at that round's own position, and is the least recently
      tried among all draws. */
  lemma {:induction false} SelectedIsLeast(m: map<Id, Info>, bucket: seq<Id>, pos: seq<nat>, k: nat)
    requires 0 < k <= |pos| && k <= |bucket| && DrawsOk(pos, |bucket|) && forall x :: x in bucket ==> x in m
    ensures LeastAmong(m, Selected(m, bucket, pos, k), k)
  {
    if k > 1 {
      SelectedIsLeast(m, bucket, pos, k - 1);
      var s', s := Selected(m, bucket, pos, k - 1), Selected(m, bucket, pos, k);
      assert s.order[s'.round] == s'.order[s'.round];
      forall i | 0 <= i < k ensures m[s.order[s.round]].nLastSuccess <= m[s.order[i]].nLastSuccess {
        if i < k - 1 {
          assert s.order[i] == s'.order[i];
        }
      }
    }
  }

  /** How many entries SelectTried inspects. */
  function Inspected(size: nat): nat {
    if size < 4 then size else 4
  }

  /** The position that SelectTried returns, where the chosen entry was drawn from, still holds
      that entry after the swaps. */
  predicate Hits(m: map<Id, Info>, bucket: seq<Id>, pos: seq<nat>)
    requires bucket != [] && |pos| == 4 && DrawsOk(pos, |bucket|) && forall x :: x in bucket ==> x in m
  {
    var s := Selected(m, bucket, pos, Inspected(|bucket|));
    s.order[pos[s.round]] == s.order[s.round]
  }

  ghost predicate AlwaysHits(m: map<Id, Info>, bucket: seq<Id>)
    requires bucket != [] && forall x :: x in bucket ==> x in m
  {
    forall pos :: |pos| == 4 && DrawsOk(pos, |bucket|) ==> Hits(m, bucket, pos)
  }

  /** It does so exactly if the draw of the chosen round left that entry in place. */
  lemma HitsInPlace(m: map<Id, Info>, bucket: seq<Id>, pos: seq<nat>)
    requires bucket != [] && |pos| == 4 && DrawsOk(pos, |bucket|) && forall x :: x in bucket ==> x in m
    requires Distinct(bucket)
    ensures
      var s := Selected(m, bucket, pos, Inspected(|bucket|));
      Hits(m, bucket, pos) <==> pos[s.round] == s.round
  {
    SelectedReorders(m, bucket, pos, Inspected(|bucket|));
    hide Selected;
  }

  ghost predicate LeastOf(m: map<Id, Info>, bucket: seq<Id>, x: Id)
    requires forall y :: y in bucket ==> y in m
  {
    x in bucket && forall y :: y in bucket ==> m[x].nLastSuccess <= m[y].nLastSuccess
  }

  /** A round that drew a least entry of the whole bucket stays the chosen one. */
  lemma {:induction false} LeastStays(m: map<Id, Info>, bucket: seq<Id>, pos: seq<nat>, r: nat, k: nat)
    requires 0 < r <= k <= |pos| && k <= |bucket| && DrawsOk(pos, |bucket|) && forall x :: x in bucket ==> x in m
    requires LeastOf(m, bucket, Selected(m, bucket, pos, r).order[Selected(m, bucket, pos, r).round])
    ensures Selected(m, bucket, pos, k).round == Selected(m, bucket, pos, r).round
    ensures LeastOf(m, bucket, Selected(m, bucket, pos, k).order[Selected(m, bucket, pos, k).round])
    decreases k
  {
    hide Selected, SwapAt;
    if r < k {
      LeastStays(m, bucket, pos, r, k - 1);
      SelectedReorders(m, bucket, pos, k - 1);
      SelectedNext(m, bucket, pos, k - 1);
      var s := Selected(m, bucket, pos, k - 1);
      assert s.order[pos[k - 1]] in s.order;
      hide Distinct;
    }
  }

  lemma FirstRound(m: map<Id, Info>, bucket: seq<Id>, pos: seq<nat>)
    requires bucket != [] && pos != [] && DrawsOk(pos, |bucket|) && forall x :: x in bucket ==> x in m
    ensures Selected(m, bucket, pos, 1) == Selection(SwapAt(bucket, 0, pos[0]), 0)
  {
    SelectedNone(m, bucket, pos);
    SelectedNext(m, bucket, pos, 0);
    hide Selected;
  }

  /** A least entry behind the first place, drawn first: its place now holds the first entry. */
  lemma LeastDrawnFirst(m: map<Id, Info>, bucket: seq<Id>, l: nat)
    requires 0 < l < |bucket| && (forall x :: x in bucket ==> x in m) && Distinct(bucket) && LeastOf(m, bucket, bucket[l])
    ensures DrawsOk([l, 1, 2, 3], |bucket|) && !Hits(m, bucket, [l, 1, 2, 3])
  {
    var pos := [l, 1, 2, 3];
    FirstRound(m, bucket, pos);
    LeastStays(m, bucket, pos, 1, Inspected(|bucket|));
    HitsInPlace(m, bucket, pos);
    hide Selected;
  }

  /** Only the first entry is least: swapped to the third place, it is drawn from there. */
  lemma LeastDrawnSecond(m: map<Id, Info>, bucket: seq<Id>)
    requires |bucket| >= 3 && (forall x :: x in bucket ==> x in m) && Distinct(bucket)
    requires LeastOf(m, bucket, bucket[0]) && forall i :: 0 < i < |bucket| ==> !LeastOf(m, bucket, bucket[i])
    ensures DrawsOk([2, 2, 2, 3], |bucket|) && !Hits(m, bucket, [2, 2, 2, 3])
  {
    var pos := [2, 2, 2, 3];
    FirstRound(m, bucket, pos);
    SelectedNext(m, bucket, pos, 1);
    hide Selected;
    var s := Selected(m, bucket, pos, 1);
    assert s.order[2] == bucket[0] && s.order[0] == bucket[2];
    assert m[bucket[0]].nLastSuccess < m[bucket[2]].nLastSuccess by {
      assert bucket[2] in bucket && !LeastOf(m, bucket, bucket[2]);
    }
    LeastStays(m, bucket, pos, 2, Inspected(|bucket|));
    HitsInPlace(m, bucket, pos);
  }

  lemma {:induction false} LeastEntry(m: map<Id, Info>, bucket: seq<Id>, n: nat) returns (l: nat)
    requires 0 < n <= |bucket| && forall x :: x in bucket ==> x in m
    ensures l < n && forall i :: 0 <= i < n ==> m[bucket[l]].nLastSuccess <= m[bucket[i]].nLastSuccess
  {
    l := 0;
    if n > 1 {
      l := LeastEntry(m, bucket, n - 1);
      l := if m[bucket[n - 1]].nLastSuccess < m[bucket[l]].nLastSuccess then n - 1 else l;
    }
  }

  /** Every bucket of three entries or more has draws for which the position returned holds
      another entry than the one chosen. */
  lemma SelectTriedMisses(m: map<Id, Info>, bucket: seq<Id>) returns (pos: seq<nat>)
    requires |bucket| >= 3 && (forall x :: x in bucket ==> x in m) && Distinct(bucket)
    ensures |pos| == 4 && DrawsOk(pos, |bucket|) && !Hits(m, bucket, pos)
  {
    hide Hits, Distinct, DrawsOk;
    var l := LeastEntry(m, bucket, |bucket|);
    assert LeastOf(m, bucket, bucket[l]);
    if exists i :: 0 < i < |bucket| && LeastOf(m, bucket, bucket[i]) {
      var i :| 0 < i < |bucket| && LeastOf(m, bucket, bucket[i]);
      LeastDrawnFirst(m, bucket, i);
      pos := [i, 1, 2, 3];
    } else {
      LeastDrawnSecond(m, bucket);
      pos := [2, 2, 2, 3];
    }
  }

  /** So in valid tables every full bucket has draws for which MakeTried evicts another entry
      than the one chosen. */
  lemma FullBucketMisses(t: Tables, key: Key, b: nat) returns (pos: seq<nat>)
    requires Inv(t, key) && b < |t.vvTried| && |t.vvTried[b]| == TRIED_BUCKET_SIZE
    ensures |pos| == 4 && DrawsOk(pos, TRIED_BUCKET_SIZE)
    ensures forall x :: x in t.vvTried[b] ==> x in t.mapInfo
    ensures !Hits(t.mapInfo, t.vvTried[b], pos)
  {
    InvTried(t, key);
    hide Inv, Hits;
    pos := SelectTriedMisses(t.mapInfo, t.vvTried[b]);
  }

  lemma OneHits(m: map<Id, Info>, bucket: seq<Id>)
    requires |bucket| == 1 && (forall x :: x in bucket ==> x in m) && Distinct(bucket)
    ensures AlwaysHits(m, bucket)
  {
    forall pos | |pos| == 4 && DrawsOk(pos, 1) ensures Hits(m, bucket, pos) {
      FirstRound(m, bucket, pos);
      HitsInPlace(m, bucket, pos);
    }
  }

  lemma TwoHitIff(m: map<Id, Info>, bucket: seq<Id>)
    requires |bucket| == 2 && (forall x :: x in bucket ==> x in m) && Distinct(bucket)
    ensures AlwaysHits(m, bucket) <==> m[bucket[0]].nLastSuccess < m[bucket[1]].nLastSuccess
  {
    if m[bucket[0]].nLastSuccess < m[bucket[1]].nLastSuccess {
      forall pos | |pos| == 4 && DrawsOk(pos, 2) ensures Hits(m, bucket, pos) {
        FirstRound(m, bucket, pos);
        SelectedNext(m, bucket, pos, 1);
        hide Selected;
        HitsInPlace(m, bucket, pos);
      }
    } else {
      forall x | x in bucket ensures m[bucket[1]].nLastSuccess <= m[x].nLastSuccess {
        assert x == bucket[0] || x == bucket[1];
      }
      LeastDrawnFirst(m, bucket, 1);
      hide Selected, Hits;
      assert |[1, 1, 2, 3]| == 4;
    }
  }

  /** SelectTried returns the entry it chose, whatever the draws, if and only if the bucket has
      one entry, or two of which the first succeeded longer ago: never for a full bucket. */
  lemma SelectTriedHitsIff(m: map<Id, Info>, bucket: seq<Id>)
    requires bucket != [] && (forall x :: x in bucket ==> x in m) && Distinct(bucket)
    ensures AlwaysHits(m, bucket) <==>
      |bucket| == 1 || (|bucket| == 2 && m[bucket[0]].nLastSuccess < m[bucket[1]].nLastSuccess)
  {
    hide Hits, Distinct, DrawsOk;
    if |bucket| == 1 {
      OneHits(m, bucket);
    } else if |bucket| == 2 {
      TwoHitIff(m, bucket);
    } else {
      var pos := SelectTriedMisses(m, bucket);
    }
  }

  // ---------------------------------------------------------------- what MakeTried does

  /** The tables once the entry `id`, listed in new bucket `origin`, moved to the tried table:
      appended to its bucket if there is room, else in the place SelectTried returned, whose
      entry goes back to its own new bucket, or to `origin` if that one is full. */
  ghost predicate Promoted(t: Tables, t': Tables, key: Key, id: Id, origin: nat, pos: seq<nat>) {
    && id in t.mapInfo && |t.vvTried| == TRIED_BUCKET_COUNT && |t.vvNew| == NEW_BUCKET_COUNT && origin < |t.vvNew|
    && var k := TriedBucket(key, t.mapInfo[id].addr);
       if |t.vvTried[k]| < TRIED_BUCKET_SIZE then t' == Appended(t, key, id)
       else
         && |pos| == 4 && DrawsOk(pos, |t.vvTried[k]|) && (forall x :: x in t.vvTried[k] ==> x in t.mapInfo)
         && var s := Selected(t.mapInfo, t.vvTried[k], pos, 4);
            var victim := s.order[pos[s.round]];
            var own := NewBucket(key, t.mapInfo[victim].addr.ip, t.mapInfo[victim].source);
            t' == Displaced(t.(vvTried := t.vvTried[k := s.order]), key, id, pos[s.round],
                            if |t.vvNew[own] - {id}| < NEW_BUCKET_SIZE then own else origin)
  }

  /** The bucket `nId` came from certainly has place once it left. */
  lemma OriginHasRoom(t: Tables, key: Key, id: Id, origin: nat)
    requires NewOk(t.mapInfo, t.vvNew) && origin < |t.vvNew| && id in t.vvNew[origin]
    ensures |t.vvNew[origin] - {id}| < NEW_BUCKET_SIZE
  {
  }

  lemma PromotedInv(t: Tables, t': Tables, key: Key, id: Id, origin: nat, pos: seq<nat>)
    requires Inv(t, key) && id in t.mapInfo && !t.mapInfo[id].fInTried && t.mapInfo[id].nLastSuccess > 0
    requires origin < |t.vvNew| && id in t.vvNew[origin] && Promoted(t, t', key, id, origin, pos)
    ensures Inv(t', key)
  {
    hide Inv, Appended, Displaced, Selected;
    InvTried(t, key);
    if |t.vvTried[TriedBucket(key, t.mapInfo[id].addr)]| < TRIED_BUCKET_SIZE {
      AppendedInv(t, key, id);
    } else {
      ReplacedInv(t, key, id, origin, pos);
    }
  }

  lemma ReplacedInv(t: Tables, key: Key, id: Id, origin: nat, pos: seq<nat>)
    requires Inv(t, key) && id in t.mapInfo && !t.mapInfo[id].fInTried && t.mapInfo[id].nLastSuccess > 0
    requires |t.vvTried| == TRIED_BUCKET_COUNT && |t.vvNew| == NEW_BUCKET_COUNT && origin < |t.vvNew| && id in t.vvNew[origin]
    requires |t.vvTried[TriedBucket(key, t.mapInfo[id].addr)]| == TRIED_BUCKET_SIZE
    requires |pos| == 4 && DrawsOk(pos, TRIED_BUCKET_SIZE)
    requires forall x :: x in t.vvTried[TriedBucket(key, t.mapInfo[id].addr)] ==> x in t.mapInfo
    ensures
      var k := TriedBucket(key, t.mapInfo[id].addr);
      var s := Selected(t.mapInfo, t.vvTried[k], pos, 4);
      var victim := s.order[pos[s.round]];
      var own := NewBucket(key, t.mapInfo[victim].addr.ip, t.mapInfo[victim].source);
      Inv(Displaced(t.(vvTried := t.vvTried[k := s.order]), key, id, pos[s.round],
                    if |t.vvNew[own] - {id}| < NEW_BUCKET_SIZE then own else origin), key)
  {
    hide Inv, Displaced, Selected;
    InvTried(t, key);
    var k := TriedBucket(key, t.mapInfo[id].addr);
    var s := Selected(t.mapInfo, t.vvTried[k], pos, 4);
    SelectedReorders(t.mapInfo, t.vvTried[k], pos, 4);
    ReorderInv(t, key, k, s.order);
    OriginHasRoom(t, key, id, origin);
    hide NewOk, NewBucket, TriedBucket;
    var victim := s.order[pos[s.round]];
    var own := NewBucket(key, t.mapInfo[victim].addr.ip, t.mapInfo[victim].source);
    DisplacedInv(t.(vvTried := t.vvTried[k := s.order]), key, id, pos[s.round],
                 if |t.vvNew[own] - {id}| < NEW_BUCKET_SIZE then own else origin);
  }

  lemma InvTried(t: Tables, key: Key)
    requires Inv(t, key)
    ensures |t.vvTried| == TRIED_BUCKET_COUNT && |t.vvNew| == NEW_BUCKET_COUNT && NewOk(t.mapInfo, t.vvNew)
    ensures forall b, x :: 0 <= b < |t.vvTried| && x in t.vvTried[b] ==> x in t.mapInfo && t.mapInfo[x].fInTried
    ensures forall b :: 0 <= b < |t.vvTried| ==> |t.vvTried[b]| <= TRIED_BUCKET_SIZE && Distinct(t.vvTried[b])
  {
    hide RandomOk, AddrOk, RefsOk, CountsOk, RecordsOk, TriedBucket;
  }
}
