/** The address manager (src/addrman.cpp, src/addrman.h): its operations on the tables, each
    keeping the invariant. Random choices and the clock are parameters. */
module AddrMan {
  import opened Collections
  import opened AddrTables
  import opened AddrMoves
  import opened IdOrder
  import opened AddrFile
  import opened AddrLoad
  import opened AddrCheck
  import opened AddrSteps
  import opened AddrRules

  class CAddrMan {
    var nKey: Key
    var nIdCount: Id
    var mapInfo: map<Id, Info>
    var mapAddr: map<NetAddr, Id>
    var vRandom: seq<Id>
    var nTried: int
    var vvTried: seq<seq<Id>>
    var nNew: int
    var vvNew: seq<set<Id>>

    ghost function T(): Tables
      reads this
    {
      Tables(nIdCount, mapInfo, mapAddr, vRandom, nTried, vvTried, nNew, vvNew)
    }

    ghost predicate Valid()
      reads this
    {
      Inv(T(), nKey)
    }

    constructor (key: Key)
      ensures Valid() && nKey == key && mapInfo == map[]
    {
      nKey := key;
      nIdCount, mapInfo, mapAddr, vRandom := 0, map[], map[], [];
      nTried, vvTried := 0, seq(TRIED_BUCKET_COUNT, _ => []);
      nNew, vvNew := 0, seq(NEW_BUCKET_COUNT, _ => {});
    }

    /** The record and its place in the two indexes; the caller counts it. */
    method Create(addr: CAddress, addrSource: NetAddr) returns (nId: Id)
      modifies this`nIdCount, this`mapInfo, this`mapAddr, this`vRandom
      ensures nId == old(nIdCount)
      ensures T() == Created(old(T()), NewInfo(addr, addrSource)).(nNew := nNew)
    {
      nId := nIdCount;
      nIdCount := nIdCount + 1;
      mapInfo := mapInfo[nId := NewInfo(addr, addrSource)];
      mapAddr := mapAddr[addr.addr.ip := nId];
      mapInfo := mapInfo[nId := mapInfo[nId].(nRandomPos := |vRandom|)];
      vRandom := vRandom + [nId];
    }

    method SwapInRandom(nRndPos1: nat, nRndPos2: nat)
      requires nRndPos1 < |vRandom| && nRndPos2 < |vRandom|
      requires vRandom[nRndPos1] in mapInfo && vRandom[nRndPos2] in mapInfo
      modifies this`mapInfo, this`vRandom
      ensures T() == SwapRandom(old(T()), nRndPos1, nRndPos2)
    {
      if nRndPos1 == nRndPos2 {
        return;
      }
      var nId1, nId2 := vRandom[nRndPos1], vRandom[nRndPos2];
      mapInfo := mapInfo[nId1 := mapInfo[nId1].(nRandomPos := nRndPos2)];
      mapInfo := mapInfo[nId2 := mapInfo[nId2].(nRandomPos := nRndPos1)];
      vRandom := vRandom[nRndPos1 := nId2];
      vRandom := vRandom[nRndPos2 := nId1];
    }

    /** Swap with the last position, pop it, and forget the address and the record. */
    method EraseRecord(nId: Id)
      requires Droppable(T(), nId)
      modifies this`mapInfo, this`mapAddr, this`vRandom, this`nNew
      ensures T() == Erase(old(T()), nId)
    {
      SwapInRandom(mapInfo[nId].nRandomPos, |vRandom| - 1);
      vRandom := vRandom[..|vRandom| - 1];
      mapAddr := mapAddr - {mapInfo[nId].addr.ip};
      mapInfo := mapInfo - {nId};
      nNew := nNew - 1;
    }

    /** One reference of an entry of a new bucket goes; the record with the last one. */
    method DropReference(nUBucket: nat, nId: Id)
      requires nUBucket < |vvNew| && Droppable(T(), nId)
      modifies this`mapInfo, this`mapAddr, this`vRandom, this`nNew, this`vvNew
      ensures T() == DropRef(old(T()), nUBucket, nId) && |vvNew| == |old(vvNew)|
    {
      hide Erase;
      DropSteps(T(), nUBucket, nId);
      mapInfo := mapInfo[nId := mapInfo[nId].(nRefCount := mapInfo[nId].nRefCount - 1)];
      if mapInfo[nId].nRefCount == 0 {
        EraseRecord(nId);
      }
      vvNew := vvNew[nUBucket := vvNew[nUBucket] - {nId}];
    }

    /** ShrinkNew's first loop: the first terrible entry, or none. */
    method FindTerrible(order: seq<Id>, nNow: int) returns (i: nat)
      requires forall j :: 0 <= j < |order| ==> order[j] in mapInfo
      ensures i <= |order| && (forall j :: 0 <= j < i ==> !IsTerrible(mapInfo[order[j]], nNow))
      ensures i < |order| ==> IsTerrible(mapInfo[order[i]], nNow)
    {
      hide IsTerrible;
      i := 0;
      while i < |order| && !IsTerrible(mapInfo[order[i]], nNow)
        invariant i <= |order| && forall j :: 0 <= j < i ==> !IsTerrible(mapInfo[order[j]], nNow)
      {
        i := i + 1;
      }
    }

    /** ShrinkNew's second loop: the oldest of the inspected positions. */
    method FindOldest(order: seq<Id>, n: seq<nat>) returns (nOldest: Option<Id>)
      requires |n| == 4 && forall j :: 0 <= j < |order| ==> order[j] in mapInfo
      ensures nOldest == OldestOf(mapInfo, order, |order|, n)
    {
      nOldest := None;
      for nI := 0 to |order|
        invariant nOldest == OldestOf(mapInfo, order, nI, n)
      {
        var inspected := nI == n[0] || nI == n[1] || nI == n[2] || nI == n[3];
        assert inspected <==> nI in n;
        if inspected && (nOldest.None? || mapInfo[order[nI]].nTime < mapInfo[nOldest.value].nTime) {
          nOldest := Some(order[nI]);
        }
      }
    }

    /** ShrinkNew's choice: 0 and the first terrible entry, else 1 and the oldest inspected. */
    method ChooseVictim(nUBucket: nat, n: seq<nat>, nNow: int) returns (r: int, victim: Id)
      requires nUBucket < |vvNew| && forall x :: x in vvNew[nUBucket] ==> x in mapInfo
      requires |n| == 4 && forall i :: 0 <= i < 4 ==> n[i] < |vvNew[nUBucket]|
      ensures IsShrinkVictim(mapInfo, vvNew[nUBucket], n, nNow, victim)
      ensures victim in vvNew[nUBucket] && victim in mapInfo && (r == 0 <==> IsTerrible(mapInfo[victim], nNow))
    {
      hide IsTerrible, IsShrinkVictim, OldestOf;
      var order := Ascending(vvNew[nUBucket]);
      assert forall j :: 0 <= j < |order| ==> order[j] in vvNew[nUBucket];
      var i := FindTerrible(order, nNow);
      if i < |order| {
        FirstTerrible(mapInfo, vvNew[nUBucket], n, nNow, i);
        return 0, order[i];
      }
      var nOldest := FindOldest(order, n);
      OldestIsVictim(mapInfo, vvNew[nUBucket], n, nNow);
      return 1, nOldest.value;
    }

    /** Makes room in a new bucket by dropping one reference of the victim. */
    method ShrinkNew(nUBucket: nat, n: seq<nat>, nNow: int, ghost pending: Option<Id>) returns (r: int, ghost victim: Id)
      requires InvMid(T(), nKey, pending, None) && nUBucket < |vvNew|
      requires pending.Some? ==> pending.value !in vvNew[nUBucket]
      requires |n| == 4 && forall i :: 0 <= i < 4 ==> n[i] < |vvNew[nUBucket]|
      modifies this`mapInfo, this`mapAddr, this`vRandom, this`nNew, this`vvNew
      ensures IsShrinkVictim(old(mapInfo), old(vvNew[nUBucket]), n, nNow, victim)
      ensures Droppable(old(T()), victim) && (r == 0 <==> IsTerrible(old(mapInfo)[victim], nNow))
      ensures r == 0 <==> exists x ::
        && x in old(vvNew[nUBucket]) && x in old(mapInfo)
        && var e := old(mapInfo)[x];
        && (e.nLastTry == 0 || e.nLastTry < nNow - 60)
        && (|| e.nTime > nNow + 600
            || e.nTime == 0 || e.nTime < nNow - 30 * 86_400
            || (e.nLastSuccess == 0 && e.nAttempts >= 3)
            || (e.nLastSuccess < nNow - 7 * 86_400 && e.nAttempts >= 10))
      ensures r == 0 ==> old(mapInfo)[victim].nLastTry == 0 || old(mapInfo)[victim].nLastTry < nNow - 60
      ensures T() == DropRef(old(T()), nUBucket, victim) && InvMid(T(), nKey, pending, None)
      ensures |vvNew| == |old(vvNew)| && |vvNew[nUBucket]| == |old(vvNew[nUBucket])| - 1
    {
      hide *;
      ghost var t := T();
      Parts();
      BucketKnown(t, nKey, pending, nUBucket);
      var v;
      r, v := ChooseVictim(nUBucket, n, nNow);
      victim := v;
      FirstLoopIff(mapInfo, vvNew[nUBucket], n, nNow, victim);
      DropRefInv(t, nKey, pending, nUBucket, victim);
      IsDroppable(t, victim);
      DropReference(nUBucket, v);
      Parts();
    }

    // -------------------------------------------------------------- Add_

    /** The last step of Add_: count a reference of the id and list it in a new bucket,
        making room first if the bucket is full. */
    method ListInNew(nId: Id, nUBucket: nat, n: seq<nat>, nNow: int, ghost unref: Option<Id>) returns (ghost victim: Id)
      requires InvMid(T(), nKey, None, unref) && (unref.None? || unref == Some(nId))
      requires nId in mapInfo && !mapInfo[nId].fInTried && nUBucket < NEW_BUCKET_COUNT
      requires mapInfo[nId].nRefCount < NEW_BUCKETS_PER_ADDRESS && (unref.Some? ==> mapInfo[nId].nRefCount == 0)
      requires |n| == 4 && forall i :: 0 <= i < 4 ==> n[i] < NEW_BUCKET_SIZE
      modifies this`mapInfo, this`mapAddr, this`vRandom, this`nNew, this`vvNew
      ensures Inv(T(), nKey) && Listed(old(T()), T(), nUBucket, nId, n, nNow, victim)
    {
      hide *;
      ghost var t := T();
      Parts();
      MidBuckets(t, nKey, unref, nId, nUBucket);
      victim := nId;
      if nId !in vvNew[nUBucket] {
        AnnounceInv(t, nKey, nId, unref);
        mapInfo := mapInfo[nId := mapInfo[nId].(nRefCount := mapInfo[nId].nRefCount + 1)];
        ghost var a := SetRefCount(t, nId, t.mapInfo[nId].nRefCount + 1);
        Parts();
        Announced(t, T(), nId);
        if |vvNew[nUBucket]| == NEW_BUCKET_SIZE {
          var r;
          r, victim := ShrinkNew(nUBucket, n, nNow, Some(nId));
          Parts();
          AfterShrink(a, T(), nKey, nUBucket, nId, n, nNow, victim);
        }
        ghost var d := T();
        PutInv(d, nKey, nUBucket, nId);
        vvNew := vvNew[nUBucket := vvNew[nUBucket] + {nId}];
        Parts();
        ListedFrom(t, a, d, T(), nUBucket, nId, n, nNow, victim);
      } else {
        AlreadyListed(t, nKey, unref, nUBucket, nId, n, nNow, victim);
      }
    }

    /** Add_: refreshes a known address, or creates its record, and lists it in the new bucket
        its source selects. `roll` is the stochastic test, `n` the positions ShrinkNew
        inspects. */
    method Add(addr: CAddress, routable: bool, source: NetAddr, nTimePenalty: int, nNow: int, roll: nat, n: seq<nat>)
      returns (fNew: bool, ghost victim: Id)
      requires Valid() && |n| == 4 && forall i :: 0 <= i < 4 ==> n[i] < NEW_BUCKET_SIZE
      modifies this`nIdCount, this`mapInfo, this`mapAddr, this`vRandom, this`nNew, this`vvNew
      ensures Valid()
      ensures fNew <==> routable && addr.addr.port != 0 && addr.addr.ip !in old(mapAddr)
      ensures AddEffect(old(T()), T(), nKey, addr, routable, source, nTimePenalty, nNow, roll, n, victim)
    {
      hide *;
      ghost var t := T();
      Parts();
      victim := 0;
      ValidIsInv();
      if !routable || addr.addr.port == 0 {
        AddNothing(t, nKey, addr, routable, source, nTimePenalty, nNow, roll, n, victim);
        return false, victim;
      }
      var nId: Id;
      ghost var unref: Option<Id> := None;
      if addr.addr.ip in mapAddr {
        nId := mapAddr[addr.addr.ip];
        RefreshInv(t, nKey, addr, nTimePenalty, nNow);
        mapInfo := mapInfo[nId := Refreshed(mapInfo[nId], addr, nTimePenalty, nNow)];
        Parts();
        IsTouched(t, T(), nId, Refreshed(t.mapInfo[nId], addr, nTimePenalty, nNow));
        ValidIsInv();
        if KeepsOut(mapInfo[nId], addr, roll) {
          AddNothing(t, nKey, addr, routable, source, nTimePenalty, nNow, roll, n, victim);
          return false, victim;
        }
        KeptIn(T(), nKey, nId, addr, roll);
        fNew := false;
      } else {
        PenalisedInv(t, nKey, addr, source, nTimePenalty);
        nId := CreateCounted(addr, source, nTimePenalty);
        Parts();
        fNew := true;
        unref := Some(nId);
      }
      ghost var listing := T();
      victim := ListInNew(nId, NewBucket(nKey, mapInfo[nId].addr.ip, source), n, nNow, unref);
      AddListed(t, listing, T(), nKey, addr, routable, source, nTimePenalty, nNow, roll, n, nId, victim);
      ValidIsInv();
    }

    /** The record of exactly this address and port, if there is one. */
    ghost function Exact(addr: Service): Option<Id>
      reads this
    {
      if addr.ip in mapAddr && mapAddr[addr.ip] in mapInfo && mapInfo[mapAddr[addr.ip]].addr == addr
      then Some(mapAddr[addr.ip]) else None
    }

    method Attempt(addr: Service, nTime: int)
      requires Valid() && nTime >= 0
      modifies this`mapInfo
      ensures Valid()
      ensures T() ==
        match old(Exact(addr))
        case None => old(T())
        case Some(id) =>
          Touch(old(T()), id, old(mapInfo)[id].(nLastTry := nTime, nAttempts := old(mapInfo)[id].nAttempts + 1))
    {
      hide InvMid;
      FoundRecord(T(), nKey, addr.ip);
      if addr.ip !in mapAddr || mapInfo[mapAddr[addr.ip]].addr != addr {
        return;
      }
      var nId := mapAddr[addr.ip];
      var info := mapInfo[nId].(nLastTry := nTime, nAttempts := mapInfo[nId].nAttempts + 1);
      TouchInv(T(), nKey, None, None, nId, info);
      mapInfo := mapInfo[nId := info];
    }

    method Connected(addr: Service, nTime: int)
      requires Valid()
      modifies this`mapInfo
      ensures Valid()
      ensures T() ==
        match old(Exact(addr))
        case None => old(T())
        case Some(id) =>
          if nTime - old(mapInfo)[id].nTime > 20 * 60
          then Touch(old(T()), id, old(mapInfo)[id].(nTime := U32(nTime))) else old(T())
    {
      hide InvMid;
      FoundRecord(T(), nKey, addr.ip);
      if addr.ip !in mapAddr || mapInfo[mapAddr[addr.ip]].addr != addr {
        return;
      }
      var nId := mapAddr[addr.ip];
      var nUpdateInterval := 20 * 60;
      if nTime - mapInfo[nId].nTime > nUpdateInterval {
        var info := mapInfo[nId].(nTime := U32(nTime));
        TouchInv(T(), nKey, None, None, nId, info);
        mapInfo := mapInfo[nId := info];
      }
    }

    /** Returns the first part of a partial shuffle of all addresses: distinct known ones. */
    method GetAddr(rndPos: seq<nat>) returns (vAddr: seq<Info>)
      requires Valid()
      requires |rndPos| >= GETADDR_MAX && forall n :: 0 <= n < |rndPos| && n < |vRandom| ==> n <= rndPos[n] < |vRandom|
      modifies this`mapInfo, this`vRandom
      ensures Valid()
      ensures |vAddr| == (if GETADDR_MAX_PCT * |vRandom| / 100 > GETADDR_MAX then GETADDR_MAX
                          else GETADDR_MAX_PCT * |vRandom| / 100)
      ensures |vRandom| == |old(vRandom)| && |vAddr| <= |vRandom|
      ensures FrontOf(mapInfo, vRandom, vAddr)
      ensures forall i, j :: 0 <= i < j < |vAddr| ==> vAddr[i].addr.ip != vAddr[j].addr.ip
      ensures Alike(old(mapInfo), mapInfo)
    {
      hide *;
      var nNodes := GETADDR_MAX_PCT * |vRandom| / 100;
      if nNodes > GETADDR_MAX {
        nNodes := GETADDR_MAX;
      }
      vAddr := [];
      ghost var m0, size := mapInfo, |vRandom|;
      AlikeChain(m0, m0, m0);
      NoneYet(mapInfo, vRandom);
      for n := 0 to nNodes
        invariant Valid() && |vRandom| == size && |vAddr| == n && nNodes <= size
        invariant FrontOf(mapInfo, vRandom, vAddr)
        invariant Alike(m0, mapInfo)
      {
        ghost var t := T();
        Parts();
        ValidIsInv();
        AllListed(t, nKey);
        SwapKeepsFront(t, n, rndPos[n], vAddr);
        var info := TakeRandom(n, rndPos[n]);
        Parts();
        AlikeChain(m0, t.mapInfo, mapInfo);
        OneMore(mapInfo, vRandom, vAddr, info);
        vAddr := vAddr + [info];
      }
      Parts();
      ValidIsInv();
      DistinctAddresses(T(), nKey, vAddr);
    }

    /** One step of the shuffle: the record that ends up at position n. */
    method TakeRandom(n: nat, nRndPos: nat) returns (info: Info)
      requires Valid() && n < |vRandom| && nRndPos < |vRandom|
      requires vRandom[n] in mapInfo && vRandom[nRndPos] in mapInfo
      modifies this`mapInfo, this`vRandom
      ensures Valid() && T() == SwapRandom(old(T()), n, nRndPos)
      ensures n < |vRandom| && vRandom[n] in mapInfo && info == mapInfo[vRandom[n]]
    {
      hide *;
      ValidIsInv();
      Parts();
      SwapInv(T(), nKey, None, None, n, nRndPos);
      SwapInRandom(n, nRndPos);
      ValidIsInv();
      Parts();
      AllListed(T(), nKey);
      SwapKeepsSize(old(T()), n, nRndPos);
      info := mapInfo[vRandom[n]];
    }

    // -------------------------------------------------------------- Good_

    /** Shuffles the first entries of a tried bucket and returns a position to replace. */
    method SelectTried(nKBucket: nat, pos: seq<nat>) returns (nOldestPos: nat)
      requires nKBucket < |vvTried| && |pos| == 4 && DrawsOk(pos, |vvTried[nKBucket]|) && vvTried[nKBucket] != []
      requires forall x :: x in vvTried[nKBucket] ==> x in mapInfo
      modifies this`vvTried
      ensures
        var s := Selected(mapInfo, old(vvTried[nKBucket]), pos, Inspected(|old(vvTried[nKBucket])|));
        vvTried == old(vvTried)[nKBucket := s.order] && nOldestPos == pos[s.round] && nOldestPos < |s.order|
    {
      hide Selected;
      ghost var bucket := vvTried[nKBucket];
      SelectedNone(mapInfo, bucket, pos);
      var nOldest: Option<Id> := None;
      nOldestPos := 0;
      var i := 0;
      while i < TRIED_ENTRIES_INSPECT_ON_EVICT && i < |vvTried[nKBucket]|
        invariant i <= Inspected(|bucket|) && |vvTried| == |old(vvTried)|
        invariant vvTried == old(vvTried)[nKBucket := Selected(mapInfo, bucket, pos, i).order]
        invariant nOldest.None? <==> i == 0
        invariant i > 0 ==>
          var s := Selected(mapInfo, bucket, pos, i);
          nOldestPos == pos[s.round] && s.round < i && nOldest == Some(s.order[s.round])
      {
        SelectedNext(mapInfo, bucket, pos, i);
        var nPos := pos[i];
        var nTemp := vvTried[nKBucket][nPos];
        vvTried := vvTried[nKBucket := vvTried[nKBucket][nPos := vvTried[nKBucket][i]]];
        vvTried := vvTried[nKBucket := vvTried[nKBucket][i := nTemp]];
        if nOldest.None? || mapInfo[nTemp].nLastSuccess < mapInfo[nOldest.value].nLastSuccess {
          nOldest := Some(nTemp);
          nOldestPos := nPos;
        }
        i := i + 1;
      }
    }

    /** Takes the entry out of every new bucket, uncounting one reference for each. */
    method LeaveNewBuckets(nId: Id)
      requires Valid() && nId in mapInfo && !mapInfo[nId].fInTried
      modifies this`vvNew, this`mapInfo
      ensures vvNew == ClearNew(old(vvNew), nId)
      ensures mapInfo == old(mapInfo)[nId := old(mapInfo)[nId].(nRefCount := 0)]
    {
      hide *;
      ghost var m, vv := mapInfo, vvNew;
      Parts();
      ValidIsInv();
      ClearStarts(T(), nKey, nId);
      for b := 0 to |vvNew|
        invariant |vvNew| == |vv| && vvNew == ClearedTo(vv, nId, b) && nId in mapInfo && nId in m
        invariant mapInfo == m[nId := m[nId].(nRefCount := |NewBuckets(vvNew, nId)|)]
      {
        ClearedNext(vv, nId, b);
        if nId in vvNew[b] {
          TakeNewBuckets(vvNew, b, nId, nId);
          TakenIs(vvNew, b, nId);
          vvNew := vvNew[b := vvNew[b] - {nId}];
          mapInfo := mapInfo[nId := mapInfo[nId].(nRefCount := mapInfo[nId].nRefCount - 1)];
        }
      }
      ClearedAll(vv, nId);
      ClearNewBuckets(vv, nId, nId);
    }

    /** The cyclic search for a new bucket that holds the entry. */
    method FindBucket(nId: Id, nRnd: nat) returns (nUBucket: Option<nat>)
      requires |vvNew| == NEW_BUCKET_COUNT && nRnd < |vvNew|
      ensures nUBucket.Some? ==> nUBucket.value < |vvNew| && nId in vvNew[nUBucket.value]
      ensures nUBucket.None? ==> forall b :: 0 <= b < |vvNew| ==> nId !in vvNew[b]
    {
      var n := 0;
      while n < |vvNew|
        invariant n <= |vvNew| && forall k :: 0 <= k < n ==> nId !in vvNew[Cyclic(k, nRnd)]
      {
        var nB := Cyclic(n, nRnd);
        if nId in vvNew[nB] {
          return Some(nB);
        }
        n := n + 1;
      }
      forall b | 0 <= b < |vvNew| ensures nId !in vvNew[b] {
        assert b == Cyclic(if b >= nRnd then b - nRnd else b + NEW_BUCKET_COUNT - nRnd, nRnd);
      }
      return None;
    }

    method MakeTried(nId: Id, nOrigin: nat, pos: seq<nat>)
      requires Valid() && nId in mapInfo && !mapInfo[nId].fInTried && mapInfo[nId].nLastSuccess > 0
      requires nOrigin < |vvNew| && nId in vvNew[nOrigin] && |vvTried| == TRIED_BUCKET_COUNT
      requires |pos| == 4 && DrawsOk(pos, |vvTried[TriedBucket(nKey, mapInfo[nId].addr)]|)
      modifies this`mapInfo, this`vvNew, this`vvTried, this`nNew, this`nTried
      ensures Valid() && Promoted(old(T()), T(), nKey, nId, nOrigin, pos)
    {
      hide *;
      ghost var t := T();
      Parts();
      ValidIsInv();
      InvTried(t, nKey);
      LeaveNewBuckets(nId);
      Parts();
      nNew := nNew - 1;
      var nKBucket := TriedBucket(nKey, mapInfo[nId].addr);
      if |vvTried[nKBucket]| < TRIED_BUCKET_SIZE {
        vvTried := vvTried[nKBucket := vvTried[nKBucket] + [nId]];
        nTried := nTried + 1;
        mapInfo := mapInfo[nId := mapInfo[nId].(fInTried := true)];
        Parts();
        IsAppended(t, T(), nKey, nId, nOrigin, pos);
      } else {
        Parts();
        LeftNewIs(t, nId, nKey);
        IsLeftNew(t, T(), nId);
        Displace(nId, nOrigin, nKBucket, pos, t);
      }
      PromotedInv(t, T(), nKey, nId, nOrigin, pos);
      ValidIsInv();
    }

    /** The second half of MakeTried, for a full bucket: `t` is the state before it. */
    method Displace(nId: Id, nOrigin: nat, nKBucket: nat, pos: seq<nat>, ghost t: Tables)
      requires nId in t.mapInfo && Inv(t, nKey) && !t.mapInfo[nId].fInTried
      requires T() == LeftNew(t, nId)
      requires nKBucket == TriedBucket(nKey, t.mapInfo[nId].addr) && nKBucket < |t.vvTried|
      requires |t.vvTried| == TRIED_BUCKET_COUNT && |t.vvTried[nKBucket]| == TRIED_BUCKET_SIZE
      requires nOrigin < |t.vvNew| && |t.vvNew| == NEW_BUCKET_COUNT
      requires |pos| == 4 && DrawsOk(pos, |t.vvTried[nKBucket]|)
      modifies this`mapInfo, this`vvNew, this`vvTried, this`nNew
      ensures Promoted(t, T(), nKey, nId, nOrigin, pos)
    {
      hide *;
      Parts();
      InvTried(t, nKey);
      LeftNewIs(t, nId, nKey);
      var nPos := SelectTried(nKBucket, pos);
      ghost var s := Selected(mapInfo, t.vvTried[nKBucket], pos, 4);
      VictimIs(t, mapInfo, nKey, nId, nKBucket, pos);
      var victim := vvTried[nKBucket][nPos];
      var nUBucket := NewBucket(nKey, mapInfo[victim].addr.ip, mapInfo[victim].source);
      mapInfo := mapInfo[victim := mapInfo[victim].(fInTried := false, nRefCount := 1)];
      ghost var target := if |vvNew[nUBucket]| < NEW_BUCKET_SIZE then nUBucket else nOrigin;
      if |vvNew[nUBucket]| < NEW_BUCKET_SIZE {
        vvNew := vvNew[nUBucket := vvNew[nUBucket] + {victim}];
      } else {
        vvNew := vvNew[nOrigin := vvNew[nOrigin] + {victim}];
      }
      nNew := nNew + 1;
      vvTried := vvTried[nKBucket := vvTried[nKBucket][nPos := nId]];
      mapInfo := mapInfo[nId := mapInfo[nId].(fInTried := true)];
      Parts();
      IsDisplaced(t, T(), nKey, nId, nOrigin, pos, s, victim, target);
    }

    /** Good_: marks the exact address as good, and moves it to the tried table unless it is
        there already. That no bucket is found cannot happen. */
    method Good(addr: Service, nTime: int, nRnd: nat, pos: seq<nat>) returns (ghost origin: nat)
      requires Valid() && nTime > 0 && nRnd < NEW_BUCKET_COUNT
      requires |pos| == 4 && |vvTried| == TRIED_BUCKET_COUNT && DrawsOk(pos, |vvTried[TriedBucket(nKey, addr)]|)
      modifies this`mapInfo, this`vvNew, this`vvTried, this`nNew, this`nTried
      ensures Valid() && GoodEffect(old(T()), T(), nKey, addr, nTime, pos, origin)
    {
      hide *;
      ghost var t := T();
      Parts();
      ValidIsInv();
      FoundRecord(t, nKey, addr.ip);
      origin := 0;
      if addr.ip !in mapAddr || mapInfo[mapAddr[addr.ip]].addr != addr {
        GoodNothing(t, nKey, addr, nTime, pos, origin);
        return;
      }
      var nId := mapAddr[addr.ip];
      TriedGood(t, nKey, nId, nTime);
      mapInfo := mapInfo[nId := MarkedGood(mapInfo[nId], nTime)];
      Parts();
      IsTouched(t, T(), nId, MarkedGood(t.mapInfo[nId], nTime));
      ValidIsInv();
      if mapInfo[nId].fInTried {
        GoodTouched(t, nKey, addr, nTime, pos, origin);
        return;
      }
      ghost var touched := T();
      LiesSomewhere(touched, nKey, nId);
      var nUBucket := FindBucket(nId, nRnd);
      origin := nUBucket.value;
      MakeTried(nId, nUBucket.value, pos);
      GoodPromoted(t, touched, T(), nKey, addr, nTime, pos, origin);
    }

    /** Create, the time penalty and the count of new entries. */
    method CreateCounted(addr: CAddress, source: NetAddr, nTimePenalty: int) returns (nId: Id)
      modifies this`nIdCount, this`mapInfo, this`mapAddr, this`vRandom, this`nNew
      ensures nId == old(nIdCount) && T() == Created(old(T()), Penalised(addr, source, nTimePenalty))
    {
      ghost var t := T();
      nId := Create(addr, source);
      mapInfo := mapInfo[nId := mapInfo[nId].(nTime := U32(Max(0, mapInfo[nId].nTime - nTimePenalty)))];
      nNew := nNew + 1;
      IsCreated(t, T(), addr, source, nTimePenalty);
    }

    // -------------------------------------------------------------- the address file

    /** The records of one list, in id order, stopping once as many are written as counted. */
    method WriteRecords(order: seq<Id>, tried: bool, count: int, ghost wanted: set<Id>)
      returns (infos: seq<Stored>, mapUnkIds: map<Id, Id>)
      requires (forall i :: 0 <= i < |order| ==> order[i] in mapInfo) && Increasing(order) && count == |wanted|
      requires forall x :: x in wanted <==> x in mapInfo && Picks(mapInfo[x], tried)
      ensures infos == StoreAll(mapInfo, Chosen(mapInfo, order, tried, |order|))
      ensures Indexes(mapUnkIds, Chosen(mapInfo, order, tried, |order|))
    {
      hide *;
      ChosenNone(mapInfo, order, tried);
      infos, mapUnkIds := [], map[];
      var nIds := 0;
      var i := 0;
      while i < |order|
        invariant i <= |order| && infos == StoreAll(mapInfo, Chosen(mapInfo, order, tried, i)) && nIds == |infos|
        invariant Indexes(mapUnkIds, Chosen(mapInfo, order, tried, i))
      {
        if nIds == count {
          ChosenAll(mapInfo, order, tried, i, wanted);
          return;
        }
        NotChosenYet(mapInfo, order, tried, i);
        ChosenNext(mapInfo, order, tried, i);
        IndexMore(mapUnkIds, Chosen(mapInfo, order, tried, i), order[i]);
        mapUnkIds := mapUnkIds[order[i] := nIds as Id];
        if Picks(mapInfo[order[i]], tried) {
          infos := infos + [StoredOf(mapInfo[order[i]])];
          nIds := nIds + 1;
        }
        i := i + 1;
      }
    }

    /** The positions of a bucket's members among the written records. */
    method WriteBucket(bucket: set<Id>, mapUnkIds: map<Id, Id>, ghost newIds: seq<Id>) returns (q: seq<Id>)
      requires Indexes(mapUnkIds, newIds) && Increasing(newIds) && forall x :: x in bucket ==> x in newIds
      ensures WritesBucket(bucket, newIds, q)
    {
      hide Increasing;
      var order := Ascending(bucket);
      IndexedAll(mapUnkIds, newIds, order);
      q := [];
      for i := 0 to |order|
        invariant |q| == i && forall j :: 0 <= j < i ==> order[j] in mapUnkIds && q[j] == mapUnkIds[order[j]]
      {
        var nIndex := mapUnkIds[order[i]];
        q := q + [nIndex];
      }
      BucketWritten(bucket, mapUnkIds, newIds, order, q);
    }

    method Serialize() returns (s: AddrDat)
      requires Valid()
      ensures exists newIds, triedIds :: Writes(T(), nKey, s, newIds, triedIds)
    {
      hide *;
      Parts();
      ValidIsInv();
      ToWrite(T(), nKey);
      var order := Ascending(mapInfo.Keys);
      AllKeys(mapInfo, order);
      ghost var newIds := Chosen(mapInfo, order, false, |order|);
      ghost var triedIds := Chosen(mapInfo, order, true, |order|);
      var newInfos, mapUnkIds := WriteRecords(order, false, nNew, NewIds(mapInfo));
      var triedInfos, _ := WriteRecords(order, true, nTried, TriedIds(mapInfo));
      ListsWritten(T(), nKey, order, newIds, triedIds);
      var buckets: seq<seq<Id>> := [];
      for b := 0 to |vvNew|
        invariant |buckets| == b && forall c :: 0 <= c < b ==> WritesBucket(vvNew[c], newIds, buckets[c])
      {
        var q := WriteBucket(vvNew[b], mapUnkIds, newIds);
        buckets := buckets + [q];
      }
      s := AddrDat(nKey, nNew, nTried, NEW_BUCKET_COUNT, newInfos, triedInfos, buckets);
      IsWritten(T(), nKey, s, newIds, triedIds);
    }

    method ReadNewRecord(x: Stored, n: Id, rebuild: bool)
      requires |vvNew| == NEW_BUCKET_COUNT
      modifies this`mapInfo, this`mapAddr, this`vRandom, this`vvNew
      ensures T() == ReadNew(old(T()), nKey, x, n, rebuild)
    {
      mapInfo := mapInfo[n := Restored(x)];
      mapAddr := mapAddr[x.addr.ip := n];
      mapInfo := mapInfo[n := mapInfo[n].(nRandomPos := |vRandom|)];
      vRandom := vRandom + [n];
      if rebuild {
        var b := NewBucket(nKey, x.addr.ip, mapInfo[n].source);
        vvNew := vvNew[b := vvNew[b] + {n}];
        mapInfo := mapInfo[n := mapInfo[n].(nRefCount := mapInfo[n].nRefCount + 1)];
      }
    }

    method ReadTriedRecord(x: Stored) returns (lost: bool)
      requires |vvTried| == TRIED_BUCKET_COUNT
      modifies this`mapInfo, this`mapAddr, this`vRandom, this`vvTried, this`nIdCount
      ensures T().(nTried := if lost then nTried - 1 else nTried) == ReadTried(old(T()), nKey, x)
    {
      var b := TriedBucket(nKey, x.addr);
      if |vvTried[b]| < TRIED_BUCKET_SIZE {
        var info := Restored(x).(nRandomPos := |vRandom|, fInTried := true);
        vRandom := vRandom + [nIdCount];
        mapInfo := mapInfo[nIdCount := info];
        mapAddr := mapAddr[info.addr.ip := nIdCount];
        vvTried := vvTried[b := vvTried[b] + [nIdCount]];
        nIdCount := nIdCount + 1;
        lost := false;
      } else {
        lost := true;
      }
    }

    method ReadEntry(b: nat, nIndex: Id, use: bool)
      requires b < |vvNew|
      modifies this`mapInfo, this`vvNew
      ensures T() == ReadIndex(old(T()), b, nIndex, use)
    {
      if nIndex !in mapInfo {
        mapInfo := mapInfo[nIndex := BLANK];
      }
      if use && mapInfo[nIndex].nRefCount < NEW_BUCKETS_PER_ADDRESS {
        mapInfo := mapInfo[nIndex := mapInfo[nIndex].(nRefCount := mapInfo[nIndex].nRefCount + 1)];
        vvNew := vvNew[b := vvNew[b] + {nIndex}];
      }
    }

    method ReadRecords(s: AddrDat)
      requires WellFormed(s) && nKey == s.nKey && T() == Empty(s)
      modifies this`mapInfo, this`mapAddr, this`vRandom, this`vvNew, this`vvTried, this`nIdCount, this`nTried
      ensures T() == LoadTried(s, |s.triedInfos|)
    {
      hide *;
      RecordsStart(s);
      Parts();
      for n := 0 to s.nNew
        invariant T() == LoadNew(s, n)
      {
        Parts();
        LoadNewNext(s, n);
        ReadNewRecord(s.newInfos[n], n as Id, s.nUBuckets != NEW_BUCKET_COUNT);
      }
      Parts();
      nIdCount := s.nNew as Id;
      Parts();
      ghost var was := nTried;
      var nLost := 0;
      for n := 0 to s.nTried
        invariant T().(nTried := nTried - nLost) == LoadTried(s, n) && nTried == was
      {
        Parts();
        LoadTriedNext(s, n, T(), nTried - nLost);
        var lost := ReadTriedRecord(s.triedInfos[n]);
        Parts();
        if lost {
          nLost := nLost + 1;
        }
      }
      Parts();
      nTried := nTried - nLost;
      Parts();
    }

    method ReadBucket(s: AddrDat, b: nat)
      requires WellFormed(s) && b < |s.buckets| && T() == LoadBuckets(s, b)
      modifies this`mapInfo, this`vvNew
      ensures T() == LoadBuckets(s, b + 1)
    {
      hide *;
      ghost var u := T();
      LoadBucketEnds(s, u, b);
      for n := 0 to |s.buckets[b]|
        invariant T() == LoadBucket(s, u, b, n)
      {
        Parts();
        LoadBucketNext(s, u, b, n);
        ReadEntry(b, s.buckets[b][n], s.nUBuckets == NEW_BUCKET_COUNT);
      }
    }

    /** Forgets everything but what the file announces. */
    method Clear(s: AddrDat)
      modifies this
      ensures nKey == s.nKey && T() == Empty(s)
    {
      nKey, nNew, nTried := s.nKey, s.nNew, s.nTried;
      nIdCount, mapInfo, mapAddr, vRandom := 0, map[], map[], [];
      vvTried := seq(TRIED_BUCKET_COUNT, _ => []);
      vvNew := seq(NEW_BUCKET_COUNT, _ => {});
    }

    /** Reading the address file into this manager. */
    method Unserialize(s: AddrDat)
      requires WellFormed(s)
      modifies this
      ensures nKey == s.nKey && T() == Loaded(s)
      ensures Valid() <==> Sane(s)
    {
      hide *;
      Clear(s);
      ReadRecords(s);
      LoadedFrom(s);
      for b := 0 to s.nUBuckets
        invariant T() == LoadBuckets(s, b) && nKey == s.nKey
      {
        ReadBucket(s, b);
      }
      LoadedValidIff(s);
      ValidIsInv();
    }

    // -------------------------------------------------------------- Check_

    /** Looking an address up adds it if it is missing. */
    method CheckRecord(n: Id) returns (err: int)
      requires n in mapInfo
      modifies this`mapAddr
      ensures err == 0 <==> CheckedRecord(old(T()), n)
      ensures LookedUp(mapInfo, old(mapAddr), mapAddr)
    {
      var info := mapInfo[n];
      if info.fInTried {
        if info.nLastSuccess == 0 { return -1; }
        if info.nRefCount != 0 { return -2; }
      } else {
        if info.nRefCount < 0 || info.nRefCount > NEW_BUCKETS_PER_ADDRESS { return -3; }
        if info.nRefCount == 0 { return -4; }
      }
      if info.addr.ip !in mapAddr {
        mapAddr := mapAddr[info.addr.ip := 0];
      }
      if mapAddr[info.addr.ip] != n { return -5; }
      if info.nRandomPos < 0 || info.nRandomPos >= |vRandom| || vRandom[info.nRandomPos] != n { return -14; }
      if info.nLastTry < 0 { return -6; }
      if info.nLastSuccess < 0 { return -8; }
      return 0;
    }

    /** The loop over all records; sorts the ids into tried and new ones. */
    method CheckRecords(order: seq<Id>) returns (err: int, setTried: set<Id>, mapNew: map<Id, int>)
      requires forall i :: 0 <= i < |order| ==> order[i] in mapInfo
      modifies this`mapAddr
      ensures err == 0 <==> forall i :: 0 <= i < |order| ==> CheckedRecord(old(T()), order[i])
      ensures err == 0 ==> SortedOut(mapInfo, order, |order|, setTried, mapNew)
      ensures LookedUp(mapInfo, old(mapAddr), mapAddr)
    {
      hide CheckedRecord, SortedOut, LookedUp;
      err, setTried, mapNew := 0, {}, map[];
      SortNone(mapInfo, order);
      LookedUpNone(mapInfo, mapAddr);
      for i := 0 to |order|
        invariant SortedOut(mapInfo, order, i, setTried, mapNew)
        invariant err == 0 && forall j :: 0 <= j < i ==> CheckedRecord(old(T()), order[j])
        invariant LookedUp(mapInfo, old(mapAddr), mapAddr)
      {
        SortNext(mapInfo, order, i, setTried, mapNew);
        if mapInfo[order[i]].fInTried {
          setTried := setTried + {order[i]};
        } else {
          mapNew := mapNew[order[i] := mapInfo[order[i]].nRefCount];
        }
        ghost var was := mapAddr;
        SameLookups(old(T()), T(), order[i]);
        err := CheckRecord(order[i]);
        LookedUpMore(mapInfo, old(mapAddr), was, mapAddr);
        if err != 0 {
          return;
        }
      }
    }

    /** The loop over the tried buckets: every entry is a tried id, once. */
    method CheckTried(setTried: set<Id>) returns (err: int, left: set<Id>)
      ensures err == 0 <==> OnceEach(Flat(vvTried), setTried)
      ensures err == 0 ==> left == setTried - Members(Flat(vvTried))
    {
      hide OnceEach, Members;
      err, left := 0, setTried;
      NoneUsed(setTried);
      for b := 0 to |vvTried|
        invariant err == 0 && OnceEach(Flat(vvTried[..b]), setTried) && left == setTried - Members(Flat(vvTried[..b]))
      {
        assert vvTried[b][..0] == [] && Flat(vvTried[..b]) + [] == Flat(vvTried[..b]);
        for i := 0 to |vvTried[b]|
          invariant err == 0 && OnceEach(Flat(vvTried[..b]) + vvTried[b][..i], setTried)
          invariant left == setTried - Members(Flat(vvTried[..b]) + vvTried[b][..i])
        {
          var x := vvTried[b][i];
          UseNext(vvTried, b, i, setTried, left);
          if x !in left {
            err := -11;
            return;
          }
          left := left - {x};
        }
        FlatNext(vvTried, b);
      }
      assert vvTried[..|vvTried|] == vvTried;
    }

    /** The loop over the new buckets: every entry is a new id, at most as often as counted. */
    method CheckNew(mapNew: map<Id, int>) returns (err: int, left: map<Id, int>)
      requires forall id :: id in mapNew ==> mapNew[id] > 0
      ensures err == 0 <==> WithinCounts(vvNew, mapNew)
      ensures err == 0 ==> (left == map[] <==> FullCounts(vvNew, mapNew))
    {
      hide CountedDown, WithinCounts, NewBuckets;
      err, left := 0, mapNew;
      CountStart(mapNew, vvNew);
      for b := 0 to |vvNew|
        invariant err == 0 && CountedDown(mapNew, left, vvNew, b, [])
      {
        var order := Ascending(vvNew[b]);
        assert order[..0] == [];
        for i := 0 to |order|
          invariant err == 0 && CountedDown(mapNew, left, vvNew, b, order[..i])
        {
          var x := order[i];
          CountNext(mapNew, left, vvNew, b, order, i);
          if x !in left {
            err := -12;
            return;
          }
          left := left[x := left[x] - 1];
          if left[x] == 0 {
            left := left - {x};
          }
        }
        assert order[..|order|] == order;
        CountBucket(mapNew, left, vvNew, b, order);
      }
      CountEnd(mapNew, left, vvNew);
    }

    /** Check_: 0 exactly when everything it examines is in order, as it always is. */
    method Check() returns (err: int)
      modifies this`mapAddr
      ensures err == 0 <==> Checked(old(T()))
      ensures LookedUp(mapInfo, old(mapAddr), mapAddr)
      ensures old(Valid()) ==> err == 0 && T() == old(T())
    {
      hide *;
      ghost var t := T();
      Parts();
      CheckParts(t);
      ValidIsInv();
      LookedUpNone(mapInfo, mapAddr);
      assert Valid() ==> Checked(t) by {
        ValidChecked();
      }
      if |vRandom| != nTried + nNew { return -7; }
      var order := Ascending(mapInfo.Keys);
      KeysInOrder(mapInfo, order);
      AllInOrder(t, order);
      var setTried: set<Id>, mapNew: map<Id, int>;
      err, setTried, mapNew := CheckRecords(order);
      Parts();
      ValidLooksUp(t, T(), nKey);
      if err != 0 { return; }
      SortedAll(t, order, setTried, mapNew);
      if |setTried| != nTried { return -9; }
      if |mapNew| != nNew { return -10; }
      err, setTried := CheckTried(setTried);
      if err != 0 { return; }
      err, mapNew := CheckNew(mapNew);
      if err != 0 { return; }
      if setTried != {} { return -13; }
      if mapNew != map[] { return -15; }
      return 0;
    }

    /** On valid tables no address is missing. */
    lemma ValidLooksUp(t: Tables, t': Tables, key: Key)
      requires LookedUp(t.mapInfo, t.mapAddr, t'.mapAddr) && t' == t.(mapAddr := t'.mapAddr)
      ensures Inv(t, key) ==> t' == t
    {
      if Inv(t, key) {
        assert AddrOk(t.mapInfo, t.mapAddr);
        hide Inv;
        assert t'.mapAddr == t.mapAddr;
      }
    }

    lemma ValidChecked()
      ensures Valid() ==> Checked(T())
    {
      hide Checked, InvMid;
      if Valid() {
        InvChecked(T(), nKey);
      }
    }

    lemma ValidIsInv()
      ensures (Valid() <==> Inv(T(), nKey)) && NEW_BUCKETS_PER_ADDRESS == 4
      ensures Inv(T(), nKey) <==> InvMid(T(), nKey, None, None)
    {
      hide InvMid;
    }

    lemma Parts()
      ensures T().mapInfo == mapInfo && T().mapAddr == mapAddr && T().vRandom == vRandom && T().nIdCount == nIdCount
      ensures T().vvNew == vvNew && T().vvTried == vvTried && T().nNew == nNew && T().nTried == nTried
    {
    }
  }
}
