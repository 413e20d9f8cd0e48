/** What the address manager's judgements mean in numbers, and laws between its operations
    (src/addrman.cpp:38-56, 149-201, 261-387). Times are in seconds. */
module AddrRules {
  import opened Collections
  import opened AddrTables
  import opened AddrMoves
  import opened IdOrder
  import opened AddrSteps

  const DAY: int := 86_400

  // ---------------------------------------------------------------- whom ShrinkNew removes

  /** An entry counts as terrible if it was not tried in the last minute and is dated more than
      ten minutes ahead, or undated or unseen for over 30 days, or was tried three times and
      never reached, or failed ten times with no success for over seven days. */
  lemma TerribleInNumbers(e: Info, nNow: int)
    ensures IsTerrible(e, nNow) <==>
      && (e.nLastTry == 0 || e.nLastTry < nNow - 60)
      && (|| e.nTime > nNow + 600
          || e.nTime == 0 || e.nTime < nNow - 30 * DAY
          || (e.nLastSuccess == 0 && e.nAttempts >= 3)
          || (e.nLastSuccess < nNow - 7 * DAY && e.nAttempts >= 10))
  {
  }

  /** The victim in numbers: the least id of those entries if there is one, else an oldest of
      four inspected ones. No entry tried in the last minute goes while there is one. */
  lemma VictimInNumbers(mapInfo: map<Id, Info>, bucket: set<Id>, n: seq<nat>, nNow: int, victim: Id, x: Id)
    requires IsShrinkVictim(mapInfo, bucket, n, nNow, victim) && x in bucket && x in mapInfo
    requires mapInfo[x].nLastTry == 0 || mapInfo[x].nLastTry < nNow - 60
    requires
      || mapInfo[x].nTime > nNow + 600
      || mapInfo[x].nTime == 0 || mapInfo[x].nTime < nNow - 30 * DAY
      || (mapInfo[x].nLastSuccess == 0 && mapInfo[x].nAttempts >= 3)
      || (mapInfo[x].nLastSuccess < nNow - 7 * DAY && mapInfo[x].nAttempts >= 10)
    ensures victim <= x && victim in bucket && victim in mapInfo
    ensures mapInfo[victim].nLastTry == 0 || mapInfo[victim].nLastTry < nNow - 60
    ensures
      || mapInfo[victim].nTime > nNow + 600
      || mapInfo[victim].nTime == 0 || mapInfo[victim].nTime < nNow - 30 * DAY
      || (mapInfo[victim].nLastSuccess == 0 && mapInfo[victim].nAttempts >= 3)
      || (mapInfo[victim].nLastSuccess < nNow - 7 * DAY && mapInfo[victim].nAttempts >= 10)
  {
    TerribleInNumbers(mapInfo[x], nNow);
    TerribleInNumbers(mapInfo[victim], nNow);
    hide IsTerrible;
  }

  /** The first loop finds a victim exactly if there is such an entry. */
  lemma FirstLoopIff(mapInfo: map<Id, Info>, bucket: set<Id>, n: seq<nat>, nNow: int, victim: Id)
    requires IsShrinkVictim(mapInfo, bucket, n, nNow, victim)
    ensures IsTerrible(mapInfo[victim], nNow) <==> exists x ::
      && x in bucket && x in mapInfo
      && var e := mapInfo[x];
      && (e.nLastTry == 0 || e.nLastTry < nNow - 60)
      && (|| e.nTime > nNow + 600
          || e.nTime == 0 || e.nTime < nNow - 30 * 86_400
          || (e.nLastSuccess == 0 && e.nAttempts >= 3)
          || (e.nLastSuccess < nNow - 7 * 86_400 && e.nAttempts >= 10))
    ensures IsTerrible(mapInfo[victim], nNow) ==> mapInfo[victim].nLastTry == 0 || mapInfo[victim].nLastTry < nNow - 60
  {
    forall x | x in mapInfo
      ensures IsTerrible(mapInfo[x], nNow) <==>
        var e := mapInfo[x];
        && (e.nLastTry == 0 || e.nLastTry < nNow - 60)
        && (|| e.nTime > nNow + 600
            || e.nTime == 0 || e.nTime < nNow - 30 * 86_400
            || (e.nLastSuccess == 0 && e.nAttempts >= 3)
            || (e.nLastSuccess < nNow - 7 * 86_400 && e.nAttempts >= 10))
    {
      TerribleInNumbers(mapInfo[x], nNow);
    }
    hide IsTerrible, Ascending;
  }

  /** Without such an entry the victim is an inspected one that was seen least recently. */
  lemma OldestInNumbers(mapInfo: map<Id, Info>, bucket: set<Id>, n: seq<nat>, nNow: int, victim: Id, i: nat)
    requires IsShrinkVictim(mapInfo, bucket, n, nNow, victim) && forall x :: x in bucket ==> x in mapInfo
    requires forall x :: x in bucket ==>
      || (mapInfo[x].nLastTry != 0 && mapInfo[x].nLastTry >= nNow - 60)
      || (&& mapInfo[x].nTime <= nNow + 600 && mapInfo[x].nTime != 0 && mapInfo[x].nTime >= nNow - 30 * DAY
          && !(mapInfo[x].nLastSuccess == 0 && mapInfo[x].nAttempts >= 3)
          && !(mapInfo[x].nLastSuccess < nNow - 7 * DAY && mapInfo[x].nAttempts >= 10))
    requires i in n && i < |Ascending(bucket)|
    ensures victim in bucket && Ascending(bucket)[i] in mapInfo && mapInfo[victim].nTime <= mapInfo[Ascending(bucket)[i]].nTime
  {
    forall x | x in bucket ensures !IsTerrible(mapInfo[x], nNow) {
      TerribleInNumbers(mapInfo[x], nNow);
    }
    hide IsTerrible, Ascending;
    assert Ascending(bucket)[i] in Ascending(bucket);
  }

  // ---------------------------------------------------------------- laws between operations

  /** An address that was reached at time t is not terrible until 30 days later. */
  lemma GoodStaysGood(e: Info, t: int, nNow: int)
    requires 0 < t < 0x1_0000_0000
    ensures IsTerrible(MarkedGood(e, t), nNow) <==> nNow > t + 30 * DAY
  {
    TerribleInNumbers(MarkedGood(e, t), nNow);
  }

  /** The record after an attempt. */
  function Attempted(e: Info, t: int): Info {
    e.(nLastTry := t, nAttempts := e.nAttempts + 1)
  }

  /** An address that was never reached is terrible from a minute after its third failure on,
      and a recently seen one not before it. */
  lemma ThirdFailure(e: Info, t1: int, t2: int, t3: int, nNow: int)
    requires e.nLastSuccess == 0 && e.nAttempts == 0 && 0 < t1 <= t2 <= t3
    ensures nNow > t3 + 60 ==> IsTerrible(Attempted(Attempted(Attempted(e, t1), t2), t3), nNow)
    ensures nNow <= t3 + 60 ==> !IsTerrible(Attempted(Attempted(Attempted(e, t1), t2), t3), nNow)
    ensures e.nTime != 0 && nNow - 30 * DAY <= e.nTime <= nNow + 600 ==> !IsTerrible(Attempted(Attempted(e, t1), t2), nNow)
  {
    TerribleInNumbers(Attempted(Attempted(Attempted(e, t1), t2), t3), nNow);
    TerribleInNumbers(Attempted(Attempted(e, t1), t2), nNow);
    hide IsTerrible;
  }

  // ---------------------------------------------------------------- what Add_ refreshes

  /** A known record is redated exactly if the news has a date and is more than an hour newer,
      or a day if it is itself over a day old, the penalty added; its services only grow. */
  lemma RefreshedInNumbers(e: Info, a: CAddress, nTimePenalty: int, nNow: int)
    requires nTimePenalty >= 0 && a.nTime < 0x1_0000_0000
    ensures
      var r := Refreshed(e, a, nTimePenalty, nNow);
      var step := if a.nTime > nNow - DAY then 3600 else DAY;
      && (a.nTime != 0 && (e.nTime == 0 || e.nTime + step + nTimePenalty < a.nTime) ==>
            r.nTime == if a.nTime > nTimePenalty then a.nTime - nTimePenalty else 0)
      && (a.nTime == 0 || (e.nTime != 0 && e.nTime + step + nTimePenalty >= a.nTime) ==> r.nTime == e.nTime)
      && r.nServices == e.nServices | a.nServices
      && r == e.(nTime := r.nTime, nServices := r.nServices)
  {
  }

  /** A record with a date never goes back in time. */
  lemma RefreshedMovesOn(e: Info, a: CAddress, nTimePenalty: int, nNow: int)
    requires nTimePenalty >= 0 && a.nTime < 0x1_0000_0000
    ensures Refreshed(e, a, nTimePenalty, nNow).nTime >= e.nTime
  {
    RefreshedInNumbers(e, a, nTimePenalty, nNow);
  }

  /** A known record is listed once more exactly for news of it, while it is untried, in fewer
      than four buckets, and either in none or by luck. */
  lemma ListedOnceMoreIff(e: Info, a: CAddress, roll: nat)
    requires 0 <= e.nRefCount <= 4
    ensures !KeepsOut(e, a, roll) <==>
      && a.nTime > 0 && (e.nTime == 0 || a.nTime > e.nTime)
      && !e.fInTried && e.nRefCount < 4 && (e.nRefCount == 0 || roll == 0)
  {
  }

  /** A fresh record carries the date it came with less the penalty, and no history. */
  lemma PenalisedInNumbers(a: CAddress, source: NetAddr, nTimePenalty: int)
    requires nTimePenalty >= 0 && a.nTime < 0x1_0000_0000
    ensures
      var r := Penalised(a, source, nTimePenalty);
      && r.addr == a.addr && r.source == source && r.nServices == a.nServices
      && r.nTime == (if a.nTime > nTimePenalty then a.nTime - nTimePenalty else 0)
      && r.nLastTry == 0 && r.nLastSuccess == 0 && r.nAttempts == 0 && r.nRefCount == 0 && !r.fInTried
  {
  }

  /** Making room for an id leaves its own record and address as they are. */
  lemma DropRefOthers(t: Tables, b: nat, victim: Id, id: Id)
    requires b < |t.vvNew| && Droppable(t, victim) && id in t.mapInfo && id != victim
    requires t.mapInfo[id].addr.ip != t.mapInfo[victim].addr.ip
    ensures
      var d := DropRef(t, b, victim);
      && id in d.mapInfo && d.mapInfo[id] == t.mapInfo[id].(nRandomPos := d.mapInfo[id].nRandomPos)
      && (t.mapInfo[id].addr.ip in t.mapAddr ==>
            t.mapInfo[id].addr.ip in d.mapAddr && d.mapAddr[t.mapInfo[id].addr.ip] == t.mapAddr[t.mapInfo[id].addr.ip])
  {
  }

  /** An address that was unknown is known afterwards, with a fresh record that lies in the new
      bucket of its address and source, counted once. */
  lemma NewcomerListed(t: Tables, t': Tables, key: Key, a: CAddress, source: NetAddr,
                       nTimePenalty: int, nNow: int, roll: nat, n: seq<nat>, victim: Id)
    requires Inv(t, key) && a.addr.port != 0 && a.addr.ip !in t.mapAddr
    requires AddEffect(t, t', key, a, true, source, nTimePenalty, nNow, roll, n, victim)
    ensures a.addr.ip in t'.mapAddr && t'.mapAddr[a.addr.ip] == t.nIdCount && t.nIdCount in t'.mapInfo
    ensures
      var e := t'.mapInfo[t.nIdCount];
      e == Penalised(a, source, nTimePenalty).(nRefCount := 1, nRandomPos := e.nRandomPos)
    ensures |t'.vvNew| == 256 && t.nIdCount in t'.vvNew[NewBucket(key, a.addr.ip, source)]
  {
    var id, b, s := t.nIdCount, NewBucket(key, a.addr.ip, source), Created(t, Penalised(a, source, nTimePenalty));
    NewcomerFresh(t, key, a.addr.ip);
    var u := SetRefCount(s, id, 1);
    assert Listed(s, t', b, id, n, nNow, victim);
    if |s.vvNew[b]| == NEW_BUCKET_SIZE {
      assert victim in u.vvNew[b];
      DropRefOthers(u, b, victim, id);
      assert t'.vvNew == PutNew(DropRef(u, b, victim).vvNew, b, id);
    }
    hide IsShrinkVictim, DropRef, Inv, NewBucket;
  }

  /** The next id is in no table, and no record has an unknown address. */
  lemma NewcomerFresh(t: Tables, key: Key, ip: NetAddr)
    requires Inv(t, key) && ip !in t.mapAddr
    ensures t.nIdCount !in t.mapInfo && |t.vvNew| == 256 && forall b :: 0 <= b < |t.vvNew| ==> t.nIdCount !in t.vvNew[b]
    ensures forall id :: id in t.mapInfo ==> t.mapInfo[id].addr.ip != ip
  {
    hide TriedOk, RefsOk, CountsOk, RandomOk;
  }

  /** The victim leaves the bucket, with its last reference altogether; the other buckets stay. */
  lemma DroppedLeaves(t: Tables, b: nat, victim: Id)
    requires b < |t.vvNew| && Droppable(t, victim)
    ensures
      var d := DropRef(t, b, victim);
      && victim !in d.vvNew[b] && (victim in d.mapInfo <==> t.mapInfo[victim].nRefCount != 1)
      && (victim !in d.mapInfo ==> t.mapInfo[victim].addr.ip !in d.mapAddr && victim !in d.mapInfo)
      && |d.vvNew| == |t.vvNew| && d.vvNew[b] == t.vvNew[b] - {victim}
      && forall c :: 0 <= c < |t.vvNew| && c != b ==> d.vvNew[c] == t.vvNew[c]
  {
  }

  // ---------------------------------------------------------------- what Good_ moves

  /** A record after its address was reached: in the tried table, the times set, no failures. */
  predicate Reached(e: Info, was: Info, nTime: int) {
    && e.fInTried && e.nRefCount == 0 && e.addr == was.addr
    && e.nLastSuccess == nTime && e.nLastTry == nTime && e.nAttempts == 0 && e.nTime == U32(nTime)
  }

  /** Another record stays as it was, or goes back from the same tried bucket to a new one. */
  predicate StaysOrReturns(e: Info, was: Info) {
    e == was || (was.fInTried && e == was.(fInTried := false, nRefCount := 1))
  }

  lemma ReplacedEntry(t: Tables, key: Key, id: Id, pos: seq<nat>)
    requires Inv(t, key) && id in t.mapInfo && !t.mapInfo[id].fInTried
    requires |t.vvTried| == TRIED_BUCKET_COUNT && |t.vvTried[TriedBucket(key, t.mapInfo[id].addr)]| == TRIED_BUCKET_SIZE
    requires |pos| == 4 && DrawsOk(pos, TRIED_BUCKET_SIZE)
    requires forall x :: x in t.vvTried[TriedBucket(key, t.mapInfo[id].addr)] ==> x in t.mapInfo
    ensures
      var s := Selected(t.mapInfo, t.vvTried[TriedBucket(key, t.mapInfo[id].addr)], pos, 4);
      var victim := s.order[pos[s.round]];
      victim != id && victim in t.mapInfo && t.mapInfo[victim].fInTried
  {
    InvTried(t, key);
    hide Inv, Selected;
    var bucket := t.vvTried[TriedBucket(key, t.mapInfo[id].addr)];
    SelectedReorders(t.mapInfo, bucket, pos, 4);
    var s := Selected(t.mapInfo, bucket, pos, 4);
    assert s.order[pos[s.round]] in s.order;
  }

  /** Reaching a known address puts it into the tried table for good; no record is lost, and at
      most one other leaves the tried table, for a new bucket. */
  lemma PromotedMoves(t: Tables, t': Tables, key: Key, id: Id, origin: nat, pos: seq<nat>, x: Id)
    requires Inv(t, key) && Promoted(t, t', key, id, origin, pos) && !t.mapInfo[id].fInTried && x in t.mapInfo && x != id
    ensures t'.mapInfo.Keys == t.mapInfo.Keys
    ensures t'.mapInfo[id] == t.mapInfo[id].(fInTried := true, nRefCount := 0)
    ensures StaysOrReturns(t'.mapInfo[x], t.mapInfo[x])
    ensures t'.nTried + t'.nNew == t.nTried + t.nNew
    ensures t'.nTried == t.nTried + if |t.vvTried[TriedBucket(key, t.mapInfo[id].addr)]| < 64 then 1 else 0
  {
    hide Inv, Selected, Appended, Displaced;
    InvTried(t, key);
    if |t.vvTried[TriedBucket(key, t.mapInfo[id].addr)]| < TRIED_BUCKET_SIZE {
      AppendedMoves(t, key, id, x);
    } else {
      ReplacedEntry(t, key, id, pos);
      hide TriedBucket, NewBucket;
      var k := TriedBucket(key, t.mapInfo[id].addr);
      var s := Selected(t.mapInfo, t.vvTried[k], pos, 4);
      var victim := s.order[pos[s.round]];
      var own := NewBucket(key, t.mapInfo[victim].addr.ip, t.mapInfo[victim].source);
      DisplacedMoves(t.(vvTried := t.vvTried[k := s.order]), key, id, pos[s.round],
                     if |t.vvNew[own] - {id}| < NEW_BUCKET_SIZE then own else origin, x);
    }
  }

  lemma AppendedMoves(t: Tables, key: Key, id: Id, x: Id)
    requires id in t.mapInfo && |t.vvTried| == TRIED_BUCKET_COUNT && x in t.mapInfo && x != id
    ensures
      var t' := Appended(t, key, id);
      && t'.mapInfo.Keys == t.mapInfo.Keys && t'.mapInfo[id] == t.mapInfo[id].(fInTried := true, nRefCount := 0)
      && t'.mapInfo[x] == t.mapInfo[x] && t'.nTried == t.nTried + 1 && t'.nNew == t.nNew - 1
  {
    hide TriedBucket, ClearNew;
  }

  lemma DisplacedMoves(t: Tables, key: Key, id: Id, pos: nat, target: nat, x: Id)
    requires id in t.mapInfo && |t.vvTried| == TRIED_BUCKET_COUNT && target < |t.vvNew| && x in t.mapInfo && x != id
    requires pos < |t.vvTried[TriedBucket(key, t.mapInfo[id].addr)]|
    requires
      var v := t.vvTried[TriedBucket(key, t.mapInfo[id].addr)][pos];
      v in t.mapInfo && v != id && t.mapInfo[v].fInTried
    ensures
      var t', v := Displaced(t, key, id, pos, target), t.vvTried[TriedBucket(key, t.mapInfo[id].addr)][pos];
      && t'.mapInfo.Keys == t.mapInfo.Keys && t'.mapInfo[id] == t.mapInfo[id].(fInTried := true, nRefCount := 0)
      && t'.mapInfo[v] == t.mapInfo[v].(fInTried := false, nRefCount := 1)
      && StaysOrReturns(t'.mapInfo[x], t.mapInfo[x]) && t'.nTried == t.nTried && t'.nNew == t.nNew
  {
    hide TriedBucket, ClearNew;
  }

  /** The whole of Good_ on a known address: its record counts as reached, others stay or return. */
  lemma GoodMoves(t: Tables, t': Tables, key: Key, addr: Service, nTime: int, pos: seq<nat>, origin: nat, x: Id)
    requires Inv(t, key) && GoodEffect(t, t', key, addr, nTime, pos, origin) && nTime > 0
    requires addr.ip in t.mapAddr && t.mapAddr[addr.ip] in t.mapInfo && t.mapInfo[t.mapAddr[addr.ip]].addr == addr
    requires x in t.mapInfo && x != t.mapAddr[addr.ip]
    ensures t'.mapInfo.Keys == t.mapInfo.Keys && Reached(t'.mapInfo[t.mapAddr[addr.ip]], t.mapInfo[t.mapAddr[addr.ip]], nTime)
    ensures StaysOrReturns(t'.mapInfo[x], t.mapInfo[x])
  {
    hide *;
    var id := t.mapAddr[addr.ip];
    var u := Touch(t, id, MarkedGood(t.mapInfo[id], nTime));
    GoodParts(t, t', key, addr, nTime, pos, origin, x);
    TriedGood(t, key, id, nTime);
    TriedUncounted(t, key, id);
    if !t.mapInfo[id].fInTried {
      PromotedMoves(u, t', key, id, origin, pos, x);
    }
    ReachedParts(t'.mapInfo[id], t.mapInfo[id], nTime);
    UnmovedStays(t.mapInfo[x]);
  }

  lemma GoodParts(t: Tables, t': Tables, key: Key, addr: Service, nTime: int, pos: seq<nat>, origin: nat, x: Id)
    requires GoodEffect(t, t', key, addr, nTime, pos, origin) && addr.ip in t.mapAddr
    requires t.mapAddr[addr.ip] in t.mapInfo && t.mapInfo[t.mapAddr[addr.ip]].addr == addr
    requires x in t.mapInfo && x != t.mapAddr[addr.ip]
    ensures
      var id := t.mapAddr[addr.ip];
      var u := Touch(t, id, MarkedGood(t.mapInfo[id], nTime));
      && (if t.mapInfo[id].fInTried then t' == u else Promoted(u, t', key, id, origin, pos))
      && u.mapInfo.Keys == t.mapInfo.Keys && u.mapInfo[x] == t.mapInfo[x]
      && u.mapInfo[id] == t.mapInfo[id].(nLastSuccess := nTime, nLastTry := nTime, nTime := U32(nTime), nAttempts := 0)
  {
    hide Promoted;
  }

  lemma ReachedParts(e: Info, was: Info, nTime: int)
    ensures Reached(e, was, nTime) <==>
      && e.fInTried && e.nRefCount == 0 && e.addr == was.addr
      && e.nLastSuccess == nTime && e.nLastTry == nTime && e.nAttempts == 0 && e.nTime == U32(nTime)
  {
  }

  lemma UnmovedStays(e: Info)
    ensures StaysOrReturns(e, e)
  {
  }

  lemma TriedUncounted(t: Tables, key: Key, id: Id)
    requires Inv(t, key) && id in t.mapInfo
    ensures t.mapInfo[id].fInTried ==> t.mapInfo[id].nRefCount == 0
  {
    hide TriedOk, NewOk, AddrOk, CountsOk, RandomOk, RecordsOk, NewBuckets;
  }
}
