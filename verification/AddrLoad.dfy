/** When reading an address file leaves valid tables, for every file: what the unserializer
    (src/addrman.h:328-388) makes of it in closed form, and the condition on the file. */
module AddrLoad {
  import opened Collections
  import opened AddrTables
  import opened AddrMoves
  import opened AddrFile
  import opened AddrReload

  // ---------------------------------------------------------------- what a file holds

  /** Written for another number of new buckets: the lists are ignored. */
  predicate Rebuilds(s: AddrDat) {
    s.nUBuckets != NEW_BUCKET_COUNT
  }

  /** How many of the first k tried records belong to tried bucket b. */
  function Ahead(s: AddrDat, k: nat, b: nat): nat
    requires k <= |s.triedInfos|
  {
    if k == 0 then 0
    else Ahead(s, k - 1, b) + if TriedBucket(s.nKey, s.triedInfos[k - 1].addr) == b then 1 else 0
  }

  /** The tried record is among the first of its bucket; the others are lost. */
  predicate Kept(s: AddrDat, k: nat)
    requires k < |s.triedInfos|
  {
    Ahead(s, k, TriedBucket(s.nKey, s.triedInfos[k].addr)) < TRIED_BUCKET_SIZE
  }

  /** The new records, then the kept ones of the first k tried records: id i names entry i. */
  function RecordsTo(s: AddrDat, k: nat): (q: seq<Stored>)
    requires k <= |s.triedInfos|
    ensures |s.newInfos| <= |q| <= |s.newInfos| + k && q[..|s.newInfos|] == s.newInfos
  {
    if k == 0 then s.newInfos
    else RecordsTo(s, k - 1) + if Kept(s, k - 1) then [s.triedInfos[k - 1]] else []
  }

  function Records(s: AddrDat): seq<Stored> {
    RecordsTo(s, |s.triedInfos|)
  }

  /** How often the first n entries of a list name x. */
  function Listings(q: seq<Id>, x: Id, n: nat): nat
    requires n <= |q|
  {
    if n == 0 then 0 else Listings(q, x, n - 1) + if q[n - 1] == x then 1 else 0
  }

  function ListingsBefore(s: AddrDat, x: Id, b: nat): nat
    requires b <= |s.buckets|
  {
    if b == 0 then 0 else ListingsBefore(s, x, b - 1) + Listings(s.buckets[b - 1], x, |s.buckets[b - 1]|)
  }

  function AtMost4(n: nat): nat {
    if n < NEW_BUCKETS_PER_ADDRESS then n else NEW_BUCKETS_PER_ADDRESS
  }

  /** The references that the first b lists give record x: the fifth and later ones are ignored. */
  function References(s: AddrDat, x: Id, b: nat): nat
    requires b <= |s.buckets|
  {
    AtMost4(ListingsBefore(s, x, b))
  }

  predicate Gives(s: AddrDat, x: Id, b: nat)
    requires b < |s.buckets|
  {
    References(s, x, b + 1) > References(s, x, b)
  }

  predicate GivesTwo(s: AddrDat, x: Id, b: nat)
    requires b < |s.buckets|
  {
    References(s, x, b + 1) > References(s, x, b) + 1
  }

  /** List b gives record x a reference; without lists, b is the record's own bucket. */
  predicate Lies(s: AddrDat, x: Id, b: nat)
    requires WellFormed(s) && x as int < |s.newInfos| && b < NEW_BUCKET_COUNT
  {
    if Rebuilds(s) then NewBucket(s.nKey, s.newInfos[x].addr.ip, s.newInfos[x].source) == b
    else Gives(s, x, b)
  }

  /** The records that end up in new bucket b. */
  function RecordsIn(s: AddrDat, b: nat): (q: set<Id>)
    requires WellFormed(s) && b < NEW_BUCKET_COUNT
    ensures forall x: Id :: x in q <==> x as int < |s.newInfos| && Lies(s, x, b)
  {
    set x | x in FirstIds(|s.newInfos|) && Lies(s, x, b)
  }

  function FirstIds(n: nat): (q: set<Id>)
    ensures forall x: Id :: x in q <==> x as int < n
  {
    if n == 0 then {} else FirstIds(n - 1) + {(n - 1) as Id}
  }

  // ---------------------------------------------------------------- the condition on the file

  /** No record succeeded before the epoch, and the kept tried ones have succeeded. */
  ghost predicate SaneTimes(s: AddrDat) {
    forall i :: 0 <= i < |Records(s)| ==> Records(s)[i].nLastSuccess >= if i < |s.newInfos| then 0 else 1
  }

  ghost predicate SaneAddresses(s: AddrDat) {
    forall i, j :: 0 <= i < j < |Records(s)| ==> Records(s)[i].addr.ip != Records(s)[j].addr.ip
  }

  ghost predicate SaneBuckets(s: AddrDat)
    requires WellFormed(s)
  {
    forall b :: 0 <= b < NEW_BUCKET_COUNT ==> |RecordsIn(s, b)| <= NEW_BUCKET_SIZE
  }

  /** The record is listed, and no list gives it two references. */
  ghost predicate ListedWell(s: AddrDat, x: Id)
    requires WellFormed(s) && !Rebuilds(s)
  {
    References(s, x, NEW_BUCKET_COUNT) >= 1 && forall b :: 0 <= b < NEW_BUCKET_COUNT ==> !GivesTwo(s, x, b)
  }

  ghost predicate SaneLists(s: AddrDat)
    requires WellFormed(s)
  {
    Rebuilds(s) || forall x: Id :: x as int < |s.newInfos| ==> ListedWell(s, x)
  }

  /** The lists name new records; ignored lists may name any. */
  ghost predicate SaneNames(s: AddrDat) {
    NamesBelow(s, if Rebuilds(s) then |Records(s)| else |s.newInfos|)
  }

  ghost predicate Sane(s: AddrDat)
    requires WellFormed(s)
  {
    SaneNames(s) && SaneTimes(s) && SaneAddresses(s) && SaneBuckets(s) && SaneLists(s)
  }

  // ---------------------------------------------------------------- the records

  predicate IsRecord(info: Info, x: Stored, i: int, tried: bool) {
    info == Restored(x).(nRandomPos := i, fInTried := tried, nRefCount := info.nRefCount)
  }

  ghost predicate AddrsOf(mapAddr: map<NetAddr, Id>, recs: seq<Stored>) {
    && (forall i :: 0 <= i < |recs| ==> recs[i].addr.ip in mapAddr)
    && (forall ip :: ip in mapAddr ==> mapAddr[ip] as int < |recs| && recs[mapAddr[ip]].addr.ip == ip)
  }

  /** The records are these, in id order, the tried ones from nNew on. */
  ghost predicate Holds(u: Tables, recs: seq<Stored>, nNew: nat) {
    && (forall i: Id :: i in u.mapInfo <==> i as int < |recs|)
    && (forall i: Id :: i as int < |recs| ==> IsRecord(u.mapInfo[i], recs[i], i as int, i as int >= nNew))
    && |u.vRandom| == |recs| && (forall i: Id :: i as int < |recs| ==> u.vRandom[i] == i)
    && AddrsOf(u.mapAddr, recs)
  }

  lemma AddrsMore(mapAddr: map<NetAddr, Id>, recs: seq<Stored>, x: Stored)
    requires AddrsOf(mapAddr, recs)
    ensures AddrsOf(mapAddr[x.addr.ip := |recs| as Id], recs + [x])
  {
  }

  lemma HoldsSize(u: Tables, recs: seq<Stored>, nNew: nat)
    requires Holds(u, recs, nNew)
    ensures |u.vRandom| == |recs| && forall i: Id :: i in u.mapInfo <==> i as int < |recs|
  {
  }

  lemma HoldsMore(u: Tables, u': Tables, recs: seq<Stored>, nNew: nat, x: Stored, info: Info)
    requires Holds(u, recs, nNew) && IsRecord(info, x, |recs|, |recs| >= nNew)
    requires u'.mapInfo == u.mapInfo[|recs| as Id := info] && u'.mapAddr == u.mapAddr[x.addr.ip := |recs| as Id]
    requires u'.vRandom == u.vRandom + [|recs| as Id]
    ensures Holds(u', recs + [x], nNew)
  {
    hide AddrsOf;
    AddrsMore(u.mapAddr, recs, x);
  }

  predicate BelongsTo(s: AddrDat, i: Id, b: nat)
    requires i as int < |s.newInfos|
  {
    Rebuilds(s) && NewBucket(s.nKey, s.newInfos[i].addr.ip, s.newInfos[i].source) == b
  }

  /** Without lists, the first k new records lie in their own buckets. */
  ghost predicate OwnBuckets(s: AddrDat, vvNew: seq<set<Id>>, k: nat)
    requires k <= |s.newInfos|
  {
    && |vvNew| == NEW_BUCKET_COUNT
    && forall b, i: Id :: 0 <= b < NEW_BUCKET_COUNT ==> (i in vvNew[b] <==> i as int < k && BelongsTo(s, i, b))
  }

  ghost predicate NewLoaded(s: AddrDat, u: Tables, k: nat)
    requires k <= |s.newInfos|
  {
    && Holds(u, s.newInfos[..k], |s.newInfos|)
    && (forall i: Id :: i as int < k && i in u.mapInfo ==> u.mapInfo[i].nRefCount == if Rebuilds(s) then 1 else 0)
    && OwnBuckets(s, u.vvNew, k)
    && u.vvTried == seq(TRIED_BUCKET_COUNT, _ => [])
    && u.nNew == s.nNew && u.nTried == s.nTried
  }

  lemma NothingLoaded(s: AddrDat)
    ensures NewLoaded(s, LoadNew(s, 0), 0)
  {
  }

  lemma {:induction false} LoadsNew(s: AddrDat, k: nat)
    requires k <= |s.newInfos|
    ensures NewLoaded(s, LoadNew(s, k), k)
  {
    hide NewLoaded, ReadNew;
    if k == 0 {
      NothingLoaded(s);
    } else {
      LoadsNew(s, k - 1);
      NewRecordRead(s, LoadNew(s, k - 1), k - 1);
    }
  }

  lemma NewRecordRead(s: AddrDat, u: Tables, k: nat)
    requires k < |s.newInfos| && NewLoaded(s, u, k)
    ensures NewLoaded(s, ReadNew(u, s.nKey, s.newInfos[k], k as Id, Rebuilds(s)), k + 1)
  {
    hide NewBucket, AddrsOf;
    var x := s.newInfos[k];
    var v := ReadNew(u, s.nKey, x, k as Id, Rebuilds(s));
    HoldsSize(u, s.newInfos[..k], |s.newInfos|);
    OwnMore(s, u.vvNew, k);
    hide Holds, OwnBuckets;
    HoldsMore(u, v, s.newInfos[..k], |s.newInfos|, x, v.mapInfo[k as Id]);
    assert s.newInfos[..k + 1] == s.newInfos[..k] + [x];
  }

  lemma OwnMore(s: AddrDat, vvNew: seq<set<Id>>, k: nat)
    requires k < |s.newInfos| && OwnBuckets(s, vvNew, k)
    ensures
      var x := s.newInfos[k];
      OwnBuckets(s, if Rebuilds(s) then PutNew(vvNew, NewBucket(s.nKey, x.addr.ip, x.source), k as Id) else vvNew, k + 1)
  {
    hide NewBucket;
  }

  // ---------------------------------------------------------------- the tried records

  /** The bucket holds tried ids whose records belong there, each once. */
  ghost predicate TriedBucketOf(bucket: seq<Id>, b: nat, recs: seq<Stored>, nNew: nat, key: Key) {
    && Distinct(bucket) && |bucket| <= TRIED_BUCKET_SIZE
    && forall id :: id in bucket ==> nNew <= id as int < |recs| && TriedBucket(key, recs[id].addr) == b
  }

  ghost predicate TriedFilled(vvTried: seq<seq<Id>>, recs: seq<Stored>, nNew: nat, key: Key) {
    && |vvTried| == TRIED_BUCKET_COUNT
    && (forall b :: 0 <= b < |vvTried| ==> TriedBucketOf(vvTried[b], b, recs, nNew, key))
    && (forall id: Id :: nNew <= id as int < |recs| ==> id in vvTried[TriedBucket(key, recs[id].addr)])
  }

  lemma MoreRecords(bucket: seq<Id>, b: nat, recs: seq<Stored>, nNew: nat, key: Key, x: Stored)
    requires TriedBucketOf(bucket, b, recs, nNew, key) && nNew <= |recs|
    ensures TriedBucketOf(bucket, b, recs + [x], nNew, key)
    ensures TriedBucket(key, x.addr) == b && |bucket| < TRIED_BUCKET_SIZE ==>
      TriedBucketOf(bucket + [|recs| as Id], b, recs + [x], nNew, key)
  {
    hide TriedBucket;
    forall i | 0 <= i < |bucket| ensures bucket[i] != |recs| as Id {
      assert bucket[i] in bucket;
    }
  }

  lemma TriedFilledMore(vvTried: seq<seq<Id>>, recs: seq<Stored>, nNew: nat, key: Key, x: Stored)
    requires TriedFilled(vvTried, recs, nNew, key) && nNew <= |recs| && |vvTried[TriedBucket(key, x.addr)]| < TRIED_BUCKET_SIZE
    ensures
      var b := TriedBucket(key, x.addr);
      TriedFilled(vvTried[b := vvTried[b] + [|recs| as Id]], recs + [x], nNew, key)
  {
    var b := TriedBucket(key, x.addr);
    hide TriedBucket;
    var n := |recs| as Id;
    var vv := vvTried[b := vvTried[b] + [n]];
    forall c | 0 <= c < |vv| ensures TriedBucketOf(vv[c], c, recs + [x], nNew, key) {
      MoreRecords(vvTried[c], c, recs, nNew, key, x);
    }
  }

  /** How full the tried buckets are after k tried records. */
  ghost predicate Filled(s: AddrDat, vvTried: seq<seq<Id>>, k: nat)
    requires k <= |s.triedInfos|
  {
    && |vvTried| == TRIED_BUCKET_COUNT
    && forall b :: 0 <= b < |vvTried| ==>
         |vvTried[b]| == if Ahead(s, k, b) < TRIED_BUCKET_SIZE then Ahead(s, k, b) else TRIED_BUCKET_SIZE
  }

  /** The reference counts before the lists are read. */
  ghost predicate RefsBefore(s: AddrDat, u: Tables) {
    forall i: Id :: i in u.mapInfo ==> u.mapInfo[i].nRefCount == if Rebuilds(s) && i as int < |s.newInfos| then 1 else 0
  }

  /** The tables after k tried records: u0 is what the new records left. */
  ghost predicate TriedLoaded(s: AddrDat, u0: Tables, u: Tables, k: nat)
    requires k <= |s.triedInfos|
  {
    && Holds(u, RecordsTo(s, k), |s.newInfos|)
    && RefsBefore(s, u)
    && TriedFilled(u.vvTried, RecordsTo(s, k), |s.newInfos|, s.nKey) && Filled(s, u.vvTried, k)
    && u.nIdCount as int == |RecordsTo(s, k)|
    && u.nTried == s.nTried - k + |RecordsTo(s, k)| - |s.newInfos|
    && u.vvNew == u0.vvNew && u.nNew == u0.nNew
  }

  lemma TriedStart(s: AddrDat)
    ensures TriedLoaded(s, LoadNew(s, |s.newInfos|), LoadTried(s, 0), 0)
  {
    LoadsNew(s, |s.newInfos|);
    assert s.newInfos[..|s.newInfos|] == s.newInfos;
    var u0, u := LoadNew(s, |s.newInfos|), LoadTried(s, 0);
    HoldsSize(u0, s.newInfos, |s.newInfos|);
    HoldsSame(u0, u, s.newInfos, |s.newInfos|);
    NoTriedYet(s, s.newInfos);
    hide LoadNew, LoadTried, Holds, TriedFilled, Filled;
  }

  lemma HoldsSame(u: Tables, u': Tables, recs: seq<Stored>, nNew: nat)
    requires Holds(u, recs, nNew) && u'.mapInfo == u.mapInfo && u'.mapAddr == u.mapAddr && u'.vRandom == u.vRandom
    ensures Holds(u', recs, nNew)
  {
    hide AddrsOf;
  }

  lemma NoTriedYet(s: AddrDat, recs: seq<Stored>)
    ensures TriedFilled(seq(TRIED_BUCKET_COUNT, _ => []), recs, |recs|, s.nKey)
    ensures Filled(s, seq(TRIED_BUCKET_COUNT, _ => []), 0)
  {
  }

  lemma FilledMore(s: AddrDat, vvTried: seq<seq<Id>>, k: nat)
    requires k < |s.triedInfos| && Filled(s, vvTried, k)
    ensures
      var b := TriedBucket(s.nKey, s.triedInfos[k].addr);
      && (Kept(s, k) <==> |vvTried[b]| < TRIED_BUCKET_SIZE)
      && (Kept(s, k) ==> forall id: Id :: Filled(s, vvTried[b := vvTried[b] + [id]], k + 1))
      && (!Kept(s, k) ==> Filled(s, vvTried, k + 1))
  {
    hide TriedBucket;
  }

  lemma TriedRecordRead(s: AddrDat, u0: Tables, u: Tables, k: nat)
    requires k < |s.triedInfos| && TriedLoaded(s, u0, u, k)
    ensures TriedLoaded(s, u0, ReadTried(u, s.nKey, s.triedInfos[k]), k + 1)
  {
    hide *;
    var x, recs := s.triedInfos[k], RecordsTo(s, k);
    TriedLoadedParts(s, u0, u, k);
    FilledMore(s, u.vvTried, k);
    NextRecords(s, k);
    if Kept(s, k) {
      TriedFilledMore(u.vvTried, recs, |s.newInfos|, s.nKey, x);
      KeptRecord(s, u, recs, x);
      KeptPlace(u, s.nKey, x);
    } else {
      LostPlace(u, s.nKey, x);
      LostRecord(s, u, recs);
    }
    TriedLoadedParts(s, u0, ReadTried(u, s.nKey, x), k + 1);
  }

  lemma TriedLoadedParts(s: AddrDat, u0: Tables, u: Tables, k: nat)
    requires k <= |s.triedInfos|
    ensures TriedLoaded(s, u0, u, k) <==>
      && Holds(u, RecordsTo(s, k), |s.newInfos|) && RefsBefore(s, u)
      && TriedFilled(u.vvTried, RecordsTo(s, k), |s.newInfos|, s.nKey) && Filled(s, u.vvTried, k)
      && u.nIdCount as int == |RecordsTo(s, k)|
      && u.nTried == s.nTried - k + |RecordsTo(s, k)| - |s.newInfos|
      && u.vvNew == u0.vvNew && u.nNew == u0.nNew
    ensures TriedLoaded(s, u0, u, k) ==> |u.vvTried| == TRIED_BUCKET_COUNT
  {
    hide Holds, RefsBefore, Filled, RecordsTo;
  }

  lemma LostRecord(s: AddrDat, u: Tables, recs: seq<Stored>)
    requires Holds(u, recs, |s.newInfos|) && RefsBefore(s, u)
    ensures Holds(u.(nTried := u.nTried - 1), recs, |s.newInfos|) && RefsBefore(s, u.(nTried := u.nTried - 1))
  {
    hide AddrsOf;
  }

  lemma KeptPlace(u: Tables, key: Key, x: Stored)
    requires |u.vvTried| == TRIED_BUCKET_COUNT && |u.vvTried[TriedBucket(key, x.addr)]| < TRIED_BUCKET_SIZE
    ensures
      var v, b := ReadTried(u, key, x), TriedBucket(key, x.addr);
      && v.vvTried == u.vvTried[b := u.vvTried[b] + [u.nIdCount]] && v.nIdCount == u.nIdCount + 1
      && v.nTried == u.nTried && v.nNew == u.nNew && v.vvNew == u.vvNew
  {
    hide TriedBucket;
  }

  lemma LostPlace(u: Tables, key: Key, x: Stored)
    requires |u.vvTried| == TRIED_BUCKET_COUNT && |u.vvTried[TriedBucket(key, x.addr)]| >= TRIED_BUCKET_SIZE
    ensures ReadTried(u, key, x) == u.(nTried := u.nTried - 1)
  {
    hide TriedBucket;
  }

  lemma NextRecords(s: AddrDat, k: nat)
    requires k < |s.triedInfos|
    ensures RecordsTo(s, k + 1) == if Kept(s, k) then RecordsTo(s, k) + [s.triedInfos[k]] else RecordsTo(s, k)
  {
    hide Kept;
  }

  lemma KeptRecord(s: AddrDat, u: Tables, recs: seq<Stored>, x: Stored)
    requires Holds(u, recs, |s.newInfos|) && RefsBefore(s, u) && u.nIdCount as int == |recs| >= |s.newInfos|
    requires |u.vvTried| == TRIED_BUCKET_COUNT && |u.vvTried[TriedBucket(s.nKey, x.addr)]| < TRIED_BUCKET_SIZE
    ensures Holds(ReadTried(u, s.nKey, x), recs + [x], |s.newInfos|) && RefsBefore(s, ReadTried(u, s.nKey, x))
  {
    var v := ReadTried(u, s.nKey, x);
    HoldsSize(u, recs, |s.newInfos|);
    hide Holds, TriedBucket;
    HoldsMore(u, v, recs, |s.newInfos|, x, v.mapInfo[|recs| as Id]);
  }

  lemma {:induction false} LoadsTried(s: AddrDat, k: nat)
    requires k <= |s.triedInfos|
    ensures TriedLoaded(s, LoadNew(s, |s.newInfos|), LoadTried(s, k), k)
  {
    hide TriedLoaded, ReadTried;
    if k == 0 {
      TriedStart(s);
    } else {
      LoadsTried(s, k - 1);
      TriedRecordRead(s, LoadNew(s, |s.newInfos|), LoadTried(s, k - 1), k - 1);
    }
  }

  // ---------------------------------------------------------------- the bucket lists

  /** References given to x by the first b lists and n entries of the next. */
  function ReferencesAt(s: AddrDat, x: Id, b: nat, n: nat): nat
    requires b < |s.buckets| && n <= |s.buckets[b]|
  {
    AtMost4(ListingsBefore(s, x, b) + Listings(s.buckets[b], x, n))
  }

  lemma ReferencesEnds(s: AddrDat, x: Id, b: nat)
    requires b < |s.buckets|
    ensures ReferencesAt(s, x, b, 0) == References(s, x, b)
    ensures ReferencesAt(s, x, b, |s.buckets[b]|) == References(s, x, b + 1)
  {
  }

  ghost predicate CountedAs(u0: map<Id, Info>, u: map<Id, Info>, refs: Id -> nat) {
    && u.Keys == u0.Keys
    && forall x :: x in u0 ==> u[x] == u0[x].(nRefCount := refs(x))
  }

  /** After the first b lists. */
  ghost predicate ListsRead(s: AddrDat, u0: Tables, u: Tables, b: nat)
    requires b <= |s.buckets| == NEW_BUCKET_COUNT
  {
    && u == u0.(mapInfo := u.mapInfo, vvNew := u.vvNew)
    && CountedAs(u0.mapInfo, u.mapInfo, (x: Id) => References(s, x, b))
    && |u.vvNew| == NEW_BUCKET_COUNT
    && (forall c :: 0 <= c < NEW_BUCKET_COUNT ==> if c < b then Gained(s, u.vvNew[c], c) else u.vvNew[c] == {})
  }

  ghost predicate Gained(s: AddrDat, bucket: set<Id>, c: nat)
    requires c < |s.buckets|
  {
    forall x :: x in bucket <==> Gives(s, x, c)
  }

  /** After the first b lists and n entries of the next. */
  ghost predicate EntriesRead(s: AddrDat, u0: Tables, u: Tables, b: nat, n: nat)
    requires b < |s.buckets| == NEW_BUCKET_COUNT && n <= |s.buckets[b]|
  {
    && u == u0.(mapInfo := u.mapInfo, vvNew := u.vvNew)
    && CountedAs(u0.mapInfo, u.mapInfo, (x: Id) => ReferencesAt(s, x, b, n))
    && |u.vvNew| == NEW_BUCKET_COUNT
    && (forall c :: 0 <= c < NEW_BUCKET_COUNT && c != b ==> if c < b then Gained(s, u.vvNew[c], c) else u.vvNew[c] == {})
    && Gains(s, u.vvNew[b], b, n)
  }

  ghost predicate Gains(s: AddrDat, bucket: set<Id>, b: nat, n: nat)
    requires b < |s.buckets| && n <= |s.buckets[b]|
  {
    forall x :: x in bucket <==> ReferencesAt(s, x, b, n) > References(s, x, b)
  }

  lemma ListStarts(s: AddrDat, u0: Tables, u: Tables, b: nat)
    requires b < |s.buckets| == NEW_BUCKET_COUNT && ListsRead(s, u0, u, b)
    ensures EntriesRead(s, u0, u, b, 0)
  {
    hide References, ReferencesAt, Gained;
    forall x ensures ReferencesAt(s, x, b, 0) == References(s, x, b) {
      ReferencesEnds(s, x, b);
    }
  }

  lemma ListEnds(s: AddrDat, u0: Tables, u: Tables, b: nat)
    requires b < |s.buckets| == NEW_BUCKET_COUNT && EntriesRead(s, u0, u, b, |s.buckets[b]|)
    ensures ListsRead(s, u0, u, b + 1)
  {
    hide References, ReferencesAt;
    forall x ensures ReferencesAt(s, x, b, |s.buckets[b]|) == References(s, x, b + 1) {
      ReferencesEnds(s, x, b);
    }
    assert Gained(s, u.vvNew[b], b);
    hide Gained;
  }

  lemma EntryCounts(s: AddrDat, x: Id, y: Id, b: nat, n: nat)
    requires b < |s.buckets| && n < |s.buckets[b]| && x == s.buckets[b][n]
    ensures ReferencesAt(s, y, b, n + 1) ==
      ReferencesAt(s, y, b, n) + if y == x && ReferencesAt(s, y, b, n) < NEW_BUCKETS_PER_ADDRESS then 1 else 0
    ensures ReferencesAt(s, y, b, n) >= References(s, y, b)
  {
  }

  lemma EntryReads(s: AddrDat, u0: Tables, u: Tables, b: nat, n: nat)
    requires b < |s.buckets| == NEW_BUCKET_COUNT && n < |s.buckets[b]| && EntriesRead(s, u0, u, b, n)
    requires s.buckets[b][n] in u.mapInfo
    ensures EntriesRead(s, u0, ReadIndex(u, b, s.buckets[b][n], true), b, n + 1)
  {
    hide References, ReferencesAt, Gained;
    var x := s.buckets[b][n];
    EntryCounted(s, u0.mapInfo, u.mapInfo, b, n);
    EntryGained(s, u.vvNew[b], b, n);
    assert u.mapInfo[x].nRefCount == ReferencesAt(s, x, b, n);
    hide CountedAs, Gains;
  }

  lemma EntryCounted(s: AddrDat, m0: map<Id, Info>, m: map<Id, Info>, b: nat, n: nat)
    requires b < |s.buckets| && n < |s.buckets[b]| && s.buckets[b][n] in m
    requires CountedAs(m0, m, (x: Id) => ReferencesAt(s, x, b, n))
    ensures
      var x := s.buckets[b][n];
      CountedAs(m0, if m[x].nRefCount < NEW_BUCKETS_PER_ADDRESS then m[x := m[x].(nRefCount := m[x].nRefCount + 1)] else m,
                (y: Id) => ReferencesAt(s, y, b, n + 1))
  {
    hide ReferencesAt;
    var x := s.buckets[b][n];
    forall y: Id ensures ReferencesAt(s, y, b, n + 1) ==
      ReferencesAt(s, y, b, n) + if y == x && ReferencesAt(s, y, b, n) < NEW_BUCKETS_PER_ADDRESS then 1 else 0
    {
      EntryCounts(s, x, y, b, n);
    }
  }

  lemma EntryGained(s: AddrDat, bucket: set<Id>, b: nat, n: nat)
    requires b < |s.buckets| && n < |s.buckets[b]| && Gains(s, bucket, b, n)
    ensures
      var x := s.buckets[b][n];
      Gains(s, if ReferencesAt(s, x, b, n) < NEW_BUCKETS_PER_ADDRESS then bucket + {x} else bucket, b, n + 1)
  {
    hide References, ReferencesAt;
    var x := s.buckets[b][n];
    forall y: Id ensures ReferencesAt(s, y, b, n + 1) ==
      ReferencesAt(s, y, b, n) + if y == x && ReferencesAt(s, y, b, n) < NEW_BUCKETS_PER_ADDRESS then 1 else 0
      ensures ReferencesAt(s, y, b, n) >= References(s, y, b)
    {
      EntryCounts(s, x, y, b, n);
    }
  }

  lemma {:induction false} ReadsEntries(s: AddrDat, u0: Tables, u: Tables, b: nat, n: nat)
    requires WellFormed(s) && SaneNames(s) && !Rebuilds(s) && b < |s.buckets| && n <= |s.buckets[b]| && |u.vvNew| == NEW_BUCKET_COUNT
    requires EntriesRead(s, u0, u, b, 0) && forall i: Id :: i as int < |s.newInfos| ==> i in u.mapInfo
    ensures EntriesRead(s, u0, LoadBucket(s, u, b, n), b, n)
  {
    hide EntriesRead, ReadIndex;
    if n > 0 {
      ReadsEntries(s, u0, u, b, n - 1);
      EntryReads(s, u0, LoadBucket(s, u, b, n - 1), b, n - 1);
    }
  }

  lemma NoListYet(s: AddrDat, u0: Tables)
    requires |s.buckets| == NEW_BUCKET_COUNT == |u0.vvNew| && forall b :: 0 <= b < NEW_BUCKET_COUNT ==> u0.vvNew[b] == {}
    requires forall x :: x in u0.mapInfo ==> u0.mapInfo[x].nRefCount == 0
    ensures ListsRead(s, u0, u0, 0)
  {
    hide Gained;
  }

  lemma {:induction false} ReadsLists(s: AddrDat, u0: Tables, b: nat)
    requires WellFormed(s) && SaneNames(s) && !Rebuilds(s) && b <= |s.buckets| && u0 == LoadTried(s, |s.triedInfos|)
    requires ListsRead(s, u0, u0, 0)
    ensures ListsRead(s, u0, LoadBuckets(s, b), b)
  {
    hide ListsRead, EntriesRead, LoadBucket, LoadTried;
    if b > 0 {
      ReadsLists(s, u0, b - 1);
      ListStarts(s, u0, LoadBuckets(s, b - 1), b - 1);
      ReadsEntries(s, u0, LoadBuckets(s, b - 1), b - 1, |s.buckets[b - 1]|);
      ListEnds(s, u0, LoadBuckets(s, b), b - 1);
    }
  }

  lemma {:induction false} IgnoresEntries(s: AddrDat, u: Tables, b: nat, n: nat)
    requires WellFormed(s) && SaneNames(s) && Rebuilds(s) && b < |s.buckets| && n <= |s.buckets[b]| && |u.vvNew| == NEW_BUCKET_COUNT
    requires forall i: Id :: i as int < |Records(s)| ==> i in u.mapInfo
    ensures LoadBucket(s, u, b, n) == u
  {
    if n > 0 {
      IgnoresEntries(s, u, b, n - 1);
    }
  }

  lemma {:induction false} IgnoresLists(s: AddrDat, b: nat)
    requires WellFormed(s) && SaneNames(s) && Rebuilds(s) && b <= |s.buckets|
    requires forall i: Id :: i as int < |Records(s)| ==> i in LoadTried(s, |s.triedInfos|).mapInfo
    ensures LoadBuckets(s, b) == LoadTried(s, |s.triedInfos|)
  {
    hide LoadTried, LoadBucket;
    if b > 0 {
      IgnoresLists(s, b - 1);
      IgnoresEntries(s, LoadBuckets(s, b - 1), b - 1, |s.buckets[b - 1]|);
    }
  }

  // ---------------------------------------------------------------- the loaded tables

  /** The references record x ends up with. */
  function FinalReferences(s: AddrDat, x: Id): nat
    requires WellFormed(s)
  {
    if x as int >= |s.newInfos| then 0 else if Rebuilds(s) then 1 else References(s, x, NEW_BUCKET_COUNT)
  }

  /** The tables a file is read into, in closed form. */
  ghost predicate LoadedAs(s: AddrDat, u: Tables)
    requires WellFormed(s)
  {
    && Holds(u, Records(s), |s.newInfos|)
    && (forall x :: x in u.mapInfo ==> u.mapInfo[x].nRefCount == FinalReferences(s, x))
    && |u.vvNew| == NEW_BUCKET_COUNT && (forall b :: 0 <= b < NEW_BUCKET_COUNT ==> u.vvNew[b] == RecordsIn(s, b))
    && TriedFilled(u.vvTried, Records(s), |s.newInfos|, s.nKey)
    && u.nIdCount as int == |Records(s)|
    && u.nNew == |s.newInfos| && u.nTried == |Records(s)| - |s.newInfos|
  }

  lemma {:induction false} UnlistedIn(q: seq<Id>, x: Id, n: nat)
    requires n <= |q| && forall i :: 0 <= i < |q| ==> q[i] != x
    ensures Listings(q, x, n) == 0
  {
    if n > 0 {
      UnlistedIn(q, x, n - 1);
    }
  }

  /** Lists name only new records. */
  lemma {:induction false} Unlisted(s: AddrDat, x: Id, b: nat)
    requires NamesBelow(s, |s.newInfos|) && b <= |s.buckets| && x as int >= |s.newInfos|
    ensures References(s, x, b) == 0 && ListingsBefore(s, x, b) == 0
  {
    if b > 0 {
      Unlisted(s, x, b - 1);
      UnlistedIn(s.buckets[b - 1], x, |s.buckets[b - 1]|);
    }
  }

  lemma HoldsCounted(u0: Tables, u: Tables, recs: seq<Stored>, nNew: nat, refs: Id -> nat)
    requires Holds(u0, recs, nNew) && u == u0.(mapInfo := u.mapInfo, vvNew := u.vvNew) && CountedAs(u0.mapInfo, u.mapInfo, refs)
    ensures Holds(u, recs, nNew)
  {
    hide AddrsOf;
  }

  lemma ListedTables(s: AddrDat, u0: Tables, u: Tables)
    requires WellFormed(s) && SaneNames(s) && !Rebuilds(s) && ListsRead(s, u0, u, NEW_BUCKET_COUNT)
    ensures forall x :: x in u.mapInfo ==> u.mapInfo[x].nRefCount == FinalReferences(s, x)
    ensures forall b :: 0 <= b < NEW_BUCKET_COUNT ==> u.vvNew[b] == RecordsIn(s, b)
  {
    assert |s.buckets| == NEW_BUCKET_COUNT;
    hide References;
    forall x: Id, b: nat | b <= NEW_BUCKET_COUNT && x as int >= |s.newInfos| ensures References(s, x, b) == 0 {
      Unlisted(s, x, b);
    }
    forall b | 0 <= b < NEW_BUCKET_COUNT ensures u.vvNew[b] == RecordsIn(s, b) {
      assert Gained(s, u.vvNew[b], b);
      assert forall x: Id :: x in u.vvNew[b] <==> x in RecordsIn(s, b);
    }
  }

  lemma RebuiltBuckets(s: AddrDat, u: Tables)
    requires WellFormed(s) && Rebuilds(s) && NewLoaded(s, u, |s.newInfos|)
    ensures |u.vvNew| == NEW_BUCKET_COUNT && forall b :: 0 <= b < NEW_BUCKET_COUNT ==> u.vvNew[b] == RecordsIn(s, b)
  {
    hide NewBucket, Holds, WellFormed;
    forall b | 0 <= b < NEW_BUCKET_COUNT ensures u.vvNew[b] == RecordsIn(s, b) {
      assert forall i: Id :: i in u.vvNew[b] <==> i in RecordsIn(s, b);
    }
  }

  lemma RebuiltReferences(s: AddrDat, u: Tables)
    requires WellFormed(s) && Rebuilds(s) && RefsBefore(s, u)
    ensures forall x :: x in u.mapInfo ==> u.mapInfo[x].nRefCount == FinalReferences(s, x)
  {
  }

  lemma TriedParts(s: AddrDat, u0: Tables, u: Tables)
    requires TriedLoaded(s, u0, u, |s.triedInfos|) && NewLoaded(s, u0, |s.newInfos|) && WellFormed(s)
    ensures Holds(u, Records(s), |s.newInfos|) && RefsBefore(s, u) && u.vvNew == u0.vvNew && |u.vvNew| == NEW_BUCKET_COUNT
    ensures TriedFilled(u.vvTried, Records(s), |s.newInfos|, s.nKey) && u.nIdCount as int == |Records(s)|
    ensures u.nNew == |s.newInfos| && u.nTried == |Records(s)| - |s.newInfos|
    ensures !Rebuilds(s) ==>
      && (forall b :: 0 <= b < NEW_BUCKET_COUNT ==> u.vvNew[b] == {})
      && forall x :: x in u.mapInfo ==> u.mapInfo[x].nRefCount == 0
  {
    hide Holds, TriedFilled, Filled, RecordsTo;
    if !Rebuilds(s) {
      forall b | 0 <= b < NEW_BUCKET_COUNT ensures u.vvNew[b] == {} {
        assert forall i: Id :: i !in u0.vvNew[b];
      }
    }
  }

  lemma LoadsTables(s: AddrDat)
    requires WellFormed(s) && SaneNames(s)
    ensures LoadedAs(s, Loaded(s))
  {
    var u0, u := LoadTried(s, |s.triedInfos|), Loaded(s);
    LoadsNew(s, |s.newInfos|);
    LoadsTried(s, |s.triedInfos|);
    TriedParts(s, LoadNew(s, |s.newInfos|), u0);
    if Rebuilds(s) {
      HoldsSize(u0, Records(s), |s.newInfos|);
      IgnoresLists(s, |s.buckets|);
      RebuiltBuckets(s, LoadNew(s, |s.newInfos|));
      RebuiltReferences(s, u0);
      hide *;
      LoadedFromParts(s, u0);
    } else {
      NoListYet(s, u0);
      ReadsLists(s, u0, |s.buckets|);
      ListedTables(s, u0, u);
      HoldsCounted(u0, u, Records(s), |s.newInfos|, (x: Id) => References(s, x, NEW_BUCKET_COUNT));
      hide *;
      LoadedFromParts(s, u);
    }
  }

  lemma LoadedFromParts(s: AddrDat, u: Tables)
    requires WellFormed(s) && Holds(u, Records(s), |s.newInfos|)
    requires forall x :: x in u.mapInfo ==> u.mapInfo[x].nRefCount == FinalReferences(s, x)
    requires |u.vvNew| == NEW_BUCKET_COUNT && (forall b :: 0 <= b < NEW_BUCKET_COUNT ==> u.vvNew[b] == RecordsIn(s, b))
    requires TriedFilled(u.vvTried, Records(s), |s.newInfos|, s.nKey) && u.nIdCount as int == |Records(s)|
    requires u.nNew == |s.newInfos| && u.nTried == |Records(s)| - |s.newInfos|
    ensures LoadedAs(s, u)
  {
    hide Holds, TriedFilled, FinalReferences, WellFormed;
  }

  // ---------------------------------------------------------------- valid exactly when sane

  lemma TimesIff(s: AddrDat, u: Tables)
    requires Holds(u, Records(s), |s.newInfos|) && u.nIdCount as int == |Records(s)|
    ensures RecordsOk(u.nIdCount, u.mapInfo) <==> SaneTimes(s)
  {
    hide Records, AddrsOf;
    if RecordsOk(u.nIdCount, u.mapInfo) {
      forall i | 0 <= i < |Records(s)| ensures Records(s)[i].nLastSuccess >= if i < |s.newInfos| then 0 else 1 {
        assert TimesOk(u.mapInfo[i as Id]);
      }
    }
  }

  lemma RandomHolds(u: Tables, recs: seq<Stored>, nNew: nat)
    requires Holds(u, recs, nNew)
    ensures RandomOk(u.mapInfo, u.vRandom)
  {
    hide AddrsOf;
    forall i | 0 <= i < |u.vRandom| ensures u.vRandom[i] in u.mapInfo && u.mapInfo[u.vRandom[i]].nRandomPos == i {
      assert u.vRandom[i as Id] == i as Id;
    }
  }

  lemma AddressesIff(s: AddrDat, u: Tables)
    requires Holds(u, Records(s), |s.newInfos|)
    ensures AddrOk(u.mapInfo, u.mapAddr) <==> SaneAddresses(s)
  {
    hide Records;
    var recs := Records(s);
    if AddrOk(u.mapInfo, u.mapAddr) {
      forall i, j | 0 <= i < j < |recs| ensures recs[i].addr.ip != recs[j].addr.ip {
        assert u.mapAddr[u.mapInfo[i as Id].addr.ip] == i as Id;
        assert u.mapAddr[u.mapInfo[j as Id].addr.ip] == j as Id;
      }
    }
    if SaneAddresses(s) {
      forall id | id in u.mapInfo ensures u.mapAddr[u.mapInfo[id].addr.ip] == id {
        var at := u.mapAddr[recs[id].addr.ip];
        assert recs[at as int].addr.ip == recs[id as int].addr.ip;
      }
    }
  }

  lemma BucketsIff(s: AddrDat, u: Tables)
    requires WellFormed(s) && LoadedAs(s, u)
    ensures NewOk(u.mapInfo, u.vvNew) <==> SaneBuckets(s)
  {
    hide RecordsIn, TriedFilled, FinalReferences, WellFormed, AddrsOf;
    assert |Records(s)| >= |s.newInfos|;
    hide Records;
    forall b, id | 0 <= b < |u.vvNew| && id in u.vvNew[b] ensures id in u.mapInfo && !u.mapInfo[id].fInTried {
      assert id in RecordsIn(s, b);
    }
    if NewOk(u.mapInfo, u.vvNew) {
      forall b | 0 <= b < NEW_BUCKET_COUNT ensures |RecordsIn(s, b)| <= NEW_BUCKET_SIZE {
        assert u.vvNew[b] == RecordsIn(s, b);
      }
    }
  }

  /** The lists among the first b that give x a reference. */
  function Givers(s: AddrDat, x: Id, b: nat): set<nat>
    requires b <= |s.buckets|
  {
    set c | 0 <= c < b && Gives(s, x, c)
  }

  lemma ReferencesGrow(s: AddrDat, x: Id, b: nat)
    requires b < |s.buckets|
    ensures References(s, x, b + 1) >= References(s, x, b)
  {
  }

  lemma NoReferences(s: AddrDat, x: Id)
    ensures References(s, x, 0) == 0
  {
  }

  /** There are as many givers as references exactly if none gives two. */
  lemma {:induction false} GiversCount(s: AddrDat, x: Id, b: nat)
    requires b <= |s.buckets|
    ensures |Givers(s, x, b)| <= References(s, x, b)
    ensures |Givers(s, x, b)| == References(s, x, b) <==> forall c :: 0 <= c < b ==> !GivesTwo(s, x, c)
  {
    hide References;
    if b == 0 {
      NoReferences(s, x);
    } else {
      GiversCount(s, x, b - 1);
      ReferencesGrow(s, x, b - 1);
      GiversMore(s, x, b);
      hide Givers;
      assert (forall c :: 0 <= c < b ==> !GivesTwo(s, x, c)) <==>
        (forall c :: 0 <= c < b - 1 ==> !GivesTwo(s, x, c)) && !GivesTwo(s, x, b - 1);
    }
  }

  lemma GiversMore(s: AddrDat, x: Id, b: nat)
    requires 0 < b <= |s.buckets|
    ensures |Givers(s, x, b)| == |Givers(s, x, b - 1)| + if Gives(s, x, b - 1) then 1 else 0
  {
    hide Gives;
    var before := Givers(s, x, b - 1);
    assert Givers(s, x, b) == if Gives(s, x, b - 1) then before + {b - 1} else before;
  }

  lemma BucketsOf(s: AddrDat, u: Tables, x: Id)
    requires WellFormed(s) && LoadedAs(s, u)
    ensures x as int >= |s.newInfos| ==> NewBuckets(u.vvNew, x) == {}
    ensures x as int < |s.newInfos| && !Rebuilds(s) ==> NewBuckets(u.vvNew, x) == Givers(s, x, NEW_BUCKET_COUNT)
    ensures x as int < |s.newInfos| && Rebuilds(s) ==> |NewBuckets(u.vvNew, x)| == 1
  {
    hide References, Holds, TriedFilled, FinalReferences, NewBucket;
    forall b | 0 <= b < NEW_BUCKET_COUNT ensures x in u.vvNew[b] <==> x as int < |s.newInfos| && Lies(s, x, b) {
      assert u.vvNew[b] == RecordsIn(s, b);
    }
    if x as int < |s.newInfos| && Rebuilds(s) {
      assert NewBuckets(u.vvNew, x) == {NewBucket(s.nKey, s.newInfos[x].addr.ip, s.newInfos[x].source)};
    }
  }

  lemma RecordRefs(s: AddrDat, u: Tables, x: Id)
    requires WellFormed(s) && LoadedAs(s, u) && x in u.mapInfo
    ensures RefOk(u.mapInfo[x], |NewBuckets(u.vvNew, x)|) <==> x as int >= |s.newInfos| || Rebuilds(s) || ListedWell(s, x)
  {
    BucketsOf(s, u, x);
    LoadedRecord(s, u, x);
    hide LoadedAs, NewBuckets, Givers, References, FinalReferences, Rebuilds;
    if !Rebuilds(s) && x as int < |s.newInfos| {
      GiversCount(s, x, NEW_BUCKET_COUNT);
    }
  }

  lemma LoadedRecord(s: AddrDat, u: Tables, x: Id)
    requires WellFormed(s) && LoadedAs(s, u) && x in u.mapInfo
    ensures u.mapInfo[x].fInTried <==> x as int >= |s.newInfos|
    ensures x as int >= |s.newInfos| ==> u.mapInfo[x].nRefCount == 0
    ensures x as int < |s.newInfos| && Rebuilds(s) ==> u.mapInfo[x].nRefCount == 1
    ensures x as int < |s.newInfos| && !Rebuilds(s) ==>
      u.mapInfo[x].nRefCount == References(s, x, NEW_BUCKET_COUNT) <= NEW_BUCKETS_PER_ADDRESS
  {
    RecordKinds(u, Records(s), |s.newInfos|);
    hide Holds, TriedFilled, RecordsIn, Records, ListingsBefore;
  }

  lemma ListsIff(s: AddrDat, u: Tables)
    requires WellFormed(s) && LoadedAs(s, u)
    ensures RefsOk(u.mapInfo, u.vvNew, None, None) <==> SaneLists(s)
  {
    RefsEach(u.mapInfo, u.vvNew);
    assert |Records(s)| >= |s.newInfos|;
    assert forall x: Id :: x as int < |s.newInfos| ==> x in u.mapInfo;
    forall x | x in u.mapInfo
      ensures RefOk(u.mapInfo[x], |NewBuckets(u.vvNew, x)|) <==> x as int >= |s.newInfos| || Rebuilds(s) || ListedWell(s, x)
    {
      RecordRefs(s, u, x);
    }
    hide LoadedAs, RefOk, RefsOk, ListedWell, WellFormed, NewBuckets;
  }

  lemma TriedHolds(s: AddrDat, u: Tables)
    requires Holds(u, Records(s), |s.newInfos|) && TriedFilled(u.vvTried, Records(s), |s.newInfos|, s.nKey)
    ensures TriedOk(u.mapInfo, u.vvTried, s.nKey)
  {
    hide Records, TriedBucket, AddrsOf;
    forall b, i | 0 <= b < |u.vvTried| && 0 <= i < |u.vvTried[b]|
      ensures u.vvTried[b][i] in u.mapInfo && u.mapInfo[u.vvTried[b][i]].fInTried
      ensures TriedBucket(s.nKey, u.mapInfo[u.vvTried[b][i]].addr) == b
    {
      assert TriedBucketOf(u.vvTried[b], b, Records(s), |s.newInfos|, s.nKey);
      assert u.vvTried[b][i] in u.vvTried[b];
    }
    forall b | 0 <= b < |u.vvTried| ensures Distinct(u.vvTried[b]) && |u.vvTried[b]| <= TRIED_BUCKET_SIZE {
      assert TriedBucketOf(u.vvTried[b], b, Records(s), |s.newInfos|, s.nKey);
    }
  }

  lemma {:induction false} FirstIdsCard(n: nat)
    ensures |FirstIds(n)| == n
  {
    if n > 0 {
      FirstIdsCard(n - 1);
    }
  }

  lemma CountsHold(s: AddrDat, u: Tables)
    requires WellFormed(s) && LoadedAs(s, u)
    ensures CountsOk(u)
  {
    var n, k := |s.newInfos|, |Records(s)|;
    FirstIdsCard(n);
    FirstIdsCard(k);
    RecordKinds(u, Records(s), n);
    hide Records, RecordsIn, TriedFilled, FinalReferences, Holds, FirstIds, WellFormed;
    assert NewIds(u.mapInfo) == FirstIds(n);
    assert TriedIds(u.mapInfo) == FirstIds(k) - FirstIds(n);
    assert FirstIds(n) <= FirstIds(k);
  }

  lemma RecordKinds(u: Tables, recs: seq<Stored>, nNew: nat)
    requires Holds(u, recs, nNew)
    ensures forall i: Id :: i in u.mapInfo <==> i as int < |recs|
    ensures forall i: Id :: i in u.mapInfo ==> (u.mapInfo[i].fInTried <==> i as int >= nNew)
  {
    hide AddrsOf;
  }

  lemma NamedValidIff(s: AddrDat)
    requires WellFormed(s) && SaneNames(s)
    ensures Inv(Loaded(s), s.nKey) <==> SaneTimes(s) && SaneAddresses(s) && SaneBuckets(s) && SaneLists(s)
  {
    var u := Loaded(s);
    LoadsTables(s);
    hide Loaded, Holds, TriedFilled, FinalReferences, RecordsIn, WellFormed, Records, SaneNames,
      RecordsOk, RandomOk, AddrOk, NewOk, RefsOk, TriedOk, CountsOk, SaneTimes, SaneAddresses, SaneBuckets, SaneLists;
    TimesIff(s, u);
    RandomHolds(u, Records(s), |s.newInfos|);
    AddressesIff(s, u);
    BucketsIff(s, u);
    ListsIff(s, u);
    TriedHolds(s, u);
    CountsHold(s, u);
  }

  // ---------------------------------------------------------------- lists that name no new record

  /** Reading lists keeps records but for more references, and adds only blank ones. */
  ghost predicate KeptBy(u0: Tables, u: Tables) {
    && |u.vvNew| == |u0.vvNew|
    && (forall x :: x in u0.mapInfo ==>
          && x in u.mapInfo
          && u.mapInfo[x].fInTried == u0.mapInfo[x].fInTried && u.mapInfo[x].nRefCount >= u0.mapInfo[x].nRefCount)
    && (forall x :: x in u.mapInfo && x !in u0.mapInfo ==> u.mapInfo[x].nRandomPos == -1)
    && (forall x :: x in u.mapInfo ==> u.mapInfo[x].nRefCount >= 0)
  }

  /** The id was looked up, and given a reference if lists count. */
  ghost predicate Named(u: Tables, x: Id, use: bool) {
    x in u.mapInfo && (use ==> u.mapInfo[x].nRefCount >= 1)
  }

  ghost predicate StillNamed(u: Tables, v: Tables, use: bool) {
    forall y :: Named(u, y, use) ==> Named(v, y, use)
  }

  lemma NamesEntry(u0: Tables, u: Tables, b: nat, x: Id, use: bool)
    requires KeptBy(u0, u) && b < |u.vvNew|
    ensures
      var v := ReadIndex(u, b, x, use);
      && KeptBy(u0, v) && Named(v, x, use)
      && StillNamed(u, v, use)
  {
  }

  lemma {:induction false} NamesBucket(s: AddrDat, u0: Tables, u: Tables, b: nat, n: nat)
    requires WellFormed(s) && b < |s.buckets| && n <= |s.buckets[b]| && |u.vvNew| == NEW_BUCKET_COUNT && KeptBy(u0, u)
    requires forall i: Id :: i as int < |s.newInfos| ==> i in u.mapInfo
    ensures
      var v := LoadBucket(s, u, b, n);
      && KeptBy(u0, v)
      && StillNamed(u, v, !Rebuilds(s))
      && forall i :: 0 <= i < n ==> Named(v, s.buckets[b][i], !Rebuilds(s))
  {
    hide KeptBy, Named, ReadIndex;
    if n > 0 {
      NamesBucket(s, u0, u, b, n - 1);
      NamesEntry(u0, LoadBucket(s, u, b, n - 1), b, s.buckets[b][n - 1], !Rebuilds(s));
    }
  }

  lemma {:induction false} NamesLists(s: AddrDat, u0: Tables, k: nat)
    requires WellFormed(s) && k <= |s.buckets| && KeptBy(u0, LoadTried(s, |s.triedInfos|))
    ensures KeptBy(u0, LoadBuckets(s, k))
    ensures forall b, i :: 0 <= b < k && 0 <= i < |s.buckets[b]| ==> Named(LoadBuckets(s, k), s.buckets[b][i], !Rebuilds(s))
  {
    hide KeptBy, Named, LoadBucket, LoadTried;
    if k > 0 {
      NamesLists(s, u0, k - 1);
      NamesBucket(s, u0, LoadBuckets(s, k - 1), k - 1, |s.buckets[k - 1]|);
    }
  }

  /** A list that names anything else leaves a blank record, or a tried one in a new bucket. */
  lemma UnsaneNames(s: AddrDat)
    requires WellFormed(s) && !SaneNames(s)
    ensures !Inv(Loaded(s), s.nKey)
  {
    var u0, u := LoadTried(s, |s.triedInfos|), Loaded(s);
    var n := if Rebuilds(s) then |Records(s)| else |s.newInfos|;
    var b, i :| 0 <= b < |s.buckets| && 0 <= i < |s.buckets[b]| && s.buckets[b][i] as int >= n;
    var x := s.buckets[b][i];
    LoadsNew(s, |s.newInfos|);
    LoadsTried(s, |s.triedInfos|);
    TriedParts(s, LoadNew(s, |s.newInfos|), u0);
    assert KeptBy(u0, u0);
    NamesLists(s, u0, |s.buckets|);
    RecordKinds(u0, Records(s), |s.newInfos|);
    assert Named(u, x, !Rebuilds(s));
    hide LoadTried, LoadBuckets, Records, Holds, TriedFilled, NewLoaded, TriedLoaded;
    NotValid(u0, u, s.nKey, x, !Rebuilds(s));
  }

  lemma NotValid(u0: Tables, u: Tables, key: Key, x: Id, use: bool)
    requires KeptBy(u0, u) && Named(u, x, use)
    requires x !in u0.mapInfo || (use && u0.mapInfo[x].fInTried)
    ensures !Inv(u, key)
  {
    hide RecordsOk, AddrOk, NewOk, TriedOk, CountsOk, NewBuckets;
  }

  /** Reading a file leaves valid tables if and only if the file is sane. */
  lemma LoadedValidIff(s: AddrDat)
    requires WellFormed(s)
    ensures Inv(Loaded(s), s.nKey) <==> Sane(s)
  {
    hide Inv, Loaded, SaneNames, SaneTimes, SaneAddresses, SaneBuckets, SaneLists, WellFormed;
    if SaneNames(s) {
      NamedValidIff(s);
    } else {
      UnsaneNames(s);
    }
  }

  // ---------------------------------------------------------------- an overfull bucket

  const CROWD: nat := NEW_BUCKET_SIZE + 1

  function CrowdedRecord(i: nat): Stored {
    Stored(Service(i as NetAddr, 8333), 0, 0, 0 as NetAddr, 0, 0)
  }

  /** Written for no buckets at all; its 65 records all hash to bucket 0. */
  const CROWDED := AddrDat(
    Key((a: Service) => 0, (ip: NetAddr, source: NetAddr) => 0), CROWD, 0, 0, seq(CROWD, (i: nat) => CrowdedRecord(i)), [], [])

  lemma CrowdedFile(s: AddrDat)
    requires s == CROWDED
    ensures WellFormed(s) && SaneNames(s) && Rebuilds(s) && |s.newInfos| == CROWD && Records(s) == s.newInfos
    ensures forall i :: 0 <= i < CROWD ==> s.newInfos[i] == CrowdedRecord(i)
    ensures forall x: Id :: x as int < CROWD ==> Lies(s, x, 0)
  {
  }

  lemma CrowdedLoads(s: AddrDat)
    requires WellFormed(s) && SaneNames(s) && Rebuilds(s) && |s.newInfos| == CROWD && Records(s) == s.newInfos
    requires forall i :: 0 <= i < CROWD ==> s.newInfos[i] == CrowdedRecord(i)
    requires forall x: Id :: x as int < CROWD ==> Lies(s, x, 0)
    ensures SaneTimes(s) && SaneAddresses(s) && SaneLists(s)
    ensures |Loaded(s).vvNew[0]| == NEW_BUCKET_SIZE + 1 && !Inv(Loaded(s), s.nKey)
  {
    hide WellFormed, Records, Lies, Loaded, Inv, FirstIds;
    LoadsTables(s);
    LoadedValidIff(s);
    FirstIdsCard(CROWD);
    assert RecordsIn(s, 0) == FirstIds(CROWD);
    assert !SaneBuckets(s);
  }

  /** A well-formed file, fine in every other respect, that puts 65 records into one bucket. */
  lemma CrowdedBucket()
    ensures WellFormed(CROWDED) && SaneNames(CROWDED) && SaneTimes(CROWDED) && SaneAddresses(CROWDED) && SaneLists(CROWDED)
    ensures |Loaded(CROWDED).vvNew[0]| == NEW_BUCKET_SIZE + 1 && !Inv(Loaded(CROWDED), CROWDED.nKey)
  {
    hide *;
    CrowdedFile(CROWDED);
    CrowdedLoads(CROWDED);
  }
}
