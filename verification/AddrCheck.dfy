/** What Check_ (src/addrman.cpp:434-505) examines, that valid tables pass it, and how large
    valid tables can get. */
module AddrCheck {
  import opened Collections
  import opened AddrTables
  import opened AddrMoves
  import opened AddrFile

  // ---------------------------------------------------------------- size bounds

  function AllIn(vv: seq<set<Id>>): set<Id> {
    if vv == [] then {} else AllIn(vv[..|vv| - 1]) + vv[|vv| - 1]
  }

  lemma {:induction false} UnionBound(vv: seq<set<Id>>, cap: nat)
    requires forall b :: 0 <= b < |vv| ==> |vv[b]| <= cap
    ensures |AllIn(vv)| <= |vv| * cap
  {
    if vv != [] {
      var p := vv[..|vv| - 1];
      UnionBound(p, cap);
      SumCard(AllIn(p), vv[|vv| - 1]);
      assert |vv| * cap == |p| * cap + cap;
    }
  }

  lemma {:induction false} UnionHas(vv: seq<set<Id>>, b: nat, x: Id)
    requires b < |vv| && x in vv[b]
    ensures x in AllIn(vv)
  {
    if b < |vv| - 1 {
      UnionHas(vv[..|vv| - 1], b, x);
    }
  }

  lemma SumCard(a: set<Id>, c: set<Id>)
    ensures |a + c| <= |a| + |c|
  {
    assert a + c == a + (c - a);
    SubCard(c - a, c);
  }

  function MembersOf(vvTried: seq<seq<Id>>): seq<set<Id>> {
    seq(|vvTried|, b requires 0 <= b < |vvTried| => set x | x in vvTried[b])
  }

  /** No table grows beyond its buckets: at most 64 entries a bucket, at most 256 * 64 new
      and 64 * 64 tried addresses. */
  lemma Bounded(t: Tables, key: Key)
    requires Inv(t, key)
    ensures forall b :: 0 <= b < |t.vvNew| ==> |t.vvNew[b]| <= 64
    ensures forall b :: 0 <= b < |t.vvTried| ==> |t.vvTried[b]| <= 64
    ensures t.nNew <= 256 * 64 && t.nTried <= 64 * 64 && |t.mapInfo| == t.nNew + t.nTried <= 256 * 64 + 64 * 64
  {
    NewBounded(t, key);
    TriedBounded(t, key);
    hide RandomOk, AddrOk, RefsOk, RecordsOk, NewOk, TriedOk;
    assert t.mapInfo.Keys == NewIds(t.mapInfo) + TriedIds(t.mapInfo);
    assert NewIds(t.mapInfo) !! TriedIds(t.mapInfo);
  }

  lemma NewBounded(t: Tables, key: Key)
    requires Inv(t, key)
    ensures |NewIds(t.mapInfo)| <= 256 * 64 && forall b :: 0 <= b < |t.vvNew| ==> |t.vvNew[b]| <= 64
  {
    hide RandomOk, AddrOk, RecordsOk, TriedOk, CountsOk;
    UnionBound(t.vvNew, 64);
    forall id | id in NewIds(t.mapInfo) ensures id in AllIn(t.vvNew) {
      assert |NewBuckets(t.vvNew, id)| > 0;
      UnionHas(t.vvNew, Pick(NewBuckets(t.vvNew, id)), id);
    }
    SubCard(NewIds(t.mapInfo), AllIn(t.vvNew));
  }

  lemma TriedBounded(t: Tables, key: Key)
    requires Inv(t, key)
    ensures |TriedIds(t.mapInfo)| <= 64 * 64 && forall b :: 0 <= b < |t.vvTried| ==> |t.vvTried[b]| <= 64
  {
    hide RandomOk, AddrOk, RecordsOk, NewOk, RefsOk, CountsOk, TriedBucket;
    var vv := MembersOf(t.vvTried);
    forall b | 0 <= b < |vv| ensures |vv[b]| <= 64 {
      DistinctCard(t.vvTried[b]);
    }
    UnionBound(vv, 64);
    forall id | id in TriedIds(t.mapInfo) ensures id in AllIn(vv) {
      UnionHas(vv, TriedBucket(key, t.mapInfo[id].addr), id);
    }
    SubCard(TriedIds(t.mapInfo), AllIn(vv));
  }

  // ---------------------------------------------------------------- the consistency check

  /** Reading a std::map with []: a missing address reads as id 0. */
  function Lookup(mapAddr: map<NetAddr, Id>, ip: NetAddr): Id {
    if ip in mapAddr then mapAddr[ip] else 0
  }

  /** Addresses of records that were missing read as id 0 from now on; the others as before. */
  ghost predicate LookedUp(mapInfo: map<Id, Info>, m: map<NetAddr, Id>, m': map<NetAddr, Id>) {
    && (forall ip :: ip in m ==> ip in m' && m'[ip] == m[ip])
    && (forall ip :: ip in m' && ip !in m ==> m'[ip] == 0 && exists id :: id in mapInfo && mapInfo[id].addr.ip == ip)
  }

  lemma LookedUpNone(mapInfo: map<Id, Info>, m: map<NetAddr, Id>)
    ensures LookedUp(mapInfo, m, m)
  {
  }

  lemma LookedUpMore(mapInfo: map<Id, Info>, m: map<NetAddr, Id>, m': map<NetAddr, Id>, m'': map<NetAddr, Id>)
    requires LookedUp(mapInfo, m, m') && LookedUp(mapInfo, m', m'')
    ensures LookedUp(mapInfo, m, m'')
  {
  }

  lemma SameLookups(t: Tables, t': Tables, id: Id)
    requires id in t.mapInfo && LookedUp(t.mapInfo, t.mapAddr, t'.mapAddr) && t' == t.(mapAddr := t'.mapAddr)
    ensures CheckedRecord(t', id) <==> CheckedRecord(t, id)
  {
    assert Lookup(t'.mapAddr, t.mapInfo[id].addr.ip) == Lookup(t.mapAddr, t.mapInfo[id].addr.ip);
  }

  /** What Check_ asks of one record. */
  ghost predicate CheckedRecord(t: Tables, id: Id)
    requires id in t.mapInfo
  {
    var info := t.mapInfo[id];
    && (if info.fInTried then info.nLastSuccess != 0 && info.nRefCount == 0
        else 0 < info.nRefCount <= NEW_BUCKETS_PER_ADDRESS)
    && Lookup(t.mapAddr, info.addr.ip) == id
    && 0 <= info.nRandomPos < |t.vRandom| && t.vRandom[info.nRandomPos] == id
    && info.nLastTry >= 0 && info.nLastSuccess >= 0
  }

  /** All tried entries, bucket after bucket. */
  function Flat(vvTried: seq<seq<Id>>): seq<Id> {
    if vvTried == [] then [] else Flat(vvTried[..|vvTried| - 1]) + vvTried[|vvTried| - 1]
  }

  /** Everything Check_ examines. */
  ghost predicate Checked(t: Tables) {
    && |t.vRandom| == t.nTried + t.nNew
    && (forall id :: id in t.mapInfo ==> CheckedRecord(t, id))
    && CountsOk(t)
    && Distinct(Flat(t.vvTried)) && (forall x :: x in Flat(t.vvTried) <==> x in TriedIds(t.mapInfo))
    && (forall b, x :: 0 <= b < |t.vvNew| && x in t.vvNew[b] ==> x in NewIds(t.mapInfo))
    && (forall id :: id in NewIds(t.mapInfo) ==> |NewBuckets(t.vvNew, id)| == t.mapInfo[id].nRefCount)
  }

  lemma {:induction false} FlatHas(vvTried: seq<seq<Id>>, x: Id)
    ensures x in Flat(vvTried) <==> exists b :: 0 <= b < |vvTried| && x in vvTried[b]
  {
    if vvTried != [] {
      var p := vvTried[..|vvTried| - 1];
      FlatHas(p, x);
      assert forall b :: 0 <= b < |p| ==> p[b] == vvTried[b];
    }
  }

  lemma {:induction false} FlatDistinct(vvTried: seq<seq<Id>>)
    requires forall b :: 0 <= b < |vvTried| ==> Distinct(vvTried[b])
    requires forall b, c, x :: 0 <= b < |vvTried| && 0 <= c < |vvTried| && x in vvTried[b] && x in vvTried[c] ==> b == c
    ensures Distinct(Flat(vvTried))
  {
    if vvTried != [] {
      var p, l := vvTried[..|vvTried| - 1], vvTried[|vvTried| - 1];
      FlatDistinct(p);
      forall x | x in Flat(p) ensures x !in l {
        FlatHas(p, x);
        var b :| 0 <= b < |p| && x in p[b];
        assert x in vvTried[b];
      }
      DistinctSum(Flat(p), l);
    }
  }

  lemma DistinctSum(a: seq<Id>, c: seq<Id>)
    requires forall x :: x in a ==> x !in c
    ensures Distinct(a + c) <==> Distinct(a) && Distinct(c)
  {
    var s := a + c;
    if Distinct(s) {
      assert forall i :: 0 <= i < |a| ==> s[i] == a[i];
      assert forall i :: 0 <= i < |c| ==> s[|a| + i] == c[i];
    }
    if Distinct(a) && Distinct(c) {
      forall i, j | 0 <= i < j < |s| ensures s[i] != s[j] {
        if i < |a| && j >= |a| {
          assert a[i] in a && c[j - |a|] in c;
        }
      }
    }
  }

  lemma InvRecords(t: Tables, key: Key)
    requires Inv(t, key)
    ensures forall id :: id in t.mapInfo ==> CheckedRecord(t, id)
    ensures forall id :: id in NewIds(t.mapInfo) ==> |NewBuckets(t.vvNew, id)| == t.mapInfo[id].nRefCount
  {
    hide TriedOk, NewOk, CountsOk, NewBuckets;
  }

  lemma InvRandomSize(t: Tables, key: Key)
    requires Inv(t, key)
    ensures |t.vRandom| == |t.mapInfo|
  {
    hide TriedOk, NewOk, CountsOk, RefsOk, AddrOk, RecordsOk;
    DistinctCard(t.vRandom);
    assert t.mapInfo.Keys == set x | x in t.vRandom;
  }

  lemma InvTriedFlat(t: Tables, key: Key)
    requires Inv(t, key)
    ensures Distinct(Flat(t.vvTried)) && forall x :: x in Flat(t.vvTried) <==> x in TriedIds(t.mapInfo)
  {
    hide NewOk, CountsOk, RefsOk, AddrOk, RecordsOk, RandomOk, TriedBucket;
    FlatDistinct(t.vvTried);
    forall x ensures x in Flat(t.vvTried) <==> x in TriedIds(t.mapInfo) {
      FlatHas(t.vvTried, x);
    }
  }

  /** Valid tables pass the check. */
  lemma InvChecked(t: Tables, key: Key)
    requires Inv(t, key)
    ensures Checked(t)
  {
    InvRecords(t, key);
    InvRandomSize(t, key);
    InvTriedFlat(t, key);
    Bounded(t, key);
    InvNewBuckets(t, key);
    hide Inv, CountsOk, CheckedRecord, NewBuckets, Distinct, Flat, NewIds, TriedIds;
  }

  lemma InvNewBuckets(t: Tables, key: Key)
    requires Inv(t, key)
    ensures CountsOk(t) && forall b, x :: 0 <= b < |t.vvNew| && x in t.vvNew[b] ==> x in NewIds(t.mapInfo)
    ensures forall id :: id in NewIds(t.mapInfo) ==> |NewBuckets(t.vvNew, id)| == t.mapInfo[id].nRefCount
  {
    hide RecordsOk, RandomOk, AddrOk, TriedOk, CountsOk, NewBuckets;
  }

  // ---------------------------------------------------------------- the steps of the check

  /** The counts that the new ids announce. */
  function RefCounts(m: map<Id, Info>): map<Id, int> {
    map id | id in m && !m[id].fInTried :: m[id].nRefCount
  }

  ghost predicate AllRecords(t: Tables) {
    forall id :: id in t.mapInfo ==> CheckedRecord(t, id)
  }

  function Members(q: seq<Id>): set<Id> {
    set x | x in q
  }

  ghost predicate OnceEach(q: seq<Id>, allowed: set<Id>) {
    Distinct(q) && forall x :: x in q ==> x in allowed
  }

  ghost predicate WithinCounts(vvNew: seq<set<Id>>, mapNew: map<Id, int>) {
    && (forall b, x :: 0 <= b < |vvNew| && x in vvNew[b] ==> x in mapNew)
    && (forall id :: id in mapNew ==> |NewBuckets(vvNew, id)| <= mapNew[id])
  }

  ghost predicate FullCounts(vvNew: seq<set<Id>>, mapNew: map<Id, int>) {
    forall id :: id in mapNew ==> |NewBuckets(vvNew, id)| >= mapNew[id]
  }

  /** The check as the conjunction of the tests Check_ makes one after the other. */
  lemma CheckParts(t: Tables)
    ensures Checked(t) <==>
      && |t.vRandom| == t.nTried + t.nNew && AllRecords(t)
      && |TriedIds(t.mapInfo)| == t.nTried && |RefCounts(t.mapInfo)| == t.nNew
      && OnceEach(Flat(t.vvTried), TriedIds(t.mapInfo)) && WithinCounts(t.vvNew, RefCounts(t.mapInfo))
      && TriedIds(t.mapInfo) - Members(Flat(t.vvTried)) == {} && FullCounts(t.vvNew, RefCounts(t.mapInfo))
  {
    hide CheckedRecord, NewBuckets, Flat, Distinct;
    assert RefCounts(t.mapInfo).Keys == NewIds(t.mapInfo);
    assert |RefCounts(t.mapInfo)| == |RefCounts(t.mapInfo).Keys|;
    var flat, tried := Flat(t.vvTried), TriedIds(t.mapInfo);
    assert (forall x :: x in flat <==> x in tried) <==> (forall x :: x in flat ==> x in tried) && tried - Members(flat) == {};
  }

  /** The first k ids sorted into the tried ones and the counts of the new ones. */
  ghost predicate SortedOut(m: map<Id, Info>, order: seq<Id>, k: nat, setTried: set<Id>, mapNew: map<Id, int>) {
    && k <= |order| && (forall i :: 0 <= i < |order| ==> order[i] in m)
    && (forall x :: x in setTried <==> x in order[..k] && m[x].fInTried)
    && (forall x :: x in mapNew <==> x in order[..k] && !m[x].fInTried)
    && (forall x :: x in mapNew ==> mapNew[x] == m[x].nRefCount)
  }

  lemma SortNone(m: map<Id, Info>, order: seq<Id>)
    requires forall i :: 0 <= i < |order| ==> order[i] in m
    ensures SortedOut(m, order, 0, {}, map[])
  {
  }

  lemma SortNext(m: map<Id, Info>, order: seq<Id>, k: nat, setTried: set<Id>, mapNew: map<Id, int>)
    requires SortedOut(m, order, k, setTried, mapNew) && k < |order|
    ensures order[k] in m
    ensures m[order[k]].fInTried ==> SortedOut(m, order, k + 1, setTried + {order[k]}, mapNew)
    ensures !m[order[k]].fInTried ==> SortedOut(m, order, k + 1, setTried, mapNew[order[k] := m[order[k]].nRefCount])
  {
    assert order[..k + 1] == order[..k] + [order[k]];
  }

  lemma SortedAll(t: Tables, order: seq<Id>, setTried: set<Id>, mapNew: map<Id, int>)
    requires SortedOut(t.mapInfo, order, |order|, setTried, mapNew) && forall x :: x in order <==> x in t.mapInfo
    requires AllRecords(t)
    ensures setTried == TriedIds(t.mapInfo) && mapNew == RefCounts(t.mapInfo)
    ensures forall id :: id in mapNew ==> mapNew[id] > 0
  {
    assert order[..|order|] == order;
    forall id | id in mapNew ensures mapNew[id] > 0 {
      assert CheckedRecord(t, id);
    }
  }

  lemma AllInOrder(t: Tables, order: seq<Id>)
    requires forall x :: x in order <==> x in t.mapInfo
    ensures forall i :: 0 <= i < |order| ==> order[i] in t.mapInfo
    ensures AllRecords(t) <==> forall i :: 0 <= i < |order| ==> CheckedRecord(t, order[i])
  {
    hide CheckedRecord;
    assert forall i :: 0 <= i < |order| ==> order[i] in order;
  }

  lemma NoneUsed(setTried: set<Id>)
    ensures OnceEach(Flat([]), setTried) && setTried == setTried - Members(Flat([]))
  {
  }

  lemma FlatNext(vvTried: seq<seq<Id>>, b: nat)
    requires b < |vvTried|
    ensures Flat(vvTried[..b + 1]) == Flat(vvTried[..b]) + vvTried[b][..|vvTried[b]|]
  {
    assert vvTried[..b + 1][..b] == vvTried[..b];
    assert vvTried[b][..|vvTried[b]|] == vvTried[b];
  }

  lemma {:induction false} FlatPrefix(vvTried: seq<seq<Id>>, b: nat)
    requires b <= |vvTried|
    ensures Flat(vvTried[..b]) <= Flat(vvTried)
    decreases |vvTried|
  {
    if b < |vvTried| {
      var p := vvTried[..|vvTried| - 1];
      FlatPrefix(p, b);
      assert p[..b] == vvTried[..b];
    } else {
      assert vvTried[..b] == vvTried;
    }
  }

  /** An entry that is not left over was used before, or is no tried id. */
  lemma UseNext(vvTried: seq<seq<Id>>, b: nat, i: nat, setTried: set<Id>, left: set<Id>)
    requires b < |vvTried| && i < |vvTried[b]|
    requires OnceEach(Flat(vvTried[..b]) + vvTried[b][..i], setTried)
    requires left == setTried - Members(Flat(vvTried[..b]) + vvTried[b][..i])
    ensures vvTried[b][i] !in left ==> !OnceEach(Flat(vvTried), setTried)
    ensures vvTried[b][i] in left ==> OnceEach(Flat(vvTried[..b]) + vvTried[b][..i + 1], setTried)
    ensures vvTried[b][i] in left ==> left - {vvTried[b][i]} == setTried - Members(Flat(vvTried[..b]) + vvTried[b][..i + 1])
  {
    var seen, x := Flat(vvTried[..b]) + vvTried[b][..i], vvTried[b][i];
    assert Flat(vvTried[..b]) + vvTried[b][..i + 1] == seen + [x];
    if x in left {
      DistinctSum(seen, [x]);
    } else {
      FlatNext(vvTried, b);
      FlatPrefix(vvTried, b + 1);
      assert seen + [x] <= Flat(vvTried[..b + 1]) by {
        assert vvTried[b][..i + 1] <= vvTried[b][..|vvTried[b]|];
      }
      assert Flat(vvTried)[|seen|] == x;
      if x in seen {
        var j :| 0 <= j < |seen| && seen[j] == x;
        assert Flat(vvTried)[j] == x;
      }
    }
  }

  // ---------------------------------------------------------------- counting down references

  /** How often an id was met in the first b buckets and in `seen`, part of the next one. */
  function Met(vvNew: seq<set<Id>>, b: nat, seen: seq<Id>, id: Id): nat
    requires b <= |vvNew|
  {
    |NewBuckets(vvNew[..b], id)| + (if id in seen then 1 else 0)
  }

  ghost predicate CountedDown(mapNew: map<Id, int>, left: map<Id, int>, vvNew: seq<set<Id>>, b: nat, seen: seq<Id>) {
    && b <= |vvNew|
    && (forall c, x :: 0 <= c < b && x in vvNew[c] ==> x in mapNew) && (forall x :: x in seen ==> x in mapNew)
    && (forall id :: id in mapNew ==> Met(vvNew, b, seen, id) <= mapNew[id])
    && (forall id :: id in left <==> id in mapNew && Met(vvNew, b, seen, id) < mapNew[id])
    && (forall id :: id in left ==> left[id] == mapNew[id] - Met(vvNew, b, seen, id))
  }

  lemma CountStart(mapNew: map<Id, int>, vvNew: seq<set<Id>>)
    requires forall id :: id in mapNew ==> mapNew[id] > 0
    ensures CountedDown(mapNew, mapNew, vvNew, 0, [])
  {
    assert forall id :: NewBuckets(vvNew[..0], id) == {};
  }

  lemma BucketsGrow(vvNew: seq<set<Id>>, b: nat, id: Id)
    requires b < |vvNew|
    ensures NewBuckets(vvNew[..b + 1], id) == (if id in vvNew[b] then NewBuckets(vvNew[..b], id) + {b} else NewBuckets(vvNew[..b], id))
    ensures NewBuckets(vvNew[..b + 1], id) <= NewBuckets(vvNew, id) && b !in NewBuckets(vvNew[..b], id)
  {
  }

  lemma CountNext(mapNew: map<Id, int>, left: map<Id, int>, vvNew: seq<set<Id>>, b: nat, order: seq<Id>, i: nat)
    requires b < |vvNew| && i < |order| && Increasing(order) && (forall x :: x in order <==> x in vvNew[b])
    requires CountedDown(mapNew, left, vvNew, b, order[..i])
    ensures order[i] !in left ==> !WithinCounts(vvNew, mapNew)
    ensures order[i] in left ==>
      var l := left[order[i] := left[order[i]] - 1];
      CountedDown(mapNew, if l[order[i]] == 0 then l - {order[i]} else l, vvNew, b, order[..i + 1])
  {
    hide NewBuckets;
    var x := order[i];
    assert x in vvNew[b] && x !in order[..i] && order[..i + 1] == order[..i] + [x];
    if x in left {
      assert forall id :: id in mapNew ==> Met(vvNew, b, order[..i + 1], id) == Met(vvNew, b, order[..i], id) + (if id == x then 1 else 0);
    } else if x in mapNew {
      BucketsGrow(vvNew, b, x);
      SubCard(NewBuckets(vvNew[..b + 1], x), NewBuckets(vvNew, x));
    }
  }

  lemma CountBucket(mapNew: map<Id, int>, left: map<Id, int>, vvNew: seq<set<Id>>, b: nat, order: seq<Id>)
    requires b < |vvNew| && (forall x :: x in order <==> x in vvNew[b])
    requires CountedDown(mapNew, left, vvNew, b, order)
    ensures CountedDown(mapNew, left, vvNew, b + 1, [])
  {
    hide NewBuckets;
    forall id ensures Met(vvNew, b + 1, [], id) == Met(vvNew, b, order, id) {
      BucketsGrow(vvNew, b, id);
    }
  }

  lemma CountEnd(mapNew: map<Id, int>, left: map<Id, int>, vvNew: seq<set<Id>>)
    requires CountedDown(mapNew, left, vvNew, |vvNew|, [])
    ensures WithinCounts(vvNew, mapNew) && (left == map[] <==> FullCounts(vvNew, mapNew))
  {
    hide NewBuckets;
    assert vvNew[..|vvNew|] == vvNew;
    assert left == map[] <==> forall id :: id !in left;
  }
}
