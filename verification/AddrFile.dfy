/** The address file (src/addrman.h:258-390): what the serializer writes, what the
    unserializer rebuilds, and why reading back what was written gives the same tables up to
    a renaming of the ids. */
module AddrFile {
  import opened Collections
  import opened AddrTables
  import opened AddrMoves
  import opened IdOrder

  /** The part of a record that is written. */
  datatype Stored = Stored(
    addr: Service, nServices: bv64, nTime: nat, source: NetAddr, nLastSuccess: int, nAttempts: int)

  datatype AddrDat = AddrDat(
    nKey: Key, nNew: int, nTried: int, nUBuckets: int,
    newInfos: seq<Stored>, triedInfos: seq<Stored>, buckets: seq<seq<Id>>)

  function StoredOf(info: Info): Stored {
    Stored(info.addr, info.nServices, info.nTime, info.source, info.nLastSuccess, info.nAttempts)
  }

  /** A record read back: the memory-only fields start over. */
  function Restored(x: Stored): Info {
    Info(x.addr, x.nServices, x.nTime, 0, x.source, x.nLastSuccess, x.nAttempts, 0, false, -1)
  }

  // ---------------------------------------------------------------- writing

  predicate Picks(info: Info, tried: bool) {
    if tried then info.fInTried else info.nRefCount != 0
  }

  /** The ids among the first k whose records are written to the new (or the tried) list. */
  function Chosen(m: map<Id, Info>, order: seq<Id>, tried: bool, k: nat): (q: seq<Id>)
    requires k <= |order| && forall i :: 0 <= i < |order| ==> order[i] in m
    ensures |q| <= k
    ensures forall x :: x in q <==> x in order[..k] && x in m && Picks(m[x], tried)
  {
    if k == 0 then []
    else
      assert order[..k] == order[..k - 1] + [order[k - 1]];
      var q := Chosen(m, order, tried, k - 1);
      if Picks(m[order[k - 1]], tried) then q + [order[k - 1]] else q
  }

  function StoreAll(m: map<Id, Info>, ids: seq<Id>): (q: seq<Stored>)
    requires forall x :: x in ids ==> x in m
    ensures |q| == |ids| && forall i :: 0 <= i < |q| ==> q[i] == StoredOf(m[ids[i]])
  {
    seq(|ids|, i requires 0 <= i < |ids| => StoredOf(m[ids[i]]))
  }

  lemma {:induction false} DistinctCard(q: seq<Id>)
    requires Distinct(q)
    ensures |set x | x in q| == |q|
  {
    if q != [] {
      var p, l := q[..|q| - 1], q[|q| - 1];
      DistinctCard(p);
      assert l !in p;
      assert (set x | x in q) == (set x | x in p) + {l};
    }
  }

  ghost predicate Increasing(ids: seq<Id>) {
    forall i, j :: 0 <= i < j < |ids| ==> ids[i] < ids[j]
  }

  lemma {:induction false} ChosenIncreasing(m: map<Id, Info>, order: seq<Id>, tried: bool, k: nat)
    requires k <= |order| && (forall i :: 0 <= i < |order| ==> order[i] in m) && Increasing(order)
    ensures Increasing(Chosen(m, order, tried, k))
  {
    if k > 0 {
      ChosenIncreasing(m, order, tried, k - 1);
      var q := Chosen(m, order, tried, k - 1);
      forall i | 0 <= i < |q| ensures q[i] < order[k - 1] {
        assert q[i] in order[..k - 1];
      }
    }
  }

  lemma PrefixOfPrefix(a: seq<Id>, b: seq<Id>, c: seq<Id>)
    requires a <= b <= c
    ensures a <= c
  {
  }

  lemma ChosenOneMore(m: map<Id, Info>, order: seq<Id>, tried: bool, k: nat)
    requires k < |order| && forall i :: 0 <= i < |order| ==> order[i] in m
    ensures Chosen(m, order, tried, k) <= Chosen(m, order, tried, k + 1)
  {
    hide Picks;
  }

  lemma {:induction false} ChosenPrefix(m: map<Id, Info>, order: seq<Id>, tried: bool, k: nat, n: nat)
    requires k <= n <= |order| && forall i :: 0 <= i < |order| ==> order[i] in m
    ensures Chosen(m, order, tried, k) <= Chosen(m, order, tried, n)
  {
    hide *;
    if k < n {
      ChosenPrefix(m, order, tried, k, n - 1);
      ChosenOneMore(m, order, tried, n - 1);
      PrefixOfPrefix(Chosen(m, order, tried, k), Chosen(m, order, tried, n - 1), Chosen(m, order, tried, n));
    }
  }

  /** Once as many are chosen as there are, the rest of the list adds none. */
  lemma ChosenAll(m: map<Id, Info>, order: seq<Id>, tried: bool, k: nat, wanted: set<Id>)
    requires k <= |order| && (forall i :: 0 <= i < |order| ==> order[i] in m) && Increasing(order)
    requires (forall x :: x in wanted <==> x in m && Picks(m[x], tried)) && |Chosen(m, order, tried, k)| == |wanted|
    ensures Chosen(m, order, tried, |order|) == Chosen(m, order, tried, k)
  {
    ChosenIncreasing(m, order, tried, |order|);
    ChosenPrefix(m, order, tried, k, |order|);
    var all := Chosen(m, order, tried, |order|);
    DistinctCard(all);
    assert (set x | x in all) <= wanted;
    SubCard((set x | x in all), wanted);
  }

  lemma {:induction false} SubCard<A>(a: set<A>, c: set<A>)
    requires a <= c
    ensures |a| <= |c|
    decreases |a|
  {
    if a != {} {
      var x := Pick(a);
      SubCard(a - {x}, c - {x});
    }
  }

  /** The file of the tables: the records of the new ids, then those of the tried ids, both
      in increasing order of id, and for each new bucket the positions of its members. */
  ghost predicate Writes(t: Tables, key: Key, s: AddrDat, newIds: seq<Id>, triedIds: seq<Id>) {
    && Increasing(newIds) && (forall x :: x in newIds <==> x in NewIds(t.mapInfo))
    && Increasing(triedIds) && (forall x :: x in triedIds <==> x in TriedIds(t.mapInfo))
    && s.nKey == key && s.nNew == t.nNew == |newIds| && s.nTried == t.nTried == |triedIds|
    && s.newInfos == StoreAll(t.mapInfo, newIds) && s.triedInfos == StoreAll(t.mapInfo, triedIds)
    && s.nUBuckets == NEW_BUCKET_COUNT == |s.buckets| == |t.vvNew|
    && forall b :: 0 <= b < |s.buckets| ==> WritesBucket(t.vvNew[b], newIds, s.buckets[b])
  }

  /** The positions, among the written ids, of the members of a bucket in increasing order. */
  ghost predicate WritesBucket(bucket: set<Id>, newIds: seq<Id>, q: seq<Id>) {
    && |q| == |bucket| && (forall i :: 0 <= i < |q| ==> q[i] as int < |newIds| && newIds[q[i]] in bucket)
    && Increasing(q)
    && forall x :: x in bucket ==> exists i :: 0 <= i < |q| && q[i] as int < |newIds| && newIds[q[i]] == x
  }

  // ---------------------------------------------------------------- reading

  /** A file whose lists have the announced lengths, and no more lists than there are buckets. */
  predicate WellFormed(s: AddrDat) {
    && s.nNew == |s.newInfos| && s.nTried == |s.triedInfos|
    && s.nUBuckets == |s.buckets| && |s.buckets| <= NEW_BUCKET_COUNT
  }

  /** The listed indices are positions below n. */
  predicate NamesBelow(s: AddrDat, n: nat) {
    forall b, i :: 0 <= b < |s.buckets| && 0 <= i < |s.buckets[b]| ==> s.buckets[b][i] as int < n
  }

  /** The record that looking up an unknown id adds to mapInfo. */
  const BLANK := Info(Service(0, 0), 1, 100_000_000, 0, 0, 0, 0, 0, false, -1)

  function Empty(s: AddrDat): Tables {
    Tables(0, map[], map[], [], s.nTried, seq(TRIED_BUCKET_COUNT, _ => []), s.nNew, seq(NEW_BUCKET_COUNT, _ => {}))
  }

  /** One record of the new list; with another bucket count it goes to its own new bucket. */
  function ReadNew(u: Tables, key: Key, x: Stored, n: Id, rebuild: bool): (v: Tables)
    requires |u.vvNew| == NEW_BUCKET_COUNT
    ensures |v.vvNew| == NEW_BUCKET_COUNT && v.vvTried == u.vvTried
  {
    var info := Restored(x).(nRandomPos := |u.vRandom|, nRefCount := if rebuild then 1 else 0);
    u.(mapInfo := u.mapInfo[n := info], mapAddr := u.mapAddr[x.addr.ip := n], vRandom := u.vRandom + [n],
       vvNew := if rebuild then PutNew(u.vvNew, NewBucket(key, x.addr.ip, x.source), n) else u.vvNew)
  }

  function LoadNew(s: AddrDat, k: nat): (u: Tables)
    requires k <= |s.newInfos|
    ensures |u.vvNew| == NEW_BUCKET_COUNT && |u.vvTried| == TRIED_BUCKET_COUNT
    ensures forall i: Id :: i in u.mapInfo <==> i as int < k
  {
    if k == 0 then Empty(s)
    else ReadNew(LoadNew(s, k - 1), s.nKey, s.newInfos[k - 1], (k - 1) as Id, s.nUBuckets != NEW_BUCKET_COUNT)
  }

  /** One record of the tried list, lost if its bucket is full. */
  function ReadTried(u: Tables, key: Key, x: Stored): (v: Tables)
    requires |u.vvTried| == TRIED_BUCKET_COUNT
    ensures |v.vvTried| == TRIED_BUCKET_COUNT && v.vvNew == u.vvNew
    ensures forall i :: i in u.mapInfo ==> i in v.mapInfo
  {
    var b := TriedBucket(key, x.addr);
    if |u.vvTried[b]| < TRIED_BUCKET_SIZE then
      u.(vRandom := u.vRandom + [u.nIdCount],
         mapInfo := u.mapInfo[u.nIdCount := Restored(x).(nRandomPos := |u.vRandom|, fInTried := true)],
         mapAddr := u.mapAddr[x.addr.ip := u.nIdCount],
         vvTried := u.vvTried[b := u.vvTried[b] + [u.nIdCount]],
         nIdCount := u.nIdCount + 1)
    else u.(nTried := u.nTried - 1)
  }

  function LoadTried(s: AddrDat, k: nat): (u: Tables)
    requires k <= |s.triedInfos|
    ensures |u.vvNew| == NEW_BUCKET_COUNT && |u.vvTried| == TRIED_BUCKET_COUNT
    ensures forall i: Id :: i as int < |s.newInfos| ==> i in u.mapInfo
  {
    if k == 0 then LoadNew(s, |s.newInfos|).(nIdCount := |s.newInfos| as Id)
    else ReadTried(LoadTried(s, k - 1), s.nKey, s.triedInfos[k - 1])
  }

  /** Looking up an id adds a blank record if there is none. */
  function LookUp(u: Tables, x: Id): (v: Tables)
    ensures x in v.mapInfo && v.vvNew == u.vvNew
  {
    if x in u.mapInfo then u else u.(mapInfo := u.mapInfo[x := BLANK])
  }

  /** One index of a bucket list: a reference, unless the record has the most already. */
  function ReadIndex(u: Tables, b: nat, x: Id, use: bool): (v: Tables)
    requires b < |u.vvNew|
    ensures |v.vvNew| == |u.vvNew|
    ensures forall i :: i in u.mapInfo ==> i in v.mapInfo
  {
    var w := LookUp(u, x);
    if use && w.mapInfo[x].nRefCount < NEW_BUCKETS_PER_ADDRESS
    then SetRefCount(w, x, w.mapInfo[x].nRefCount + 1).(vvNew := PutNew(w.vvNew, b, x)) else w
  }

  function LoadBucket(s: AddrDat, u: Tables, b: nat, n: nat): (v: Tables)
    requires WellFormed(s) && b < |s.buckets| && n <= |s.buckets[b]| && |u.vvNew| == NEW_BUCKET_COUNT
    requires forall i: Id :: i as int < |s.newInfos| ==> i in u.mapInfo
    ensures |v.vvNew| == NEW_BUCKET_COUNT && forall i: Id :: i as int < |s.newInfos| ==> i in v.mapInfo
  {
    if n == 0 then u
    else ReadIndex(LoadBucket(s, u, b, n - 1), b, s.buckets[b][n - 1], s.nUBuckets == NEW_BUCKET_COUNT)
  }

  /** The tables after k bucket lists. */
  function LoadBuckets(s: AddrDat, k: nat): (u: Tables)
    requires WellFormed(s) && k <= |s.buckets|
    ensures |u.vvNew| == NEW_BUCKET_COUNT && forall i: Id :: i as int < |s.newInfos| ==> i in u.mapInfo
  {
    if k == 0 then LoadTried(s, |s.triedInfos|)
    else LoadBucket(s, LoadBuckets(s, k - 1), k - 1, |s.buckets[k - 1]|)
  }

  /** What reading the file leaves in the tables. */
  function Loaded(s: AddrDat): Tables
    requires WellFormed(s)
  {
    LoadBuckets(s, |s.buckets|)
  }
}
