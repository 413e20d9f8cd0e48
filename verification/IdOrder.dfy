/** The members of an ordered set of ids, in the order an iterator lists them. */
module IdOrder {
  import opened Collections
  import opened AddrTables

  lemma {:induction false} LeastExists(s: set<Id>) returns (m: Id)
    requires s != {}
    ensures m in s && forall x :: x in s ==> m <= x
  {
    m := Pick(s);
    var rest := s - {m};
    if rest != {} {
      var l := LeastExists(rest);
      LeastOfBoth(s, m, l);
      m := if m < l then m else l;
    } else {
      assert s == {m};
    }
  }

  lemma LeastOfBoth(s: set<Id>, a: Id, l: Id)
    requires a in s && l in s && forall x :: x in s - {a} ==> l <= x
    ensures forall x :: x in s ==> (if a < l then a else l) <= x
  {
    forall x | x in s ensures (if a < l then a else l) <= x {
      assert x == a || x in s - {a};
    }
  }

  lemma SomeLeast(s: set<Id>)
    requires s != {}
    ensures exists m :: m in s && forall x :: x in s ==> m <= x
  {
    var m := LeastExists(s);
  }

  function Least(s: set<Id>): (m: Id)
    requires s != {}
    ensures m in s && forall x :: x in s ==> m <= x
  {
    SomeLeast(s);
    var m :| m in s && forall x :: x in s ==> m <= x;
    m
  }

  lemma LeastFirst(s: set<Id>, m: Id, q: seq<Id>)
    requires m in s && (forall x :: x in s ==> m <= x) && |q| == |s - {m}| && forall x :: x in q <==> x in s - {m}
    requires forall i, j :: 0 <= i < j < |q| ==> q[i] < q[j]
    ensures |[m] + q| == |s| && forall x :: x in [m] + q <==> x in s
    ensures forall i, j :: 0 <= i < j < |[m] + q| ==> ([m] + q)[i] < ([m] + q)[j]
  {
    forall j | 0 <= j < |q| ensures m < q[j] {
      assert q[j] in q;
    }
  }

  /** The members of a bucket in the order an ordered set lists them. */
  function Ascending(s: set<Id>): (q: seq<Id>)
    ensures |q| == |s|
    ensures forall x :: x in q <==> x in s
    ensures forall i, j :: 0 <= i < j < |q| ==> q[i] < q[j]
  {
    if s == {} then []
    else
      var m := Least(s);
      var q := Ascending(s - {m});
      LeastFirst(s, m, q);
      [m] + q
  }
}
