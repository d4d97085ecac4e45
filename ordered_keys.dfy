/**
 * Iteration order of `std::map<Tree::Id, Shape>`: keys are visited in
 * ascending order. Shape identities are modelled as `int`, so the order in
 * which a map of shapes is walked is the ascending sequence of its keys.
 */
module OrderedKeys {

  /** `r` lists its elements in strictly ascending order. */
  ghost predicate Ascending(r: seq<int>) {
    forall i, j :: 0 <= i < j < |r| ==> r[i] < r[j]
  }

  /** Every non-empty finite set of integers has a least element. */
  lemma {:induction false} LeastExists(s: set<int>)
    requires s != {}
    ensures exists m :: m in s && forall j :: j in s ==> m <= j
  {
    assert exists y :: y in s by {
      if forall y :: y !in s { assert false; }
    }
    var x :| x in s;
    if s != {x} {
      var rest := s - {x};
      LeastExists(rest);
      var m :| m in rest && forall j :: j in rest ==> m <= j;
      var least := if x < m then x else m;
      forall j | j in s
        ensures least <= j
      {
        if j != x { assert j in rest; }
      }
    } else {
      assert forall j :: j in s ==> x <= j;
    }
  }

  /** The least key of a non-empty set: the first one a map iterator visits. */
  function Least(s: set<int>): (m: int)
    requires s != {}
    ensures m in s
    ensures forall j :: j in s ==> m <= j
  {
    LeastExists(s);
    var m :| m in s && forall j :: j in s ==> m <= j;
    m
  }

  /** The keys of `s` in the order `std::map` iteration visits them. */
  function SortedKeys(s: set<int>): (r: seq<int>)
    ensures Ascending(r)
    ensures forall x :: x in r <==> x in s
    ensures |r| == |s|
    decreases |s|
  {
    if s == {} then []
    else
      var m := Least(s);
      var rest := SortedKeys(s - {m});
      assert forall i :: 0 <= i < |rest| ==> m < rest[i];
      [m] + rest
  }
}
