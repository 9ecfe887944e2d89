/**
 * The order in which the document store returns query results that have no
 * orderBy clause: ascending by document id, ids compared by code units.
 */
module QueryOrder {
  import opened JsString

  predicate IsLeast(x: string, s: set<string>) {
    x in s && forall y :: y in s && y != x ==> StrLess(x, y)
  }

  /** Every finite non-empty set of ids has a least one. */
  lemma {:induction false} LeastExists(s: set<string>)
    requires s != {}
    ensures exists x :: IsLeast(x, s)
    decreases |s|
  {
    var x :| x in s;
    if s - {x} == {} {
      assert s == {x};
      assert IsLeast(x, s);
    } else {
      LeastExists(s - {x});
      var m :| IsLeast(m, s - {x});
      if StrLess(x, m) {
        forall y | y in s && y != x ensures StrLess(x, y) {
          if y != m { StrLessTransitive(x, m, y); }
        }
        assert IsLeast(x, s);
      } else {
        StrLessTotal(x, m);
        assert IsLeast(m, s);
      }
    }
  }

  lemma LeastUnique(x: string, y: string, s: set<string>)
    requires IsLeast(x, s) && IsLeast(y, s)
    ensures x == y
  {
    if x != y {
      StrLessAsymmetric(x, y);
    }
  }

  /** The least id of a non-empty set. */
  ghost function Least(s: set<string>): (x: string)
    requires s != {}
    ensures IsLeast(x, s)
  {
    LeastExists(s);
    var x :| IsLeast(x, s);
    x
  }

  predicate StrictlyAscending(xs: seq<string>) {
    forall i, j :: 0 <= i < j < |xs| ==> StrLess(xs[i], xs[j])
  }

  /** The ids of s in query order. */
  ghost function Sorted(s: set<string>): (xs: seq<string>)
    ensures |xs| == |s|
    ensures forall x :: x in xs <==> x in s
    ensures StrictlyAscending(xs)
    decreases |s|
  {
    if s == {} then []
    else
      var m := Least(s);
      var rest := Sorted(s - {m});
      assert forall j :: 0 <= j < |rest| ==> StrLess(m, rest[j]) by {
        forall j | 0 <= j < |rest| ensures StrLess(m, rest[j]) {
          assert rest[j] in s - {m};
        }
      }
      [m] + rest
  }

  /** Taking the least id first leaves the rest in query order. */
  lemma SortedUnfold(s: set<string>, m: string)
    requires IsLeast(m, s)
    ensures Sorted(s) == [m] + Sorted(s - {m})
  {
    LeastUnique(m, Least(s), s);
  }

  /**
   * The loop over a query's results: done are the ids handled so far, left
   * the ones still to come; handling the least of left keeps them in order.
   */
  ghost predicate InQueryOrder(done: seq<string>, left: set<string>, all: set<string>) {
    done + Sorted(left) == Sorted(all)
  }

  lemma QueryOrderStart(all: set<string>)
    ensures InQueryOrder([], all, all)
  {
  }

  lemma QueryOrderStep(done: seq<string>, left: set<string>, all: set<string>, m: string)
    requires InQueryOrder(done, left, all) && IsLeast(m, left)
    ensures InQueryOrder(done + [m], left - {m}, all)
  {
    SortedUnfold(left, m);
    assert done + Sorted(left) == (done + [m]) + Sorted(left - {m});
  }

  lemma QueryOrderEnd(done: seq<string>, all: set<string>)
    requires InQueryOrder(done, {}, all)
    ensures done == Sorted(all)
  {
  }

  /** An ascending sequence has no repeats. */
  lemma AscendingDistinct(xs: seq<string>, i: int, j: int)
    requires StrictlyAscending(xs) && 0 <= i < j < |xs|
    ensures xs[i] != xs[j]
  {
    StrLessIrreflexive(xs[i]);
  }
}
