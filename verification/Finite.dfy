/** Counting arguments over finite ranges of integers. */
module Finite {

  /** The integers lo, ..., hi - 1. */
  function Range(lo: int, hi: int): (r: set<int>)
    requires lo <= hi
    ensures forall i :: i in r <==> lo <= i < hi
    ensures |r| == hi - lo
    decreases hi - lo
  {
    if lo == hi then {} else Range(lo, hi - 1) + {hi - 1}
  }

  /** The values of a sequence of integers. */
  function Values(s: seq<int>): set<int> {
    set i | 0 <= i < |s| :: s[i]
  }

  lemma {:induction false} DistinctValues(s: seq<int>)
    requires forall i, j :: 0 <= i < j < |s| ==> s[i] != s[j]
    ensures |Values(s)| == |s|
  {
    if s == [] {
      assert Values(s) == {};
    } else {
      var front, last := s[..|s| - 1], s[|s| - 1];
      DistinctValues(front);
      assert Values(s) == Values(front) + {last} by {
        forall v | v in Values(s) ensures v in Values(front) + {last} {
          var i :| 0 <= i < |s| && s[i] == v;
          assert i < |front| ==> front[i] == v;
        }
        forall v | v in Values(front) ensures v in Values(s) {
          var i :| 0 <= i < |front| && front[i] == v;
          assert s[i] == v;
        }
        assert s[|s| - 1] == last;
      }
    }
  }

  lemma {:induction false} SubsetSize(a: set<int>, b: set<int>)
    requires a <= b
    ensures |a| <= |b|
    ensures |a| == |b| ==> a == b
  {
    if exists x :: x in a {
      var x :| x in a;
      SubsetSize(a - {x}, b - {x});
      assert a == (a - {x}) + {x} && b == (b - {x}) + {x};
    } else {
      assert a == {};
      assert |b| == 0 ==> b == {};
    }
  }

  /** As many distinct values as a range has members cover the range. */
  lemma Pigeonhole(s: seq<int>, lo: int, hi: int, v: int) returns (k: nat)
    requires forall i, j :: 0 <= i < j < |s| ==> s[i] != s[j]
    requires forall i :: 0 <= i < |s| ==> lo <= s[i] < hi
    requires |s| == hi - lo && lo <= v < hi
    ensures k < |s| && s[k] == v
  {
    DistinctValues(s);
    SubsetSize(Values(s), Range(lo, hi));
    assert v in Values(s);
    k :| k < |s| && s[k] == v;
  }
}
