/** Sequence combinators standing in for LINQ / Mongo `Where`, `Select` and `Skip`/`Limit`. */
module Seqs {

  /** The elements of `s` that `keep` accepts, in their order in `s`. */
  function Filter<T>(s: seq<T>, keep: T -> bool): (r: seq<T>)
    ensures |r| <= |s|
    ensures forall k :: 0 <= k < |r| ==> keep(r[k])
    ensures |r| == |s| <==> forall k :: 0 <= k < |s| ==> keep(s[k])
    decreases |s|
  {
    if s == [] then []
    else
      assert s == [s[0]] + s[1..];
      (if keep(s[0]) then [s[0]] else []) + Filter(s[1..], keep)
  }

  /** An element is in the filtered sequence exactly when it is in `s` and accepted. */
  lemma {:induction false} FilterHas<T>(s: seq<T>, keep: T -> bool, x: T)
    ensures x in Filter(s, keep) <==> x in s && keep(x)
    decreases |s|
  {
    if s != [] {
      FilterHas(s[1..], keep, x);
      assert s == [s[0]] + s[1..];
    }
  }

  /** Filtering only drops elements: the result is a sub-multiset of the input. */
  lemma {:induction false} FilterSubMultiset<T>(s: seq<T>, keep: T -> bool)
    ensures multiset(Filter(s, keep)) <= multiset(s)
    decreases |s|
  {
    if s != [] {
      FilterSubMultiset(s[1..], keep);
      assert s == [s[0]] + s[1..];
    }
  }

  /**
   * `idx` lists, in increasing order, exactly the positions of `s` whose element `keep`
   * accepts, each once.
   */
  ghost predicate AcceptedPositions<T>(s: seq<T>, keep: T -> bool, idx: seq<nat>) {
    && (forall k :: 0 <= k < |idx| ==> idx[k] < |s| && keep(s[idx[k]]))
    && (forall k, l :: 0 <= k < l < |idx| ==> idx[k] < idx[l])
    && (forall j :: 0 <= j < |s| && keep(s[j]) ==> j in idx)
  }

  /** Positions in `s[1..]` moved to the matching positions in `s`. */
  function Shift(idx: seq<nat>): (r: seq<nat>)
    ensures |r| == |idx| && forall k :: 0 <= k < |r| ==> r[k] == idx[k] + 1
  {
    seq(|idx|, k requires 0 <= k < |idx| => idx[k] + 1)
  }

  lemma ShiftIncreasing(tail: seq<nat>)
    requires forall k, l :: 0 <= k < l < |tail| ==> tail[k] < tail[l]
    ensures forall k, l :: 0 <= k < l < |Shift(tail)| ==> Shift(tail)[k] < Shift(tail)[l]
    ensures forall k, l :: 0 <= k < l < |[0] + Shift(tail)| ==> ([0] + Shift(tail))[k] < ([0] + Shift(tail))[l]
  {
    var idx := [0] + Shift(tail);
    forall k, l | 0 <= k < l < |idx| ensures idx[k] < idx[l] {
      assert idx[l] == Shift(tail)[l - 1];
      if k > 0 {
        assert idx[k] == Shift(tail)[k - 1];
      }
    }
  }

  lemma ShiftAccepted<T>(s: seq<T>, keep: T -> bool, tail: seq<nat>)
    requires s != []
    requires forall k :: 0 <= k < |tail| ==> tail[k] < |s[1..]| && keep(s[1..][tail[k]])
    ensures forall k :: 0 <= k < |Shift(tail)| ==> Shift(tail)[k] < |s| && keep(s[Shift(tail)[k]])
  {
    forall k | 0 <= k < |Shift(tail)| ensures Shift(tail)[k] < |s| && keep(s[Shift(tail)[k]]) {
      assert s[Shift(tail)[k]] == s[1..][tail[k]];
    }
  }

  lemma ShiftCovers<T>(s: seq<T>, keep: T -> bool, tail: seq<nat>)
    requires s != []
    requires forall j :: 0 <= j < |s[1..]| && keep(s[1..][j]) ==> j in tail
    ensures forall j :: 1 <= j < |s| && keep(s[j]) ==> j in Shift(tail)
  {
    forall j | 1 <= j < |s| && keep(s[j]) ensures j in Shift(tail) {
      assert s[1..][j - 1] == s[j];
      var k :| 0 <= k < |tail| && tail[k] == j - 1;
      assert Shift(tail)[k] == j;
    }
  }

  lemma KeptAccepted<T>(s: seq<T>, keep: T -> bool, tail: seq<nat>)
    requires s != [] && keep(s[0])
    requires forall k :: 0 <= k < |Shift(tail)| ==> Shift(tail)[k] < |s| && keep(s[Shift(tail)[k]])
    ensures forall k :: 0 <= k < |[0] + Shift(tail)| ==> ([0] + Shift(tail))[k] < |s| && keep(s[([0] + Shift(tail))[k]])
  {
    var idx := [0] + Shift(tail);
    forall k | 0 <= k < |idx| ensures idx[k] < |s| && keep(s[idx[k]]) {
      if k > 0 {
        assert idx[k] == Shift(tail)[k - 1];
      }
    }
  }

  lemma KeptCovers<T>(s: seq<T>, keep: T -> bool, tail: seq<nat>)
    requires s != [] && keep(s[0])
    requires forall j :: 1 <= j < |s| && keep(s[j]) ==> j in Shift(tail)
    ensures forall j :: 0 <= j < |s| && keep(s[j]) ==> j in [0] + Shift(tail)
  {
    var idx := [0] + Shift(tail);
    forall j | 0 <= j < |s| && keep(s[j]) ensures j in idx {
      if j == 0 {
        assert idx[0] == 0;
      } else {
        var k :| 0 <= k < |Shift(tail)| && Shift(tail)[k] == j;
        assert idx[k + 1] == j;
      }
    }
  }

  /** Accepted positions of the tail, shifted, with position 0 when `s[0]` is accepted. */
  lemma KeptPositions<T>(s: seq<T>, keep: T -> bool, tail: seq<nat>)
    requires s != [] && keep(s[0]) && AcceptedPositions(s[1..], keep, tail)
    ensures AcceptedPositions(s, keep, [0] + Shift(tail))
  {
    ShiftIncreasing(tail);
    ShiftAccepted(s, keep, tail);
    ShiftCovers(s, keep, tail);
    KeptAccepted(s, keep, tail);
    KeptCovers(s, keep, tail);
  }

  /** Accepted positions of the tail, shifted, when `s[0]` is not accepted. */
  lemma DroppedPositions<T>(s: seq<T>, keep: T -> bool, tail: seq<nat>)
    requires s != [] && !keep(s[0]) && AcceptedPositions(s[1..], keep, tail)
    ensures AcceptedPositions(s, keep, Shift(tail))
  {
    ShiftIncreasing(tail);
    ShiftAccepted(s, keep, tail);
    ShiftCovers(s, keep, tail);
  }

  /**
   * The filtered sequence is the subsequence of `s` at its accepted positions: every
   * accepted element appears once, in its order in `s`.
   */
  lemma {:induction false} FilterPositions<T>(s: seq<T>, keep: T -> bool) returns (idx: seq<nat>)
    ensures AcceptedPositions(s, keep, idx)
    ensures |idx| == |Filter(s, keep)|
    ensures forall k :: 0 <= k < |idx| ==> Filter(s, keep)[k] == s[idx[k]]
    decreases |s|
  {
    if s == [] {
      idx := [];
    } else {
      var tail := FilterPositions(s[1..], keep);
      if keep(s[0]) {
        KeptPositions(s, keep, tail);
      } else {
        DroppedPositions(s, keep, tail);
      }
      var rest := Filter(s[1..], keep);
      ShiftReads(s, rest, tail);
      if keep(s[0]) {
        idx := [0] + Shift(tail);
        assert Filter(s, keep) == [s[0]] + rest;
      } else {
        idx := Shift(tail);
        assert Filter(s, keep) == rest;
      }
    }
  }

  /** `rest` read off `s[1..]` at `tail` is read off `s` at the shifted positions. */
  lemma ShiftReads<T>(s: seq<T>, rest: seq<T>, tail: seq<nat>)
    requires s != [] && |tail| == |rest|
    requires forall k :: 0 <= k < |tail| ==> tail[k] < |s[1..]| && rest[k] == s[1..][tail[k]]
    ensures forall k :: 0 <= k < |tail| ==> Shift(tail)[k] < |s| && rest[k] == s[Shift(tail)[k]]
    ensures forall k :: 0 <= k < |tail| + 1 ==> ([0] + Shift(tail))[k] < |s| && ([s[0]] + rest)[k] == s[([0] + Shift(tail))[k]]
  {
    forall k | 0 <= k < |tail| ensures Shift(tail)[k] < |s| && rest[k] == s[Shift(tail)[k]] {
      assert s[1..][tail[k]] == s[tail[k] + 1];
    }
    forall k | 0 <= k < |tail| + 1 ensures ([0] + Shift(tail))[k] < |s| && ([s[0]] + rest)[k] == s[([0] + Shift(tail))[k]] {
      if k > 0 {
        assert ([0] + Shift(tail))[k] == Shift(tail)[k - 1];
        assert ([s[0]] + rest)[k] == rest[k - 1];
      }
    }
  }

  /** The image of `s` under `f`, element by element. */
  function Project<T, U>(s: seq<T>, f: T -> U): seq<U> {
    seq(|s|, k requires 0 <= k < |s| => f(s[k]))
  }

  /** Filtering with two predicates that agree on every element gives the same result. */
  lemma {:induction false} FilterAgrees<T>(s: seq<T>, p: T -> bool, q: T -> bool)
    requires forall k :: 0 <= k < |s| ==> p(s[k]) == q(s[k])
    ensures Filter(s, p) == Filter(s, q)
    decreases |s|
  {
    if s != [] {
      FilterAgrees(s[1..], p, q);
    }
  }

  /** Two successive `Where`s select what one `Where` on the conjunction selects. */
  lemma {:induction false} FilterFilter<T>(s: seq<T>, p: T -> bool, q: T -> bool, pq: T -> bool)
    requires forall x :: pq(x) == (p(x) && q(x))
    ensures Filter(Filter(s, p), q) == Filter(s, pq)
    decreases |s|
  {
    if s != [] {
      FilterFilter(s[1..], p, q, pq);
      var rest := Filter(s[1..], p);
      if p(s[0]) {
        assert Filter(s, p) == [s[0]] + rest;
        assert ([s[0]] + rest)[1..] == rest;
        assert Filter([s[0]] + rest, q) == (if q(s[0]) then [s[0]] else []) + Filter(rest, q);
      } else {
        assert Filter(s, p) == rest;
      }
    }
  }

  /** A filter that keeps every element returns the sequence unchanged. */
  lemma {:induction false} FilterKeepsAll<T>(s: seq<T>, keep: T -> bool)
    requires forall k :: 0 <= k < |s| ==> keep(s[k])
    ensures Filter(s, keep) == s
    decreases |s|
  {
    if s != [] {
      FilterKeepsAll(s[1..], keep);
      assert s == [s[0]] + s[1..];
    }
  }
}
