/**
 * Stable sorting by a comparison, the meaning given here to LINQ's `OrderBy` /
 * `OrderByDescending` and to a Mongo `Sort` stage: the result is a permutation of
 * the input, ordered by the comparison, and elements the comparison ranks equal keep
 * their input order.
 */
module Sorting {
  import opened Seqs

  /** `le` is total (hence reflexive) and transitive. */
  ghost predicate TotalPreorder<T(!new)>(le: (T, T) -> bool) {
    && (forall a, b :: le(a, b) || le(b, a))
    && (forall a, b, c :: le(a, b) && le(b, c) ==> le(a, c))
  }

  /** The reverse comparison: descending order is ascending order of `Flip(le)`. */
  function Flip<T>(le: (T, T) -> bool): (T, T) -> bool {
    (a, b) => le(b, a)
  }

  lemma FlipIsTotalPreorder<T(!new)>(le: (T, T) -> bool)
    requires TotalPreorder(le)
    ensures TotalPreorder(Flip(le))
  {
  }

  predicate SortedBy<T>(s: seq<T>, le: (T, T) -> bool) {
    forall i, j :: 0 <= i < j < |s| ==> le(s[i], s[j])
  }

  /** `a` and `b` are ranked equal. */
  predicate Tied<T>(le: (T, T) -> bool, a: T, b: T) {
    le(a, b) && le(b, a)
  }

  /** The elements of `s` ranked equal to `e`, in their order in `s`. */
  function TiedWith<T>(s: seq<T>, e: T, le: (T, T) -> bool): seq<T>
    decreases |s|
  {
    if s == [] then [] else (if Tied(le, s[0], e) then [s[0]] else []) + TiedWith(s[1..], e, le)
  }

  /** Puts `x` in front of the first element it ranks at or below. */
  function Insert<T>(x: T, s: seq<T>, le: (T, T) -> bool): (r: seq<T>)
    ensures |r| == |s| + 1
    decreases |s|
  {
    if s == [] || le(x, s[0]) then [x] + s
    else
      assert s == [s[0]] + s[1..];
      [s[0]] + Insert(x, s[1..], le)
  }

  /** Insertion sort; the earliest of equally ranked elements ends up first. */
  function StableSort<T>(s: seq<T>, le: (T, T) -> bool): (r: seq<T>)
    ensures |r| == |s|
    decreases |s|
  {
    if s == [] then []
    else
      assert s == [s[0]] + s[1..];
      Insert(s[0], StableSort(s[1..], le), le)
  }

  /** Inserting adds exactly `x`. */
  lemma {:induction false} InsertPermutes<T>(x: T, s: seq<T>, le: (T, T) -> bool)
    ensures multiset(Insert(x, s, le)) == multiset(s) + multiset{x}
    decreases |s|
  {
    if !(s == [] || le(x, s[0])) {
      InsertPermutes(x, s[1..], le);
      assert s == [s[0]] + s[1..];
    }
  }

  /** The sort is a permutation of its input. */
  lemma {:induction false} SortPermutes<T>(s: seq<T>, le: (T, T) -> bool)
    ensures multiset(StableSort(s, le)) == multiset(s)
    decreases |s|
  {
    if s != [] {
      SortPermutes(s[1..], le);
      InsertPermutes(s[0], StableSort(s[1..], le), le);
      assert s == [s[0]] + s[1..];
    }
  }

  lemma {:induction false} InsertSorted<T(!new)>(x: T, s: seq<T>, le: (T, T) -> bool)
    requires TotalPreorder(le) && SortedBy(s, le)
    ensures SortedBy(Insert(x, s, le), le)
    decreases |s|
  {
    if s == [] || le(x, s[0]) {
      var r := [x] + s;
      forall i, j | 0 <= i < j < |r| ensures le(r[i], r[j]) {
        if i == 0 && j > 1 {
          assert le(x, s[0]) && le(s[0], s[j - 1]);
        }
      }
    } else {
      var tail := Insert(x, s[1..], le);
      InsertSorted(x, s[1..], le);
      InsertPermutes(x, s[1..], le);
      assert le(s[0], x);
      forall y | y in tail ensures le(s[0], y) {
        assert y in multiset(tail);
        if y != x {
          assert y in multiset(s[1..]);
          var k :| 0 <= k < |s[1..]| && s[1..][k] == y;
          assert s[k + 1] == y;
        }
      }
      var r := [s[0]] + tail;
      forall i, j | 0 <= i < j < |r| ensures le(r[i], r[j]) {
        if i == 0 {
          assert r[j] == tail[j - 1] && r[j] in tail;
        } else {
          assert r[i] == tail[i - 1] && r[j] == tail[j - 1];
        }
      }
    }
  }

  /** The sort orders its result by `le`. */
  lemma {:induction false} SortSorted<T(!new)>(s: seq<T>, le: (T, T) -> bool)
    requires TotalPreorder(le)
    ensures SortedBy(StableSort(s, le), le)
    decreases |s|
  {
    if s != [] {
      SortSorted(s[1..], le);
      InsertSorted(s[0], StableSort(s[1..], le), le);
    }
  }

  /** Two elements tied with the same `e` rank at or below each other. */
  lemma TiedTogether<T(!new)>(a: T, b: T, e: T, le: (T, T) -> bool)
    requires TotalPreorder(le)
    ensures Tied(le, a, e) && Tied(le, b, e) ==> le(a, b)
  {
    if Tied(le, a, e) && Tied(le, b, e) {
      assert le(a, e) && le(e, b);
    }
  }

  /** One step of `InsertTied` past an element that `x` does not go in front of. */
  lemma InsertTiedStep<T>(x: T, s: seq<T>, e: T, le: (T, T) -> bool)
    requires s != [] && !le(x, s[0])
    requires !(Tied(le, x, e) && Tied(le, s[0], e))
    requires TiedWith(Insert(x, s[1..], le), e, le)
          == (if Tied(le, x, e) then [x] else []) + TiedWith(s[1..], e, le)
    ensures TiedWith(Insert(x, s, le), e, le)
         == (if Tied(le, x, e) then [x] else []) + TiedWith(s, e, le)
  {
    var r := Insert(x, s[1..], le);
    assert ([s[0]] + r)[1..] == r;
  }

  lemma {:induction false} InsertTied<T(!new)>(x: T, s: seq<T>, e: T, le: (T, T) -> bool)
    requires TotalPreorder(le)
    ensures TiedWith(Insert(x, s, le), e, le)
         == (if Tied(le, x, e) then [x] else []) + TiedWith(s, e, le)
    decreases |s|
  {
    if s == [] || le(x, s[0]) {
      assert ([x] + s)[1..] == s;
    } else {
      InsertTied(x, s[1..], e, le);
      TiedTogether(x, s[0], e, le);
      InsertTiedStep(x, s, e, le);
    }
  }

  /** Elements ranked equal keep their input order (LINQ's `OrderBy` is stable). */
  lemma {:induction false} SortStable<T(!new)>(s: seq<T>, e: T, le: (T, T) -> bool)
    requires TotalPreorder(le)
    ensures TiedWith(StableSort(s, le), e, le) == TiedWith(s, e, le)
    decreases |s|
  {
    if s != [] {
      SortStable(s[1..], e, le);
      InsertTied(s[0], StableSort(s[1..], le), e, le);
    }
  }

  lemma {:induction false} InsertProject<T, U>(x: T, s: seq<T>, leT: (T, T) -> bool,
                                               f: T -> U, leU: (U, U) -> bool)
    requires forall a, b :: leT(a, b) == leU(f(a), f(b))
    ensures Insert(f(x), Project(s, f), leU) == Project(Insert(x, s, leT), f)
    decreases |s|
  {
    if s == [] || leT(x, s[0]) {
      assert Project([x] + s, f) == [f(x)] + Project(s, f);
    } else {
      InsertProject(x, s[1..], leT, f, leU);
      assert Project(s, f)[1..] == Project(s[1..], f);
      assert Project([s[0]] + Insert(x, s[1..], leT), f)
          == [f(s[0])] + Project(Insert(x, s[1..], leT), f);
    }
  }

  /**
   * Sorting and then projecting equals projecting and then sorting, when the
   * projection keeps what the comparison looks at.
   */
  lemma {:induction false} SortProject<T, U>(s: seq<T>, leT: (T, T) -> bool,
                                             f: T -> U, leU: (U, U) -> bool)
    requires forall a, b :: leT(a, b) == leU(f(a), f(b))
    ensures StableSort(Project(s, f), leU) == Project(StableSort(s, leT), f)
    decreases |s|
  {
    if s != [] {
      SortProject(s[1..], leT, f, leU);
      assert Project(s, f)[1..] == Project(s[1..], f);
      InsertProject(s[0], StableSort(s[1..], leT), leT, f, leU);
    }
  }

  /** Comparisons that agree on every pair sort every sequence alike. */
  lemma SortAgrees<T>(s: seq<T>, le1: (T, T) -> bool, le2: (T, T) -> bool)
    requires forall a, b :: le1(a, b) == le2(a, b)
    ensures StableSort(s, le1) == StableSort(s, le2)
  {
    var id := (x: T) => x;
    SortProject(s, le1, id, le2);
    assert Project(s, id) == s;
    assert Project(StableSort(s, le1), id) == StableSort(s, le1);
  }
}
