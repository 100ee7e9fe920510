/** A stable sort by a numeric rank in which "no value" ranks after every
    number. It stands for `Array.prototype.sort`, which is stable, called with
    the two comparators the clients use: `(a, b) => a - b` on numbers, and the
    leaderboard's comparator that puts rows without a best lap last. */
module Sorting {

  datatype Rank = Finite(v: int) | Last

  /** The comparator is negative: `a` goes strictly before `b`. */
  predicate RankLt(a: Rank, b: Rank) {
    a.Finite? && (b.Last? || a.v < b.v)
  }

  function Map<T, U>(s: seq<T>, f: T -> U): (r: seq<U>)
    ensures |r| == |s|
    ensures forall i :: 0 <= i < |s| ==> r[i] == f(s[i])
  {
    if s == [] then [] else [f(s[0])] + Map(s[1..], f)
  }

  /** Inserts `x` before the first element that does not rank strictly below it. */
  function InsertBy<T>(x: T, s: seq<T>, rank: T -> Rank): (r: seq<T>)
    ensures |r| == |s| + 1
    ensures multiset(r) == multiset(s) + multiset{x}
  {
    if s == [] then [x]
    else if RankLt(rank(s[0]), rank(x)) then
      assert s == [s[0]] + s[1..];
      [s[0]] + InsertBy(x, s[1..], rank)
    else [x] + s
  }

  function SortBy<T>(s: seq<T>, rank: T -> Rank): (r: seq<T>)
    ensures |r| == |s|
    ensures multiset(r) == multiset(s)
  {
    if s == [] then []
    else
      assert s == [s[0]] + s[1..];
      InsertBy(s[0], SortBy(s[1..], rank), rank)
  }

  ghost predicate SortedBy<T>(s: seq<T>, rank: T -> Rank) {
    forall i, j :: 0 <= i < j < |s| ==> !RankLt(rank(s[j]), rank(s[i]))
  }

  /** The elements of `s` whose rank is `c`, in their order in `s`. */
  function Filter<T>(s: seq<T>, rank: T -> Rank, c: Rank): (r: seq<T>)
    ensures |r| <= |s|
  {
    if s == [] then [] else (if rank(s[0]) == c then [s[0]] else []) + Filter(s[1..], rank, c)
  }

  lemma {:induction false} InsertSorted<T>(x: T, s: seq<T>, rank: T -> Rank)
    requires SortedBy(s, rank)
    ensures SortedBy(InsertBy(x, s, rank), rank)
    decreases |s|
  {
    if s != [] {
      var r := InsertBy(x, s, rank);
      if RankLt(rank(s[0]), rank(x)) {
        var t := InsertBy(x, s[1..], rank);
        assert SortedBy(s[1..], rank) by {
          forall i, j | 0 <= i < j < |s[1..]| ensures !RankLt(rank(s[1..][j]), rank(s[1..][i])) {
            assert s[1..][j] == s[j + 1] && s[1..][i] == s[i + 1];
          }
        }
        InsertSorted(x, s[1..], rank);
        assert r == [s[0]] + t;
        forall j | 0 < j < |r| ensures !RankLt(rank(r[j]), rank(r[0])) {
          assert r[j] == t[j - 1];
          assert t[j - 1] in multiset(t);
          assert t[j - 1] in multiset(s[1..]) + multiset{x};
          if t[j - 1] != x {
            assert t[j - 1] in s[1..];
            var k :| 0 <= k < |s[1..]| && s[1..][k] == t[j - 1];
            assert s[k + 1] == t[j - 1];
          }
        }
        forall i, j | 0 <= i < j < |r| ensures !RankLt(rank(r[j]), rank(r[i])) {
          if i > 0 {
            assert r[i] == t[i - 1] && r[j] == t[j - 1];
          }
        }
      } else {
        assert r == [x] + s;
        forall i, j | 0 <= i < j < |r| ensures !RankLt(rank(r[j]), rank(r[i])) {
          if i == 0 {
            assert r[j] == s[j - 1];
            assert !RankLt(rank(s[j - 1]), rank(s[0]));
          } else {
            assert r[i] == s[i - 1] && r[j] == s[j - 1];
          }
        }
      }
    }
  }

  /** The sort orders its output by rank. */
  lemma {:induction false} SortIsSorted<T>(s: seq<T>, rank: T -> Rank)
    ensures SortedBy(SortBy(s, rank), rank)
    decreases |s|
  {
    if s != [] {
      SortIsSorted(s[1..], rank);
      InsertSorted(s[0], SortBy(s[1..], rank), rank);
    }
  }

  lemma FilterCons<T>(h: T, t: seq<T>, rank: T -> Rank, c: Rank)
    ensures Filter([h] + t, rank, c) == (if rank(h) == c then [h] else []) + Filter(t, rank, c)
  {
    assert ([h] + t)[1..] == t;
  }

  lemma {:induction false} InsertFilter<T>(x: T, s: seq<T>, rank: T -> Rank, c: Rank)
    ensures Filter(InsertBy(x, s, rank), rank, c)
            == (if rank(x) == c then [x] else []) + Filter(s, rank, c)
    decreases |s|
  {
    if s == [] {
      FilterCons(x, s, rank, c);
    } else if RankLt(rank(s[0]), rank(x)) {
      InsertFilter(x, s[1..], rank, c);
      var t := InsertBy(x, s[1..], rank);
      assert InsertBy(x, s, rank) == [s[0]] + t;
      assert s == [s[0]] + s[1..];
      FilterCons(s[0], t, rank, c);
      FilterCons(s[0], s[1..], rank, c);
      var rest := Filter(s[1..], rank, c);
      if rank(x) == c {
        assert rank(s[0]) != c;
        assert Filter(t, rank, c) == [x] + rest;
        assert Filter(s, rank, c) == rest;
      } else {
        assert Filter(t, rank, c) == rest;
      }
    } else {
      assert InsertBy(x, s, rank) == [x] + s;
      FilterCons(x, s, rank, c);
    }
  }

  /** The sort is stable: elements of equal rank keep their relative order. */
  lemma {:induction false} SortIsStable<T>(s: seq<T>, rank: T -> Rank, c: Rank)
    ensures Filter(SortBy(s, rank), rank, c) == Filter(s, rank, c)
    decreases |s|
  {
    if s != [] {
      SortIsStable(s[1..], rank, c);
      InsertFilter(s[0], SortBy(s[1..], rank), rank, c);
    }
  }

  /** Sorting the images of `s` is sorting `s` by the composed rank `g`. */
  lemma {:induction false} InsertMap<T, U>(x: T, s: seq<T>, f: T -> U, rank: U -> Rank, g: T -> Rank)
    requires forall t :: g(t) == rank(f(t))
    ensures InsertBy(f(x), Map(s, f), rank) == Map(InsertBy(x, s, g), f)
    decreases |s|
  {
    if s != [] {
      InsertMap(x, s[1..], f, rank, g);
      assert Map(s, f)[1..] == Map(s[1..], f);
    }
  }

  lemma {:induction false} SortMap<T, U>(s: seq<T>, f: T -> U, rank: U -> Rank, g: T -> Rank)
    requires forall t :: g(t) == rank(f(t))
    ensures SortBy(Map(s, f), rank) == Map(SortBy(s, g), f)
    decreases |s|
  {
    if s != [] {
      SortMap(s[1..], f, rank, g);
      assert Map(s, f)[1..] == Map(s[1..], f);
      InsertMap(s[0], SortBy(s[1..], g), f, rank, g);
    }
  }

  /** In a sorted sequence every element with a number comes before every
      element without one. */
  lemma LastRanksAtTheEnd<T>(s: seq<T>, rank: T -> Rank, i: int, j: int)
    requires SortedBy(s, rank)
    requires 0 <= i < j < |s| && rank(s[i]) == Last
    ensures rank(s[j]) == Last
  {
    assert !RankLt(rank(s[j]), rank(s[i]));
  }
}
