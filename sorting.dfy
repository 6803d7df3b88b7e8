/**
 * `Array.prototype.sort` with a comparator, which JavaScript requires to be
 * stable. A comparator `cmp` is described by `le(a, b)`, "`cmp(a, b) <= 0`":
 * `a` may stand before `b`. For a comparator that is a total preorder there is
 * exactly one stable sorted permutation, so the insertion sort below returns
 * what the engine's sort returns.
 */
module Sorting {

  ghost predicate TotalPreorder<T(!new)>(le: (T, T) -> bool) {
    && (forall a, b :: le(a, b) || le(b, a))
    && (forall a, b, c :: le(a, b) && le(b, c) ==> le(a, c))
  }

  ghost predicate Sorted<T>(s: seq<T>, le: (T, T) -> bool) {
    forall i, j :: 0 <= i < j < |s| ==> le(s[i], s[j])
  }

  /** `a` and `b` compare as equal. */
  ghost predicate Equiv<T>(le: (T, T) -> bool, a: T, b: T) {
    le(a, b) && le(b, a)
  }

  /** Inserts `x` after every element that may stand before it. */
  function InsertBy<T>(s: seq<T>, x: T, le: (T, T) -> bool): (r: seq<T>)
    ensures multiset(r) == multiset(s) + multiset{x}
  {
    if s == [] then [x]
    else if le(s[0], x) then
      assert s == [s[0]] + s[1..];
      [s[0]] + InsertBy(s[1..], x, le)
    else [x] + s
  }

  /** `[...s].sort(cmp)`. */
  function SortBy<T>(s: seq<T>, le: (T, T) -> bool): (r: seq<T>)
    ensures multiset(r) == multiset(s)
  {
    if s == [] then []
    else
      assert s == s[..|s| - 1] + [s[|s| - 1]];
      InsertBy(SortBy(s[..|s| - 1], le), s[|s| - 1], le)
  }

  lemma SortByLength<T>(s: seq<T>, le: (T, T) -> bool)
    ensures |SortBy(s, le)| == |s|
  {
    assert |multiset(SortBy(s, le))| == |multiset(s)|;
  }

  lemma {:induction false} InsertBySorted<T(!new)>(s: seq<T>, x: T, le: (T, T) -> bool)
    requires TotalPreorder(le) && Sorted(s, le)
    ensures Sorted(InsertBy(s, x, le), le)
  {
    if s != [] {
      if le(s[0], x) {
        var rest := InsertBy(s[1..], x, le);
        InsertBySorted(s[1..], x, le);
        forall k | 0 <= k < |rest| ensures le(s[0], rest[k]) {
          assert rest[k] in multiset(rest);
          assert rest[k] in multiset(s[1..]) || rest[k] == x;
          if rest[k] != x {
            var m :| 0 <= m < |s[1..]| && s[1..][m] == rest[k];
            assert s[m + 1] == rest[k];
          }
        }
        assert InsertBy(s, x, le) == [s[0]] + rest;
      } else {
        forall k | 0 <= k < |s| ensures le(x, s[k]) {
          assert le(s[0], s[k]) || k == 0;
        }
      }
    }
  }

  /** The result of the sort is ordered by `le`. */
  lemma {:induction false} SortBySorted<T(!new)>(s: seq<T>, le: (T, T) -> bool)
    requires TotalPreorder(le)
    ensures Sorted(SortBy(s, le), le)
  {
    if s != [] {
      SortBySorted(s[..|s| - 1], le);
      InsertBySorted(SortBy(s[..|s| - 1], le), s[|s| - 1], le);
    }
  }

  /** The elements of `s` that compare equal to `t`, in order. */
  ghost function Ties<T>(s: seq<T>, le: (T, T) -> bool, t: T): seq<T> {
    if s == [] then []
    else (if Equiv(le, s[0], t) then [s[0]] else []) + Ties(s[1..], le, t)
  }

  lemma {:induction false} TiesAppend<T>(s: seq<T>, u: seq<T>, le: (T, T) -> bool, t: T)
    ensures Ties(s + u, le, t) == Ties(s, le, t) + Ties(u, le, t)
  {
    if s == [] {
      assert s + u == u;
    } else {
      var h := if Equiv(le, s[0], t) then [s[0]] else [];
      calc {
        Ties(s + u, le, t);
        == { assert (s + u)[0] == s[0] && (s + u)[1..] == s[1..] + u; }
        h + Ties(s[1..] + u, le, t);
        == { TiesAppend(s[1..], u, le, t); }
        h + (Ties(s[1..], le, t) + Ties(u, le, t));
        ==
        (h + Ties(s[1..], le, t)) + Ties(u, le, t);
      }
    }
  }

  lemma TiesSingleton<T>(x: T, le: (T, T) -> bool, t: T)
    ensures Ties([x], le, t) == if Equiv(le, x, t) then [x] else []
  {
    assert [x][1..] == [];
  }

  lemma {:induction false} NoTies<T>(s: seq<T>, le: (T, T) -> bool, t: T)
    requires forall k :: 0 <= k < |s| ==> !Equiv(le, s[k], t)
    ensures Ties(s, le, t) == []
  {
    if s != [] {
      NoTies(s[1..], le, t);
    }
  }

  lemma {:induction false} InsertByStable<T(!new)>(s: seq<T>, x: T, le: (T, T) -> bool, t: T)
    requires TotalPreorder(le) && Sorted(s, le)
    ensures Ties(InsertBy(s, x, le), le, t) == Ties(s, le, t) + Ties([x], le, t)
  {
    TiesSingleton(x, le, t);
    if s == [] {
      assert InsertBy(s, x, le) == [x];
    } else if le(s[0], x) {
      SortedTail(s, le);
      InsertByStable(s[1..], x, le, t);
      InsertAfterHead(s, x, le, t);
    } else {
      assert InsertBy(s, x, le) == [x] + s;
      TiesAppend([x], s, le, t);
      if Equiv(le, x, t) {
        NoTiesAfterGreater(s, x, le, t);
      }
    }
  }

  lemma InsertAfterHead<T>(s: seq<T>, x: T, le: (T, T) -> bool, t: T)
    requires s != [] && le(s[0], x)
    requires Ties(InsertBy(s[1..], x, le), le, t) == Ties(s[1..], le, t) + Ties([x], le, t)
    ensures Ties(InsertBy(s, x, le), le, t) == Ties(s, le, t) + Ties([x], le, t)
  {
    var rest := InsertBy(s[1..], x, le);
    var h := Ties([s[0]], le, t);
    calc {
      Ties(InsertBy(s, x, le), le, t);
      == { assert InsertBy(s, x, le) == [s[0]] + rest; TiesAppend([s[0]], rest, le, t); }
      h + Ties(rest, le, t);
      == // the tail's ties, by the requires
      h + (Ties(s[1..], le, t) + Ties([x], le, t));
      ==
      (h + Ties(s[1..], le, t)) + Ties([x], le, t);
      == { TiesAppend([s[0]], s[1..], le, t); assert [s[0]] + s[1..] == s; }
      Ties(s, le, t) + Ties([x], le, t);
    }
  }

  lemma SortedTail<T>(s: seq<T>, le: (T, T) -> bool)
    requires s != [] && Sorted(s, le)
    ensures Sorted(s[1..], le)
  {
    forall i, j | 0 <= i < j < |s| - 1 ensures le(s[1..][i], s[1..][j]) {
      assert s[1..][i] == s[i + 1] && s[1..][j] == s[j + 1];
    }
  }

  /** When `s[0]` may not stand before `x`, nothing in sorted `s` compares equal to `x`. */
  lemma NoTiesAfterGreater<T(!new)>(s: seq<T>, x: T, le: (T, T) -> bool, t: T)
    requires TotalPreorder(le) && Sorted(s, le)
    requires s != [] && !le(s[0], x) && Equiv(le, x, t)
    ensures Ties(s, le, t) == []
  {
    forall k | 0 <= k < |s| ensures !Equiv(le, s[k], t) {
      assert k == 0 || le(s[0], s[k]);
    }
    NoTies(s, le, t);
  }

  /** The sort is stable: elements that compare equal keep their input order. */
  lemma {:induction false} SortByStable<T(!new)>(s: seq<T>, le: (T, T) -> bool, t: T)
    requires TotalPreorder(le)
    ensures Ties(SortBy(s, le), le, t) == Ties(s, le, t)
  {
    if s != [] {
      var p, x := s[..|s| - 1], s[|s| - 1];
      SortByStable(p, le, t);
      SortBySorted(p, le);
      InsertByStable(SortBy(p, le), x, le, t);
      TiesAppend(p, [x], le, t);
      assert p + [x] == s;
    }
  }
}
