/**
 * Insertion-ordered maps keyed by strings, as both scripts build them with a
 * plain object (`map[key]`, then `Object.values(map)`): the keys in order of
 * first encounter, the elements that share a key in input order, and the
 * first element seen for each key.
 */
module Collect {

  ghost predicate NoDuplicates(s: seq<string>) {
    forall i, j :: 0 <= i < j < |s| ==> s[i] != s[j]
  }

  /** Position of the first occurrence of `x` in `s`. */
  function FirstIndex(s: seq<string>, x: string): (i: nat)
    requires x in s
    ensures i < |s| && s[i] == x
    ensures forall j :: 0 <= j < i ==> s[j] != x
  {
    if s[0] == x then 0 else 1 + FirstIndex(s[1..], x)
  }

  lemma FirstIndexAppend(s: seq<string>, y: string, x: string)
    requires x in s
    ensures FirstIndex(s + [y], x) == FirstIndex(s, x)
  {
    var i, i' := FirstIndex(s, x), FirstIndex(s + [y], x);
    assert (s + [y])[i] == x;
  }

  /** `b` agrees with `a` and then ends with `x`. */
  lemma ExtendedBy<T>(a: seq<T>, b: seq<T>, x: T)
    requires |b| == |a| + 1 && b[|a|] == x
    requires forall j :: 0 <= j < |a| ==> b[j] == a[j]
    ensures b == a + [x]
  {
  }

  /** `b` agrees with `a` except at `j`, where it holds `x`. */
  lemma UpdatedAt<T>(a: seq<T>, b: seq<T>, j: nat, x: T)
    requires |b| == |a| && j < |a| && b[j] == x
    requires forall k :: 0 <= k < |a| && k != j ==> b[k] == a[k]
    ensures b == a[j := x]
  {
  }

  /** An element of `a` has a position in any permutation `b` of `a`. */
  lemma PositionInPermutation<T>(a: seq<T>, b: seq<T>, i: nat) returns (k: nat)
    requires multiset(a) == multiset(b) && i < |a|
    ensures k < |b| && b[k] == a[i]
  {
    assert a[i] in multiset(b);
    k :| 0 <= k < |b| && b[k] == a[i];
  }

  /** The keys of `ks`, each once, in order of first encounter. */
  function Distinct(ks: seq<string>): (r: seq<string>)
    ensures forall k :: k in r <==> k in ks
    ensures NoDuplicates(r)
  {
    if ks == [] then []
    else
      var d, k := Distinct(ks[..|ks| - 1]), ks[|ks| - 1];
      assert ks == ks[..|ks| - 1] + [k];
      if k in d then d else d + [k]
  }

  lemma DistinctAppend(ks: seq<string>, k: string)
    ensures Distinct(ks + [k]) == if k in Distinct(ks) then Distinct(ks) else Distinct(ks) + [k]
  {
    assert (ks + [k])[..|ks|] == ks;
  }

  /** The keys come out in the order in which each was first met. */
  lemma {:induction false} DistinctInFirstEncounterOrder(ks: seq<string>)
    ensures forall i, j :: 0 <= i < j < |Distinct(ks)| ==>
      FirstIndex(ks, Distinct(ks)[i]) < FirstIndex(ks, Distinct(ks)[j])
  {
    if ks != [] {
      var p, k := ks[..|ks| - 1], ks[|ks| - 1];
      assert ks == p + [k];
      DistinctInFirstEncounterOrder(p);
      var d := Distinct(p);
      forall x | x in p ensures FirstIndex(ks, x) == FirstIndex(p, x) {
        FirstIndexAppend(p, k, x);
      }
      if k !in d {
        assert FirstIndex(ks, k) == |p|;
      }
    }
  }

  /** The key of every element, in order. */
  function Keys<T>(s: seq<T>, key: T -> string): seq<string>
  {
    seq(|s|, i requires 0 <= i < |s| => key(s[i]))
  }

  lemma KeysAppend<T>(s: seq<T>, x: T, key: T -> string)
    ensures Keys(s + [x], key) == Keys(s, key) + [key(x)]
  {
  }

  lemma KeyOfMember<T>(s: seq<T>, x: T, key: T -> string)
    requires x in s
    ensures key(x) in Keys(s, key)
  {
    var i :| 0 <= i < |s| && s[i] == x;
    assert Keys(s, key)[i] == key(x);
  }

  /** The elements of `s` whose key is `k`, in input order (`map[k].items`). */
  function Bucket<T(==)>(s: seq<T>, key: T -> string, k: string): (r: seq<T>)
    ensures |r| <= |s|
    ensures forall i :: 0 <= i < |r| ==> r[i] in s && key(r[i]) == k
    ensures forall i :: 0 <= i < |s| && key(s[i]) == k ==> s[i] in r
  {
    if s == [] then []
    else
      var b, x := Bucket(s[..|s| - 1], key, k), s[|s| - 1];
      assert s == s[..|s| - 1] + [x];
      if key(x) == k then b + [x] else b
  }

  lemma BucketAppend<T>(s: seq<T>, x: T, key: T -> string, k: string)
    ensures Bucket(s + [x], key, k) == Bucket(s, key, k) + (if key(x) == k then [x] else [])
  {
    assert (s + [x])[..|s|] == s;
  }

  lemma BucketOfAbsentKey<T>(s: seq<T>, key: T -> string, k: string)
    requires k !in Keys(s, key)
    ensures Bucket(s, key, k) == []
  {
    if Bucket(s, key, k) != [] {
      KeyOfMember(s, Bucket(s, key, k)[0], key);
    }
  }

  /** A key that occurs has a non-empty bucket, headed by its first element. */
  lemma {:induction false} BucketHead<T>(s: seq<T>, key: T -> string, k: string)
    requires k in Keys(s, key)
    ensures Bucket(s, key, k) != []
    ensures Bucket(s, key, k)[0] == s[FirstIndex(Keys(s, key), k)]
  {
    var p, x := s[..|s| - 1], s[|s| - 1];
    assert s == p + [x];
    KeysAppend(p, x, key);
    BucketAppend(p, x, key, k);
    if k in Keys(p, key) {
      BucketHead(p, key, k);
      FirstIndexAppend(Keys(p, key), key(x), k);
    } else {
      BucketOfAbsentKey(p, key, k);
    }
  }

  /** Sum of the bucket sizes of the keys `ks`. */
  ghost function SizeSum<T>(s: seq<T>, key: T -> string, ks: seq<string>): nat {
    if ks == [] then 0
    else SizeSum(s, key, ks[..|ks| - 1]) + |Bucket(s, key, ks[|ks| - 1])|
  }

  lemma {:induction false} SizeSumAppend<T>(s: seq<T>, x: T, key: T -> string, ks: seq<string>)
    requires NoDuplicates(ks)
    ensures SizeSum(s + [x], key, ks) == SizeSum(s, key, ks) + (if key(x) in ks then 1 else 0)
  {
    if ks != [] {
      var q, k := ks[..|ks| - 1], ks[|ks| - 1];
      assert ks == q + [k];
      SizeSumAppend(s, x, key, q);
      BucketAppend(s, x, key, k);
    }
  }

  /** The buckets of the distinct keys hold every element exactly once between them. */
  lemma {:induction false} BucketsCover<T>(s: seq<T>, key: T -> string)
    ensures SizeSum(s, key, Distinct(Keys(s, key))) == |s|
  {
    if s != [] {
      var p, x := s[..|s| - 1], s[|s| - 1];
      assert s == p + [x];
      BucketsCover(p, key);
      KeysAppend(p, x, key);
      DistinctAppend(Keys(p, key), key(x));
      var d := Distinct(Keys(p, key));
      SizeSumAppend(p, x, key, d);
      if key(x) !in d {
        assert Distinct(Keys(s, key)) == d + [key(x)];
        assert (d + [key(x)])[..|d|] == d;
        BucketAppend(p, x, key, key(x));
        BucketOfAbsentKey(p, key, key(x));
      }
    }
  }

  /** `Object.values(map)` where `map[key(x)]` is set only by the first `x`. */
  function FirstPerKey<T>(s: seq<T>, key: T -> string): seq<T> {
    var ks := Keys(s, key);
    var ds := Distinct(ks);
    seq(|ds|, j requires 0 <= j < |ds| => s[FirstIndex(ks, ds[j])])
  }

  /** An entry already in the map keeps its first element. */
  lemma FirstPerKeyAppendKept<T>(s: seq<T>, x: T, key: T -> string, j: nat)
    requires j < |Distinct(Keys(s, key))|
    ensures j < |FirstPerKey(s + [x], key)|
    ensures FirstPerKey(s + [x], key)[j] == FirstPerKey(s, key)[j]
  {
    var ks, ks' := Keys(s, key), Keys(s + [x], key);
    KeysAppend(s, x, key);
    DistinctAppend(ks, key(x));
    var ds, ds' := Distinct(ks), Distinct(ks');
    assert ds'[j] == ds[j];
    FirstIndexAppend(ks, key(x), ds[j]);
    assert FirstPerKey(s + [x], key)[j] == (s + [x])[FirstIndex(ks', ds[j])];
  }

  /** The map grows by one entry, `x` itself, exactly when the key of `x` is new. */
  lemma FirstPerKeyAppendLast<T>(s: seq<T>, x: T, key: T -> string)
    ensures var n := |Distinct(Keys(s, key))|;
      if key(x) in Distinct(Keys(s, key)) then |FirstPerKey(s + [x], key)| == n
      else |FirstPerKey(s + [x], key)| == n + 1 && FirstPerKey(s + [x], key)[n] == x
  {
    var ks, ks' := Keys(s, key), Keys(s + [x], key);
    KeysAppend(s, x, key);
    DistinctAppend(ks, key(x));
    if key(x) !in Distinct(ks) {
      NewKeyFirstAtEnd(ks, key(x));
      assert (s + [x])[|s|] == x;
    }
  }

  /** A key not met before is first met where it is appended. */
  lemma NewKeyFirstAtEnd(ks: seq<string>, k: string)
    requires k !in ks
    ensures FirstIndex(ks + [k], k) == |ks|
  {
    assert (ks + [k])[|ks|] == k;
  }

  lemma FirstPerKeyAppend<T>(s: seq<T>, x: T, key: T -> string)
    ensures FirstPerKey(s + [x], key) ==
      if key(x) in Distinct(Keys(s, key)) then FirstPerKey(s, key) else FirstPerKey(s, key) + [x]
  {
    var r, r' := FirstPerKey(s, key), FirstPerKey(s + [x], key);
    FirstPerKeyAppendLast(s, x, key);
    forall j | 0 <= j < |r| ensures r'[j] == r[j] {
      FirstPerKeyAppendKept(s, x, key, j);
    }
    if key(x) in Distinct(Keys(s, key)) {
      assert r' == r;
    } else {
      assert r' == r + [x];
    }
  }

  /** `s[i]` is the first element of `s` with its key. */
  ghost predicate IsFirstOfKey<T>(s: seq<T>, key: T -> string, i: int)
    requires 0 <= i < |s|
  {
    forall i' :: 0 <= i' < i ==> key(s[i']) != key(s[i])
  }

  /** `x` is the first element of `s` with its key. */
  ghost predicate IsFirstOccurrence<T>(s: seq<T>, key: T -> string, x: T) {
    exists i :: 0 <= i < |s| && s[i] == x && IsFirstOfKey(s, key, i)
  }

  /**
   * One entry per distinct key, in order of first encounter, and each entry is
   * the first element of the input that has its key.
   */
  lemma FirstPerKeySpec<T>(s: seq<T>, key: T -> string)
    ensures Keys(FirstPerKey(s, key), key) == Distinct(Keys(s, key))
    ensures forall j :: 0 <= j < |FirstPerKey(s, key)| ==>
      IsFirstOccurrence(s, key, FirstPerKey(s, key)[j])
  {
    var r, ks := FirstPerKey(s, key), Keys(s, key);
    forall j | 0 <= j < |r| ensures IsFirstOccurrence(s, key, r[j]) {
      var i := FirstIndex(ks, Distinct(ks)[j]);
      assert r[j] == s[i];
      forall i' | 0 <= i' < i ensures key(s[i']) != key(s[i]) {
        assert ks[i'] != ks[i];
      }
      assert IsFirstOfKey(s, key, i);
    }
  }

  /** Index of the first element with key `k`, or `|s|` when there is none (`map[k]`). */
  function IndexOfKey<T>(s: seq<T>, key: T -> string, k: string): (i: nat)
    ensures i <= |s|
    ensures i < |s| ==> key(s[i]) == k
    ensures forall j :: 0 <= j < i ==> key(s[j]) != k
  {
    if s == [] then 0
    else if key(s[0]) == k then 0
    else 1 + IndexOfKey(s[1..], key, k)
  }

  /** The lookup `map[k]` succeeds exactly when some element has key `k`, and finds the first. */
  lemma IndexOfKeyFound<T>(s: seq<T>, key: T -> string, k: string)
    ensures IndexOfKey(s, key, k) < |s| <==> k in Keys(s, key)
    ensures k in Keys(s, key) ==> IndexOfKey(s, key, k) == FirstIndex(Keys(s, key), k)
  {
    var ks := Keys(s, key);
    var n := IndexOfKey(s, key, k);
    if n < |s| {
      assert ks[n] == k;
    }
    if k in ks {
      var i := FirstIndex(ks, k);
      assert ks[i] == key(s[i]) == k;
    }
  }

  lemma TwoPositions<T>(s: seq<T>, i: int, j: int)
    requires 0 <= i < j < |s| && s[i] == s[j]
    ensures multiset(s)[s[i]] >= 2
  {
    assert s == s[..i] + ([s[i]] + (s[i + 1..j] + ([s[j]] + s[j + 1..])));
  }

  lemma OnePosition<T>(s: seq<T>, p: int)
    requires 0 <= p < |s|
    requires forall q :: 0 <= q < |s| && s[q] == s[p] ==> q == p
    ensures multiset(s)[s[p]] == 1
  {
    assert s == s[..p] + [s[p]] + s[p + 1..];
    assert s[p] !in s[..p];
    assert s[p] !in s[p + 1..];
  }

  /** Reordering a sequence keeps its set of keys. */
  lemma PermutationKeepsKeys<T>(a: seq<T>, b: seq<T>, key: T -> string)
    requires multiset(a) == multiset(b)
    ensures forall k :: k in Keys(a, key) <==> k in Keys(b, key)
  {
    forall k | k in Keys(a, key) ensures k in Keys(b, key) {
      var i :| 0 <= i < |a| && Keys(a, key)[i] == k;
      var m := PositionInPermutation(a, b, i);
      assert Keys(b, key)[m] == k;
    }
    forall k | k in Keys(b, key) ensures k in Keys(a, key) {
      var i :| 0 <= i < |b| && Keys(b, key)[i] == k;
      var m := PositionInPermutation(b, a, i);
      assert Keys(a, key)[m] == k;
    }
  }

  /** Reordering a sequence keeps its keys distinct. */
  lemma PermutationKeepsDistinctKeys<T>(a: seq<T>, b: seq<T>, key: T -> string)
    requires multiset(a) == multiset(b) && NoDuplicates(Keys(a, key))
    ensures NoDuplicates(Keys(b, key))
  {
    var ka := Keys(a, key);
    forall i, j | 0 <= i < j < |b| ensures key(b[i]) != key(b[j]) {
      if key(b[i]) == key(b[j]) {
        assert b[i] in multiset(a) && b[j] in multiset(a);
        var p :| 0 <= p < |a| && a[p] == b[i];
        var q :| 0 <= q < |a| && a[q] == b[j];
        assert ka[p] == ka[q];
        forall q' | 0 <= q' < |a| && a[q'] == a[p] ensures q' == p {
          assert ka[q'] == ka[p];
        }
        OnePosition(a, p);
        TwoPositions(b, i, j);
        assert false;
      }
    }
  }

  /** One step of `if (!map[key(x)]) map[key(x)] = x`, with the lookup done on the entries kept so far. */
  lemma FirstPerKeyStep<T>(s: seq<T>, x: T, key: T -> string)
    ensures
      var r := FirstPerKey(s, key);
      FirstPerKey(s + [x], key) == if IndexOfKey(r, key, key(x)) == |r| then r + [x] else r
  {
    FirstPerKeySpec(s, key);
    IndexOfKeyFound(FirstPerKey(s, key), key, key(x));
    FirstPerKeyAppend(s, x, key);
  }
}
