/** The list operations the source takes from lodash and underscore:
    `filter`, `flatten`, `find` (first match) and `sortBy` (a stable sort). */
module Seqs {
  import opened Wrappers

  /** `_.filter`: the elements that satisfy `p`, in their original order. */
  function Filter<T>(s: seq<T>, p: T -> bool): (r: seq<T>)
    ensures |r| <= |s|
    ensures forall i :: 0 <= i < |r| ==> r[i] in s && p(r[i])
    ensures forall i :: 0 <= i < |s| && p(s[i]) ==> s[i] in r
  {
    if s == [] then []
    else (if p(s[0]) then [s[0]] else []) + Filter(s[1..], p)
  }

  /** Filtering a concatenation filters each part: kept elements keep their order. */
  lemma {:induction false} FilterConcat<T>(a: seq<T>, b: seq<T>, p: T -> bool)
    ensures Filter(a + b, p) == Filter(a, p) + Filter(b, p)
  {
    if a == [] {
      assert a + b == b;
    } else {
      assert (a + b)[0] == a[0];
      assert (a + b)[1..] == a[1..] + b;
      FilterConcat(a[1..], b, p);
    }
  }

  /** `r` is `s` with some elements left out, the rest in their order. */
  ghost predicate IsSubsequence<T>(r: seq<T>, s: seq<T>)
    decreases |s|
  {
    if r == [] then true
    else if s == [] then false
    else (r[0] == s[0] && IsSubsequence(r[1..], s[1..])) || IsSubsequence(r, s[1..])
  }

  /** The kept elements are a subsequence of the input: their relative order is kept. */
  lemma {:induction false} FilterIsSubsequence<T>(s: seq<T>, p: T -> bool)
    ensures IsSubsequence(Filter(s, p), s)
  {
    if s != [] {
      FilterIsSubsequence(s[1..], p);
      if p(s[0]) {
        var r := Filter(s, p);
        assert r[0] == s[0] && r[1..] == Filter(s[1..], p);
      } else {
        assert Filter(s, p) == Filter(s[1..], p);
      }
    }
  }

  /** Each passing value is kept as often as it occurs, every other value never. */
  lemma {:induction false} FilterCounts<T>(s: seq<T>, p: T -> bool)
    ensures forall x :: multiset(Filter(s, p))[x] == if p(x) then multiset(s)[x] else 0
  {
    if s != [] {
      FilterCounts(s[1..], p);
      assert s == [s[0]] + s[1..];
      assert Filter(s, p) == (if p(s[0]) then [s[0]] else []) + Filter(s[1..], p);
    }
  }

  /** An element in front is kept in front exactly when it passes. */
  lemma FilterCons<T>(x: T, s: seq<T>, p: T -> bool)
    ensures Filter([x] + s, p) == (if p(x) then [x] else []) + Filter(s, p)
  {
    assert ([x] + s)[1..] == s;
  }

  /** A relation that holds between the elements at any two distinct positions still holds
      after filtering. */
  lemma {:induction false} FilterPairwise<T>(s: seq<T>, p: T -> bool, apart: (T, T) -> bool)
    requires forall i, j :: 0 <= i < |s| && 0 <= j < |s| && i != j ==> apart(s[i], s[j])
    ensures forall i, j :: 0 <= i < |Filter(s, p)| && 0 <= j < |Filter(s, p)| && i != j ==>
              apart(Filter(s, p)[i], Filter(s, p)[j])
  {
    if s != [] {
      var t := s[1..];
      assert forall i :: 0 <= i < |t| ==> t[i] == s[i + 1];
      FilterPairwise(t, p, apart);
      var ft := Filter(t, p);
      if p(s[0]) {
        var r := [s[0]] + ft;
        assert Filter(s, p) == r;
        forall i, j | 0 <= i < |r| && 0 <= j < |r| && i != j
          ensures apart(r[i], r[j])
        {
          if i == 0 || j == 0 {
            var k := if i == 0 then j else i;
            assert r[k] == ft[k - 1] && ft[k - 1] in t;
            var a :| 0 <= a < |t| && t[a] == ft[k - 1];
            assert apart(s[0], s[a + 1]) && apart(s[a + 1], s[0]);
          } else {
            assert r[i] == ft[i - 1] && r[j] == ft[j - 1];
          }
        }
      }
    }
  }

  /** One more element is kept at the end exactly when it passes. */
  lemma FilterSnoc<T>(s: seq<T>, x: T, p: T -> bool)
    ensures Filter(s + [x], p) == Filter(s, p) + (if p(x) then [x] else [])
  {
    FilterConcat(s, [x], p);
    assert [x][1..] == [];
  }

  /** When every element passes, nothing is dropped. */
  lemma {:induction false} FilterAll<T>(s: seq<T>, p: T -> bool)
    requires forall i :: 0 <= i < |s| ==> p(s[i])
    ensures Filter(s, p) == s
  {
    if s != [] {
      FilterAll(s[1..], p);
    }
  }

  /** When no element passes, the result is empty. */
  lemma {:induction false} FilterNone<T>(s: seq<T>, p: T -> bool)
    requires forall i :: 0 <= i < |s| ==> !p(s[i])
    ensures Filter(s, p) == []
  {
    if s != [] {
      FilterNone(s[1..], p);
    }
  }

  /** `_.map`. */
  function Map<T, U>(s: seq<T>, f: T -> U): (r: seq<U>)
    ensures |r| == |s| && forall i :: 0 <= i < |s| ==> r[i] == f(s[i])
  {
    seq(|s|, i requires 0 <= i < |s| => f(s[i]))
  }

  lemma MapConcat<T, U>(a: seq<T>, b: seq<T>, f: T -> U)
    ensures Map(a + b, f) == Map(a, f) + Map(b, f)
  {
  }

  lemma MapCons<T, U>(x: T, s: seq<T>, f: T -> U)
    ensures Map([x] + s, f) == [f(x)] + Map(s, f)
  {
    MapConcat([x], s, f);
  }

  /** A relation that pairs the heads and pairs the tails, position by position, pairs
      the whole sequences. */
  lemma PairedCons<T, U>(s: seq<T>, y: U, ys: seq<U>, paired: (T, U) -> bool)
    requires s != [] && paired(s[0], y) && |ys| == |s| - 1
    requires forall i :: 0 <= i < |ys| ==> paired(s[1..][i], ys[i])
    ensures forall i :: 0 <= i < |s| ==> paired(s[i], ([y] + ys)[i])
  {
    forall i | 1 <= i < |s|
      ensures paired(s[i], ([y] + ys)[i])
    {
      assert s[i] == s[1..][i - 1];
    }
  }

  /** `_.compact` on values that may be missing: the present ones, in order. */
  function Compact<T>(s: seq<Option<T>>): (r: seq<T>)
    ensures |r| <= |s|
    ensures forall i :: 0 <= i < |s| && s[i].Some? ==> s[i].value in r
    ensures forall i :: 0 <= i < |r| ==> Some(r[i]) in s
  {
    if s == [] then []
    else (if s[0].Some? then [s[0].value] else []) + Compact(s[1..])
  }

  lemma {:induction false} CompactConcat<T>(a: seq<Option<T>>, b: seq<Option<T>>)
    ensures Compact(a + b) == Compact(a) + Compact(b)
  {
    if a == [] {
      assert a + b == b;
    } else {
      assert (a + b)[0] == a[0];
      assert (a + b)[1..] == a[1..] + b;
      CompactConcat(a[1..], b);
    }
  }

  /** One more element adds its value at the end when it is present. */
  lemma CompactSnoc<T>(s: seq<Option<T>>, x: Option<T>)
    ensures Compact(s + [x]) == Compact(s) + (if x.Some? then [x.value] else [])
  {
    CompactConcat(s, [x]);
    assert [x][1..] == [];
  }

  /** Nothing is missing from a list of present values. */
  lemma {:induction false} CompactAllPresent<T>(s: seq<T>)
    ensures Compact(Map(s, x => Some(x))) == s
  {
    if s != [] {
      var f := x => Some(x);
      assert Map(s, f) == [Some(s[0])] + Map(s[1..], f);
      CompactAllPresent(s[1..]);
    }
  }

  /** `_.flatten` one level deep: the lists one after the other. */
  function Flatten<T>(ss: seq<seq<T>>): (r: seq<T>)
    ensures forall i, j :: 0 <= i < |ss| && 0 <= j < |ss[i]| ==> ss[i][j] in r
  {
    if ss == [] then []
    else
      var rest := Flatten(ss[1..]);
      assert forall i :: 1 <= i < |ss| ==> ss[i] == ss[1..][i - 1];
      ss[0] + rest
  }

  lemma {:induction false} FlattenConcat<T>(a: seq<seq<T>>, b: seq<seq<T>>)
    ensures Flatten(a + b) == Flatten(a) + Flatten(b)
  {
    if a == [] {
      assert a + b == b;
    } else {
      assert (a + b)[0] == a[0];
      assert (a + b)[1..] == a[1..] + b;
      FlattenConcat(a[1..], b);
    }
  }

  /** A non-empty sequence is its front followed by its last element. */
  lemma LastSplit<T>(s: seq<T>)
    requires s != []
    ensures s == s[..|s| - 1] + [s[|s| - 1]]
  {
  }

  /** The prefix of length `i + 1` is the prefix of length `i` and then element `i`. */
  lemma TakeNext<T>(s: seq<T>, i: nat)
    requires i < |s|
    ensures s[..i + 1] == s[..i] + [s[i]]
  {
  }

  /** One more list in front is put in front as it is. */
  lemma FlattenCons<T>(x: seq<T>, ss: seq<seq<T>>)
    ensures Flatten([x] + ss) == x + Flatten(ss)
  {
    assert ([x] + ss)[0] == x && ([x] + ss)[1..] == ss;
  }

  /** One more list is appended as it is. */
  lemma FlattenSnoc<T>(ss: seq<seq<T>>, x: seq<T>)
    ensures Flatten(ss + [x]) == Flatten(ss) + x
  {
    FlattenConcat(ss, [x]);
    assert [x][1..] == [];
  }

  predicate NonEmpty<U>(l: seq<U>) {
    |l| > 0
  }

  /** Dropping the empty lists before flattening changes nothing. */
  lemma {:induction false} FlattenNonEmpty<T>(ss: seq<seq<T>>)
    ensures Flatten(Filter(ss, NonEmpty)) == Flatten(ss)
  {
    if ss != [] {
      FlattenNonEmpty(ss[1..]);
      assert ss == [ss[0]] + ss[1..];
      FilterCons(ss[0], ss[1..], NonEmpty);
      var kept := Filter(ss[1..], NonEmpty);
      if |ss[0]| > 0 {
        assert ([ss[0]] + kept)[0] == ss[0] && ([ss[0]] + kept)[1..] == kept;
      } else {
        assert ss[0] == [];
        assert Filter(ss, NonEmpty) == kept;
      }
    }
  }

  /** Mapping to lists, dropping the empty ones and flattening: one more element appends
      exactly its own list. */
  lemma ConcatMapSnoc<T, U>(s: seq<T>, x: T, f: T -> seq<U>)
    ensures Flatten(Filter(Map(s + [x], f), NonEmpty)) == Flatten(Filter(Map(s, f), NonEmpty)) + f(x)
  {
    MapConcat(s, [x], f);
    assert Map(s + [x], f) == Map(s, f) + [f(x)];
    FilterSnoc(Map(s, f), f(x), NonEmpty);
    if |f(x)| > 0 {
      FlattenSnoc(Filter(Map(s, f), NonEmpty), f(x));
    } else {
      assert Filter(Map(s, f), NonEmpty) + [] == Filter(Map(s, f), NonEmpty);
      assert f(x) == [];
    }
  }

  /** The first index in `[from, n)` that satisfies `p` (`_.find`, a regular-expression
      search, `String.prototype.indexOf`). */
  function FirstIndex(n: nat, p: nat -> bool, from: nat): (r: Option<nat>)
    requires from <= n
    ensures r.Some? ==> from <= r.value < n && p(r.value)
    ensures r.Some? ==> forall j :: from <= j < r.value ==> !p(j)
    ensures r.None? <==> forall j :: from <= j < n ==> !p(j)
    decreases n - from
  {
    if from == n then None
    else if p(from) then Some(from)
    else FirstIndex(n, p, from + 1)
  }

  /** `key` never decreases from left to right. */
  ghost predicate SortedBy<T>(s: seq<T>, key: T -> int) {
    forall i, j :: 0 <= i < j < |s| ==> key(s[i]) <= key(s[j])
  }

  /** Selects the elements whose key is `k`. */
  function HasKey<T>(key: T -> int, k: int): T -> bool {
    x => key(x) == k
  }

  /** Places `x` before the first element whose key is not smaller, so that `x` stays
      ahead of every element of `s` that has the same key. */
  function InsertBy<T>(x: T, s: seq<T>, key: T -> int): seq<T>
  {
    if s == [] || key(x) <= key(s[0]) then [x] + s
    else [s[0]] + InsertBy(x, s[1..], key)
  }

  /** `_.sortBy`: a stable sort on an integer key. */
  function SortBy<T>(s: seq<T>, key: T -> int): seq<T>
  {
    if s == [] then [] else InsertBy(s[0], SortBy(s[1..], key), key)
  }

  lemma {:induction false} InsertByPermutes<T>(x: T, s: seq<T>, key: T -> int)
    ensures multiset(InsertBy(x, s, key)) == multiset([x] + s)
  {
    if s != [] && key(s[0]) < key(x) {
      InsertByPermutes(x, s[1..], key);
      assert s == [s[0]] + s[1..];
    }
  }

  lemma {:induction false} InsertBySorted<T>(x: T, s: seq<T>, key: T -> int)
    requires SortedBy(s, key)
    ensures SortedBy(InsertBy(x, s, key), key)
  {
    if s != [] && key(s[0]) < key(x) {
      var rest := InsertBy(x, s[1..], key);
      InsertBySorted(x, s[1..], key);
      InsertByPermutes(x, s[1..], key);
      forall i | 0 <= i < |rest|
        ensures key(s[0]) <= key(rest[i])
      {
        assert rest[i] in multiset([x] + s[1..]);
        if rest[i] != x {
          assert rest[i] in s[1..];
        }
      }
      assert InsertBy(x, s, key) == [s[0]] + rest;
      ConsSorted(s[0], rest, key);
    }
  }

  lemma ConsSorted<T>(h: T, s: seq<T>, key: T -> int)
    requires SortedBy(s, key)
    requires forall i :: 0 <= i < |s| ==> key(h) <= key(s[i])
    ensures SortedBy([h] + s, key)
  {
    var r := [h] + s;
    forall i, j | 0 <= i < j < |r|
      ensures key(r[i]) <= key(r[j])
    {
      assert r[j] == s[j - 1];
      if i > 0 {
        assert r[i] == s[i - 1];
      }
    }
  }

  lemma {:induction false} InsertByStable<T>(x: T, s: seq<T>, key: T -> int, k: int)
    ensures Filter(InsertBy(x, s, key), HasKey(key, k)) == Filter([x] + s, HasKey(key, k))
  {
    if s != [] && key(s[0]) < key(x) {
      var p := HasKey(key, k);
      var head, tail := s[0], s[1..];
      var rest := InsertBy(x, tail, key);
      assert InsertBy(x, s, key) == [head] + rest;
      assert s == [head] + tail;
      var keptHead := if p(head) then [head] else [];
      var keptX := if p(x) then [x] else [];
      InsertByStable(x, tail, key, k);
      FilterCons(head, rest, p);
      FilterCons(x, tail, p);
      FilterCons(x, s, p);
      FilterCons(head, tail, p);
      assert Filter(InsertBy(x, s, key), p) == keptHead + (keptX + Filter(tail, p));
      assert Filter([x] + s, p) == keptX + (keptHead + Filter(tail, p));
      assert keptHead == [] || keptX == [];
    }
  }

  /** What `_.sortBy` promises: ordered by key, a permutation of its input, and equal
      keys left in their input order. */
  lemma {:induction false} SortByCorrect<T>(s: seq<T>, key: T -> int)
    ensures SortedBy(SortBy(s, key), key)
    ensures multiset(SortBy(s, key)) == multiset(s)
    ensures forall k :: Filter(SortBy(s, key), HasKey(key, k)) == Filter(s, HasKey(key, k))
  {
    if s != [] {
      var rest := SortBy(s[1..], key);
      SortByCorrect(s[1..], key);
      InsertBySorted(s[0], rest, key);
      InsertByPermutes(s[0], rest, key);
      assert s == [s[0]] + s[1..];
      forall k
        ensures Filter(SortBy(s, key), HasKey(key, k)) == Filter(s, HasKey(key, k))
      {
        var p := HasKey(key, k);
        InsertByStable(s[0], rest, key, k);
        FilterConcat([s[0]], rest, p);
        FilterConcat([s[0]], s[1..], p);
      }
    }
  }
}
