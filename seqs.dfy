/** Sequence combinators that mirror the JavaScript array methods the
    application uses on its persisted collections: `filter`, `findIndex`
    and an id-keyed `map`. */
module Seqs {

  /** `r` is `s` with some elements left out and the rest kept in order. */
  ghost predicate IsSubseq<T>(r: seq<T>, s: seq<T>)
    decreases |s|
  {
    r == [] || (s != [] && ((r[0] == s[0] && IsSubseq(r[1..], s[1..])) || IsSubseq(r, s[1..])))
  }

  /** `Array.prototype.filter`: the elements satisfying `p`, in order. */
  function Filter<T>(s: seq<T>, p: T -> bool): (r: seq<T>)
    ensures |r| <= |s|
    ensures forall i :: 0 <= i < |r| ==> p(r[i])
  {
    if s == [] then []
    else if p(s[0]) then [s[0]] + Filter(s[1..], p) else Filter(s[1..], p)
  }

  /** The filter keeps every element satisfying `p` exactly as often as it
      occurs in `s`, and nothing else. */
  lemma {:induction false} FilterCount<T>(s: seq<T>, p: T -> bool, x: T)
    ensures multiset(Filter(s, p))[x] == if p(x) then multiset(s)[x] else 0
    ensures x in Filter(s, p) <==> x in s && p(x)
  {
    if s != [] {
      assert s == [s[0]] + s[1..];
      FilterCount(s[1..], p, x);
    }
  }

  /** The filter keeps the original order. */
  lemma {:induction false} FilterSubseq<T>(s: seq<T>, p: T -> bool)
    ensures IsSubseq(Filter(s, p), s)
  {
    if s != [] {
      FilterSubseq(s[1..], p);
      var r := Filter(s, p);
      if p(s[0]) {
        assert r[0] == s[0] && r[1..] == Filter(s[1..], p);
      }
    }
  }

  /** Filtering distributes over concatenation. */
  lemma {:induction false} FilterAppend<T>(a: seq<T>, b: seq<T>, p: T -> bool)
    ensures Filter(a + b, p) == Filter(a, p) + Filter(b, p)
  {
    if a == [] {
      assert a + b == b;
    } else {
      assert (a + b)[0] == a[0];
      assert (a + b)[1..] == a[1..] + b;
      FilterAppend(a[1..], b, p);
      if p(a[0]) {
        calc {
          Filter(a + b, p);
          [a[0]] + Filter(a[1..] + b, p);
          [a[0]] + (Filter(a[1..], p) + Filter(b, p));
          ([a[0]] + Filter(a[1..], p)) + Filter(b, p);
        }
      }
    }
  }

  /** `Array.prototype.findIndex` on a key: the first position whose key is
      `k`, or -1 when there is none. */
  function FindIndex<T>(s: seq<T>, key: T -> string, k: string): (i: int)
    ensures -1 <= i < |s|
    ensures i == -1 ==> forall j :: 0 <= j < |s| ==> key(s[j]) != k
    ensures 0 <= i ==> key(s[i]) == k && forall j :: 0 <= j < i ==> key(s[j]) != k
  {
    if s == [] then -1
    else if key(s[0]) == k then 0
    else
      var j := FindIndex(s[1..], key, k);
      if j == -1 then -1 else j + 1
  }

  /** `s.map(x => key(x) === k ? f(x) : x)`: every element whose key is `k`
      is transformed, every other element is kept, the length is unchanged. */
  function MapWhere<T>(s: seq<T>, key: T -> string, k: string, f: T -> T): (r: seq<T>)
    ensures |r| == |s|
    ensures forall i :: 0 <= i < |s| && key(s[i]) == k ==> r[i] == f(s[i])
    ensures forall i :: 0 <= i < |s| && key(s[i]) != k ==> r[i] == s[i]
  {
    if s == [] then []
    else [if key(s[0]) == k then f(s[0]) else s[0]] + MapWhere(s[1..], key, k, f)
  }

  /** `s.map(x => key(x) === k ? x' : x)`: every element whose key is `k` is
      replaced by `x'`, every other element is kept. */
  function ReplaceWhere<T>(s: seq<T>, key: T -> string, k: string, x': T): (r: seq<T>)
    ensures |r| == |s|
    ensures forall i :: 0 <= i < |s| && key(s[i]) == k ==> r[i] == x'
    ensures forall i :: 0 <= i < |s| && key(s[i]) != k ==> r[i] == s[i]
  {
    if s == [] then []
    else [if key(s[0]) == k then x' else s[0]] + ReplaceWhere(s[1..], key, k, x')
  }

  /** When no key matches, the id-keyed map leaves the sequence as it was. */
  lemma ReplaceWhereNoMatch<T>(s: seq<T>, key: T -> string, k: string, x': T)
    requires forall j :: 0 <= j < |s| ==> key(s[j]) != k
    ensures ReplaceWhere(s, key, k, x') == s
  {
  }

  /** Filtering keeps exactly the members satisfying `p`. */
  lemma FilterMembers<T>(s: seq<T>, p: T -> bool)
    ensures forall x :: x in Filter(s, p) <==> x in s && p(x)
  {
    forall x ensures x in Filter(s, p) <==> x in s && p(x) {
      FilterCount(s, p, x);
    }
  }

  /** No element occurs twice. */
  ghost predicate Distinct<T>(s: seq<T>) {
    forall k, l :: 0 <= k < l < |s| ==> s[k] != s[l]
  }

  /** The head of a sequence without repeats is not in its tail, and the
      tail has no repeats. */
  lemma DistinctTail<T>(s: seq<T>)
    requires s != [] && Distinct(s)
    ensures s[0] !in s[1..] && Distinct(s[1..])
  {
    forall l | 0 <= l < |s| - 1 ensures s[1..][l] != s[0] {
      assert s[1..][l] == s[l + 1];
    }
  }

  /** Filtering a sequence without repeats cannot create one. */
  lemma {:induction false} FilterDistinct<T>(s: seq<T>, p: T -> bool)
    requires Distinct(s)
    ensures Distinct(Filter(s, p))
  {
    if s != [] {
      var tail := s[1..];
      DistinctTail(s);
      FilterDistinct(tail, p);
      if p(s[0]) {
        var r := Filter(s, p);
        var rest := Filter(tail, p);
        FilterCount(tail, p, s[0]);
        assert r == [s[0]] + rest;
        forall k, l | 0 <= k < l < |r| ensures r[k] != r[l] {
          assert r[l] == rest[l - 1];
          if k > 0 {
            assert r[k] == rest[k - 1];
          }
        }
      }
    }
  }
}
