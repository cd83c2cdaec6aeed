/** The JavaScript array methods the post store is built from: `find`,
    `findIndex` and `filter`, each over a sequence and a callback, with the
    callback modelled as a total function to `bool`. */
module JsArray {

  /** `undefined` or a value: what `Array.prototype.find` returns. */
  datatype Option<T> = None | Some(value: T)

  /** `k` is the first index of `s` whose element satisfies `f`. */
  ghost predicate IsFirst<T>(s: seq<T>, f: T -> bool, k: int) {
    0 <= k < |s| && f(s[k]) && forall j :: 0 <= j < k ==> !f(s[j])
  }

  /** `a` is `b` with some elements taken out, the rest kept in their order. */
  ghost predicate IsSubsequence<T>(a: seq<T>, b: seq<T>)
    decreases |b|
  {
    if a == [] then true
    else if b == [] then false
    else (a[0] == b[0] && IsSubsequence(a[1..], b[1..])) || IsSubsequence(a, b[1..])
  }

  /** `Array.prototype.findIndex`: the index of the first element that
      satisfies `f`, or -1 when none does. */
  function FindIndex<T>(s: seq<T>, f: T -> bool): (i: int)
    ensures -1 <= i < |s|
    ensures i >= 0 ==> IsFirst(s, f, i)
    ensures i == -1 <==> forall k :: 0 <= k < |s| ==> !f(s[k])
    decreases |s|
  {
    if s == [] then -1
    else if f(s[0]) then 0
    else
      var j := FindIndex(s[1..], f);
      if j < 0 then -1 else j + 1
  }

  /** `Array.prototype.find`: the first element that satisfies `f`, or
      `undefined` when none does. */
  function Find<T>(s: seq<T>, f: T -> bool): (r: Option<T>)
    ensures r.None? <==> forall k :: 0 <= k < |s| ==> !f(s[k])
    ensures r.Some? ==> exists k :: IsFirst(s, f, k) && s[k] == r.value
  {
    var i := FindIndex(s, f);
    if i < 0 then None else Some(s[i])
  }

  /** `Array.prototype.filter`: a new sequence of the elements that satisfy
      `f`, in their original order, each as often as it occurs. */
  function Filter<T(==)>(s: seq<T>, f: T -> bool): (r: seq<T>)
    ensures forall x :: x in r ==> x in s && f(x)
    ensures forall x :: x in s && f(x) ==> multiset(r)[x] == multiset(s)[x]
    ensures IsSubsequence(r, s)
    decreases |s|
  {
    if s == [] then []
    else
      assert s == [s[0]] + s[1..];
      if f(s[0]) then [s[0]] + Filter(s[1..], f) else Filter(s[1..], f)
  }

  /** The first index satisfying `f` is unique. */
  lemma FirstIsUnique<T>(s: seq<T>, f: T -> bool, i: int, j: int)
    requires IsFirst(s, f, i) && IsFirst(s, f, j)
    ensures i == j
  {
  }

  /** Appending an element leaves `findIndex` unchanged when an earlier
      element already matches or the new one does not. */
  lemma FindIndexAppend<T>(s: seq<T>, x: T, f: T -> bool)
    requires FindIndex(s, f) >= 0 || !f(x)
    ensures FindIndex(s + [x], f) == FindIndex(s, f)
  {
    var i := FindIndex(s, f);
    var t := s + [x];
    if i >= 0 {
      assert IsFirst(t, f, i);
      FirstIsUnique(t, f, i, FindIndex(t, f));
    } else {
      assert forall k :: 0 <= k < |t| ==> !f(t[k]) by {
        forall k | 0 <= k < |t| ensures !f(t[k]) {
          if k < |s| { assert t[k] == s[k]; }
        }
      }
    }
  }

  /** A subsequence never holds an element more often than the sequence. */
  lemma {:induction false} SubsequenceMultiset<T>(a: seq<T>, b: seq<T>)
    requires IsSubsequence(a, b)
    ensures multiset(a) <= multiset(b)
    decreases |b|
  {
    if a != [] {
      assert b == [b[0]] + b[1..];
      if a[0] == b[0] && IsSubsequence(a[1..], b[1..]) {
        SubsequenceMultiset(a[1..], b[1..]);
        assert a == [a[0]] + a[1..];
      } else {
        SubsequenceMultiset(a, b[1..]);
      }
    }
  }

  /** Every element of a subsequence is an element of the sequence. */
  lemma SubsequenceMembers<T>(a: seq<T>, b: seq<T>, x: T)
    requires IsSubsequence(a, b) && x in a
    ensures x in b
  {
    SubsequenceMultiset(a, b);
    assert x in multiset(a);
  }

  /** Filtering keeps a sequence whose every element satisfies `f` as it is. */
  lemma {:induction false} FilterAllKept<T>(s: seq<T>, f: T -> bool)
    requires forall k :: 0 <= k < |s| ==> f(s[k])
    ensures Filter(s, f) == s
    decreases |s|
  {
    if s != [] {
      assert forall k :: 0 <= k < |s[1..]| ==> f(s[1..][k]) by {
        forall k | 0 <= k < |s[1..]| ensures f(s[1..][k]) { assert s[1..][k] == s[k + 1]; }
      }
      FilterAllKept(s[1..], f);
      assert s == [s[0]] + s[1..];
    }
  }

  /** The three properties in the contract of `Filter` determine its result:
      any order-preserving subsequence that holds only elements satisfying
      `f`, and each of those as often as `s` does, is `Filter(s, f)`. */
  lemma {:induction false} FilterCharacterized<T>(s: seq<T>, f: T -> bool, r: seq<T>)
    requires IsSubsequence(r, s)
    requires forall x :: x in r ==> f(x)
    requires forall x :: x in s && f(x) ==> multiset(r)[x] == multiset(s)[x]
    ensures r == Filter(s, f)
    decreases |s|
  {
    if s == [] {
      assert r == [];
    } else {
      var h, t := s[0], s[1..];
      assert s == [h] + t;
      if f(h) {
        if IsSubsequence(r, t) {
          // then `r` would hold `h` less often than `s` does
          SubsequenceMultiset(r, t);
          assert false;
        }
        assert r == [h] + r[1..];
        forall x | x in r[1..] ensures f(x) { assert x in r; }
        FilterCharacterized(t, f, r[1..]);
      } else {
        if r != [] {
          assert r[0] in r;
        }
        assert IsSubsequence(r, t);
        FilterCharacterized(t, f, r);
      }
    }
  }
}
