/**
 * The JavaScript array built-ins that the catalog helpers and the storage
 * layer are written with (`filter`, `findIndex`, `find`, `slice(0, end)`),
 * as functions on sequences, with the facts about them that both modules use.
 */
module JsArray {
  import opened Wrappers

  function Min(a: int, b: int): int { if a <= b then a else b }

  function Max(a: int, b: int): int { if a <= b then b else a }

  /** `s.filter(keep)`: the elements of `s` that satisfy `keep`, in their original order. */
  function Filter<T>(s: seq<T>, keep: T -> bool): (r: seq<T>)
    ensures |r| <= |s|
    ensures forall i :: 0 <= i < |r| ==> keep(r[i])
  {
    if s == [] then []
    else if keep(s[0]) then [s[0]] + Filter(s[1..], keep)
    else Filter(s[1..], keep)
  }

  /** `s.findIndex(f)`: the index of the first element satisfying `f`, or -1. */
  function FindIndex<T>(s: seq<T>, f: T -> bool): (r: int)
    ensures -1 <= r < |s|
    ensures r >= 0 ==> f(s[r]) && forall j :: 0 <= j < r ==> !f(s[j])
    ensures r < 0 <==> forall j :: 0 <= j < |s| ==> !f(s[j])
  {
    if s == [] then -1
    else if f(s[0]) then 0
    else
      var k := FindIndex(s[1..], f);
      if k < 0 then -1 else k + 1
  }

  /** `s.find(f)`: the first element satisfying `f`, or `undefined`. */
  function Find<T>(s: seq<T>, f: T -> bool): (r: Option<T>)
    ensures r.None? <==> forall j :: 0 <= j < |s| ==> !f(s[j])
    ensures r.Some? ==> exists k :: 0 <= k < |s| && s[k] == r.value && f(s[k]) && forall j :: 0 <= j < k ==> !f(s[j])
  {
    var i := FindIndex(s, f);
    if i < 0 then None else Some(s[i])
  }

  /**
   * `s.slice(0, end)` for an integral `end`: a negative `end` counts from the
   * back of the array, and an `end` past the length is clamped to it.
   */
  function SliceTo<T>(s: seq<T>, end: int): (r: seq<T>)
    ensures r <= s
    ensures |r| == if end >= 0 then Min(end, |s|) else Max(0, |s| + end)
  {
    if end >= 0 then s[..Min(end, |s|)] else s[..Max(0, |s| + end)]
  }

  /** An element survives filtering exactly when it occurs in the input and passes the test. */
  lemma {:induction false} FilterMembers<T>(s: seq<T>, keep: T -> bool)
    ensures forall i :: 0 <= i < |Filter(s, keep)| ==> Filter(s, keep)[i] in s
    ensures forall i :: 0 <= i < |s| && keep(s[i]) ==> s[i] in Filter(s, keep)
  {
    if s != [] {
      FilterMembers(s[1..], keep);
      forall i | 0 <= i < |s| && keep(s[i]) ensures s[i] in Filter(s, keep) {
        if i > 0 {
          assert s[i] == s[1..][i - 1];
        }
      }
    }
  }

  /** `r` can be obtained from `s` by deleting elements: it keeps their relative order. */
  ghost predicate IsSubsequence<T>(r: seq<T>, s: seq<T>)
    decreases |s|
  {
    if r == [] then true
    else if s == [] then false
    else if r[0] == s[0] then IsSubsequence(r[1..], s[1..])
    else IsSubsequence(r, s[1..])
  }

  /** Filtering only deletes elements; the survivors keep their order. */
  lemma {:induction false} FilterIsSubsequence<T>(s: seq<T>, keep: T -> bool)
    ensures IsSubsequence(Filter(s, keep), s)
  {
    if s != [] {
      FilterIsSubsequence(s[1..], keep);
      var rest := Filter(s[1..], keep);
      if keep(s[0]) {
        assert ([s[0]] + rest)[1..] == rest;
      } else if rest != [] {
        // s[0] is not kept, so it cannot head the filtered rest either
        assert keep(rest[0]);
      }
    }
  }

  /** One step of `filter` at position `i`. */
  lemma FilterStep<T>(s: seq<T>, i: nat, keep: T -> bool)
    requires i < |s|
    ensures Filter(s[i..], keep) == if keep(s[i]) then [s[i]] + Filter(s[i + 1..], keep) else Filter(s[i + 1..], keep)
  {
    assert s[i..][1..] == s[i + 1..];
  }

  /** Filtering with a test every element passes changes nothing. */
  lemma {:induction false} FilterKeepsAll<T>(s: seq<T>, keep: T -> bool)
    requires forall i :: 0 <= i < |s| ==> keep(s[i])
    ensures Filter(s, keep) == s
  {
    if s != [] {
      FilterKeepsAll(s[1..], keep);
      assert [s[0]] + s[1..] == s;
    }
  }

  /** Filtering with a test no element passes gives the empty sequence. */
  lemma {:induction false} FilterKeepsNone<T>(s: seq<T>, keep: T -> bool)
    requires forall i :: 0 <= i < |s| ==> !keep(s[i])
    ensures Filter(s, keep) == []
  {
    if s != [] {
      FilterKeepsNone(s[1..], keep);
    }
  }

  /** Filtering distributes over concatenation. */
  lemma {:induction false} FilterConcat<T>(a: seq<T>, b: seq<T>, keep: T -> bool)
    ensures Filter(a + b, keep) == Filter(a, keep) + Filter(b, keep)
  {
    if a == [] {
      assert a + b == b;
    } else {
      assert (a + b)[0] == a[0];
      assert (a + b)[1..] == a[1..] + b;
      FilterConcat(a[1..], b, keep);
    }
  }

  /** The elements a test keeps and the elements its negation keeps add up to the whole sequence. */
  lemma {:induction false} FilterComplement<T>(s: seq<T>, keep: T -> bool, drop: T -> bool)
    requires forall i :: 0 <= i < |s| ==> (drop(s[i]) <==> !keep(s[i]))
    ensures |Filter(s, keep)| + |Filter(s, drop)| == |s|
  {
    if s != [] {
      FilterComplement(s[1..], keep, drop);
    }
  }

  /** `ok` holds of every element and every later one. */
  ghost predicate Pairwise<T>(s: seq<T>, ok: (T, T) -> bool)
  {
    forall i, j :: 0 <= i < j < |s| ==> ok(s[i], s[j])
  }

  /** Appending an element that fails the test and filtering a sequence whose elements all pass gives the sequence back. */
  lemma FilterDropsAppended<T>(s: seq<T>, x: T, keep: T -> bool)
    requires forall i :: 0 <= i < |s| ==> keep(s[i])
    requires !keep(x)
    ensures Filter(s + [x], keep) == s
  {
    FilterConcat(s, [x], keep);
    FilterKeepsAll(s, keep);
    assert [x][1..] == [];
  }

  /** A relation that holds between every earlier and later element still holds after filtering. */
  lemma {:induction false} FilterKeepsPairwise<T>(s: seq<T>, keep: T -> bool, ok: (T, T) -> bool)
    requires Pairwise(s, ok)
    ensures Pairwise(Filter(s, keep), ok)
  {
    if s != [] {
      var tail := s[1..];
      forall i, j | 0 <= i < j < |tail| ensures ok(tail[i], tail[j]) {
        assert tail[i] == s[i + 1] && tail[j] == s[j + 1];
      }
      FilterKeepsPairwise(tail, keep, ok);
      FilterMembers(tail, keep);
      var rest := Filter(tail, keep);
      if keep(s[0]) {
        var r := [s[0]] + rest;
        assert Filter(s, keep) == r;
        forall i, j | 0 <= i < j < |r| ensures ok(r[i], r[j]) {
          if i == 0 {
            assert r[j] == rest[j - 1] && rest[j - 1] in s[1..];
            var k :| 0 <= k < |s[1..]| && s[1..][k] == r[j];
            assert s[k + 1] == r[j] && r[0] == s[0];
            assert ok(s[0], s[k + 1]);
          } else {
            assert r[i] == rest[i - 1] && r[j] == rest[j - 1];
            assert 0 <= i - 1 < j - 1 < |rest|;
          }
        }
      }
    }
  }

  /** Filtering out exactly one element shortens the sequence by one. */
  lemma {:induction false} FilterDropsOne<T>(s: seq<T>, keep: T -> bool, k: nat)
    requires k < |s| && !keep(s[k])
    requires forall i :: 0 <= i < |s| && i != k ==> keep(s[i])
    ensures |Filter(s, keep)| == |s| - 1
  {
    if k == 0 {
      FilterKeepsAll(s[1..], keep);
    } else {
      FilterDropsOne(s[1..], keep, k - 1);
    }
  }

  /** Two tests that split the elements passing a third one split its count. */
  lemma {:induction false} FilterPartition<T>(s: seq<T>, f: T -> bool, g: T -> bool, h: T -> bool)
    requires forall i :: 0 <= i < |s| ==> (h(s[i]) <==> f(s[i]) || g(s[i]))
    requires forall i :: 0 <= i < |s| ==> !(f(s[i]) && g(s[i]))
    ensures |Filter(s, f)| + |Filter(s, g)| == |Filter(s, h)|
  {
    if s != [] {
      FilterPartition(s[1..], f, g, h);
    }
  }
}
