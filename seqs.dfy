/**
 * The two array operations the tracker is built from: `Array.prototype.filter`
 * (order-preserving selection) and `Array.prototype.join` on strings, together
 * with the splitting that reads a joined text back.
 */
module Seqs {

  /** No element occurs twice. */
  predicate Distinct<T(==)>(s: seq<T>) {
    forall i, j :: 0 <= i < j < |s| ==> s[i] != s[j]
  }

  /** `s.filter(p)`: the elements of `s` that satisfy `p`, in their original order. */
  function Filter<T>(s: seq<T>, p: T -> bool): (r: seq<T>)
    ensures |r| <= |s|
  {
    if s == [] then [] else (if p(s[0]) then [s[0]] else []) + Filter(s[1..], p)
  }

  predicate StrictlyIncreasing(idx: seq<nat>) {
    forall i, j :: 0 <= i < j < |idx| ==> idx[i] < idx[j]
  }

  /** The indices of `s` whose elements `p` keeps, ascending. */
  function KeptIndices<T>(s: seq<T>, p: T -> bool): (idx: seq<nat>)
    ensures forall k :: 0 <= k < |idx| ==> idx[k] < |s| && p(s[idx[k]])
    ensures StrictlyIncreasing(idx)
  {
    if s == [] then []
    else
      var rest := KeptIndices(s[1..], p);
      var shifted := seq(|rest|, k requires 0 <= k < |rest| => rest[k] + 1);
      (if p(s[0]) then [0] else []) + shifted
  }

  lemma {:induction false} KeptIndicesCount<T>(s: seq<T>, p: T -> bool)
    ensures |KeptIndices(s, p)| == |Filter(s, p)|
  {
    if s != [] {
      KeptIndicesCount(s[1..], p);
    }
  }

  /**
   * The filter result is an order-preserving subsequence of `s`: its k-th element
   * is `s[KeptIndices(s, p)[k]]`, and those indices ascend.
   */
  lemma {:induction false} FilterIsSubsequence<T>(s: seq<T>, p: T -> bool, k: nat)
    requires k < |Filter(s, p)|
    ensures |KeptIndices(s, p)| == |Filter(s, p)|
    ensures Filter(s, p)[k] == s[KeptIndices(s, p)[k]]
  {
    KeptIndicesCount(s, p);
    var rest := KeptIndices(s[1..], p);
    var r := Filter(s[1..], p);
    KeptIndicesCount(s[1..], p);
    var shifted := seq(|rest|, k requires 0 <= k < |rest| => rest[k] + 1);
    var n := if p(s[0]) then 1 else 0;
    assert Filter(s, p) == (if p(s[0]) then [s[0]] else []) + r;
    assert KeptIndices(s, p) == (if p(s[0]) then [0] else []) + shifted;
    if k >= n {
      var j := k - n;
      assert Filter(s, p)[k] == r[j];
      assert KeptIndices(s, p)[k] == shifted[j];
      FilterIsSubsequence(s[1..], p, j);
      assert s[1..][rest[j]] == s[rest[j] + 1];
    }
  }

  /** Every index whose element satisfies `p` is among the kept indices: nothing is dropped wrongly. */
  lemma {:induction false} KeptIndicesComplete<T>(s: seq<T>, p: T -> bool, i: nat)
    requires i < |s| && p(s[i])
    ensures i in KeptIndices(s, p)
  {
    if i > 0 {
      var rest := KeptIndices(s[1..], p);
      assert s[1..][i - 1] == s[i];
      KeptIndicesComplete(s[1..], p, i - 1);
      var k :| 0 <= k < |rest| && rest[k] == i - 1;
      var shifted := seq(|rest|, k requires 0 <= k < |rest| => rest[k] + 1);
      assert shifted[k] == i;
      assert KeptIndices(s, p) == (if p(s[0]) then [0] else []) + shifted;
    }
  }

  /** An element is in the filter result exactly when it is in `s` and satisfies `p`. */
  lemma {:induction false} FilterMember<T>(s: seq<T>, p: T -> bool, x: T)
    ensures x in Filter(s, p) <==> x in s && p(x)
  {
    if s != [] {
      FilterMember(s[1..], p, x);
      assert x in s <==> x == s[0] || x in s[1..];
    }
  }

  /** When every element satisfies `p`, the filter returns its input unchanged. */
  lemma {:induction false} FilterKeepsAll<T>(s: seq<T>, p: T -> bool)
    requires forall i :: 0 <= i < |s| ==> p(s[i])
    ensures Filter(s, p) == s
  {
    if s != [] {
      FilterKeepsAll(s[1..], p);
      assert [s[0]] + s[1..] == s;
    }
  }

  /** When no element satisfies `p`, the filter returns the empty sequence. */
  lemma {:induction false} FilterDropsAll<T>(s: seq<T>, p: T -> bool)
    requires forall i :: 0 <= i < |s| ==> !p(s[i])
    ensures Filter(s, p) == []
  {
    if s != [] {
      FilterDropsAll(s[1..], p);
    }
  }

  /** A predicate that rejects exactly the element at `i` filters out that element alone. */
  lemma {:induction false} FilterDropsOnly<T>(s: seq<T>, p: T -> bool, i: nat)
    requires i < |s| && !p(s[i])
    requires forall j :: 0 <= j < |s| && j != i ==> p(s[j])
    ensures Filter(s, p) == s[..i] + s[i + 1..]
  {
    var tail := s[1..];
    if i == 0 {
      forall j | 0 <= j < |tail| ensures p(tail[j]) {
        assert tail[j] == s[j + 1];
      }
      FilterKeepsAll(tail, p);
    } else {
      forall j | 0 <= j < |tail| && j != i - 1 ensures p(tail[j]) {
        assert tail[j] == s[j + 1];
      }
      FilterDropsOnly(tail, p, i - 1);
      assert p(s[0]);
      assert s[..i] == [s[0]] + tail[..i - 1];
      assert s[i + 1..] == tail[i..];
    }
  }

  /** Two predicates that agree on the elements of `s` filter it identically. */
  lemma {:induction false} FilterAgree<T>(s: seq<T>, p: T -> bool, q: T -> bool)
    requires forall i :: 0 <= i < |s| ==> p(s[i]) == q(s[i])
    ensures Filter(s, p) == Filter(s, q)
  {
    if s != [] {
      FilterAgree(s[1..], p, q);
    }
  }

  /** Filtering by `p` and then by `q` is filtering by their conjunction `pq` at once. */
  lemma {:induction false} FilterCompose<T>(s: seq<T>, p: T -> bool, q: T -> bool, pq: T -> bool)
    requires forall x :: pq(x) == (p(x) && q(x))
    ensures Filter(Filter(s, p), q) == Filter(s, pq)
  {
    if s != [] {
      FilterCompose(s[1..], p, q, pq);
      var head := if p(s[0]) then [s[0]] else [];
      FilterAppend(head, Filter(s[1..], p), q);
    }
  }

  /** The filter of a sequence without duplicates has none either. */
  lemma FilterKeepsDistinct<T>(s: seq<T>, p: T -> bool)
    requires Distinct(s)
    ensures Distinct(Filter(s, p))
  {
    var r := Filter(s, p);
    KeptIndicesCount(s, p);
    forall a, b | 0 <= a < b < |r| ensures r[a] != r[b] {
      FilterIsSubsequence(s, p, a);
      FilterIsSubsequence(s, p, b);
    }
  }

  /** Filtering twice with the same predicate is filtering once. */
  lemma {:induction false} FilterIdempotent<T>(s: seq<T>, p: T -> bool)
    ensures Filter(Filter(s, p), p) == Filter(s, p)
  {
    var r := Filter(s, p);
    forall i | 0 <= i < |r| ensures p(r[i]) {
      FilterMember(s, p, r[i]);
    }
    FilterKeepsAll(r, p);
  }

  /** Filtering distributes over concatenation. */
  lemma {:induction false} FilterAppend<T>(a: seq<T>, b: seq<T>, p: T -> bool)
    ensures Filter(a + b, p) == Filter(a, p) + Filter(b, p)
  {
    if a == [] {
      assert a + b == b;
    } else {
      var head := if p(a[0]) then [a[0]] else [];
      assert (a + b)[0] == a[0];
      assert (a + b)[1..] == a[1..] + b;
      assert Filter(a + b, p) == head + Filter(a[1..] + b, p);
      FilterAppend(a[1..], b, p);
      assert Filter(a, p) == head + Filter(a[1..], p);
    }
  }

  /** `parts.join([sep])` */
  function Join(parts: seq<string>, sep: char): string {
    if parts == [] then ""
    else if |parts| == 1 then parts[0]
    else parts[0] + [sep] + Join(parts[1..], sep)
  }

  /** A field that contains the separator joins exactly like its two halves as separate fields. */
  lemma {:induction false} JoinMergedField(front: seq<string>, a: string, b: string, sep: char)
    ensures Join(front + [a + [sep] + b], sep) == Join(front + [a, b], sep)
  {
    var merged := a + [sep] + b;
    if front == [] {
      assert [a, b][1..] == [b];
      assert [] + [merged] == [merged] && [] + [a, b] == [a, b];
    } else {
      JoinMergedField(front[1..], a, b, sep);
      assert (front + [merged])[1..] == front[1..] + [merged];
      assert (front + [a, b])[1..] == front[1..] + [a, b];
    }
  }

  /** `text.split(sep)` for a one-character separator: always at least one field. */
  function Split(text: string, sep: char): (fields: seq<string>)
    ensures |fields| >= 1
  {
    if text == [] then [""]
    else
      var rest := Split(text[1..], sep);
      if text[0] == sep then [""] + rest
      else [[text[0]] + rest[0]] + rest[1..]
  }

  lemma {:induction false} SplitAfterField(field: string, sep: char, rest: string)
    requires sep !in field
    ensures Split(field + [sep] + rest, sep) == [field] + Split(rest, sep)
  {
    if field == [] {
      assert field + [sep] + rest == [sep] + rest;
      assert ([sep] + rest)[1..] == rest;
    } else {
      var t := field + [sep] + rest;
      assert t[0] == field[0];
      assert t[1..] == field[1..] + [sep] + rest;
      SplitAfterField(field[1..], sep, rest);
      assert [field[0]] + field[1..] == field;
    }
  }

  lemma {:induction false} SplitNoSeparator(field: string, sep: char)
    requires sep !in field
    ensures Split(field, sep) == [field]
  {
    if field != [] {
      SplitNoSeparator(field[1..], sep);
      assert [field[0]] + field[1..] == field;
    }
  }

  /**
   * Joining is undone by splitting, provided no part contains the separator
   * (the joined text is not quoted or escaped in any way).
   */
  lemma {:induction false} SplitJoin(parts: seq<string>, sep: char)
    requires |parts| >= 1
    requires forall i :: 0 <= i < |parts| ==> sep !in parts[i]
    ensures Split(Join(parts, sep), sep) == parts
  {
    if |parts| == 1 {
      SplitNoSeparator(parts[0], sep);
    } else {
      SplitJoin(parts[1..], sep);
      SplitAfterField(parts[0], sep, Join(parts[1..], sep));
      assert [parts[0]] + parts[1..] == parts;
    }
  }

  /** The separator occurs in a join only where it joins parts, or inside a part. */
  lemma {:induction false} JoinFree(parts: seq<string>, sep: char, c: char)
    requires forall i :: 0 <= i < |parts| ==> c !in parts[i]
    requires c != sep
    ensures c !in Join(parts, sep)
  {
    if |parts| > 1 {
      JoinFree(parts[1..], sep, c);
    }
  }
}
