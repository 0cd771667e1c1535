/** The index expressions that reach the dataset after its subpath strings are
    split off, and what Python list indexing does with them. */
module Slices {
  import opened Outcomes

  /** An integer index, or a slice `start:stop` whose bounds may be omitted. */
  datatype Slice = Index(i: int) | Span(start: Option<int>, stop: Option<int>)

  /** `slice(a, b)` with both bounds given. */
  function Between(a: int, b: int): Slice {
    Span(Some(a), Some(b))
  }

  /** `[:]`, the whole range. */
  const Whole: Slice := Span(None, None)

  /** Python truthiness of an index expression: the integer 0 is false, every
      other integer and every slice object is true. */
  predicate Truthy(s: Slice) {
    !(s.Index? && s.i == 0)
  }

  /** What the list indexing `indexes[...]` returns: one element or a list. */
  datatype Selection = One(index: int) | Many(indexes: seq<int>)

  /** list(range(a, b)) */
  function Range(a: int, b: int): seq<int> {
    if b <= a then [] else seq(b - a, k => a + k)
  }

  lemma RangeAt(a: int, b: int)
    ensures |Range(a, b)| == if b <= a then 0 else b - a
    ensures forall k :: 0 <= k < |Range(a, b)| ==> Range(a, b)[k] == a + k
  {
  }

  /** A slice bound after Python's normalisation: negative bounds count from the
      end, and the result is clamped to [0, n]. */
  function Bound(b: Option<int>, default: nat, n: nat): (r: nat)
    ensures r <= n
    ensures b.Some? && 0 <= b.value <= n ==> r == b.value
    ensures b.Some? && b.value < 0 <= b.value + n ==> r == b.value + n
  {
    match b
    case None => if default <= n then default else n
    case Some(x) =>
      var y := if x < 0 then x + n else x;
      if y < 0 then 0 else if y > n then n else y
  }

  /** s[sl] for a list s. */
  function Select(s: seq<int>, sl: Slice): Result<Selection> {
    match sl
    case Index(i) =>
      var j := if i < 0 then i + |s| else i;
      if 0 <= j < |s| then Ok(One(s[j])) else Err(IndexOutOfRange)
    case Span(a, b) =>
      var lo := Bound(a, 0, |s|);
      var hi := Bound(b, |s|, |s|);
      Ok(Many(if lo < hi then s[lo..hi] else []))
  }

  /** An integer index succeeds exactly when it lies in [-|s|, |s|), and then picks
      the element it names, counting from the end when negative. */
  lemma SelectIndex(s: seq<int>, i: int)
    ensures Select(s, Index(i)).Ok? <==> 0 <= i + |s| && i < |s|
    ensures 0 <= i < |s| ==> Select(s, Index(i)) == Ok(One(s[i]))
    ensures i < 0 <= i + |s| ==> Select(s, Index(i)) == Ok(One(s[|s| + i]))
  {
  }

  /** A slice never fails and always picks a contiguous run of the list. */
  lemma {:induction false} SelectSpanContiguous(s: seq<int>, a: Option<int>, b: Option<int>)
    ensures Select(s, Span(a, b)).Ok?
    ensures Select(s, Span(a, b)).value.Many?
    ensures exists lo, hi :: 0 <= lo <= hi <= |s| && Select(s, Span(a, b)).value.indexes == s[lo..hi]
  {
    var lo := Bound(a, 0, |s|);
    var hi := Bound(b, |s|, |s|);
    if lo < hi {
      assert Select(s, Span(a, b)).value.indexes == s[lo..hi];
    } else {
      assert Select(s, Span(a, b)).value.indexes == s[0..0];
    }
  }

  /** On the dataset's own index list [0, n), slicing with in-range bounds
      a <= b gives the indexes [a, b). */
  lemma {:induction false} SelectOnRange(n: nat, a: nat, b: nat)
    requires a <= b <= n
    ensures Select(Range(0, n), Between(a, b)) == Ok(Many(Range(a, b)))
  {
    var s := Range(0, n);
    RangeAt(0, n);
    RangeAt(a, b);
    if a < b {
      assert s[a..b] == Range(a, b);
    }
  }
}
