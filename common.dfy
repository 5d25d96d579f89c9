/** Optional values, results and the array filter shared by the client and the server models. */
module Common {

  /** A value that may be missing: JavaScript's `undefined` or `null`. */
  datatype Option<T> = None | Some(value: T)

  /** Either a value or the error that was thrown instead. */
  datatype Result<T, E> = Ok(value: T) | Err(error: E)

  /** `xs` occurs in `ys` in order, possibly with elements of `ys` left out between. */
  predicate IsSubsequence<T(==)>(xs: seq<T>, ys: seq<T>)
    decreases |ys|
  {
    xs == [] ||
    (ys != [] && ((xs[0] == ys[0] && IsSubsequence(xs[1..], ys[1..])) || IsSubsequence(xs, ys[1..])))
  }

  /** `Array.prototype.filter`: the elements that pass `keep`, scanned from the left. */
  function Filter<T(==)>(xs: seq<T>, keep: T -> bool): (kept: seq<T>)
    ensures |kept| <= |xs|
    ensures forall i :: 0 <= i < |kept| ==> kept[i] in xs && keep(kept[i])
    ensures forall i :: 0 <= i < |xs| && keep(xs[i]) ==> xs[i] in kept
  {
    if xs == [] then [] else (if keep(xs[0]) then [xs[0]] else []) + Filter(xs[1..], keep)
  }

  /** The filtered array keeps the original order. */
  lemma {:induction false} FilterIsSubsequence<T>(xs: seq<T>, keep: T -> bool)
    ensures IsSubsequence(Filter(xs, keep), xs)
  {
    if xs != [] {
      var rest := Filter(xs[1..], keep);
      FilterIsSubsequence(xs[1..], keep);
      if keep(xs[0]) {
        assert Filter(xs, keep) == [xs[0]] + rest;
        assert ([xs[0]] + rest)[1..] == rest;
      } else {
        assert Filter(xs, keep) == rest;
      }
    }
  }

  /** Filtering twice with the same test changes nothing more. */
  lemma {:induction false} FilterIdempotent<T>(xs: seq<T>, keep: T -> bool)
    ensures Filter(Filter(xs, keep), keep) == Filter(xs, keep)
  {
    if xs != [] {
      var rest := Filter(xs[1..], keep);
      FilterIdempotent(xs[1..], keep);
      if keep(xs[0]) {
        var once := [xs[0]] + rest;
        assert Filter(xs, keep) == once;
        assert once[0] == xs[0] && once[1..] == rest;
        assert Filter(once, keep) == [xs[0]] + Filter(rest, keep);
      } else {
        assert Filter(xs, keep) == rest;
      }
    }
  }

  /** When every element passes, the filter returns the array unchanged. */
  lemma {:induction false} FilterKeepsAll<T>(xs: seq<T>, keep: T -> bool)
    requires forall i :: 0 <= i < |xs| ==> keep(xs[i])
    ensures Filter(xs, keep) == xs
  {
    if xs != [] {
      FilterKeepsAll(xs[1..], keep);
      assert [xs[0]] + xs[1..] == xs;
    }
  }

  /** An element that passes is kept in every copy: the filter drops only what fails. */
  lemma {:induction false} FilterCount<T>(xs: seq<T>, keep: T -> bool, x: T)
    ensures multiset(Filter(xs, keep))[x] == if keep(x) then multiset(xs)[x] else 0
  {
    if xs != [] {
      var rest := Filter(xs[1..], keep);
      FilterCount(xs[1..], keep, x);
      assert xs == [xs[0]] + xs[1..];
      assert multiset(xs) == multiset([xs[0]]) + multiset(xs[1..]);
      if keep(xs[0]) {
        assert Filter(xs, keep) == [xs[0]] + rest;
        assert multiset(Filter(xs, keep)) == multiset([xs[0]]) + multiset(rest);
      } else {
        assert Filter(xs, keep) == rest;
      }
    }
  }

  /** A relation that holds between every earlier and later element still holds after filtering. */
  lemma {:induction false} FilterKeepsPairwise<T>(xs: seq<T>, keep: T -> bool, rel: (T, T) -> bool)
    requires forall i, j :: 0 <= i < j < |xs| ==> rel(xs[i], xs[j])
    ensures forall i, j :: 0 <= i < j < |Filter(xs, keep)| ==> rel(Filter(xs, keep)[i], Filter(xs, keep)[j])
  {
    if xs != [] {
      var rest := Filter(xs[1..], keep);
      FilterKeepsPairwise(xs[1..], keep, rel);
      if keep(xs[0]) {
        var kept := [xs[0]] + rest;
        assert Filter(xs, keep) == kept;
        forall i, j | 0 <= i < j < |kept| ensures rel(kept[i], kept[j]) {
          if i == 0 {
            var k :| 0 <= k < |xs[1..]| && xs[1..][k] == rest[j - 1];
            assert xs[k + 1] == kept[j];
          } else {
            assert kept[i] == rest[i - 1] && kept[j] == rest[j - 1];
          }
        }
      } else {
        assert Filter(xs, keep) == rest;
      }
    }
  }
}
