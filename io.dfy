/**
 * `IO::strip`: removes from a list of lines every line that contains a
 * pattern. Lines are strings of characters; `Find` plays the part of
 * `std::string::find`.
 */
module Io {

  /** `pat` occurs in `s` starting at index `i`. */
  predicate OccursAt(s: string, pat: string, i: int)
  {
    0 <= i && i + |pat| <= |s| && s[i..i + |pat|] == pat
  }

  /** `pat` occurs somewhere in `s` (the empty pattern occurs in every string). */
  ghost predicate Contains(s: string, pat: string)
  {
    exists i :: OccursAt(s, pat, i)
  }

  /** `s.find(pat, from)`: the first occurrence at or after `from`, or -1 for `npos`. */
  function Find(s: string, pat: string, from: nat): (r: int)
    requires from <= |s| + 1
    ensures r == -1 || (from <= r && OccursAt(s, pat, r))
    ensures r == -1 ==> forall i :: from <= i ==> !OccursAt(s, pat, i)
    ensures r != -1 ==> forall i :: from <= i < r ==> !OccursAt(s, pat, i)
    decreases |s| + 1 - from
  {
    if from + |pat| > |s| then
      assert forall i :: from <= i ==> !OccursAt(s, pat, i);
      -1
    else if s[from..from + |pat|] == pat then from
    else Find(s, pat, from + 1)
  }

  /** `s.find(pat) != string::npos`, decided by `Find`. */
  function Matches(s: string, pat: string): (b: bool)
    ensures b <==> Contains(s, pat)
  {
    var r := Find(s, pat, 0);
    if r == -1 then
      assert forall i :: 0 <= i ==> !OccursAt(s, pat, i);
      false
    else
      assert OccursAt(s, pat, r);
      true
  }

  /** The lines of `v` that do not contain `pat`, in their order in `v`. */
  ghost function Filter(v: seq<string>, pat: string): seq<string>
  {
    if |v| == 0 then []
    else (if Contains(v[0], pat) then [] else [v[0]]) + Filter(v[1..], pat)
  }

  /**
   * strip: walks the list and erases every line that contains `pat`; after
   * an erase the walk goes on at the line that moved into the erased place.
   */
  method Strip(v: seq<string>, pat: string) returns (w: seq<string>)
    ensures w == Filter(v, pat)
  {
    w := v;
    var i := 0;
    while i != |w|
      invariant 0 <= i <= |w|
      invariant w[..i] + Filter(w[i..], pat) == Filter(v, pat)
      decreases |w| - i
    {
      assert w[i..][1..] == w[i + 1..];
      if Matches(w[i], pat) {
        ghost var u := w;
        w := w[..i] + w[i + 1..];
        assert w[..i] == u[..i] && w[i..] == u[i + 1..];
      } else {
        assert w[..i + 1] == w[..i] + [w[i]];
        i := i + 1;
      }
    }
    assert w[i..] == [];
  }

  // ---------------------------------------------------------------- lemmas

  /** No line that is left contains the pattern. */
  lemma {:induction false} FilterNoneLeft(v: seq<string>, pat: string)
    ensures forall j :: 0 <= j < |Filter(v, pat)| ==> !Contains(Filter(v, pat)[j], pat)
  {
    if |v| > 0 {
      FilterNoneLeft(v[1..], pat);
    }
  }

  /** Each line that contains the pattern is removed every time, each other line is kept every time. */
  lemma {:induction false} FilterCounts(v: seq<string>, pat: string, x: string)
    ensures multiset(Filter(v, pat))[x] == if Contains(x, pat) then 0 else multiset(v)[x]
  {
    if |v| > 0 {
      FilterCounts(v[1..], pat, x);
      assert v == [v[0]] + v[1..];
    }
  }

  /** `a` is `b` with some elements left out, the others in the same order. */
  ghost predicate Subsequence(a: seq<string>, b: seq<string>)
    decreases |b|
  {
    if |a| == 0 then true
    else if |b| == 0 then false
    else if a[0] == b[0] then Subsequence(a[1..], b[1..])
    else Subsequence(a, b[1..])
  }

  /** The kept lines keep their relative order. */
  lemma {:induction false} FilterSubsequence(v: seq<string>, pat: string)
    ensures Subsequence(Filter(v, pat), v)
  {
    if |v| > 0 {
      FilterSubsequence(v[1..], pat);
      var rest := Filter(v[1..], pat);
      if Contains(v[0], pat) {
        assert Filter(v, pat) == [] + rest == rest;
        SubsequenceTail(rest, v);
      } else {
        assert ([v[0]] + rest)[0] == v[0] && ([v[0]] + rest)[1..] == rest;
      }
    }
  }

  /** A subsequence of the tail of `b` is a subsequence of `b`. */
  lemma {:induction false} SubsequenceTail(a: seq<string>, b: seq<string>)
    requires |b| > 0 && Subsequence(a, b[1..])
    ensures Subsequence(a, b)
    decreases |b|, 0
  {
    if |a| > 0 && a[0] == b[0] {
      SubsequenceDrop(a, b[1..]);
    }
  }

  /** Leaving out the first element keeps a subsequence. */
  lemma {:induction false} SubsequenceDrop(a: seq<string>, c: seq<string>)
    requires |a| > 0 && Subsequence(a, c)
    ensures Subsequence(a[1..], c)
    decreases |c|, 1
  {
    if a[0] == c[0] {
      SubsequenceTail(a[1..], c);
    } else {
      SubsequenceDrop(a, c[1..]);
      SubsequenceTail(a[1..], c);
    }
  }

  /** Stripping twice strips no more than stripping once. */
  lemma {:induction false} FilterIdempotent(v: seq<string>, pat: string)
    ensures Filter(Filter(v, pat), pat) == Filter(v, pat)
  {
    if |v| > 0 {
      FilterIdempotent(v[1..], pat);
      var rest := Filter(v[1..], pat);
      if Contains(v[0], pat) {
        assert Filter(v, pat) == [] + rest == rest;
      } else {
        assert ([v[0]] + rest)[0] == v[0] && ([v[0]] + rest)[1..] == rest;
      }
    }
  }

  /** The empty pattern occurs in every line, so stripping with it empties the list. */
  lemma {:induction false} EmptyPatternStripsAll(v: seq<string>)
    ensures Filter(v, "") == []
  {
    if |v| > 0 {
      assert OccursAt(v[0], "", 0);
      EmptyPatternStripsAll(v[1..]);
    }
  }
}
