/**
 * First-occurrence search, as done by `Buffer.prototype.indexOf(needle, from)` and
 * `String.prototype.indexOf(needle, from)` for a non-negative start offset: the least
 * index at or after `from` where the needle occurs, or -1.
 */
module Search {

  /** `pat` occurs in `s` starting at index `i`. */
  predicate OccursAt<T(==)>(s: seq<T>, pat: seq<T>, i: int) {
    0 <= i && i + |pat| <= |s| && s[i..i + |pat|] == pat
  }

  function IndexOf<T(==)>(s: seq<T>, pat: seq<T>, from: nat): (r: int)
    ensures r == -1 || (from <= r && OccursAt(s, pat, r))
    ensures r == -1 ==> forall i :: from <= i ==> !OccursAt(s, pat, i)
    ensures r != -1 ==> forall i :: from <= i < r ==> !OccursAt(s, pat, i)
    decreases |s| - from
  {
    if from + |pat| > |s| then -1
    else if s[from..from + |pat|] == pat then from
    else IndexOf(s, pat, from + 1)
  }

  /** An occurrence found in `s` is found, at the same index, in any extension of `s`. */
  lemma {:induction false} IndexOfExtend<T>(s: seq<T>, t: seq<T>, pat: seq<T>, from: nat)
    requires IndexOf(s, pat, from) != -1
    ensures IndexOf(s + t, pat, from) == IndexOf(s, pat, from)
    decreases |s| - from
  {
    assert (s + t)[from..from + |pat|] == s[from..from + |pat|];
    if s[from..from + |pat|] != pat {
      IndexOfExtend(s, t, pat, from + 1);
    }
  }

  /** The occurrence of `pat` at `i` in `s` is still there in any extension of `s`. */
  lemma OccursAtExtend<T>(s: seq<T>, t: seq<T>, pat: seq<T>, i: int)
    requires OccursAt(s, pat, i)
    ensures OccursAt(s + t, pat, i)
  {
    assert (s + t)[i..i + |pat|] == s[i..i + |pat|];
  }

  /** Occurrences inside a slice are occurrences in the whole sequence, shifted by the slice start. */
  lemma OccursAtSlice<T>(s: seq<T>, lo: nat, hi: nat, pat: seq<T>, i: int)
    requires lo <= hi <= |s|
    ensures OccursAt(s[lo..hi], pat, i) ==> OccursAt(s, pat, lo + i)
  {
    if OccursAt(s[lo..hi], pat, i) {
      forall k | 0 <= k < |pat| ensures s[lo + i + k] == pat[k] {
        assert s[lo..hi][i..i + |pat|][k] == pat[k];
      }
      assert s[lo + i..lo + i + |pat|] == pat;
    }
  }

  /**
   * `String.prototype.replace` with a string pattern: only the first occurrence of `pat`
   * is replaced; a string without `pat` is returned unchanged.
   */
  function ReplaceFirst<T(==)>(s: seq<T>, pat: seq<T>, rep: seq<T>): seq<T> {
    var i := IndexOf(s, pat, 0);
    if i == -1 then s else s[..i] + rep + s[i + |pat|..]
  }

  /** The first occurrence is the one no earlier position matches. */
  lemma IndexOfFirst<T>(s: seq<T>, pat: seq<T>, p: nat)
    requires OccursAt(s, pat, p)
    requires forall i | 0 <= i < p :: !OccursAt(s, pat, i)
    ensures IndexOf(s, pat, 0) == p
  {
  }
}
