/** `String.prototype.indexOf` and `String.prototype.replace` with a string
    pattern, which replaces the FIRST occurrence only. None of the
    replacement strings the relay uses contains `$`, so the replacement
    patterns of `replace` (`$&` and the like) play no part here. */
module JsString {
  import opened Seqs

  predicate OccursAt(s: string, pat: string, i: nat) {
    i + |pat| <= |s| && s[i..i + |pat|] == pat
  }

  /** `pat` occurs at `k` and nowhere before it. */
  predicate FirstOccurrence(s: string, pat: string, k: nat) {
    OccursAt(s, pat, k) && forall j :: 0 <= j < k ==> !OccursAt(s, pat, j)
  }

  /** `s.indexOf(pat, from)`, with `None` for JavaScript's -1. */
  function IndexFrom(s: string, pat: string, from: nat): (r: Option<nat>)
    ensures r.Some? ==> from <= r.value && OccursAt(s, pat, r.value)
    ensures r.Some? ==> forall j :: from <= j < r.value ==> !OccursAt(s, pat, j)
    ensures r.None? ==> forall j :: from <= j ==> !OccursAt(s, pat, j)
    decreases |s| + 1 - from
  {
    if from + |pat| > |s| then None
    else if OccursAt(s, pat, from) then Some(from)
    else IndexFrom(s, pat, from + 1)
  }

  function IndexOf(s: string, pat: string): Option<nat> {
    IndexFrom(s, pat, 0)
  }

  /** `s.replace(pat, rep)`: the first occurrence of `pat`, if there is one,
      is replaced by `rep`; without an occurrence `s` comes back unchanged. */
  function ReplaceFirst(s: string, pat: string, rep: string): (r: string)
    ensures (forall j: nat :: !OccursAt(s, pat, j)) ==> r == s
    ensures forall k: nat :: FirstOccurrence(s, pat, k) ==> r == s[..k] + rep + s[k + |pat|..]
  {
    match IndexOf(s, pat)
    case None => s
    case Some(k) => s[..k] + rep + s[k + |pat|..]
  }

  /** Replacing a pattern by itself, as `.replace('select', 'select')` does,
      leaves every string unchanged. */
  lemma ReplaceByItself(s: string, pat: string)
    ensures ReplaceFirst(s, pat, pat) == s
  {
    match IndexOf(s, pat)
    case None =>
    case Some(k) =>
      assert FirstOccurrence(s, pat, k);
      assert s == s[..k] + s[k..k + |pat|] + s[k + |pat|..];
  }

  /** A pattern with a character that `s` lacks does not occur in `s`. */
  lemma MissingChar(s: string, pat: string, rep: string, i: nat)
    requires i < |pat| && pat[i] !in s
    ensures ReplaceFirst(s, pat, rep) == s
  {
    forall j: nat ensures !OccursAt(s, pat, j) {
      if j + |pat| <= |s| {
        assert s[j..j + |pat|][i] == s[j + i];
      }
    }
  }

  /** An occurrence at `k` is the one replaced when the pattern's `i`-th
      character appears nowhere in `s` before position `k + i`. */
  lemma ReplaceAt(s: string, pat: string, rep: string, k: nat, i: nat)
    requires i < |pat| && OccursAt(s, pat, k)
    requires forall j :: i <= j < k + i ==> s[j] != pat[i]
    ensures ReplaceFirst(s, pat, rep) == s[..k] + rep + s[k + |pat|..]
  {
    forall j | 0 <= j < k ensures !OccursAt(s, pat, j) {
      if j + |pat| <= |s| {
        assert s[j..j + |pat|][i] == s[j + i];
      }
    }
    assert FirstOccurrence(s, pat, k);
  }
}
