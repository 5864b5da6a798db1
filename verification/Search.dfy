/** Substring search, as `str::find` and `str::contains` do it. */
module Search {
  import opened Wrappers

  predicate OccursAt(text: string, pat: string, i: int) {
    0 <= i && i + |pat| <= |text| && text[i..i + |pat|] == pat
  }

  /** The first occurrence at or after `from`. */
  function FindFrom(text: string, pat: string, from: nat): (r: Option<nat>)
    ensures r.Some? ==> from <= r.value <= |text| - |pat| && OccursAt(text, pat, r.value)
    ensures r.Some? ==> forall j | from <= j < r.value :: !OccursAt(text, pat, j)
    ensures r.None? ==> forall j | from <= j :: !OccursAt(text, pat, j)
    decreases |text| - from
  {
    if |text| < from + |pat| then None
    else if text[from..from + |pat|] == pat then Some(from)
    else FindFrom(text, pat, from + 1)
  }

  function Find(text: string, pat: string): (r: Option<nat>)
    ensures r.Some? ==> OccursAt(text, pat, r.value)
  {
    FindFrom(text, pat, 0)
  }

  ghost predicate Contains(text: string, pat: string) {
    exists i :: OccursAt(text, pat, i)
  }

  /** An occurrence puts each character of the pattern in its place. */
  lemma OccursChars(text: string, pat: string, i: int)
    ensures OccursAt(text, pat, i) ==> forall k | 0 <= k < |pat| :: text[i + k] == pat[k]
  {
    if OccursAt(text, pat, i) {
      forall k | 0 <= k < |pat| ensures text[i + k] == pat[k] {
        assert text[i..i + |pat|][k] == text[i + k];
      }
    }
  }

  lemma FindMeans(text: string, pat: string)
    ensures Find(text, pat).Some? <==> Contains(text, pat)
  {
  }

  lemma FindIs(text: string, pat: string, i: nat)
    requires OccursAt(text, pat, i) && forall j | 0 <= j < i :: !OccursAt(text, pat, j)
    ensures Find(text, pat) == Some(i)
  {
  }

  lemma OccursInPrefix(a: string, b: string, pat: string, i: int)
    requires i + |pat| <= |a|
    ensures OccursAt(a + b, pat, i) <==> OccursAt(a, pat, i)
  {
    if 0 <= i {
      assert (a + b)[i..i + |pat|] == a[i..i + |pat|];
    }
  }

  lemma OccursInSuffix(a: string, b: string, pat: string, i: int)
    requires |a| <= i
    ensures OccursAt(a + b, pat, i) <==> OccursAt(b, pat, i - |a|)
  {
    if i + |pat| <= |a + b| {
      assert (a + b)[i..i + |pat|] == b[i - |a|..i - |a| + |pat|];
    }
  }
}
