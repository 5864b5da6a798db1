/**
 The redaction loops for stderr lines (src/backend/codex_stderr.rs).

 Positions count characters, where the program counts bytes; the two agree wherever a cursor lands on a character
 boundary, which it always does while every scanned value is non-empty.
 */
module Redaction {
  import opened Wrappers

  // ---------------------------------------------------------------------------
  // The loop
  // ---------------------------------------------------------------------------

  /** The Unicode White_Space characters. */
  predicate IsWhitespace(c: char) {
    || '\U{9}' <= c <= '\U{d}' || c == ' ' || c == '\U{85}' || c == '\U{a0}' || c == '\U{1680}'
    || '\U{2000}' <= c <= '\U{200a}' || c == '\U{2028}' || c == '\U{2029}' || c == '\U{202f}' || c == '\U{205f}'
    || c == '\U{3000}'
  }

  /** The characters that end a value. */
  predicate EndsValue(c: char) {
    IsWhitespace(c) || c == '"' || c == '\'' || c == '`' || c == ')' || c == ']' || c == '}'
  }

  /** A token prefix is matched as written, a key without regard to ASCII case. */
  datatype Key = Key(pattern: string, ignoreCase: bool)

  function Fold(c: char, ignoreCase: bool): char {
    if ignoreCase && 'A' <= c <= 'Z' then c - 'A' + 'a' else c
  }

  predicate KeyAt(text: string, key: Key, i: int) {
    0 <= i && i + |key.pattern| <= |text|
    && forall k | 0 <= k < |key.pattern| :: Fold(text[i + k], key.ignoreCase) == key.pattern[k]
  }

  /** The first occurrence of the key at or after `from`. */
  function NextKey(text: string, key: Key, from: nat): (r: Option<nat>)
    ensures r.Some? ==> from <= r.value <= |text| - |key.pattern|
    decreases |text| - from
  {
    if |text| < from + |key.pattern| then None
    else if KeyAt(text, key, from) then Some(from)
    else NextKey(text, key, from + 1)
  }

  lemma {:induction false} NextKeyIsFirst(text: string, key: Key, from: nat)
    ensures var r := NextKey(text, key, from);
            && (r.Some? ==> KeyAt(text, key, r.value))
            && forall j | from <= j && KeyAt(text, key, j) :: r.Some? && r.value <= j
    decreases |text| - from
  {
    if |text| < from + |key.pattern| || KeyAt(text, key, from) {
    } else {
      NextKeyIsFirst(text, key, from + 1);
    }
  }

  lemma NextKeyStands(text: string, key: Key, from: nat)
    requires NextKey(text, key, from).Some?
    ensures KeyAt(text, key, NextKey(text, key, from).value)
  {
    NextKeyIsFirst(text, key, from);
  }

  lemma NextKeyBefore(text: string, key: Key, from: nat, j: nat)
    requires from <= j && KeyAt(text, key, j)
    ensures NextKey(text, key, from).Some? && NextKey(text, key, from).value <= j
  {
    NextKeyIsFirst(text, key, from);
  }

  function ValueEnd(text: string, start: nat): (end: nat)
    requires start <= |text|
    ensures start <= end <= |text|
    decreases |text| - start
  {
    if start == |text| || EndsValue(text[start]) then start else ValueEnd(text, start + 1)
  }

  lemma {:induction false} ValueEndsFirst(text: string, start: nat, end: nat)
    requires start <= end <= |text|
    requires forall k | start <= k < end :: !EndsValue(text[k])
    requires end < |text| ==> EndsValue(text[end])
    ensures ValueEnd(text, start) == end
    decreases end - start
  {
    if start < end {
      ValueEndsFirst(text, start + 1, end);
    }
  }

  lemma {:induction false} ValueStops(text: string, start: nat)
    requires start <= |text|
    ensures ValueEnd(text, start) < |text| ==> EndsValue(text[ValueEnd(text, start)])
    decreases |text| - start
  {
    if start < |text| && !EndsValue(text[start]) {
      ValueStops(text, start + 1);
    }
  }

  function Mask(): string { "<redacted>" }

  const MASK_LENGTH: nat := 10

  function Masked(text: string, start: nat, end: nat): string
    requires start <= end <= |text|
  {
    if start < end then Spliced(text, start, end) else text
  }

  /** `replace_range(start..end, "<redacted>")` */
  function Spliced(text: string, start: nat, end: nat): (out: string)
    requires start <= end <= |text|
    ensures |out| == |text| - (end - start) + MASK_LENGTH
  {
    text[..start] + Mask() + text[end..]
  }

  /** The loop from cursor `from` on; None is the panic of a slice that starts past the end. */
  function Scan(text: string, key: Key, from: nat): Option<string>
    decreases |text| + MASK_LENGTH + |key.pattern| - from
  {
    if |text| < from then None
    else match NextKey(text, key, from)
      case None => Some(text)
      case Some(i) =>
        var start := i + |key.pattern|;
        Scan(Masked(text, start, ValueEnd(text, start)), key, start + MASK_LENGTH)
  }

  lemma ScanUnfolds(text: string, key: Key, from: nat)
    ensures |text| < from ==> Scan(text, key, from) == None
    ensures from <= |text| && NextKey(text, key, from).None? ==> Scan(text, key, from) == Some(text)
    ensures from <= |text| && NextKey(text, key, from).Some? ==>
              var start := NextKey(text, key, from).value + |key.pattern|;
              Scan(text, key, from) == Scan(Masked(text, start, ValueEnd(text, start)), key, start + MASK_LENGTH)
  {
    hide KeyAt, EndsValue, Spliced, NextKey, ValueEnd, Masked;
  }

  method RedactKey(line: string, key: Key) returns (r: Option<string>)
    ensures r == Scan(line, key, 0)
  {
    hide KeyAt, EndsValue, Spliced, Scan, NextKey, ValueEnd;
    var out := line;
    var searchFrom: nat := 0;
    while true
      invariant Scan(line, key, 0) == Scan(out, key, searchFrom)
      decreases |out| + MASK_LENGTH + |key.pattern| - searchFrom
    {
      ScanUnfolds(out, key, searchFrom);
      if |out| < searchFrom {
        return None;
      }
      var relative := NextKey(out, key, searchFrom);
      if relative.None? {
        return Some(out);
      }
      var start := relative.value + |key.pattern|;
      var end := ValueEnd(out, start);
      if end > start {
        out := Spliced(out, start, end);
      }
      searchFrom := start + MASK_LENGTH;
    }
  }

  // ---------------------------------------------------------------------------
  // Masks
  // ---------------------------------------------------------------------------

  predicate MaskAt(text: string, s: int) {
    0 <= s && s + MASK_LENGTH <= |text| && text[s..s + MASK_LENGTH] == Mask()
  }

  predicate MaskLetter(c: char) {
    c == 'r' || c == 'e' || c == 'd' || c == 'a' || c == 'c' || c == 't'
  }

  lemma MaskChars(text: string, s: int)
    requires MaskAt(text, s)
    ensures text[s] == '<' && text[s + 9] == '>' && forall k | s < k < s + 9 :: MaskLetter(text[k])
  {
    var m := text[s..s + MASK_LENGTH];
    assert m[0] == '<' && m[9] == '>';
    assert m[1] == 'r' && m[2] == 'e' && m[3] == 'd' && m[4] == 'a' && m[5] == 'c' && m[6] == 't' && m[7] == 'e' && m[8] == 'd';
    assert forall k | s < k < s + 9 :: text[k] == m[k - s];
  }

  /** A pattern that cannot be read inside a mask or across its ends. */
  ghost predicate Distinct(key: Key) {
    && (forall k | 0 <= k < |key.pattern| :: key.pattern[k] != '<' && key.pattern[k] != '>')
    && (exists k :: 0 <= k < |key.pattern| && !MaskLetter(key.pattern[k]))
  }

  lemma KeyChars(text: string, key: Key, i: int)
    requires KeyAt(text, key, i)
    ensures forall j | i <= j < i + |key.pattern| :: Fold(text[j], key.ignoreCase) == key.pattern[j - i]
  {
    forall j | i <= j < i + |key.pattern| ensures Fold(text[j], key.ignoreCase) == key.pattern[j - i] {
      assert text[j] == text[i + (j - i)];
    }
  }

  lemma NoOverlap(text: string, key: Key, i: int, s: int)
    requires Distinct(key) && KeyAt(text, key, i) && MaskAt(text, s)
    ensures i + |key.pattern| <= s || s + MASK_LENGTH <= i
  {
    MaskChars(text, s);
    KeyChars(text, key, i);
  }

  /** A whole value that is the mask. */
  predicate FollowedByMask(text: string, s: int) {
    MaskAt(text, s) && (s + MASK_LENGTH == |text| || EndsValue(text[s + MASK_LENGTH]))
  }

  ghost predicate Redacted(text: string, key: Key) {
    forall i | KeyAt(text, key, i) :: FollowedByMask(text, i + |key.pattern|)
  }

  /** Every occurrence of the key has a non-empty value. */
  ghost predicate Valued(text: string, key: Key) {
    forall i | KeyAt(text, key, i) :: HasValue(text, i + |key.pattern|)
  }

  predicate HasValue(text: string, s: int) {
    0 <= s < |text| && !EndsValue(text[s])
  }

  lemma MaskEndsLast(text: string, s: nat)
    requires FollowedByMask(text, s)
    ensures ValueEnd(text, s) == s + MASK_LENGTH
  {
    MaskChars(text, s);
    assert forall k | s <= k < s + MASK_LENGTH :: !EndsValue(text[k]);
    ValueEndsFirst(text, s, s + MASK_LENGTH);
  }

  lemma MaskingAMask(text: string, s: nat)
    requires MaskAt(text, s)
    ensures Masked(text, s, s + MASK_LENGTH) == text
  {
    hide Mask;
    assert text == text[..s] + text[s..s + MASK_LENGTH] + text[s + MASK_LENGTH..];
  }

  /** A pass over text whose values are all masked changes nothing. */
  lemma {:induction false} SecondPassIsIdentity(text: string, key: Key, from: nat)
    requires Redacted(text, key) && from <= |text|
    ensures Scan(text, key, from) == Some(text)
    decreases |text| - from
  {
    ScanUnfolds(text, key, from);
    hide Scan, NextKey, ValueEnd, KeyAt, EndsValue, Masked;
    var next := NextKey(text, key, from);
    if next.Some? {
      NextKeyStands(text, key, from);
      var s := next.value + |key.pattern|;
      MaskEndsLast(text, s);
      MaskingAMask(text, s);
      SecondPassIsIdentity(text, key, s + MASK_LENGTH);
    }
  }

  // ---------------------------------------------------------------------------
  // One replacement
  // ---------------------------------------------------------------------------

  /** Masking one value in place: what stands where afterwards. */
  lemma MaskedChars(text: string, start: nat, end: nat)
    requires start < end <= |text|
    ensures var out := Masked(text, start, end);
            && |out| == |text| - (end - start) + MASK_LENGTH && MaskAt(out, start)
            && out[..start] == text[..start] && out[start + MASK_LENGTH..] == text[end..]
  {
    var out := text[..start] + Mask() + text[end..];
    assert out[..start] == text[..start] && out[start..start + MASK_LENGTH] == Mask();
    assert out[start + MASK_LENGTH..] == text[end..];
  }

  /** Occurrences that end by `n` are those of any text with the same first `n` characters. */
  lemma SameBefore(a: string, b: string, n: nat, key: Key, i: int)
    requires n <= |a| && n <= |b| && a[..n] == b[..n] && i + |key.pattern| <= n
    ensures KeyAt(a, key, i) <==> KeyAt(b, key, i)
  {
    assert forall k | 0 <= k < n :: a[k] == a[..n][k] && b[k] == b[..n][k];
  }

  lemma SameSuffix(a: string, m: nat, b: string, n: nat)
    requires m <= |a| && n <= |b| && a[m..] == b[n..]
    ensures |a| - m == |b| - n && forall k | m <= k < |a| :: a[k] == b[k - m + n]
  {
    forall k | m <= k < |a| ensures a[k] == b[k - m + n] {
      assert a[k] == a[m..][k - m] && b[k - m + n] == b[n..][k - m];
    }
  }

  lemma KeyCarriesOver(a: string, m: nat, b: string, n: nat, key: Key, i: int)
    requires m <= |a| && n <= |b| && a[m..] == b[n..] && m <= i && KeyAt(a, key, i)
    ensures KeyAt(b, key, i - m + n)
  {
    SameSuffix(a, m, b, n);
    forall k | 0 <= k < |key.pattern| ensures Fold(b[i - m + n + k], key.ignoreCase) == key.pattern[k] {
      assert a[i + k] == b[i + k - m + n];
    }
  }

  lemma SameAfter(a: string, m: nat, b: string, n: nat, key: Key, i: int)
    requires m <= |a| && n <= |b| && a[m..] == b[n..] && m <= i
    ensures KeyAt(a, key, i) <==> KeyAt(b, key, i - m + n)
  {
    hide KeyAt;
    if KeyAt(a, key, i) {
      KeyCarriesOver(a, m, b, n, key, i);
    }
    if KeyAt(b, key, i - m + n) {
      KeyCarriesOver(b, n, a, m, key, i - m + n);
    }
  }

  lemma SameMaskAfter(a: string, m: nat, b: string, n: nat, s: int)
    requires m <= |a| && n <= |b| && a[m..] == b[n..] && m <= s
    ensures FollowedByMask(a, s) <==> FollowedByMask(b, s - m + n)
  {
    hide Mask, EndsValue;
    SameSuffix(a, m, b, n);
    if s + MASK_LENGTH <= |a| {
      var t := s - m + n;
      var x, y := a[s..s + MASK_LENGTH], b[t..t + MASK_LENGTH];
      forall k | 0 <= k < MASK_LENGTH ensures x[k] == y[k] {
        assert a[s + k] == b[s + k - m + n];
      }
      assert x == y;
    }
  }

  /** The value of key `p` that is about to be masked. */
  predicate ValueOf(text: string, p: Key, start: nat, end: nat) {
    start < end <= |text| && KeyAt(text, p, start - |p.pattern|) && end == ValueEnd(text, start)
  }

  /** Masking a value of one key leaves every value of another key as full, and as masked, as it was. */
  lemma MaskingKeepsOthers(text: string, p: Key, start: nat, end: nat, q: Key, i: int)
    requires Distinct(p) && Distinct(q) && ValueOf(text, p, start, end)
    requires KeyAt(Masked(text, start, end), q, i)
    ensures var out := Masked(text, start, end);
            var s := i + |q.pattern|;
            var j := if s <= start then i else i - (start + MASK_LENGTH) + end;
            && KeyAt(text, q, j)
            && (HasValue(text, j + |q.pattern|) ==> HasValue(out, s))
            && (FollowedByMask(text, j + |q.pattern|) ==> FollowedByMask(out, s))
  {
    var out := Masked(text, start, end);
    var s := i + |q.pattern|;
    MaskedChars(text, start, end);
    NoOverlap(out, q, i, start);
    KeyInside(out, q, i);
    hide Masked, EndsValue, Distinct, MaskAt, Mask, KeyAt, Fold, FollowedByMask, HasValue, ValueOf;
    if s <= start {
      KeepsOthersBefore(text, p, start, end, q, i);
    } else {
      KeepsOthersAfter(text, start, end, q, i);
    }
  }

  lemma KeepsOthersBefore(text: string, p: Key, start: nat, end: nat, q: Key, i: nat)
    requires Distinct(p) && ValueOf(text, p, start, end)
    requires KeyAt(Masked(text, start, end), q, i) && i + |q.pattern| <= start
    ensures var out := Masked(text, start, end);
            var s := i + |q.pattern|;
            KeyAt(text, q, i) && (HasValue(text, s) ==> HasValue(out, s)) && (FollowedByMask(text, s) ==> FollowedByMask(out, s))
  {
    var s := i + |q.pattern|;
    MaskedChars(text, start, end);
    hide Masked, EndsValue, Distinct, MaskAt, Mask, KeyAt, Fold, FollowedByMask, HasValue;
    SameBefore(Masked(text, start, end), text, start, q, i);
    if HasValue(text, s) {
      KeepsValueBefore(text, p, start, end, s);
    }
    if FollowedByMask(text, s) {
      KeepsMaskBefore(text, p, start, end, s);
    }
  }

  lemma KeepsOthersAfter(text: string, start: nat, end: nat, q: Key, i: nat)
    requires start < end <= |text| && KeyAt(Masked(text, start, end), q, i) && start + MASK_LENGTH <= i
    ensures var out := Masked(text, start, end);
            var s := i + |q.pattern|;
            var j := i - (start + MASK_LENGTH) + end;
            && KeyAt(text, q, j)
            && (HasValue(text, j + |q.pattern|) ==> HasValue(out, s))
            && (FollowedByMask(text, j + |q.pattern|) ==> FollowedByMask(out, s))
  {
    var out := Masked(text, start, end);
    var s := i + |q.pattern|;
    MaskedChars(text, start, end);
    hide Masked, EndsValue, MaskAt, Mask, KeyAt, Fold, FollowedByMask;
    SameAfter(out, start + MASK_LENGTH, text, end, q, i);
    SameMaskAfter(out, start + MASK_LENGTH, text, end, s);
    SameSuffix(out, start + MASK_LENGTH, text, end);
  }

  lemma KeyInside(text: string, key: Key, i: int)
    requires KeyAt(text, key, i)
    ensures 0 <= i && i + |key.pattern| <= |text|
  {
  }

  lemma KeepsValueBefore(text: string, p: Key, start: nat, end: nat, s: nat)
    requires ValueOf(text, p, start, end) && s <= start && HasValue(text, s)
    ensures HasValue(Masked(text, start, end), s)
  {
    var out := Masked(text, start, end);
    MaskedChars(text, start, end);
    MaskChars(out, start);
    hide Masked, MaskAt, Mask, KeyAt, Fold;
    if s < start {
      assert out[s] == out[..start][s] && text[s] == text[..start][s];
    }
  }

  lemma KeepsMaskBefore(text: string, p: Key, start: nat, end: nat, s: nat)
    requires Distinct(p) && ValueOf(text, p, start, end) && s <= start && FollowedByMask(text, s)
    ensures FollowedByMask(Masked(text, start, end), s)
  {
    NoOverlap(text, p, start - |p.pattern|, s);
    assert !EndsValue(text[start]);
    if s == start {
      MaskEndsLast(text, s);
      MaskingAMask(text, s);
    } else {
      MaskBeforeStays(text, start, end, s);
    }
  }

  lemma MaskBeforeStays(text: string, start: nat, end: nat, s: nat)
    requires start < end <= |text| && FollowedByMask(text, s) && s + MASK_LENGTH < start
    ensures FollowedByMask(Masked(text, start, end), s)
  {
    var out := Masked(text, start, end);
    MaskedChars(text, start, end);
    MaskChars(out, start);
    hide Masked, Mask;
    assert out[s..s + MASK_LENGTH] == out[..start][s..s + MASK_LENGTH] == text[s..s + MASK_LENGTH];
    assert out[s + MASK_LENGTH] == out[..start][s + MASK_LENGTH] == text[s + MASK_LENGTH];
  }

  // ---------------------------------------------------------------------------
  // One key
  // ---------------------------------------------------------------------------

  /** Reading values one after the other, none is empty: what the loop needs of the line it is given. */
  predicate NoEmptyValue(text: string, key: Key, from: nat)
    requires from <= |text|
    decreases |text| - from
  {
    var next := NextKey(text, key, from);
    next.None? ||
    var start := next.value + |key.pattern|;
    var end := ValueEnd(text, start);
    start < end && NoEmptyValue(text, key, end)
  }

  /** The text from `from` on with every value replaced, written without a cursor into a changing string. */
  function MaskEach(text: string, key: Key, from: nat): string
    requires from <= |text|
    requires NoEmptyValue(text, key, from)
    decreases |text| - from
  {
    var next := NextKey(text, key, from);
    if next.None? then text[from..]
    else
      var start := next.value + |key.pattern|;
      text[from..start] + Mask() + MaskEach(text, key, ValueEnd(text, start))
  }

  lemma NextKeyShift(a: string, m: nat, b: string, n: nat, key: Key)
    requires m <= |a| && n <= |b| && a[m..] == b[n..]
    ensures NextKey(a, key, m).Some? <==> NextKey(b, key, n).Some?
    ensures NextKey(a, key, m).Some? ==> NextKey(a, key, m).value - m == NextKey(b, key, n).value - n
  {
    var x, y := NextKey(a, key, m), NextKey(b, key, n);
    hide KeyAt, NextKey;
    if x.Some? {
      NextKeyStands(a, key, m);
      SameAfter(a, m, b, n, key, x.value);
      NextKeyBefore(b, key, n, x.value - m + n);
    }
    if y.Some? {
      NextKeyStands(b, key, n);
      SameAfter(b, n, a, m, key, y.value);
      NextKeyBefore(a, key, m, y.value - n + m);
    }
  }

  lemma {:induction false} ValueEndShift(a: string, m: nat, b: string, n: nat)
    requires m <= |a| && n <= |b| && a[m..] == b[n..]
    ensures ValueEnd(a, m) - m == ValueEnd(b, n) - n
    decreases |a| - m
  {
    SameSuffix(a, m, b, n);
    if m < |a| && !EndsValue(a[m]) {
      SuffixOf(a, m, b, n, 1);
      ValueEndShift(a, m + 1, b, n + 1);
    }
  }

  lemma SuffixOf(a: string, m: nat, b: string, n: nat, d: nat)
    requires m <= |a| && n <= |b| && a[m..] == b[n..] && m + d <= |a|
    ensures n + d <= |b| && a[m + d..] == b[n + d..] && a[m..m + d] == b[n..n + d]
  {
    assert a[m + d..] == a[m..][d..] && b[n + d..] == b[n..][d..];
    assert a[m..m + d] == a[m..][..d] && b[n..n + d] == b[n..][..d];
  }

  lemma NoEmptyUnfolds(text: string, key: Key, from: nat)
    requires from <= |text|
    ensures NextKey(text, key, from).None? ==> NoEmptyValue(text, key, from)
    ensures NextKey(text, key, from).Some? ==>
              var start := NextKey(text, key, from).value + |key.pattern|;
              var end := ValueEnd(text, start);
              NoEmptyValue(text, key, from) <==> start < end && NoEmptyValue(text, key, end)
  {
    hide KeyAt, NextKey, ValueEnd, EndsValue;
  }

  lemma MaskEachUnfolds(text: string, key: Key, from: nat)
    requires from <= |text| && NoEmptyValue(text, key, from)
    ensures NextKey(text, key, from).None? ==> MaskEach(text, key, from) == text[from..]
    ensures NextKey(text, key, from).Some? ==>
              var start := NextKey(text, key, from).value + |key.pattern|;
              var end := ValueEnd(text, start);
              && start < end && NoEmptyValue(text, key, end)
              && MaskEach(text, key, from) == text[from..start] + Mask() + MaskEach(text, key, end)
  {
    hide KeyAt, NextKey, ValueEnd, EndsValue, Mask;
  }

  /** Both depend on the text from the cursor on only. */
  lemma {:induction false} NoEmptyValueShift(a: string, m: nat, b: string, n: nat, key: Key)
    requires m <= |a| && n <= |b| && a[m..] == b[n..]
    ensures NoEmptyValue(a, key, m) <==> NoEmptyValue(b, key, n)
    decreases |a| - m
  {
    hide KeyAt, NextKey, ValueEnd, EndsValue, NoEmptyValue, Fold;
    NextValueShift(a, m, b, n, key);
    NoEmptyUnfolds(a, key, m);
    NoEmptyUnfolds(b, key, n);
    var x, y := NextKey(a, key, m), NextKey(b, key, n);
    if x.Some? && x.value + |key.pattern| < ValueEnd(a, x.value + |key.pattern|) {
      NoEmptyValueShift(a, ValueEnd(a, x.value + |key.pattern|), b, ValueEnd(b, y.value + |key.pattern|), key);
    }
  }

  lemma NextValueShift(a: string, m: nat, b: string, n: nat, key: Key)
    requires m <= |a| && n <= |b| && a[m..] == b[n..]
    ensures NextKey(a, key, m).Some? <==> NextKey(b, key, n).Some?
    ensures NextKey(a, key, m).Some? ==>
              var s, t := NextKey(a, key, m).value + |key.pattern|, NextKey(b, key, n).value + |key.pattern|;
              && s - m == t - n && a[m..s] == b[n..t] && ValueEnd(a, s) - s == ValueEnd(b, t) - t
              && a[ValueEnd(a, s)..] == b[ValueEnd(b, t)..]
  {
    hide KeyAt, NextKey, ValueEnd, EndsValue, Fold;
    NextKeyShift(a, m, b, n, key);
    var x, y := NextKey(a, key, m), NextKey(b, key, n);
    if x.Some? {
      var s, t := x.value + |key.pattern|, y.value + |key.pattern|;
      SuffixOf(a, m, b, n, s - m);
      ValueEndShift(a, s, b, t);
      SuffixOf(a, s, b, t, ValueEnd(a, s) - s);
    }
  }

  lemma {:induction false} MaskEachShift(a: string, m: nat, b: string, n: nat, key: Key)
    requires m <= |a| && n <= |b| && a[m..] == b[n..] && NoEmptyValue(a, key, m)
    ensures NoEmptyValue(b, key, n) && MaskEach(a, key, m) == MaskEach(b, key, n)
    decreases |a| - m
  {
    hide KeyAt, NextKey, ValueEnd, EndsValue, Mask, MaskEach, NoEmptyValue, Fold;
    NextValueShift(a, m, b, n, key);
    NoEmptyValueShift(a, m, b, n, key);
    MaskEachUnfolds(a, key, m);
    MaskEachUnfolds(b, key, n);
    var x, y := NextKey(a, key, m), NextKey(b, key, n);
    if x.Some? {
      MaskEachShift(a, ValueEnd(a, x.value + |key.pattern|), b, ValueEnd(b, y.value + |key.pattern|), key);
    }
  }

  /** The step that masks one value leaves the rest of the work as it was. */
  lemma StepShift(text: string, start: nat, end: nat, key: Key)
    requires start < end <= |text|
    ensures start + MASK_LENGTH <= |Masked(text, start, end)| == |text| - (end - start) + MASK_LENGTH
    ensures NoEmptyValue(Masked(text, start, end), key, start + MASK_LENGTH) <==> NoEmptyValue(text, key, end)
  {
    MaskedStarts(text, start, end);
    hide Masked, Mask, NoEmptyValue;
    NoEmptyValueShift(Masked(text, start, end), start + MASK_LENGTH, text, end, key);
  }

  lemma StepShiftsTheRest(text: string, start: nat, end: nat, key: Key)
    requires start < end <= |text| && NoEmptyValue(text, key, end)
    ensures var step := Masked(text, start, end);
            && start + MASK_LENGTH <= |step| && NoEmptyValue(step, key, start + MASK_LENGTH)
            && step[..start + MASK_LENGTH] + MaskEach(step, key, start + MASK_LENGTH)
               == text[..start] + Mask() + MaskEach(text, key, end)
  {
    MaskedStarts(text, start, end);
    hide Masked, Mask, MaskEach, NoEmptyValue;
    MaskEachShift(text, end, Masked(text, start, end), start + MASK_LENGTH, key);
  }

  /** The text before the cursor is final. */
  lemma {:induction false} ScanKeepsPrefix(text: string, key: Key, from: nat)
    requires Scan(text, key, from).Some?
    ensures var out := Scan(text, key, from).value;
            from <= |text| && from <= |out| && out[..from] == text[..from]
    decreases |text| + MASK_LENGTH + |key.pattern| - from
  {
    ScanUnfolds(text, key, from);
    var next := NextKey(text, key, from);
    hide Scan, KeyAt, NextKey, ValueEnd, EndsValue, Mask, Masked;
    if next.Some? {
      var start := next.value + |key.pattern|;
      var end := ValueEnd(text, start);
      var step := Masked(text, start, end);
      MaskedKeepsStart(text, start, end);
      ScanKeepsPrefix(step, key, start + MASK_LENGTH);
      var out := Scan(text, key, from).value;
      assert out[..from] == out[..start + MASK_LENGTH][..from] == step[..start + MASK_LENGTH][..from];
      assert step[..from] == step[..start][..from] == text[..start][..from];
    }
  }

  lemma MaskedLength(text: string, start: nat, end: nat)
    requires start <= end <= |text|
    ensures |Masked(text, start, end)| == if start < end then |text| - (end - start) + MASK_LENGTH else |text|
  {
  }

  lemma EmptyIsUnchanged(text: string, start: nat)
    requires start <= |text|
    ensures Masked(text, start, start) == text
  {
  }

  lemma MaskedKeepsStart(text: string, start: nat, end: nat)
    requires start <= end <= |text|
    ensures |Masked(text, start, end)| == if start < end then |text| - (end - start) + MASK_LENGTH else |text|
    ensures Masked(text, start, end)[..start] == text[..start]
  {
    if start < end {
      MaskedChars(text, start, end);
    }
  }

  lemma MaskedStarts(text: string, start: nat, end: nat)
    requires start < end <= |text|
    ensures var step := Masked(text, start, end);
            && start + MASK_LENGTH <= |step| == |text| - (end - start) + MASK_LENGTH
            && step[start + MASK_LENGTH..] == text[end..] && step[..start + MASK_LENGTH] == text[..start] + Mask()
  {
    MaskedChars(text, start, end);
    var step := Masked(text, start, end);
    hide Masked, Mask;
    assert step[..start + MASK_LENGTH] == step[..start] + step[start..start + MASK_LENGTH];
  }

  lemma Regroup(text: string, from: nat, start: nat, mask: string, rest: string)
    requires from <= start <= |text|
    ensures (text[..start] + mask) + rest == text[..from] + (text[from..start] + mask + rest)
  {
    assert text[..start] == text[..from] + text[from..start];
  }

  /** The cursor loop computes the reference form exactly: it masks each value in turn and changes nothing else. */
  lemma {:induction false} ScanMasksEach(text: string, key: Key, from: nat)
    requires from <= |text| && NoEmptyValue(text, key, from)
    ensures Scan(text, key, from) == Some(text[..from] + MaskEach(text, key, from))
    decreases |text| - from
  {
    hide Scan, KeyAt, NextKey, ValueEnd, EndsValue, Mask, Masked, MaskEach, NoEmptyValue, Fold;
    ScanUnfolds(text, key, from);
    MaskEachUnfolds(text, key, from);
    var next := NextKey(text, key, from);
    if next.Some? {
      var start := next.value + |key.pattern|;
      var end := ValueEnd(text, start);
      var step := Masked(text, start, end);
      MaskedLength(text, start, end);
      StepShiftsTheRest(text, start, end, key);
      ScanMasksEach(step, key, start + MASK_LENGTH);
      Regroup(text, from, start, Mask(), MaskEach(text, key, end));
    } else {
      assert text == text[..from] + text[from..];
    }
  }

  /** Every occurrence that starts before the cursor is masked, and its mask ends before the cursor. */
  ghost predicate Done(text: string, key: Key, from: nat) {
    forall i | KeyAt(text, key, i) && i < from ::
      i + |key.pattern| + MASK_LENGTH <= from && FollowedByMask(text, i + |key.pattern|)
  }

  lemma DoneAt(text: string, key: Key, from: nat, i: int)
    requires Done(text, key, from) && KeyAt(text, key, i) && i < from
    ensures i + |key.pattern| + MASK_LENGTH <= from && FollowedByMask(text, i + |key.pattern|)
  {
  }

  /** The value just written is a mask, and it is the whole value. */
  lemma ValueIsMasked(text: string, start: nat)
    requires start <= |text| && start < ValueEnd(text, start)
    ensures FollowedByMask(Masked(text, start, ValueEnd(text, start)), start)
  {
    var end := ValueEnd(text, start);
    var step := Masked(text, start, end);
    MaskedChars(text, start, end);
    ValueStops(text, start);
    hide Masked, Mask, ValueEnd;
    if end < |text| {
      assert step[start + MASK_LENGTH] == step[start + MASK_LENGTH..][0] == text[end..][0];
    }
  }

  /** The value that the loop reads next. */
  predicate Reads(text: string, key: Key, from: nat, start: nat, end: nat) {
    start <= |text| && NextKey(text, key, from) == Some(start - |key.pattern|) && end == ValueEnd(text, start)
  }

  lemma ReadIsValue(text: string, key: Key, from: nat, start: nat, end: nat)
    requires Reads(text, key, from, start, end) && start < end
    ensures end <= |text| && ValueOf(text, key, start, end)
    ensures FollowedByMask(Masked(text, start, end), start)
  {
    NextKeyStands(text, key, from);
    ValueIsMasked(text, start);
  }

  lemma ReadIsFirst(text: string, key: Key, from: nat, start: nat, end: nat, i: nat)
    requires Reads(text, key, from, start, end) && KeyAt(text, key, i) && from <= i && i + |key.pattern| <= start
    ensures i + |key.pattern| == start
  {
    NextKeyBefore(text, key, from, i);
  }

  /** One turn of the loop keeps `Done`. */
  lemma StepKeepsDone(text: string, key: Key, from: nat, start: nat, end: nat)
    requires from <= |text| && Distinct(key) && Done(text, key, from) && Reads(text, key, from, start, end) && start < end
    ensures Done(Masked(text, start, end), key, start + MASK_LENGTH)
  {
    hide Masked, KeyAt, Distinct, FollowedByMask, MaskAt, Reads, ValueOf, ValueEnd, NextKey, EndsValue;
    ReadIsValue(text, key, from, start, end);
    var step := Masked(text, start, end);
    forall i | KeyAt(step, key, i) && i < start + MASK_LENGTH
      ensures i + |key.pattern| <= start && FollowedByMask(step, i + |key.pattern|)
    {
      OccurrenceBefore(text, key, start, end, i);
      if i < from {
        DoneAt(text, key, from, i);
        KeyInside(text, key, i);
        KeepsMaskBefore(text, key, start, end, i + |key.pattern|);
      } else {
        ReadIsFirst(text, key, from, start, end, i);
      }
    }
  }

  lemma OccurrenceBefore(text: string, key: Key, start: nat, end: nat, i: int)
    requires Distinct(key) && ValueOf(text, key, start, end)
    requires KeyAt(Masked(text, start, end), key, i) && i < start + MASK_LENGTH
    ensures i + |key.pattern| <= start && KeyAt(text, key, i)
  {
    var step := Masked(text, start, end);
    MaskedChars(text, start, end);
    NoOverlap(step, key, i, start);
    hide Masked, ValueEnd, EndsValue, Mask, KeyAt;
    SameBefore(step, text, start, key, i);
  }

  /** If no value is empty, the loop ends without a panic and leaves every occurrence followed by the mask. */
  lemma {:induction false} RedactsWhenValued(text: string, key: Key, from: nat)
    requires Distinct(key) && from <= |text| && NoEmptyValue(text, key, from) && Done(text, key, from)
    ensures Scan(text, key, from).Some? && Redacted(Scan(text, key, from).value, key)
    decreases |text| - from
  {
    hide Scan, KeyAt, NextKey, ValueEnd, EndsValue, Mask, Masked, NoEmptyValue, Distinct, Done, FollowedByMask, Redacted,
      Reads;
    ScanUnfolds(text, key, from);
    NoEmptyUnfolds(text, key, from);
    var next := NextKey(text, key, from);
    if next.None? {
      DoneAtTheEnd(text, key, from);
    } else {
      var start := next.value + |key.pattern|;
      var end := ValueEnd(text, start);
      ReadsNext(text, key, from);
      StepShift(text, start, end, key);
      StepKeepsDone(text, key, from, start, end);
      RedactsWhenValued(Masked(text, start, end), key, start + MASK_LENGTH);
    }
  }

  lemma ReadsNext(text: string, key: Key, from: nat)
    requires NextKey(text, key, from).Some?
    ensures var start := NextKey(text, key, from).value + |key.pattern|;
            Reads(text, key, from, start, ValueEnd(text, start))
  {
    hide NextKey, ValueEnd;
  }

  lemma DoneAtTheEnd(text: string, key: Key, from: nat)
    requires Done(text, key, from) && NextKey(text, key, from).None?
    ensures Redacted(text, key)
  {
    hide KeyAt, NextKey, FollowedByMask;
    forall i | KeyAt(text, key, i) ensures FollowedByMask(text, i + |key.pattern|) {
      if from <= i {
        NextKeyBefore(text, key, from, i);
      }
    }
  }

  /** At an empty value the cursor moves past text it has not replaced: the loop panics or leaves the occurrence bare. */
  lemma {:induction false} BareWhenEmpty(text: string, key: Key, from: nat)
    requires from <= |text| && !NoEmptyValue(text, key, from) && Scan(text, key, from).Some?
    ensures !Redacted(Scan(text, key, from).value, key)
    decreases |text| - from
  {
    hide Scan, NextKey, KeyAt, Mask, Masked, NoEmptyValue, Redacted, EndsValue, ValueEnd, Fold;
    ScanUnfolds(text, key, from);
    NoEmptyUnfolds(text, key, from);
    var next := NextKey(text, key, from);
    if next.Some? {
      var start := next.value + |key.pattern|;
      var end := ValueEnd(text, start);
      if start < end {
        var step := Masked(text, start, end);
        StepShift(text, start, end, key);
        BareWhenEmpty(step, key, start + MASK_LENGTH);
      } else {
        NextKeyStands(text, key, from);
        EmptyIsUnchanged(text, start);
        StaysBare(text, key, next.value);
      }
    }
  }

  lemma StaysBare(text: string, key: Key, i: nat)
    requires KeyAt(text, key, i) && ValueEnd(text, i + |key.pattern|) == i + |key.pattern|
    requires Scan(text, key, i + |key.pattern| + MASK_LENGTH).Some?
    ensures !Redacted(Scan(text, key, i + |key.pattern| + MASK_LENGTH).value, key)
  {
    var start := i + |key.pattern|;
    EndsAtOnce(text, start);
    hide Scan, Fold, ValueEnd, KeyAt, EndsValue, Mask;
    ScanKeepsPrefix(text, key, start + MASK_LENGTH);
    var out := Scan(text, key, start + MASK_LENGTH).value;
    SameBefore(text, out, start + MASK_LENGTH, key, i);
    assert out[start] == out[..start + MASK_LENGTH][start] == text[..start + MASK_LENGTH][start];
    BareIsNotMasked(out, start);
  }

  lemma EndsAtOnce(text: string, start: nat)
    requires start <= |text| && ValueEnd(text, start) == start
    ensures start < |text| ==> EndsValue(text[start])
  {
  }

  lemma BareIsNotMasked(text: string, s: nat)
    requires s < |text| && EndsValue(text[s])
    ensures !FollowedByMask(text, s)
  {
    if FollowedByMask(text, s) {
      MaskChars(text, s);
    }
  }

  /**
   What one pass achieves, for every line: it ends without a panic, and with every occurrence of the key followed by
   exactly the mask, if and only if no value that it reads is empty.
   */
  lemma RedactsExactlyWhenValued(line: string, key: Key)
    requires Distinct(key)
    ensures Scan(line, key, 0).Some? && Redacted(Scan(line, key, 0).value, key) <==> NoEmptyValue(line, key, 0)
  {
    if NoEmptyValue(line, key, 0) {
      RedactsWhenValued(line, key, 0);
    } else if Scan(line, key, 0).Some? {
      BareWhenEmpty(line, key, 0);
    }
  }

  // ---------------------------------------------------------------------------
  // All keys
  // ---------------------------------------------------------------------------

  /** One pass after the other. */
  function ScanAll(text: string, keys: seq<Key>): Option<string>
    decreases |keys|
  {
    if keys == [] then Some(text)
    else
      var first := Scan(text, keys[0], 0);
      if first.None? then None else ScanAll(first.value, keys[1..])
  }

  /** `redact_token_prefixes` and `redact_key_values` */
  method RedactKeys(line: string, keys: seq<Key>) returns (r: Option<string>)
    ensures r == ScanAll(line, keys)
  {
    var out := line;
    for n := 0 to |keys|
      invariant ScanAll(line, keys) == ScanAll(out, keys[n..])
    {
      var pass := RedactKey(out, keys[n]);
      if pass.None? {
        return None;
      }
      out := pass.value;
    }
    return Some(out);
  }

  /** Masking one value of `p` keeps what is known of `q`. */
  lemma StepKeepsOther(text: string, p: Key, start: nat, end: nat, q: Key)
    requires start < end <= |text| && Distinct(p) && Distinct(q) && ValueOf(text, p, start, end)
    ensures Valued(text, q) ==> Valued(Masked(text, start, end), q)
    ensures Redacted(text, q) ==> Redacted(Masked(text, start, end), q)
  {
    hide Valued, Redacted, Distinct, ValueOf, Masked;
    if Valued(text, q) {
      StepKeepsValued(text, p, start, end, q);
    }
    if Redacted(text, q) {
      StepKeepsRedacted(text, p, start, end, q);
    }
  }

  lemma StepKeepsValued(text: string, p: Key, start: nat, end: nat, q: Key)
    requires start < end <= |text| && Distinct(p) && Distinct(q) && ValueOf(text, p, start, end) && Valued(text, q)
    ensures Valued(Masked(text, start, end), q)
  {
    hide Masked, KeyAt, ValueEnd, EndsValue, Distinct, HasValue, FollowedByMask, ValueOf, Fold, MaskAt, Mask;
    var out := Masked(text, start, end);
    forall i | KeyAt(out, q, i) ensures HasValue(out, i + |q.pattern|) {
      MaskingKeepsOthers(text, p, start, end, q, i);
    }
  }

  lemma StepKeepsRedacted(text: string, p: Key, start: nat, end: nat, q: Key)
    requires start < end <= |text| && Distinct(p) && Distinct(q) && ValueOf(text, p, start, end) && Redacted(text, q)
    ensures Redacted(Masked(text, start, end), q)
  {
    hide Masked, KeyAt, ValueEnd, EndsValue, Distinct, HasValue, FollowedByMask, ValueOf, Fold, MaskAt, Mask;
    var out := Masked(text, start, end);
    forall i | KeyAt(out, q, i) ensures FollowedByMask(out, i + |q.pattern|) {
      MaskingKeepsOthers(text, p, start, end, q, i);
    }
  }

  /** A pass for one key undoes nothing that a pass for another has done. */
  lemma {:induction false} PassKeepsOther(text: string, p: Key, from: nat, q: Key)
    requires Distinct(p) && Distinct(q) && Scan(text, p, from).Some?
    ensures Valued(text, q) ==> Valued(Scan(text, p, from).value, q)
    ensures Redacted(text, q) ==> Redacted(Scan(text, p, from).value, q)
    decreases |text| + MASK_LENGTH + |p.pattern| - from
  {
    ScanUnfolds(text, p, from);
    var next := NextKey(text, p, from);
    hide Scan, KeyAt, NextKey, ValueEnd, EndsValue, Mask, Masked, Distinct, Valued, Redacted;
    if next.Some? {
      var start := next.value + |p.pattern|;
      var end := ValueEnd(text, start);
      MaskedLength(text, start, end);
      NextKeyStands(text, p, from);
      if start < end {
        StepKeepsOther(text, p, start, end, q);
      } else {
        EmptyIsUnchanged(text, start);
      }
      PassKeepsOther(Masked(text, start, end), p, start + MASK_LENGTH, q);
    }
  }

  /** Where every occurrence has a value, no value that a pass reads is empty. */
  lemma {:induction false} ValuedReadsNoEmpty(text: string, key: Key, from: nat)
    requires from <= |text| && Valued(text, key)
    ensures NoEmptyValue(text, key, from)
    decreases |text| - from
  {
    NoEmptyUnfolds(text, key, from);
    var next := NextKey(text, key, from);
    if next.Some? {
      NextKeyStands(text, key, from);
      var start := next.value + |key.pattern|;
      assert HasValue(text, start);
      ValuedReadsNoEmpty(text, key, ValueEnd(text, start));
    }
  }

  ghost predicate AllDistinct(keys: seq<Key>) {
    forall k | k in keys :: Distinct(k)
  }

  /** No sequence of passes undoes what an earlier pass has done. */
  lemma {:induction false} PassesKeepOther(text: string, keys: seq<Key>, q: Key)
    requires AllDistinct(keys) && Distinct(q) && Redacted(text, q) && ScanAll(text, keys).Some?
    ensures Redacted(ScanAll(text, keys).value, q)
    decreases |keys|
  {
    if keys != [] {
      hide Scan, Redacted, Distinct, Valued;
      PassKeepsOther(text, keys[0], 0, q);
      PassesKeepOther(Scan(text, keys[0], 0).value, keys[1..], q);
    }
  }

  lemma {:induction false} AllRedacted(text: string, keys: seq<Key>)
    requires AllDistinct(keys) && forall k | k in keys :: Valued(text, k)
    ensures ScanAll(text, keys).Some?
    ensures forall k | k in keys :: Redacted(ScanAll(text, keys).value, k)
    decreases |keys|
  {
    if keys != [] {
      var key := keys[0];
      ValuedReadsNoEmpty(text, key, 0);
      RedactsExactlyWhenValued(text, key);
      var out := Scan(text, key, 0).value;
      hide Scan, NoEmptyValue, Valued, Redacted, Distinct;
      forall k | k in keys[1..] ensures Valued(out, k) {
        PassKeepsOther(text, key, 0, k);
      }
      AllRedacted(out, keys[1..]);
      PassesKeepOther(out, keys[1..], key);
      assert keys == [key] + keys[1..];
    }
  }

  lemma {:induction false} SecondPassesAreIdentity(text: string, keys: seq<Key>)
    requires forall k | k in keys :: Redacted(text, k)
    ensures ScanAll(text, keys) == Some(text)
    decreases |keys|
  {
    if keys != [] {
      SecondPassIsIdentity(text, keys[0], 0);
      hide Scan, Redacted;
      SecondPassesAreIdentity(text, keys[1..]);
    }
  }

  /**
   A line in which every occurrence of every key has a value: all passes end, each key is masked everywhere in the
   result although later passes rewrite what earlier ones left, and redacting the result again changes nothing.
   */
  lemma RedactionSettles(line: string, keys: seq<Key>)
    requires AllDistinct(keys) && forall k | k in keys :: Valued(line, k)
    ensures ScanAll(line, keys).Some?
    ensures var out := ScanAll(line, keys).value;
            (forall k | k in keys :: Redacted(out, k)) && ScanAll(out, keys) == Some(out)
  {
    AllRedacted(line, keys);
    SecondPassesAreIdentity(ScanAll(line, keys).value, keys);
  }

  function TokenPrefixes(): seq<Key> {
    [Key("sk-", false), Key("sess-", false), Key("Bearer ", false)]
  }

  function SecretKeys(): seq<Key> {
    [
      Key("api_key=", true), Key("apikey=", true), Key("authorization=", true), Key("access_token=", true),
      Key("refresh_token=", true), Key("token=", true), Key("password=", true)
    ]
  }

  lemma LastTells(key: Key)
    requires key.pattern != [] && !MaskLetter(key.pattern[|key.pattern| - 1])
    requires '<' !in key.pattern && '>' !in key.pattern
    ensures Distinct(key)
  {
  }

  lemma PrefixesAreDistinct()
    ensures Distinct(Key("sk-", false)) && Distinct(Key("sess-", false)) && Distinct(Key("Bearer ", false))
  {
    LastTells(Key("sk-", false));
    LastTells(Key("sess-", false));
    LastTells(Key("Bearer ", false));
  }

  lemma ShortKeysAreDistinct()
    ensures Distinct(Key("api_key=", true)) && Distinct(Key("apikey=", true)) && Distinct(Key("token=", true))
    ensures Distinct(Key("password=", true))
  {
    LastTells(Key("api_key=", true));
    LastTells(Key("apikey=", true));
    LastTells(Key("token=", true));
    LastTells(Key("password=", true));
  }

  lemma LongKeyIsDistinct()
    ensures Distinct(Key("access_token=", true))
  {
    LastTells(Key("access_token=", true));
  }

  lemma HeaderKeyIsDistinct()
    ensures Distinct(Key("authorization=", true))
  {
    LastTells(Key("authorization=", true));
  }

  lemma LongestKeyIsDistinct()
    ensures Distinct(Key("refresh_token=", true))
  {
    LastTells(Key("refresh_token=", true));
  }

  /** The patterns the program uses cannot overlap a mask. */
  lemma PatternsAreDistinct()
    ensures AllDistinct(TokenPrefixes()) && AllDistinct(SecretKeys())
  {
    PrefixesAreDistinct();
    ShortKeysAreDistinct();
    LongKeyIsDistinct();
    HeaderKeyIsDistinct();
    LongestKeyIsDistinct();
    hide Distinct;
  }

  /** A line that ends in a key without a value makes the program panic. */
  lemma EmptyValuePanics()
    ensures Scan("token=", Key("token=", true), 0) == None
  {
    var line := "token=";
    var key := Key("token=", true);
    assert |line| == 6;
    assert KeyAt(line, key, 0);
    ScanUnfolds(line, key, 0);
    ScanUnfolds(line, key, 6 + MASK_LENGTH);
  }

  /** A key right after an empty value keeps its secret. */
  lemma EmptyValueHidesTheNext()
    ensures Scan("token= token=abc", Key("token=", true), 0) == Some("token= token=abc")
  {
    var line := "token= token=abc";
    var key := Key("token=", true);
    assert |line| == 16;
    assert KeyAt(line, key, 0);
    assert EndsValue(line[6]);
    ScanUnfolds(line, key, 0);
    ScanUnfolds(line, key, 6 + MASK_LENGTH);
  }
}
