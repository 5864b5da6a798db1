/**
 `redact_stderr_line` as a whole: the Authorization header, then the token prefixes, then the keys
 (src/backend/codex_stderr.rs).
 */
module LineRedaction {
  import opened Wrappers
  import opened Redaction

  // ---------------------------------------------------------------------------
  // All passes
  // ---------------------------------------------------------------------------

  function AllKeys(): seq<Key> {
    TokenPrefixes() + SecretKeys()
  }

  /** Every pass ends without a panic and leaves its own key masked everywhere. */
  ghost predicate PassesMask(text: string, keys: seq<Key>)
    decreases |keys|
  {
    keys == []
    || (Scan(text, keys[0], 0).Some? && Redacted(Scan(text, keys[0], 0).value, keys[0])
        && PassesMask(Scan(text, keys[0], 0).value, keys[1..]))
  }

  /** No pass reads an empty value, each taking the text with the values of the earlier keys replaced. */
  predicate PassesReadValues(text: string, keys: seq<Key>)
    decreases |keys|
  {
    keys == [] || (NoEmptyValue(text, keys[0], 0) && PassesReadValues(MaskEach(text, keys[0], 0), keys[1..]))
  }

  /** For every line and any number of keys, exactly this makes all passes succeed. */
  lemma {:induction false} PassesMaskExactly(text: string, keys: seq<Key>)
    requires AllDistinct(keys)
    ensures PassesMask(text, keys) <==> PassesReadValues(text, keys)
    decreases |keys|
  {
    if keys != [] {
      var key := keys[0];
      RedactsExactlyWhenValued(text, key);
      hide Scan, Redacted, NoEmptyValue, MaskEach, Distinct;
      if NoEmptyValue(text, key, 0) {
        ScanMasksEach(text, key, 0);
        assert text[..0] + MaskEach(text, key, 0) == MaskEach(text, key, 0);
        PassesMaskExactly(MaskEach(text, key, 0), keys[1..]);
      }
    }
  }

  /** When all passes succeed, no later pass has undone an earlier one. */
  lemma {:induction false} PassesMaskAll(text: string, keys: seq<Key>)
    requires AllDistinct(keys) && PassesMask(text, keys)
    ensures ScanAll(text, keys).Some? && forall k | k in keys :: Redacted(ScanAll(text, keys).value, k)
    decreases |keys|
  {
    if keys != [] {
      hide Scan, Redacted, Distinct;
      var out := Scan(text, keys[0], 0).value;
      PassesMaskAll(out, keys[1..]);
      PassesKeepOther(out, keys[1..], keys[0]);
      assert keys == [keys[0]] + keys[1..];
    }
  }

  lemma {:induction false} ScanAllConcat(text: string, a: seq<Key>, b: seq<Key>)
    ensures ScanAll(text, a + b)
            == if ScanAll(text, a).None? then None else ScanAll(ScanAll(text, a).value, b)
    decreases |a|
  {
    hide Scan;
    if a == [] {
      assert a + b == b;
    } else {
      assert (a + b)[1..] == a[1..] + b;
      if Scan(text, a[0], 0).Some? {
        ScanAllConcat(Scan(text, a[0], 0).value, a[1..], b);
      }
    }
  }

  // ---------------------------------------------------------------------------
  // The Authorization header
  // ---------------------------------------------------------------------------

  function HeaderKey(): Key { Key("authorization:", true) }

  function HeaderMask(): string { "Authorization: <redacted>" }

  /** The first line break at or after `start`, or the end. */
  function LineEnd(text: string, start: nat): (end: nat)
    requires start <= |text|
    ensures start <= end <= |text|
    decreases |text| - start
  {
    if start == |text| || text[start] == '\n' || text[start] == '\r' then start else LineEnd(text, start + 1)
  }

  /** `redact_authorization_header` */
  function RedactHeader(line: string): string {
    match NextKey(line, HeaderKey(), 0)
    case None => line
    case Some(i) => line[..i] + HeaderMask() + line[LineEnd(line, i)..]
  }

  /** `redact_stderr_line`; None is a panic. */
  function RedactLine(line: string): Option<string> {
    ScanAll(RedactHeader(line), AllKeys())
  }

  method RedactStderrLine(line: string) returns (r: Option<string>)
    ensures r == RedactLine(line)
  {
    hide Scan, ScanAll;
    var out := RedactHeader(line);
    ScanAllConcat(out, TokenPrefixes(), SecretKeys());
    var first := RedactKeys(out, TokenPrefixes());
    if first.None? {
      return None;
    }
    r := RedactKeys(first.value, SecretKeys());
  }

  /**
   For every line: if no pass reads an empty value, the program does not panic, and every one of its ten patterns is
   followed by exactly the mask wherever it still occurs.
   */
  lemma LineIsRedacted(line: string)
    requires PassesReadValues(RedactHeader(line), AllKeys())
    ensures RedactLine(line).Some? && forall k | k in AllKeys() :: Redacted(RedactLine(line).value, k)
  {
    AllKeysAreDistinct();
    hide RedactHeader, Scan, Redacted, Distinct, AllKeys;
    PassesMaskExactly(RedactHeader(line), AllKeys());
    PassesMaskAll(RedactHeader(line), AllKeys());
  }

  lemma AllKeysAreDistinct()
    ensures AllDistinct(AllKeys())
  {
    PatternsAreDistinct();
    hide Distinct;
  }

  lemma HeaderChars()
    ensures |HeaderMask()| == 25 && |HeaderKey().pattern| == 14
    ensures forall k | 0 <= k < 14 :: !EndsValue(HeaderMask()[k]) && Fold(HeaderMask()[k], true) == HeaderKey().pattern[k]
    ensures forall k | 0 <= k < 13 :: HeaderKey().pattern[k] != ':'
    ensures HeaderKey().pattern[13] == ':' && HeaderMask()[13] == ':' && HeaderMask()[14] == ' '
  {
    assert |HeaderMask()| == 25 && |HeaderKey().pattern| == 14;
  }

  /** The mask of the header has one space, and no character that ends a pattern besides. */
  lemma HeaderMaskChars()
    ensures |HeaderMask()| == 25
    ensures forall k | 0 <= k < 25 && k != 14 :: HeaderMask()[k] != ' ' && HeaderMask()[k] != '-' && HeaderMask()[k] != '='
    ensures forall k | 0 <= k < 25 :: HeaderMask()[k] != '\n' && HeaderMask()[k] != '\r'
  {
    assert |HeaderMask()| == 25;
  }

  lemma {:induction false} LineEndsFirst(text: string, start: nat, end: nat)
    requires start <= end <= |text|
    requires forall k | start <= k < end :: text[k] != '\n' && text[k] != '\r'
    requires end < |text| ==> text[end] == '\n' || text[end] == '\r'
    ensures LineEnd(text, start) == end
    decreases end - start
  {
    if start < end {
      LineEndsFirst(text, start + 1, end);
    }
  }

  lemma {:induction false} LineEndStops(text: string, start: nat)
    requires start <= |text|
    ensures LineEnd(text, start) < |text| ==>
              text[LineEnd(text, start)] == '\n' || text[LineEnd(text, start)] == '\r'
    decreases |text| - start
  {
    if start < |text| && text[start] != '\n' && text[start] != '\r' {
      LineEndStops(text, start + 1);
    }
  }

  /** The same for each pattern by name. */
  lemma TenPatternsAreMasked(line: string)
    requires PassesReadValues(RedactHeader(line), AllKeys())
    ensures RedactLine(line).Some?
    ensures var out := RedactLine(line).value;
            && Redacted(out, Key("sk-", false)) && Redacted(out, Key("sess-", false)) && Redacted(out, Key("Bearer ", false))
            && Redacted(out, Key("api_key=", true)) && Redacted(out, Key("apikey=", true))
            && Redacted(out, Key("authorization=", true)) && Redacted(out, Key("access_token=", true))
            && Redacted(out, Key("refresh_token=", true)) && Redacted(out, Key("token=", true))
            && Redacted(out, Key("password=", true))
  {
    LineIsRedacted(line);
    PrefixesByName();
    KeysByName();
    hide Redacted, RedactLine, AllKeys, PassesReadValues, RedactHeader;
  }

  lemma PrefixesByName()
    ensures Key("sk-", false) in AllKeys() && Key("sess-", false) in AllKeys() && Key("Bearer ", false) in AllKeys()
  {
    var prefixes := TokenPrefixes();
    assert prefixes[0] in prefixes && prefixes[1] in prefixes && prefixes[2] in prefixes;
    hide SecretKeys;
  }

  lemma KeysByName()
    ensures Key("api_key=", true) in AllKeys() && Key("apikey=", true) in AllKeys()
    ensures Key("authorization=", true) in AllKeys() && Key("access_token=", true) in AllKeys()
    ensures Key("refresh_token=", true) in AllKeys() && Key("token=", true) in AllKeys() && Key("password=", true) in AllKeys()
  {
    var keys := SecretKeys();
    assert keys[0] in keys && keys[1] in keys && keys[2] in keys && keys[3] in keys;
    assert keys[4] in keys && keys[5] in keys && keys[6] in keys;
    hide TokenPrefixes;
  }

  /** A token prefix occurs as it is written; a key occurs in any mix of ASCII cases. */
  lemma PrefixAsWritten(text: string, pattern: string, i: int)
    ensures KeyAt(text, Key(pattern, false), i) <==> 0 <= i && i + |pattern| <= |text| && text[i..i + |pattern|] == pattern
  {
    if KeyAt(text, Key(pattern, false), i) {
      KeyChars(text, Key(pattern, false), i);
      assert forall k | 0 <= k < |pattern| :: text[i..i + |pattern|][k] == pattern[k];
    }
    if 0 <= i && i + |pattern| <= |text| && text[i..i + |pattern|] == pattern {
      WrittenIsKey(text, pattern, i);
    }
  }

  lemma WrittenIsKey(text: string, pattern: string, i: nat)
    requires i + |pattern| <= |text| && text[i..i + |pattern|] == pattern
    ensures KeyAt(text, Key(pattern, false), i)
  {
    forall k | 0 <= k < |pattern| ensures Fold(text[i + k], false) == pattern[k] {
      assert text[i..i + |pattern|][k] == text[i + k];
    }
  }

  predicate SameLetter(a: char, b: char) {
    a == b || ('A' <= a <= 'Z' && b == a - 'A' + 'a') || ('A' <= b <= 'Z' && a == b - 'A' + 'a')
  }

  lemma KeyInAnyCase(a: string, b: string, pattern: string, i: int)
    requires |a| == |b| && forall k | 0 <= k < |a| :: SameLetter(a[k], b[k])
    ensures KeyAt(a, Key(pattern, true), i) <==> KeyAt(b, Key(pattern, true), i)
  {
    assert forall k | 0 <= k < |a| :: Fold(a[k], true) == Fold(b[k], true) by {
      forall k | 0 <= k < |a| ensures Fold(a[k], true) == Fold(b[k], true) {
        assert SameLetter(a[k], b[k]);
      }
    }
  }

  /** Characters that secrets are made of, and characters that stand behind them. */
  predicate SecretChar(c: char) {
    'a' <= c <= 'z' || 'A' <= c <= 'Z' || '0' <= c <= '9' || c in {'-', '_', '.', '~', '+', '/', ':', '='}
  }

  predicate Delimiter(c: char) {
    c in {' ', '\t', '\n', '\r', '"', '\'', '`', ')', ']', '}'}
  }

  /** A secret is read whole, up to what delimits it. */
  lemma SecretIsReadWhole(secret: string, rest: string)
    requires (forall k | 0 <= k < |secret| :: SecretChar(secret[k])) && (rest != "" ==> Delimiter(rest[0]))
    ensures ValueEnd(secret + rest, 0) == |secret|
  {
    var text := secret + rest;
    forall k | 0 <= k < |secret| ensures !EndsValue(text[k]) {
      assert SecretChar(secret[k]);
    }
    ValueEndsFirst(text, 0, |secret|);
  }

  /** The masked header stands at `i`. */
  predicate HeaderMaskAt(text: string, i: nat) {
    i + |HeaderMask()| <= |text| && text[i..i + |HeaderMask()|] == HeaderMask()
  }

  lemma HeaderMaskAtChars(text: string, i: nat)
    requires HeaderMaskAt(text, i)
    ensures i + 25 <= |text| && |HeaderMask()| == 25 && forall k | i <= k < i + 25 :: text[k] == HeaderMask()[k - i]
  {
    HeaderMaskChars();
    hide HeaderMask;
    forall k | i <= k < i + 25 ensures text[k] == HeaderMask()[k - i] {
      assert text[k] == text[i..i + |HeaderMask()|][k - i];
    }
  }

  lemma MaskedHeaderIsAHeader(text: string, i: nat)
    requires HeaderMaskAt(text, i)
    ensures KeyAt(text, HeaderKey(), i)
  {
    HeaderMaskAtChars(text, i);
    HeaderChars();
    hide HeaderMask, HeaderKey;
    forall k | 0 <= k < |HeaderKey().pattern| ensures Fold(text[i + k], HeaderKey().ignoreCase) == HeaderKey().pattern[k] {
      assert text[i + k] == HeaderMask()[k];
      KeyFolds();
    }
  }

  lemma KeyFolds()
    ensures HeaderKey().ignoreCase
  {
  }

  /** Two headers cannot overlap: the colon stands only at the end. */
  lemma HeadersApart(text: string, j: int, i: int)
    requires KeyAt(text, HeaderKey(), j) && KeyAt(text, HeaderKey(), i) && j < i
    ensures j + 14 <= i
  {
    HeaderChars();
    KeyChars(text, HeaderKey(), j);
    KeyChars(text, HeaderKey(), i);
    KeyInside(text, HeaderKey(), j);
    hide HeaderKey, HeaderMask, KeyAt;
    var colon := text[j + 13];
  }

  /** What the header pass leaves: everything but the value of the first header, up to the line break. */
  lemma HeaderIsMasked(line: string)
    ensures NextKey(line, HeaderKey(), 0).None? ==> RedactHeader(line) == line
    ensures NextKey(line, HeaderKey(), 0).Some? ==>
              var i := NextKey(line, HeaderKey(), 0).value;
              var out := RedactHeader(line);
              && HeaderMaskAt(out, i) && out[..i] == line[..i]
              && out[i + |HeaderMask()|..] == line[LineEnd(line, i)..]
              && NextKey(out, HeaderKey(), 0) == Some(i)
  {
    hide HeaderMask, HeaderKey, LineEnd, NextKey, KeyAt;
    var next := NextKey(line, HeaderKey(), 0);
    if next.Some? {
      var i := next.value;
      var out := line[..i] + HeaderMask() + line[LineEnd(line, i)..];
      assert out[i..i + |HeaderMask()|] == HeaderMask() && out[..i] == line[..i];
      assert out[i + |HeaderMask()|..] == line[LineEnd(line, i)..];
      StillFirst(line, out, i);
    }
  }

  lemma StillFirst(line: string, out: string, i: nat)
    requires NextKey(line, HeaderKey(), 0) == Some(i) && i <= |out| && out[..i] == line[..i] && HeaderMaskAt(out, i)
    ensures NextKey(out, HeaderKey(), 0) == Some(i)
  {
    hide HeaderMask, HeaderKey, NextKey, KeyAt;
    MaskedHeaderIsAHeader(out, i);
    NextKeyBefore(out, HeaderKey(), 0, i);
    NextKeyStands(out, HeaderKey(), 0);
    var j := NextKey(out, HeaderKey(), 0).value;
    HeaderChars();
    if j < i {
      HeadersApart(out, j, i);
      SameBefore(out, line, i, HeaderKey(), j);
      NextKeyBefore(line, HeaderKey(), 0, j);
    }
  }

  /** The header pass done twice is the header pass, for every line. */
  lemma HeaderPassSettles(line: string)
    ensures RedactHeader(RedactHeader(line)) == RedactHeader(line)
  {
    hide RedactHeader, HeaderMask, HeaderKey, NextKey, LineEnd;
    HeaderIsMasked(line);
    var out := RedactHeader(line);
    HeaderIsMasked(out);
    var next := NextKey(line, HeaderKey(), 0);
    if next.Some? {
      HeaderLineEnd(line, out, next.value);
      SamePieces(out, RedactHeader(out), next.value, next.value + |HeaderMask()|);
    }
  }

  lemma SamePieces(a: string, b: string, m: nat, n: nat)
    requires m <= n <= |a| && n <= |b| && a[..m] == b[..m] && a[m..n] == b[m..n] && a[n..] == b[n..]
    ensures a == b
  {
    assert a == a[..m] + a[m..n] + a[n..];
    assert b == b[..m] + b[m..n] + b[n..];
  }

  lemma HeaderLineEnd(line: string, out: string, i: nat)
    requires i <= |line| && HeaderMaskAt(out, i) && out[i + |HeaderMask()|..] == line[LineEnd(line, i)..]
    ensures LineEnd(out, i) == i + |HeaderMask()|
  {
    LineEndStops(line, i);
    HeaderMaskAtChars(out, i);
    HeaderMaskChars();
    hide HeaderMask, LineEnd;
    var end := i + |HeaderMask()|;
    if end < |out| {
      assert out[end] == out[end..][0] == line[LineEnd(line, i)..][0];
    }
    LineEndsFirst(out, i, end);
  }

  // ---------------------------------------------------------------------------
  // Redacting a line again
  // ---------------------------------------------------------------------------

  /** A masked header that ends its line. */
  predicate HeaderLineAt(text: string, i: int) {
    0 <= i && HeaderMaskAt(text, i)
    && var end := i + |HeaderMask()|;
       end == |text| || text[end] == '\n' || text[end] == '\r'
  }

  /** There is at most one header, and it is masked. */
  ghost predicate HeaderIsOnly(text: string) {
    && (forall j | KeyAt(text, HeaderKey(), j) :: HeaderLineAt(text, j))
    && (forall j, k | KeyAt(text, HeaderKey(), j) && KeyAt(text, HeaderKey(), k) :: j == k)
  }

  /** No header stands behind the line of the first one. */
  ghost predicate OneHeaderLine(line: string) {
    var next := NextKey(line, HeaderKey(), 0);
    next.Some? ==> forall j | KeyAt(line, HeaderKey(), j) :: j < LineEnd(line, next.value)
  }

  /** A pattern that cannot end inside a masked header. */
  predicate Apart(key: Key) {
    && 2 <= |key.pattern|
    && var last := key.pattern[|key.pattern| - 1];
       && (last == '-' || last == '=' || last == ' ')
       && (last == ' ' ==> key.pattern[|key.pattern| - 2] != ':')
  }

  lemma AllKeysAreApart()
    ensures forall k | k in AllKeys() :: Apart(k)
  {
  }

  lemma HeaderIsDistinct()
    ensures Distinct(HeaderKey())
  {
    LastTells(HeaderKey());
  }

  /** An occurrence of such a pattern that ends behind the start of a masked header starts behind its end. */
  lemma StartsAfterHeader(text: string, q: Key, start: nat, i: nat)
    requires Distinct(q) && Apart(q) && KeyAt(text, q, start - |q.pattern|) && HeaderMaskAt(text, i) && i < start
    ensures i + 25 <= start - |q.pattern| && i + 25 < start
  {
    hide HeaderMask, KeyAt, EndsValue, HeaderMaskAt, MaskAt, Distinct, Mask;
    LastTwoChars(text, q, start);
    MaskInHeader(text, i);
    KeyInside(text, q, start - |q.pattern|);
    NoOverlap(text, q, start - |q.pattern|, i + 15);
    if start <= i + 25 {
      HeaderMaskChar(text, i, start - 1);
      if i + 2 <= start {
        HeaderMaskChar(text, i, start - 2);
      }
    }
  }

  lemma MaskInHeader(text: string, i: nat)
    requires HeaderMaskAt(text, i)
    ensures MaskAt(text, i + 15) && i + 25 <= |text|
  {
    assert |HeaderMask()| == 25 && |Mask()| == 10;
    assert HeaderMask()[15..] == Mask();
    hide HeaderMask, Mask;
    assert text[i + 15..i + 25] == text[i..i + 25][15..];
  }

  lemma LastTwoChars(text: string, q: Key, start: nat)
    requires 2 <= |q.pattern| && KeyAt(text, q, start - |q.pattern|)
    ensures 2 <= start <= |text|
    ensures Fold(text[start - 1], q.ignoreCase) == q.pattern[|q.pattern| - 1]
    ensures Fold(text[start - 2], q.ignoreCase) == q.pattern[|q.pattern| - 2]
  {
    KeyChars(text, q, start - |q.pattern|);
    KeyInside(text, q, start - |q.pattern|);
    hide KeyAt, Fold;
    var last, before := text[start - 1], text[start - 2];
  }

  lemma HeaderMaskChar(text: string, i: nat, p: nat)
    requires HeaderMaskAt(text, i) && i <= p < i + 25
    ensures p < |text| && (text[p] == ' ' <==> p == i + 14) && text[p] != '-' && text[p] != '=' && (p == i + 13 ==> text[p] == ':')
  {
    HeaderMaskAtChars(text, i);
    HeaderMaskChars();
    HeaderChars();
    hide HeaderMask, HeaderKey, HeaderMaskAt;
    var c := text[p];
  }

  lemma SameHeaderBefore(a: string, b: string, n: nat, i: nat)
    requires n <= |a| && n <= |b| && a[..n] == b[..n] && HeaderLineAt(a, i) && i + |HeaderMask()| < n
    ensures HeaderLineAt(b, i)
  {
    hide HeaderMask;
    var end := i + |HeaderMask()|;
    assert forall k | 0 <= k < n :: a[k] == a[..n][k] && b[k] == b[..n][k];
    assert a[i..end] == b[i..end];
  }

  lemma SameHeaderAfter(a: string, m: nat, b: string, n: nat, i: nat)
    requires m <= i && m <= |a| && n <= |b| && a[m..] == b[n..] && HeaderLineAt(a, i)
    ensures HeaderLineAt(b, i - m + n)
  {
    hide HeaderMask;
    var size := |HeaderMask()|;
    SameSuffix(a, m, b, n);
    var x, y := a[i..i + size], b[i - m + n..i - m + n + size];
    forall t | 0 <= t < size ensures x[t] == y[t] {
      assert a[i + t] == b[i + t - m + n];
    }
    assert x == y;
  }

  /** Where a header of the text stands after one value before or behind it was masked. */
  lemma HeaderAfterStep(text: string, q: Key, start: nat, end: nat, j': nat) returns (j: nat)
    requires Distinct(q) && Apart(q) && ValueOf(text, q, start, end) && start < end <= |text| && HeaderIsOnly(text)
    requires KeyAt(Masked(text, start, end), HeaderKey(), j')
    ensures KeyAt(text, HeaderKey(), j) && HeaderLineAt(Masked(text, start, end), j')
    ensures if j' + 14 <= start then j == j' else end <= j && j' == j - end + start + MASK_LENGTH
  {
    HeaderChars();
    HeaderMaskChars();
    HeaderIsDistinct();
    hide HeaderMask, HeaderKey, KeyAt, Masked, Distinct, EndsValue, Fold, MaskAt, FollowedByMask, HasValue, Mask, ValueEnd,
      HeaderLineAt, HeaderIsOnly, Apart;
    var out := Masked(text, start, end);
    MaskedChars(text, start, end);
    NoOverlap(out, HeaderKey(), j', start);
    MaskingKeepsOthers(text, q, start, end, HeaderKey(), j');
    j := if j' + 14 <= start then j' else j' - (start + MASK_LENGTH) + end;
    OnlyIsMasked(text, j);
    if j' + 14 <= start {
      StartsAfterHeader(text, q, start, j);
      SameHeaderBefore(text, out, start, j);
    } else {
      SameHeaderAfter(text, end, out, start + MASK_LENGTH, j);
    }
  }

  lemma OnlyIsMasked(text: string, j: nat)
    requires HeaderIsOnly(text) && KeyAt(text, HeaderKey(), j)
    ensures HeaderLineAt(text, j) && HeaderMaskAt(text, j)
  {
  }

  /** Masking one value keeps the only header masked, or swallows it. */
  lemma StepKeepsHeader(text: string, q: Key, start: nat, end: nat)
    requires Distinct(q) && Apart(q) && ValueOf(text, q, start, end) && start < end <= |text| && HeaderIsOnly(text)
    ensures HeaderIsOnly(Masked(text, start, end))
  {
    hide HeaderKey, KeyAt, Masked, Distinct, HeaderLineAt, ValueOf, Apart;
    var out := Masked(text, start, end);
    forall j | KeyAt(out, HeaderKey(), j) ensures HeaderLineAt(out, j) {
      KeyInside(out, HeaderKey(), j);
      var before := HeaderAfterStep(text, q, start, end, j);
    }
    forall j, k | KeyAt(out, HeaderKey(), j) && KeyAt(out, HeaderKey(), k) ensures j == k {
      KeyInside(out, HeaderKey(), j);
      KeyInside(out, HeaderKey(), k);
      var j0 := HeaderAfterStep(text, q, start, end, j);
      var k0 := HeaderAfterStep(text, q, start, end, k);
    }
  }

  lemma {:induction false} PassKeepsHeader(text: string, q: Key, from: nat)
    requires Distinct(q) && Apart(q) && Scan(text, q, from).Some? && HeaderIsOnly(text)
    ensures HeaderIsOnly(Scan(text, q, from).value)
    decreases |text| + MASK_LENGTH + |q.pattern| - from
  {
    hide Scan, KeyAt, NextKey, ValueEnd, EndsValue, Mask, Masked, Distinct, HeaderIsOnly, Apart, Fold;
    ScanUnfolds(text, q, from);
    var next := NextKey(text, q, from);
    if next.Some? {
      var start := next.value + |q.pattern|;
      var end := ValueEnd(text, start);
      MaskedLength(text, start, end);
      NextKeyStands(text, q, from);
      if start < end {
        StepKeepsHeader(text, q, start, end);
      } else {
        EmptyIsUnchanged(text, start);
      }
      PassKeepsHeader(Masked(text, start, end), q, start + MASK_LENGTH);
    }
  }

  lemma {:induction false} PassesKeepHeader(text: string, keys: seq<Key>)
    requires AllDistinct(keys) && (forall k | k in keys :: Apart(k)) && ScanAll(text, keys).Some? && HeaderIsOnly(text)
    ensures HeaderIsOnly(ScanAll(text, keys).value)
    decreases |keys|
  {
    hide Scan, HeaderIsOnly, Distinct, Apart;
    if keys != [] {
      PassKeepsHeader(text, keys[0], 0);
      PassesKeepHeader(Scan(text, keys[0], 0).value, keys[1..]);
    }
  }

  lemma OnlyHeaderSettles(text: string)
    requires HeaderIsOnly(text)
    ensures RedactHeader(text) == text
  {
    hide HeaderMask, HeaderKey, NextKey, RedactHeader, LineEnd, HeaderLineAt, KeyAt;
    HeaderIsMasked(text);
    var next := NextKey(text, HeaderKey(), 0);
    if next.Some? {
      NextKeyStands(text, HeaderKey(), 0);
      HeaderLineEndsThere(text, next.value);
      SamePieces(text, RedactHeader(text), next.value, next.value + |HeaderMask()|);
    }
  }

  lemma HeaderLineEndsThere(text: string, i: nat)
    requires HeaderLineAt(text, i)
    ensures HeaderMaskAt(text, i) && LineEnd(text, i) == i + |HeaderMask()|
  {
    HeaderMaskAtChars(text, i);
    HeaderMaskChars();
    hide HeaderMask;
    LineEndsFirst(text, i, i + |HeaderMask()|);
  }

  /** The header pass on such a line leaves one masked header. */
  lemma HeaderPassLeavesOne(line: string)
    requires OneHeaderLine(line)
    ensures HeaderIsOnly(RedactHeader(line))
  {
    hide RedactHeader, HeaderMask, HeaderKey, NextKey, LineEnd, KeyAt, HeaderLineAt;
    HeaderIsMasked(line);
    var out := RedactHeader(line);
    var next := NextKey(line, HeaderKey(), 0);
    forall j | KeyAt(out, HeaderKey(), j) ensures next.Some? && j == next.value && HeaderLineAt(out, j) {
      KeyInside(out, HeaderKey(), j);
      NextKeyBefore(out, HeaderKey(), 0, j);
      OneIsLeft(line, out, next.value, j);
    }
  }

  lemma OneIsLeft(line: string, out: string, i: nat, j: nat)
    requires OneHeaderLine(line) && NextKey(line, HeaderKey(), 0) == Some(i) && KeyAt(out, HeaderKey(), j) && i <= j
    requires HeaderMaskAt(out, i) && out[i + |HeaderMask()|..] == line[LineEnd(line, i)..]
    ensures j == i && HeaderLineAt(out, i)
  {
    HeaderChars();
    HeaderIsDistinct();
    MaskedHeaderIsAHeader(out, i);
    MaskInHeader(out, i);
    LineEndStops(line, i);
    NoOverlap(out, HeaderKey(), j, i + 15);
    hide HeaderMask, HeaderKey, NextKey, LineEnd, KeyAt, MaskAt, HeaderMaskAt, Distinct;
    var end := i + |HeaderMask()|;
    if end < |out| {
      assert out[end] == out[end..][0] == line[LineEnd(line, i)..][0];
    }
    if i < j {
      HeadersApart(out, i, j);
      SameAfter(out, end, line, LineEnd(line, i), HeaderKey(), j);
    }
  }

  /**
   A line without a header behind the line of its first one, in which no pass reads an empty value: redacting the
   redacted line changes nothing.
   */
  lemma LineSettles(line: string)
    requires PassesReadValues(RedactHeader(line), AllKeys()) && OneHeaderLine(line)
    ensures RedactLine(line).Some? && RedactLine(RedactLine(line).value) == RedactLine(line)
  {
    hide RedactHeader, AllKeys, Apart, Distinct, Redacted, ScanAll, PassesReadValues, HeaderIsOnly, OneHeaderLine;
    LineIsRedacted(line);
    AllKeysAreDistinct();
    AllKeysAreApart();
    HeaderPassLeavesOne(line);
    PassesKeepHeader(RedactHeader(line), AllKeys());
    var out := RedactLine(line).value;
    OnlyHeaderSettles(out);
    SecondPassesAreIdentity(out, AllKeys());
  }
}
