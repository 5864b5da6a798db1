/**
 The managed block in the global Codex configuration (`ensure_global_codex_mcp_config`, src/backend/codex.rs).

 Only the rewriting of the text is modelled; locating, reading and replacing the file are not.
 */
module ManagedBlock {
  import opened Wrappers
  import opened Search

  const NAME := " agent-teams-mcp managed"
  const MODE := " (team-mode) ==="
  function Begin(): string { "# === BEGIN" + (NAME + MODE) }
  function End(): string { "# === END" + (NAME + MODE) }

  const NOTE_1 := "\n# Auto-managed by agent-teams-mcp."
  const NOTE_2 := " Do not edit by hand — this entire"
  const NOTE_3 := "\n# block is regenerated on every codex"
  const NOTE_4 := " worker spawn. Remove the markers"
  const NOTE_5 := "\n# to keep manual edits across spawns."
  const NOTE_6 := "\n[mcp_servers.\"team-mode\"]\nurl = \""

  const SETTING_1 := "\"\nbearer_token_env_var = "
  const SETTING_2 := "\"TEAM_MODE_HTTP_MCP_TOKEN\"\n"
  const SETTING_3 := "env_http_headers = { "
  const SETTING_4 := "\"X-Team-Mode-Team\" = \"TEAM_MODE_TEAM\", "
  const SETTING_5 := "\"X-Team-Mode-Member\" = "
  const SETTING_6 := "\"TEAM_MODE_MEMBER\", "
  const SETTING_7 := "\"X-Team-Mode-Worker-Id\" = "
  const SETTING_8 := "\"TEAM_MODE_WORKER_ID\", "
  const SETTING_9 := "\"X-Team-Mode-Project-Root\" = "
  const SETTING_10 := "\"TEAM_MODE_PROJECT_ROOT\" }\n"

  const NOTE := [NOTE_1, NOTE_2, NOTE_3, NOTE_4, NOTE_5, NOTE_6]
  const SETTINGS := [SETTING_1, SETTING_2, SETTING_3, SETTING_4, SETTING_5,
                     SETTING_6, SETTING_7, SETTING_8, SETTING_9, SETTING_10]

  function Concat(parts: seq<string>): string {
    if parts == [] then "" else parts[0] + Concat(parts[1..])
  }

  /** `toml_escape` */
  function Escape(s: string): string {
    if s == [] then [] else EscapeChar(s[0]) + Escape(s[1..])
  }

  function EscapeChar(c: char): string {
    if c == '\\' then "\\\\" else if c == '"' then "\\\"" else [c]
  }

  /** The block from the marker to the opening quote of the url, and from its closing quote on. */
  function Head(): string { Begin() + Concat(NOTE) }
  function Tail(): string { Concat(SETTINGS) + (End() + "\n") }

  function Block(url: string): string {
    Head() + Escape(url) + Tail()
  }

  /** The separator an append writes after the existing text. */
  function Separator(existing: string): string {
    if existing == "" || (2 <= |existing| && existing[|existing| - 2..] == "\n\n") then ""
    else if existing[|existing| - 1] == '\n' then "\n"
    else "\n\n"
  }

  /** The first BEGIN comes before the first END. */
  predicate Bracketed(existing: string) {
    Find(existing, Begin()).Some? && Find(existing, End()).Some? && Find(existing, Begin()).value < Find(existing, End()).value
  }

  /** One past the END at `e` and past the newline after it, if there is one. */
  function AfterEnd(existing: string, e: nat): (a: nat)
    requires e + |End()| <= |existing|
    ensures e + |End()| <= a <= |existing|
  {
    var n := e + |End()|;
    if n < |existing| && existing[n] == '\n' then n + 1 else n
  }

  function Rewrite(existing: string, url: string): string {
    if Bracketed(existing) then
      existing[..Find(existing, Begin()).value] + Block(url) + existing[AfterEnd(existing, Find(existing, End()).value)..]
    else existing + Separator(existing) + Block(url)
  }

  method RewriteConfig(existing: string, url: string) returns (out: string)
    ensures out == Rewrite(existing, url)
  {
    FindFits(existing, Begin());
    FindFits(existing, End());
    hide Find, Block, Begin, End, Separator, OccursAt;
    var s, e := Find(existing, Begin()), Find(existing, End());
    var block := Block(url);
    out := "";
    if s.Some? && e.Some? && e.value > s.value {
      var endByte := e.value + |End()|;
      var afterEnd := endByte;
      if endByte < |existing| && existing[endByte] == '\n' {
        afterEnd := endByte + 1;
      }
      out := out + existing[..s.value];
      out := out + block;
      out := out + existing[afterEnd..];
    } else {
      out := AppendSeparator(existing);
      out := out + block;
    }
  }

  lemma FindFits(text: string, pat: string)
    ensures Find(text, pat).Some? ==> Find(text, pat).value + |pat| <= |text|
  {
  }

  method AppendSeparator(existing: string) returns (out: string)
    ensures out == existing + Separator(existing)
  {
    out := existing;
    if out != "" && !(2 <= |out| && out[|out| - 2..] == "\n\n") {
      if out[|out| - 1] == '\n' {
        out := out + "\n";
      } else {
        out := out + "\n\n";
      }
    }
  }

  // ---------------------------------------------------------------------------
  // Markers
  // ---------------------------------------------------------------------------

  /** A character of a marker after its first. */
  predicate Plain(c: char) { c != '#' && c != '\n' && c != '"' && c != '\\' }

  /** What the proofs need of a marker. */
  predicate IsMarker(m: string) {
    && 3 <= |m| && m[0] == '#' && m[2] == '='
    && forall i | 0 < i < |m| :: Plain(m[i])
  }

  /** Text from which no marker can be read: where a `#` stands, no `=` follows two places later. */
  predicate Unmarked(s: string) {
    forall i | 0 <= i < |s| && s[i] == '#' :: i + 2 < |s| && s[i + 2] != '='
  }

  lemma MarkersAreMarkers()
    ensures IsMarker(Begin()) && IsMarker(End()) && |End()| <= |Begin()|
    ensures Begin()[6] == 'B' && End()[6] == 'E'
  {
    assert |"# === BEGIN"| == 11 && |"# === END"| == 9 && |NAME| == 24 && |MODE| == 16;
    assert forall i | 0 <= i < |NAME| :: Plain(NAME[i]);
    assert forall i | 0 <= i < |MODE| :: Plain(MODE[i]);
    assert forall i | 0 < i < 11 :: Plain("# === BEGIN"[i]);
    assert forall i | 0 < i < 9 :: Plain("# === END"[i]);
  }

  lemma UnmarkedHasNoMarker(s: string, m: string)
    requires Unmarked(s) && IsMarker(m)
    ensures !Contains(s, m)
  {
    forall i ensures !OccursAt(s, m, i) {
      OccursChars(s, m, i);
    }
  }

  lemma UnmarkedConcat(parts: seq<string>)
    requires forall k | 0 <= k < |parts| :: Unmarked(parts[k])
    ensures Unmarked(Concat(parts))
  {
    if parts != [] {
      UnmarkedConcat(parts[1..]);
    }
  }

  /** No marker can lie across the seam between `a` and `b`. */
  predicate Breaks(a: string, b: string) {
    a == "" || b == "" || !Plain(b[0]) || (!Plain(a[|a| - 1]) && a[|a| - 1] != '#')
  }

  lemma SplitOccurrence(a: string, b: string, m: string, i: int)
    requires IsMarker(m) && Breaks(a, b)
    ensures OccursAt(a + b, m, i) <==> if i < |a| then OccursAt(a, m, i) else OccursAt(b, m, i - |a|)
  {
    if |a| <= i {
      OccursInSuffix(a, b, m, i);
    } else if i + |m| <= |a| {
      OccursInPrefix(a, b, m, i);
    } else if 0 <= i && i + |m| <= |a + b| {
      OccursChars(a + b, m, i);
      assert Plain(m[|a| - i]) && (m[|a| - 1 - i] == '#' || Plain(m[|a| - 1 - i]));
    }
  }

  lemma SplitContains(a: string, b: string, m: string)
    requires IsMarker(m) && Breaks(a, b)
    ensures Contains(a + b, m) <==> Contains(a, m) || Contains(b, m)
  {
    forall i ensures OccursAt(a + b, m, i) <==> if i < |a| then OccursAt(a, m, i) else OccursAt(b, m, i - |a|) {
      SplitOccurrence(a, b, m, i);
    }
    if Contains(b, m) {
      var j :| OccursAt(b, m, j);
      assert OccursAt(a + b, m, |a| + j);
    }
    if Contains(a, m) {
      var j :| OccursAt(a, m, j);
      assert OccursAt(a + b, m, j);
    }
  }

  /** In a marker the other marker does not occur. */
  lemma MarkersDiffer()
    ensures !Contains(Begin(), End()) && !Contains("\n", End())
  {
    MarkersAreMarkers();
    forall i ensures !OccursAt(Begin(), End(), i) {
      OccursChars(Begin(), End(), i);
    }
  }

  // ---------------------------------------------------------------------------
  // Escaping the url
  // ---------------------------------------------------------------------------

  lemma {:induction false} EscapeConcat(a: string, b: string)
    ensures Escape(a + b) == Escape(a) + Escape(b)
  {
    if a == [] {
      assert a + b == b;
    } else {
      EscapeConcat(a[1..], b);
      assert (a + b)[1..] == a[1..] + b && (a + b)[0] == a[0];
      var x, y, z := EscapeChar(a[0]), Escape(a[1..]), Escape(b);
      assert x + (y + z) == (x + y) + z;
    }
  }

  lemma {:induction false} EscapePlain(s: string)
    requires forall i | 0 <= i < |s| :: s[i] != '"' && s[i] != '\\'
    ensures Escape(s) == s
  {
    if s != [] {
      EscapePlain(s[1..]);
    }
  }

  lemma {:induction false} EscapePrefix(s: string, m: string)
    requires m <= Escape(s) && forall i | 0 <= i < |m| :: m[i] != '"' && m[i] != '\\'
    ensures m <= s
  {
    if m != [] {
      assert m[0] == Escape(s)[0];
      assert m[1..] <= Escape(s[1..]);
      EscapePrefix(s[1..], m[1..]);
      assert m == [m[0]] + m[1..] && s == [s[0]] + s[1..];
    }
  }

  lemma {:induction false} EscapeKeepsMarkers(url: string, m: string)
    requires IsMarker(m)
    ensures Contains(Escape(url), m) <==> Contains(url, m)
  {
    hide Escape, IsMarker;
    if Contains(url, m) {
      var i: nat :| OccursAt(url, m, i);
      EscapeKeepsOccurrence(url, m, i);
    }
    if Contains(Escape(url), m) {
      var i: nat :| OccursAt(Escape(url), m, i);
      EscapedOccurrence(url, m, i);
    }
  }

  lemma EscapeKeepsOccurrence(url: string, m: string, i: nat)
    requires IsMarker(m) && OccursAt(url, m, i)
    ensures Contains(Escape(url), m)
  {
    EscapePlain(m);
    hide Escape, IsMarker;
    var a, b := url[..i], url[i + |m|..];
    OccursBetween(url, m, i);
    EscapeConcat(a, m + b);
    EscapeConcat(m, b);
    OccursAround(Escape(a), m, Escape(b));
  }

  lemma OccursBetween(text: string, m: string, i: nat)
    requires OccursAt(text, m, i)
    ensures text == text[..i] + (m + text[i + |m|..])
  {
  }

  lemma OccursAround(a: string, m: string, b: string)
    ensures OccursAt(a + (m + b), m, |a|)
  {
    assert (a + (m + b))[|a|..] == m + b;
    assert (a + (m + b))[|a|..|a| + |m|] == (m + b)[..|m|];
  }

  lemma EscapeUnfolds(url: string)
    requires url != ""
    ensures Escape(url) == EscapeChar(url[0]) + Escape(url[1..])
  {
  }

  lemma {:induction false} EscapedOccurrence(url: string, m: string, i: nat)
    requires IsMarker(m) && OccursAt(Escape(url), m, i)
    ensures Contains(url, m)
    decreases |url|
  {
    if url != "" {
      EscapeUnfolds(url);
      var first, rest := EscapeChar(url[0]), Escape(url[1..]);
      if |first| <= i {
        OccursInSuffix(first, rest, m, i);
        EscapedOccurrence(url[1..], m, i - |first|);
        ContainsLater(url, m);
      } else {
        EscapedAtStart(url, m, i);
      }
    }
  }

  lemma ContainsLater(url: string, m: string)
    requires url != "" && Contains(url[1..], m)
    ensures Contains(url, m)
  {
    var j :| OccursAt(url[1..], m, j);
    assert url == url[..1] + url[1..];
    OccursInSuffix(url[..1], url[1..], m, j + 1);
  }

  lemma EscapedAtStart(url: string, m: string, i: nat)
    requires url != "" && IsMarker(m) && OccursAt(Escape(url), m, i) && i < |EscapeChar(url[0])|
    ensures Contains(url, m)
  {
    EscapeUnfolds(url);
    hide Escape;
    assert Escape(url)[i..i + |m|][0] == '#' && Escape(url)[i] == EscapeChar(url[0])[i];
    assert i == 0 && m <= Escape(url);
    EscapePrefix(url, m);
    assert OccursAt(url, m, 0);
  }

  // ---------------------------------------------------------------------------
  // Finding the block again
  // ---------------------------------------------------------------------------

  lemma NoteStart()
    ensures NOTE_1 != "" && Unmarked(NOTE_1) && NOTE_2 != "" && Unmarked(NOTE_2)
    ensures NOTE_1[0] == '\n'
  {
    assert |NOTE_1| == 35 && |NOTE_2| == 34;
  }

  lemma NoteMiddle()
    ensures NOTE_3 != "" && Unmarked(NOTE_3) && NOTE_4 != "" && Unmarked(NOTE_4)
  {
    assert |NOTE_3| == 38 && |NOTE_4| == 33;
  }

  lemma NoteEnd()
    ensures NOTE_5 != "" && Unmarked(NOTE_5) && NOTE_6 != "" && Unmarked(NOTE_6)
    ensures NOTE_6[|NOTE_6| - 1] == '"'
  {
    assert |NOTE_5| == 38 && |NOTE_6| == 34;
  }

  lemma SettingStart()
    ensures SETTING_1 != "" && Unmarked(SETTING_1) && SETTING_2 != "" && Unmarked(SETTING_2) && SETTING_3 != "" && Unmarked(SETTING_3)
    ensures SETTING_1[0] == '"'
  {
    assert |SETTING_1| == 25 && |SETTING_2| == 27 && |SETTING_3| == 21;
  }

  lemma SettingMiddle()
    ensures SETTING_4 != "" && Unmarked(SETTING_4) && SETTING_5 != "" && Unmarked(SETTING_5)
  {
    assert |SETTING_4| == 39 && |SETTING_5| == 23;
  }

  lemma SettingLater()
    ensures SETTING_6 != "" && Unmarked(SETTING_6) && SETTING_7 != "" && Unmarked(SETTING_7) && SETTING_8 != "" && Unmarked(SETTING_8)
  {
    assert |SETTING_6| == 20 && |SETTING_7| == 26 && |SETTING_8| == 23;
  }

  lemma SettingEnd()
    ensures SETTING_9 != "" && Unmarked(SETTING_9) && SETTING_10 != "" && Unmarked(SETTING_10)
    ensures SETTING_10[|SETTING_10| - 1] == '\n'
  {
    assert |SETTING_9| == 29 && |SETTING_10| == 27;
  }

  lemma NoteIsUnmarked()
    ensures Unmarked(Concat(NOTE))
    ensures Concat(NOTE) != "" && Concat(NOTE)[0] == '\n' && Concat(NOTE)[|Concat(NOTE)| - 1] == '"'
  {
    hide Concat, Unmarked;
    NoteStart();
    NoteMiddle();
    NoteEnd();
    UnmarkedConcat(NOTE);
    ConcatEnds(NOTE);
  }

  lemma SettingsAreUnmarked()
    ensures Unmarked(Concat(SETTINGS))
    ensures Concat(SETTINGS) != "" && Concat(SETTINGS)[0] == '"' && Concat(SETTINGS)[|Concat(SETTINGS)| - 1] == '\n'
  {
    hide Concat, Unmarked;
    SettingStart();
    SettingMiddle();
    SettingLater();
    SettingEnd();
    UnmarkedConcat(SETTINGS);
    ConcatEnds(SETTINGS);
  }

  lemma {:induction false} ConcatEnds(parts: seq<string>)
    requires parts != [] && forall k | 0 <= k < |parts| :: parts[k] != ""
    ensures Concat(parts) != "" && Concat(parts)[0] == parts[0][0]
    ensures Concat(parts)[|Concat(parts)| - 1] == parts[|parts| - 1][|parts[|parts| - 1]| - 1]
  {
    if |parts| == 1 {
      assert Concat(parts[1..]) == "";
    } else {
      ConcatEnds(parts[1..]);
      var rest := Concat(parts[1..]);
      assert Concat(parts) == parts[0] + rest && (parts[0] + rest)[|parts[0] + rest| - 1] == rest[|rest| - 1];
    }
  }

  ghost predicate Free(s: string) {
    !Contains(s, Begin()) && !Contains(s, End())
  }

  /** What surrounds the url holds the two markers once each, at its ends, and lets none straddle. */
  lemma HeadAndTail()
    ensures OccursAt(Head(), Begin(), 0) && !Contains(Head(), End()) && Head()[0] == '#' && Head()[|Head()| - 1] == '"'
    ensures Tail()[0] == '"' && Tail()[|Tail()| - 1] == '\n'
    ensures |End()| + 1 < |Tail()| && Find(Tail(), End()) == Some(|Tail()| - |End()| - 1)
  {
    hide Concat, Find, Unmarked;
    MarkersAreMarkers();
    MarkersDiffer();
    NoteIsUnmarked();
    SettingsAreUnmarked();
    var note, settings := Concat(NOTE), Concat(SETTINGS);
    UnmarkedHasNoMarker(note, End());
    SplitContains(Begin(), note, End());
    OccursInPrefix(Begin(), note, Begin(), 0);
    UnmarkedHasNoMarker(settings, End());
    assert End() + "\n" != "" && (End() + "\n")[0] == '#';
    forall j | 0 <= j < |settings| ensures !OccursAt(Tail(), End(), j) {
      SplitOccurrence(settings, End() + "\n", End(), j);
    }
    OccursInSuffix(settings, End() + "\n", End(), |settings|);
    OccursInPrefix(End(), "\n", End(), 0);
    FindIs(Tail(), End(), |settings|);
  }

  lemma FindFirst(text: string, pat: string, j: int)
    ensures Find(text, pat).Some? && j <= Find(text, pat).value ==> (OccursAt(text, pat, j) <==> j == Find(text, pat).value)
    ensures Find(text, pat).None? ==> !OccursAt(text, pat, j)
  {
  }

  /** An append keeps the first occurrence of every marker the text already has. */
  lemma AppendKeepsFirst(existing: string, rest: string, m: string)
    requires Find(existing, m).Some?
    ensures Find(existing + rest, m) == Find(existing, m)
  {
    var i := Find(existing, m).value;
    forall j | 0 <= j <= i ensures OccursAt(existing + rest, m, j) <==> j == i {
      OccursInPrefix(existing, rest, m, j);
    }
    FindIs(existing + rest, m, i);
  }

  /** After text without an END, the first END is that of what follows. */
  lemma FirstEndAfter(pre: string, b: string, p: nat)
    requires !Contains(pre, End()) && Breaks(pre, b) && Find(b, End()) == Some(p)
    ensures Find(pre + b, End()) == Some(|pre| + p)
  {
    MarkersAreMarkers();
    hide Find, Begin, End;
    forall j | 0 <= j <= |pre| + p ensures OccursAt(pre + b, End(), j) <==> j == |pre| + p {
      SplitOccurrence(pre, b, End(), j);
      FindFirst(b, End(), j - |pre|);
    }
    FindIs(pre + b, End(), |pre| + p);
  }

  /** The first END of a block is the one that closes it, unless the url brings an earlier one. */
  lemma BlockEnd(url: string) returns (p: nat)
    ensures Block(url) != "" && Block(url)[0] == '#' && Block(url)[|Block(url)| - 1] == '\n'
    ensures OccursAt(Block(url), Begin(), 0) && 0 < p && Find(Block(url), End()) == Some(p)
    ensures Contains(url, End()) ==> p + |End()| + 1 < |Block(url)|
    ensures !Contains(url, End()) ==> p + |End()| + 1 == |Block(url)|
  {
    MarkersAreMarkers();
    HeadAndTail();
    hide Head, Tail, Find, Begin, End, Escape;
    EscapeKeepsMarkers(url, End());
    var h, u, l := Head(), Escape(url), Tail();
    assert Block(url) == h + (u + l);
    OccursInPrefix(h, u + l, Begin(), 0);
    FindMeans(u, End());
    var q: nat;
    if Contains(u, End()) {
      q := Find(u, End()).value;
      AppendKeepsFirst(u, l, End());
    } else {
      q := |u| + Find(l, End()).value;
      FirstEndAfter(u, l, Find(l, End()).value);
    }
    p := |h| + q;
    FirstEndAfter(h, u + l, q);
  }

  /** A block after marker-free text is found again, up to the END that `BlockEnd` says. */
  lemma BlockIsFound(pre: string, url: string, post: string, p: nat)
    requires Free(pre) && Find(Block(url), End()) == Some(p) && 0 < p
    requires Block(url) != "" && Block(url)[0] == '#' && OccursAt(Block(url), Begin(), 0)
    ensures var out := pre + Block(url) + post;
            Find(out, Begin()) == Some(|pre|) && Find(out, End()) == Some(|pre| + p)
  {
    MarkersAreMarkers();
    hide Find, Block, Begin, End;
    var b := Block(url);
    var out := pre + (b + post);
    assert pre + b + post == out;
    forall j | 0 <= j <= |pre| ensures OccursAt(out, Begin(), j) <==> j == |pre| {
      SplitOccurrence(pre, b + post, Begin(), j);
      OccursInPrefix(b, post, Begin(), j - |pre|);
    }
    FindIs(out, Begin(), |pre|);
    forall j | 0 <= j <= |pre| + p ensures OccursAt(out, End(), j) <==> j == |pre| + p {
      SplitOccurrence(pre, b + post, End(), j);
      if |pre| <= j {
        OccursInPrefix(b, post, End(), j - |pre|);
        FindFirst(b, End(), j - |pre|);
      }
    }
    FindIs(out, End(), |pre| + p);
  }

  /** A second rewrite leaves a block after marker-free text alone exactly when the url holds no END. */
  lemma SecondPass(pre: string, url: string, post: string)
    requires Free(pre)
    ensures var out := pre + Block(url) + post;
            Rewrite(out, url) == out <==> !Contains(url, End())
  {
    hide Find;
    var p := BlockEnd(url);
    hide Block, Begin, End;
    BlockIsFound(pre, url, post, p);
    var b := Block(url);
    var out := pre + b + post;
    var a := AfterEnd(out, |pre| + p);
    assert out[..|pre|] == pre;
    assert Rewrite(out, url) == pre + b + out[a..];
    if Contains(url, End()) {
      assert |Rewrite(out, url)| > |out|;
    } else {
      assert out[|pre| + p + |End()|] == b[|b| - 1];
      assert out[a..] == post;
    }
  }

  // ---------------------------------------------------------------------------
  // Main results
  // ---------------------------------------------------------------------------

  lemma SeparatorIsFree(existing: string)
    ensures Breaks(existing, Separator(existing)) && Free(Separator(existing))
  {
    MarkersAreMarkers();
  }

  ghost predicate WellMarked(existing: string) {
    Bracketed(existing) || Free(existing)
  }

  /**
   Rewriting twice is the same as rewriting once exactly when the text has no marker or its first BEGIN precedes its
   first END, and the url does not contain the END marker.
   */
  lemma RewriteIsIdempotent(existing: string, url: string)
    ensures Rewrite(Rewrite(existing, url), url) == Rewrite(existing, url)
            <==> WellMarked(existing) && !Contains(url, End())
  {
    hide Find, Block, Begin, End;
    FindMeans(existing, Begin());
    FindMeans(existing, End());
    if Bracketed(existing) {
      var s, e := Find(existing, Begin()).value, Find(existing, End()).value;
      PrefixIsFree(existing, s);
      SecondPass(existing[..s], url, existing[AfterEnd(existing, e)..]);
    } else if Free(existing) {
      var pre := existing + Separator(existing);
      MarkersAreMarkers();
      SeparatorIsFree(existing);
      SplitContains(existing, Separator(existing), Begin());
      SplitContains(existing, Separator(existing), End());
      SecondPass(pre, url, "");
      assert pre + Block(url) + "" == Rewrite(existing, url);
    } else {
      MisplacedMarkersDrift(existing, url);
    }
  }

  lemma PrefixIsFree(existing: string, s: nat)
    requires Bracketed(existing) && Find(existing, Begin()) == Some(s)
    ensures Free(existing[..s])
  {
    forall j ensures !OccursAt(existing[..s], Begin(), j) && !OccursAt(existing[..s], End(), j) {
      assert existing == existing[..s] + existing[s..];
      if j + |Begin()| <= s { OccursInPrefix(existing[..s], existing[s..], Begin(), j); }
      if j + |End()| <= s { OccursInPrefix(existing[..s], existing[s..], End(), j); }
    }
  }

  /** With an unpaired or inverted marker each rewrite changes the text again. */
  lemma MisplacedMarkersDrift(existing: string, url: string)
    requires !WellMarked(existing)
    ensures Rewrite(Rewrite(existing, url), url) != Rewrite(existing, url)
  {
    hide Find, Block, Begin, End, Separator, OccursAt;
    FindMeans(existing, Begin());
    FindMeans(existing, End());
    var p := BlockEnd(url);
    if Contains(existing, End()) {
      var out := Rewrite(existing, url);
      var rest := Separator(existing) + Block(url);
      assert out == existing + rest;
      BeginStaysBehind(existing, rest);
      assert |Rewrite(out, url)| > |out|;
    } else {
      EndMoves(existing, url, p);
    }
  }

  /** Such text exists: a lone BEGIN changes again on the second rewrite, whatever the url. */
  lemma LoneBeginDrifts(url: string)
    ensures !WellMarked(Begin()) && Rewrite(Rewrite(Begin(), url), url) != Rewrite(Begin(), url)
  {
    MarkersDiffer();
    hide Find, Block, Begin, End;
    assert OccursAt(Begin(), Begin(), 0) by {
      assert Begin()[0..|Begin()|] == Begin();
    }
    FindMeans(Begin(), End());
    MisplacedMarkersDrift(Begin(), url);
  }

  lemma BeginStaysBehind(existing: string, rest: string)
    requires Find(existing, End()).Some? && !Bracketed(existing)
    ensures !Bracketed(existing + rest)
  {
    AppendKeepsFirst(existing, rest, End());
    var e := Find(existing, End()).value;
    MarkersAreMarkers();
    if Find(existing, Begin()).Some? {
      AppendKeepsFirst(existing, rest, Begin());
    } else {
      forall j | 0 <= j < e ensures !OccursAt(existing + rest, Begin(), j) {
        if e < j + |Begin()| {
          BeginNotOverEnd(existing + rest, j, e);
        } else {
          OccursInPrefix(existing, rest, Begin(), j);
        }
      }
    }
  }

  /** The markers cannot overlap. */
  lemma BeginNotOverEnd(text: string, j: int, e: int)
    requires OccursAt(text, End(), e) && 0 <= j < e < j + |Begin()|
    ensures !OccursAt(text, Begin(), j)
  {
    MarkersAreMarkers();
    OccursChars(text, End(), e);
    OccursChars(text, Begin(), j);
    assert text[e + 0] == End()[0] == '#';
    assert Plain(Begin()[e - j]);
    assert j + (e - j) == e;
  }

  /** Text rewritten after an orphan BEGIN at `s` has its first END inside the block that now stands at `s`. */
  lemma OrphanSecondEnd(existing: string, s: nat, b: string, p: nat, post: string)
    requires Find(existing, End()).None? && s <= |existing|
    requires b != "" && b[0] == '#' && Find(b, End()) == Some(p)
    ensures Find(existing[..s] + b + post, End()) == Some(s + p)
  {
    hide Find;
    FindMeans(existing, End());
    forall j ensures !OccursAt(existing[..s], End(), j) {
      assert existing == existing[..s] + existing[s..];
      if j + |End()| <= s { OccursInPrefix(existing[..s], existing[s..], End(), j); }
    }
    AppendKeepsFirst(b, post, End());
    FirstEndAfter(existing[..s], b + post, p);
    assert existing[..s] + (b + post) == existing[..s] + b + post;
  }

  /** An orphan BEGIN pairs with the END of the appended block, and the next rewrite swallows what lies between. */
  lemma EndMoves(existing: string, url: string, p: nat)
    requires Find(existing, Begin()).Some? && Find(existing, End()).None?
    requires Find(Block(url), End()) == Some(p) && 0 < p
    requires Block(url) != "" && Block(url)[0] == '#' && OccursAt(Block(url), Begin(), 0)
    ensures Rewrite(Rewrite(existing, url), url) != Rewrite(existing, url)
  {
    MarkersAreMarkers();
    hide Find, Block, Separator, Begin, End, OccursAt, Contains, Rewrite, AfterEnd, Escape;
    var s := Find(existing, Begin()).value;
    var sep, b := Separator(existing), Block(url);
    var out := existing + (sep + b);
    FindFits(existing, Begin());
    RewriteAppends(existing, url);
    AppendKeepsFirst(existing, sep + b, Begin());
    SeparatorIsFree(existing);
    NoEndBefore(existing, sep);
    FirstEndAfter(existing + sep, b, p);
    assert existing + sep + b == out;
    FindFits(out, End());
    var post := out[AfterEnd(out, |existing + sep| + p)..];
    assert out[..s] == existing[..s];
    RewriteBracketed(out, url);
    OrphanSecondEnd(existing, s, b, p, post);
  }

  lemma RewriteAppends(existing: string, url: string)
    requires !Bracketed(existing)
    ensures Rewrite(existing, url) == existing + (Separator(existing) + Block(url))
  {
    hide Find, Block, Separator, Begin, End;
    assert existing + Separator(existing) + Block(url) == existing + (Separator(existing) + Block(url));
  }

  lemma NoEndBefore(existing: string, sep: string)
    requires Find(existing, End()).None? && Breaks(existing, sep) && !Contains(sep, End())
    ensures !Contains(existing + sep, End())
  {
    MarkersAreMarkers();
    hide Find, Begin, End;
    FindMeans(existing, End());
    SplitContains(existing, sep, End());
  }

  /**
   What lies outside the old block is kept, in order: the old text is `pre + block + post` where the block runs from
   the first BEGIN through the first END and one newline after it; without a leading BEGIN the text is a prefix of
   the result.
   */
  lemma RewriteKeepsTheRest(existing: string, url: string)
    ensures Bracketed(existing) ==>
              exists pre, block, post :: Replaces(existing, pre, block, post, Rewrite(existing, url), url)
    ensures !Bracketed(existing) ==>
              existing <= Rewrite(existing, url)
  {
    hide Find, Block, Begin, End, Separator;
    if Bracketed(existing) {
      ReplacesTheBlock(existing, url);
    } else {
      assert existing + Separator(existing) + Block(url) == existing + (Separator(existing) + Block(url));
    }
  }

  lemma ReplacesTheBlock(existing: string, url: string)
    requires Bracketed(existing)
    ensures exists pre, block, post :: Replaces(existing, pre, block, post, Rewrite(existing, url), url)
  {
    hide Find, Block, Begin, End, Free, OccursAt, Rewrite, Replaces, AfterEnd;
    var s, e := Find(existing, Begin()).value, Find(existing, End()).value;
    FindFits(existing, End());
    var a := AfterEnd(existing, e);
    PrefixIsFree(existing, s);
    MarkersApart(existing, s, e);
    BlockSpan(existing, s, e, a);
    NewlineGoes(existing, s, e, a);
    IsReplacement(existing, existing[..s], existing[s..a], existing[a..], url, e - s);
    RewriteBracketed(existing, url);
  }

  lemma RewriteBracketed(existing: string, url: string)
    requires Bracketed(existing)
    ensures Rewrite(existing, url)
            == existing[..Find(existing, Begin()).value] + Block(url) + existing[AfterEnd(existing, Find(existing, End()).value)..]
  {
    hide Find, Block, Begin, End;
  }

  lemma IsReplacement(existing: string, pre: string, block: string, post: string, url: string, k: nat)
    requires existing == pre + block + post && Free(pre) && Begin() <= block && Find(existing, Begin()) == Some(|pre|)
    requires k <= |block| && Find(existing, End()) == Some(|pre| + k)
    requires block[k..] == End() || block[k..] == End() + "\n"
    requires block != "" && (block[|block| - 1] != '\n' && post != "" ==> post[0] != '\n')
    ensures Replaces(existing, pre, block, post, pre + Block(url) + post, url)
  {
    hide Find, Block, Begin, End, Free;
  }

  lemma NewlineGoes(existing: string, s: nat, e: nat, a: nat)
    requires s < e && e + |End()| <= |existing| && a == AfterEnd(existing, e)
    ensures s < a <= |existing| && (existing[s..a][a - s - 1] != '\n' && existing[a..] != "" ==> existing[a..][0] != '\n')
  {
    hide End, Begin;
    var n := e + |End()|;
    if a == n + 1 {
      assert existing[s..a][a - s - 1] == existing[n];
    } else if existing[a..] != "" {
      assert existing[a..][0] == existing[n];
    }
  }

  lemma BlockSpan(existing: string, s: nat, e: nat, a: nat)
    requires OccursAt(existing, Begin(), s) && OccursAt(existing, End(), e) && s + |Begin()| <= e && a == AfterEnd(existing, e)
    ensures e < a <= |existing|
    ensures existing == existing[..s] + existing[s..a] + existing[a..] && Begin() <= existing[s..a]
    ensures existing[s..a][e - s..] == End() || existing[s..a][e - s..] == End() + "\n"
  {
    MarkersAreMarkers();
    hide Begin, End;
    assert existing[s..a][..|Begin()|] == existing[s..s + |Begin()|];
    assert existing[s..a][e - s..] == existing[e..a];
    assert existing[e..a] == existing[e..e + |End()|] + existing[e + |End()|..a];
  }

  lemma MarkersApart(text: string, s: nat, e: nat)
    requires OccursAt(text, Begin(), s) && OccursAt(text, End(), e) && s < e
    ensures s + |Begin()| <= e
  {
    if e < s + |Begin()| {
      BeginNotOverEnd(text, s, e);
    }
  }

  lemma SameSplit(a: string, b: string, a': string, b': string, n: nat)
    requires a + b == a' + b' && n <= |a| && n <= |a'|
    requires |a| == n || (|a| == n + 1 && a[n] == '\n')
    requires |a'| == n || (|a'| == n + 1 && a'[n] == '\n')
    requires a != "" && (a[|a| - 1] != '\n' && b != "" ==> b[0] != '\n')
    requires a' != "" && (a'[|a'| - 1] != '\n' && b' != "" ==> b'[0] != '\n')
    requires 0 < n && a[n - 1] != '\n'
    ensures a == a' && b == b'
  {
    var t := a + b;
    assert t[n - 1] == a[n - 1] && t[n - 1] == a'[n - 1];
    assert |a| == (if n < |t| && t[n] == '\n' then n + 1 else n);
    assert |a'| == (if n < |t| && t[n] == '\n' then n + 1 else n);
    assert a == t[..|a|] && a' == t[..|a|] && b == t[|a|..] && b' == t[|a|..];
  }

  /** The two markers and the newline after END determine what is replaced, and so the result. */
  lemma ReplacesOneWay(existing: string, url: string, pre: string, block: string, post: string, out: string,
                       pre': string, block': string, post': string, out': string)
    requires Replaces(existing, pre, block, post, out, url) && Replaces(existing, pre', block', post', out', url)
    ensures out == out'
  {
    ReplacesParts(existing, url, pre, block, post, out);
    ReplacesParts(existing, url, pre', block', post', out');
    hide Find, Block, Begin, End, Replaces;
    SameSplit(block, post, block', post', Find(existing, End()).value - Find(existing, Begin()).value + |End()|);
  }

  lemma ReplacesParts(existing: string, url: string, pre: string, block: string, post: string, out: string)
    requires Replaces(existing, pre, block, post, out, url)
    ensures Find(existing, Begin()).Some? && Find(existing, End()).Some? && Find(existing, Begin()).value <= |existing|
    ensures var s := Find(existing, Begin()).value;
            var n := Find(existing, End()).value - s + |End()|;
            && pre == existing[..s] && block + post == existing[s..] && out == pre + Block(url) + post
            && 0 < n <= |block| && block[n - 1] != '\n' && (|block| == n || (|block| == n + 1 && block[n] == '\n'))
            && (block[|block| - 1] != '\n' && post != "" ==> post[0] != '\n')
  {
    MarkersAreMarkers();
    hide Find, Block, Begin, End, Contains, Free;
    var k := Find(existing, End()).value - |pre|;
    var marker := block[k..];
    assert marker[|End()| - 1] == block[k + |End()| - 1] == End()[|End()| - 1];
    assert |marker| == |End()| + 1 ==> marker[|End()|] == block[k + |End()|];
  }

  ghost predicate Replaces(existing: string, pre: string, block: string, post: string, out: string, url: string) {
    && existing == pre + block + post && out == pre + Block(url) + post
    && Free(pre) && Begin() <= block && Find(existing, Begin()) == Some(|pre|)
    && (exists k :: 0 <= k <= |block| && Find(existing, End()) == Some(|pre| + k)
                    && (block[k..] == End() || block[k..] == End() + "\n"))
    && (block[|block| - 1] != '\n' && post != "" ==> post[0] != '\n')
  }

  // ---------------------------------------------------------------------------
  // What the block says, and where it stands
  // ---------------------------------------------------------------------------

  predicate EndsBlank(text: string) {
    2 <= |text| && text[|text| - 2..] == "\n\n"
  }

  function LineBreaks(n: nat): string {
    if n == 0 then "" else LineBreaks(n - 1) + "\n"
  }

  /** An appended block starts the file or follows a blank line, for which no more line breaks are added than it takes. */
  lemma AppendsAfterBlankLine(existing: string, url: string)
    requires !Bracketed(existing)
    ensures exists n: nat ::
              && n <= 2 && Rewrite(existing, url) == existing + LineBreaks(n) + Block(url)
              && (existing == "" ==> n == 0)
              && (existing != "" ==> EndsBlank(existing + LineBreaks(n)) && forall m: nat | m < n :: !EndsBlank(existing + LineBreaks(m)))
  {
    hide Bracketed, Block;
    var n: nat := |Separator(existing)|;
    BreaksAre();
    SeparatorIsLeast(existing);
    assert Rewrite(existing, url) == existing + LineBreaks(n) + Block(url);
  }

  lemma BreaksAre()
    ensures LineBreaks(0) == "" && LineBreaks(1) == "\n" && LineBreaks(2) == "\n\n"
  {
    assert LineBreaks(1) == LineBreaks(0) + "\n";
  }

  lemma SeparatorIsLeast(existing: string)
    ensures var n := |Separator(existing)|;
            && n <= 2 && Separator(existing) == LineBreaks(n) && (existing == "" ==> n == 0)
            && (existing != "" ==> EndsBlank(existing + LineBreaks(n)) && forall m: nat | m < n :: !EndsBlank(existing + LineBreaks(m)))
  {
    BreaksAre();
    if existing != "" {
      assert existing + "" == existing;
      var one, two := existing + "\n", existing + "\n\n";
      assert one[|one| - 2..] == [existing[|existing| - 1], '\n'];
      assert two[|two| - 2..] == "\n\n";
      var n := |Separator(existing)|;
      forall m: nat | m < n ensures !EndsBlank(existing + LineBreaks(m)) {
        assert m == 0 || m == 1;
      }
    }
  }

  /** Two neighbouring parts stand next to each other in the whole. */
  lemma {:induction false} PairIn(parts: seq<string>, i: nat, pat: string)
    requires i + 1 < |parts| && OccursAt(parts[i] + parts[i + 1], pat, 0)
    ensures Contains(Concat(parts), pat)
  {
    if i == 0 {
      var rest := Concat(parts[1..][1..]);
      assert Concat(parts) == (parts[0] + parts[1]) + rest;
      OccursInPrefix(parts[0] + parts[1], rest, pat, 0);
      assert OccursAt(Concat(parts), pat, 0);
    } else {
      PairIn(parts[1..], i - 1, pat);
      var j :| OccursAt(Concat(parts[1..]), pat, j);
      OccursInSuffix(parts[0], Concat(parts[1..]), pat, |parts[0]| + j);
      assert OccursAt(Concat(parts), pat, |parts[0]| + j);
    }
  }

  lemma Starts(text: string, pat: string)
    requires |pat| <= |text| && text[..|pat|] == pat
    ensures OccursAt(text, pat, 0)
  {
  }

  lemma TokenSetting()
    ensures Contains(Concat(SETTINGS), "\"\nbearer_token_env_var = \"TEAM_MODE_HTTP_MCP_TOKEN\"\n")
  {
    assert |SETTING_1| == 25 && |SETTING_2| == 27;
    assert SETTING_1 + SETTING_2 == "\"\nbearer_token_env_var = \"TEAM_MODE_HTTP_MCP_TOKEN\"\n";
    hide Concat, Contains;
    Starts(SETTING_1 + SETTING_2, SETTING_1 + SETTING_2);
    PairIn(SETTINGS, 0, SETTING_1 + SETTING_2);
  }

  lemma TeamHeader()
    ensures Contains(Concat(SETTINGS), "\"X-Team-Mode-Team\" = \"TEAM_MODE_TEAM\"")
  {
    assert |SETTING_4| == 39;
    Starts(SETTING_4 + SETTING_5, "\"X-Team-Mode-Team\" = \"TEAM_MODE_TEAM\"");
    PairIn(SETTINGS, 3, "\"X-Team-Mode-Team\" = \"TEAM_MODE_TEAM\"");
  }

  lemma MemberHeader()
    ensures Contains(Concat(SETTINGS), "\"X-Team-Mode-Member\" = \"TEAM_MODE_MEMBER\"")
  {
    assert |SETTING_5| == 23 && |SETTING_6| == 20;
    Starts(SETTING_5 + SETTING_6, "\"X-Team-Mode-Member\" = \"TEAM_MODE_MEMBER\"");
    PairIn(SETTINGS, 4, "\"X-Team-Mode-Member\" = \"TEAM_MODE_MEMBER\"");
  }

  lemma WorkerHeader()
    ensures Contains(Concat(SETTINGS), "\"X-Team-Mode-Worker-Id\" = \"TEAM_MODE_WORKER_ID\"")
  {
    assert |SETTING_7| == 26 && |SETTING_8| == 23;
    Starts(SETTING_7 + SETTING_8, "\"X-Team-Mode-Worker-Id\" = \"TEAM_MODE_WORKER_ID\"");
    PairIn(SETTINGS, 6, "\"X-Team-Mode-Worker-Id\" = \"TEAM_MODE_WORKER_ID\"");
  }

  lemma RootHeader()
    ensures Contains(Concat(SETTINGS), "\"X-Team-Mode-Project-Root\" = \"TEAM_MODE_PROJECT_ROOT\"")
  {
    assert |SETTING_9| == 29 && |SETTING_10| == 27;
    Starts(SETTING_9 + SETTING_10, "\"X-Team-Mode-Project-Root\" = \"TEAM_MODE_PROJECT_ROOT\"");
    PairIn(SETTINGS, 8, "\"X-Team-Mode-Project-Root\" = \"TEAM_MODE_PROJECT_ROOT\"");
  }

  lemma ContainsAround(a: string, b: string, c: string, pat: string)
    requires Contains(b, pat)
    ensures Contains(a + b + c, pat)
  {
    var j :| OccursAt(b, pat, j);
    OccursInSuffix(a, b, pat, |a| + j);
    OccursInPrefix(a + b, c, pat, |a| + j);
    assert OccursAt(a + b + c, pat, |a| + j);
  }

  /** The block gives the server its url and token, and each header the variable of its own name. */
  lemma BlockSettings(url: string)
    ensures Contains(Block(url), "\"\nbearer_token_env_var = \"TEAM_MODE_HTTP_MCP_TOKEN\"\n")
    ensures Contains(Block(url), "\"X-Team-Mode-Team\" = \"TEAM_MODE_TEAM\"")
    ensures Contains(Block(url), "\"X-Team-Mode-Member\" = \"TEAM_MODE_MEMBER\"")
    ensures Contains(Block(url), "\"X-Team-Mode-Worker-Id\" = \"TEAM_MODE_WORKER_ID\"")
    ensures Contains(Block(url), "\"X-Team-Mode-Project-Root\" = \"TEAM_MODE_PROJECT_ROOT\"")
  {
    hide Concat, Contains, Begin, End, Escape;
    TokenSetting();
    TeamHeader();
    MemberHeader();
    WorkerHeader();
    RootHeader();
    var a, b, c := Head() + Escape(url), Concat(SETTINGS), End() + "\n";
    assert Block(url) == a + b + c;
    ContainsAround(a, b, c, "\"\nbearer_token_env_var = \"TEAM_MODE_HTTP_MCP_TOKEN\"\n");
    ContainsAround(a, b, c, "\"X-Team-Mode-Team\" = \"TEAM_MODE_TEAM\"");
    ContainsAround(a, b, c, "\"X-Team-Mode-Member\" = \"TEAM_MODE_MEMBER\"");
    ContainsAround(a, b, c, "\"X-Team-Mode-Worker-Id\" = \"TEAM_MODE_WORKER_ID\"");
    ContainsAround(a, b, c, "\"X-Team-Mode-Project-Root\" = \"TEAM_MODE_PROJECT_ROOT\"");
  }

  // The url as a reader of the file gets it

  /** Where a basic string ends that starts just before `s`: at the first quote without a backslash before it. */
  function QuoteEnd(s: string): nat {
    if s == "" || s[0] == '"' then 0
    else if s[0] == '\\' && 2 <= |s| then 2 + QuoteEnd(s[2..])
    else 1 + QuoteEnd(s[1..])
  }

  /** The characters a basic string stands for, of the two escapes that are written. */
  function Unescape(s: string): string {
    if s == "" then ""
    else if s[0] == '\\' && 2 <= |s| then [s[1]] + Unescape(s[2..])
    else [s[0]] + Unescape(s[1..])
  }

  lemma {:induction false} UrlEndsAtItsQuote(url: string, rest: string)
    ensures QuoteEnd(Escape(url) + ("\"" + rest)) == |Escape(url)|
  {
    if url == "" {
      assert Escape(url) + ("\"" + rest) == "\"" + rest;
    } else {
      UrlEndsAtItsQuote(url[1..], rest);
      EscapeUnfolds(url);
      hide Escape;
      var first, more := EscapeChar(url[0]), Escape(url[1..]) + ("\"" + rest);
      assert Escape(url) + ("\"" + rest) == first + more;
      QuoteSkips(url[0], more);
    }
  }

  lemma QuoteSkips(c: char, more: string)
    ensures QuoteEnd(EscapeChar(c) + more) == |EscapeChar(c)| + QuoteEnd(more)
  {
    var text := EscapeChar(c) + more;
    assert text[|EscapeChar(c)|..] == more && text[0] == EscapeChar(c)[0];
  }

  lemma UnescapeTakes(c: char, more: string)
    ensures Unescape(EscapeChar(c) + more) == [c] + Unescape(more)
  {
    var text := EscapeChar(c) + more;
    assert text[|EscapeChar(c)|..] == more && text[0] == EscapeChar(c)[0];
    if |EscapeChar(c)| == 2 {
      assert text[1] == c;
    }
  }

  lemma {:induction false} UrlUnescapes(url: string)
    ensures Unescape(Escape(url)) == url
  {
    if url != "" {
      UrlUnescapes(url[1..]);
      EscapeUnfolds(url);
      hide Escape, Unescape;
      UnescapeTakes(url[0], Escape(url[1..]));
      assert url == [url[0]] + url[1..];
    }
  }

  /** The url's string ends at the closing quote and stands for the url, whatever the url holds. */
  lemma UrlReadsBack(url: string, rest: string)
    ensures QuoteEnd(Escape(url) + ("\"" + rest)) == |Escape(url)|
    ensures Unescape(Escape(url)) == url
  {
    UrlEndsAtItsQuote(url, rest);
    UrlUnescapes(url);
  }

  lemma {:induction false} ConcatEndsIn(parts: seq<string>) returns (before: string)
    requires parts != []
    ensures Concat(parts) == before + parts[|parts| - 1]
  {
    if |parts| == 1 {
      before := "";
      assert Concat(parts[1..]) == "";
    } else {
      var more := ConcatEndsIn(parts[1..]);
      before := parts[0] + more;
    }
  }

  lemma HeadEndsInUrl() returns (before: string)
    ensures Head() == before + "\nurl = \""
  {
    var rest := ConcatEndsIn(NOTE);
    hide Concat, Begin;
    assert |NOTE_6| == 34;
    assert NOTE_6 == NOTE_6[..26] + "\nurl = \"";
    before := Begin() + rest + NOTE_6[..26];
  }

  lemma TailStartsWithQuote() returns (after: string)
    ensures Tail() == "\"\n" + after
  {
    hide Concat, End;
    ConcatFirst(SETTINGS);
    FirstSetting();
    var first, rest, last := SETTING_1, Concat(SETTINGS[1..]), End() + "\n";
    after := first[2..] + rest + last;
    OneAfterAnother("\"\n", first[2..], rest, last);
  }

  lemma FirstSetting()
    ensures |SETTING_1| == 25 && SETTING_1 == "\"\n" + SETTING_1[2..] && SETTINGS[0] == SETTING_1
  {
    assert |SETTING_1| == 25;
  }

  lemma ConcatFirst(parts: seq<string>)
    requires parts != []
    ensures Concat(parts) == parts[0] + Concat(parts[1..])
  {
  }

  lemma OneAfterAnother(a: string, b: string, c: string, d: string)
    ensures ((a + b) + c) + d == a + (b + c + d)
  {
  }

  /** In the block, the url's string follows `url = "` and its closing quote ends the line. */
  lemma UrlStandsInItsLine(url: string) returns (before: string, after: string)
    ensures Block(url) == before + "\nurl = \"" + Escape(url) + ("\"\n" + after)
  {
    before := HeadEndsInUrl();
    after := TailStartsWithQuote();
    hide Head, Tail, Escape;
  }
}
