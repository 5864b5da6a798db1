/**
 The conversation memory of stateless backends (src/memory/mod.rs).
 */
module Memory {
  import opened Sequences
  import opened Text
  import opened Wrappers

  datatype Role = User | Assistant

  datatype Turn = Turn(role: Role, content: string, timestamp: string)

  function RoleName(role: Role): string {
    match role
    case User => "User"
    case Assistant => "Assistant"
  }

  function Line(turn: Turn): string {
    RoleName(turn.role) + ": " + turn.content + "\n"
  }

  function Header(): string { "[Conversation Context]\n" }

  function Lines(turns: seq<Turn>): string {
    if turns == [] then "" else Line(turns[0]) + Lines(turns[1..])
  }

  /** The context that shows the last `n` turns. */
  function Context(turns: seq<Turn>, n: nat): string {
    if n == 0 then "" else Header() + Lines(LastN(turns, n))
  }

  /** Header and the last `n` turns fit in `budget` bytes. */
  predicate Fits(turns: seq<Turn>, n: nat, budget: nat) {
    ByteLen(Header() + Lines(LastN(turns, n))) <= budget
  }

  /** The greatest number of turns, counted from the end, that fit; 0 when not even the last one does. */
  ghost predicate IsLongestFit(turns: seq<Turn>, n: nat, budget: nat) {
    && n <= |turns|
    && (0 < n ==> Fits(turns, n, budget))
    && forall k | n < k <= |turns| :: !Fits(turns, k, budget)
  }

  function ConcatAll(lines: seq<string>): string {
    if lines == [] then "" else lines[0] + ConcatAll(lines[1..])
  }

  /** `Vec::reverse` */
  function Reversed<T>(s: seq<T>): (r: seq<T>)
    ensures |r| == |s| && forall i | 0 <= i < |s| :: r[i] == s[|s| - 1 - i]
  {
    if s == [] then [] else Reversed(s[1..]) + [s[0]]
  }

  class ConversationMemory {
    var turns: seq<Turn>
    const maxTurns: nat
    const budget: nat
    /** Every turn recorded since the memory was made or cleared. */
    ghost var history: seq<Turn>

    /** The memory is the end of the history. */
    ghost predicate Valid()
      reads this
    {
      turns == LastN(history, maxTurns)
    }

    constructor (maxTurns: nat, budget: nat)
      ensures Valid() && history == [] && this.maxTurns == maxTurns && this.budget == budget
    {
      this.turns, this.maxTurns, this.budget := [], maxTurns, budget;
      history := [];
    }

    method RecordTurn(role: Role, content: string, timestamp: string)
      requires Valid()
      modifies this`turns, this`history
      ensures Valid() && history == old(history) + [Turn(role, content, timestamp)]
    {
      LastPushed(history, maxTurns, Turn(role, content, timestamp));
      hide LastN;
      turns := turns + [Turn(role, content, timestamp)];
      history := history + [Turn(role, content, timestamp)];
      while |turns| > maxTurns
        invariant history == old(history) + [Turn(role, content, timestamp)]
        invariant |turns| <= |history| && turns == LastN(history, |turns|)
        invariant |turns| >= |LastN(history, maxTurns)|
      {
        DropFirst(history, |turns|);
        turns := turns[1..];
      }
      WholeOrLess(history, maxTurns);
    }

    method Clear()
      modifies this`turns, this`history
      ensures Valid() && history == []
    {
      turns, history := [], [];
    }

    method FormatContext() returns (out: string)
      requires Valid()
      ensures exists n :: IsLongestFit(LastN(history, maxTurns), n, budget) && out == Context(LastN(history, maxTurns), n)
    {
      hide LastN, ByteLen, Lines, ConcatAll, Context, Line, Fits, Header, IsLongestFit;
      if turns == [] {
        NothingFits(turns, budget);
        return "";
      }
      var selected: seq<string> := [];
      var header := Header();
      var total := ByteLen(header);
      TotalStarts(turns);
      var n: nat := 0;
      while n < |turns|
        invariant n <= |turns| && |selected| == n
        invariant selected == Shown(turns, n)
        invariant total == ByteLen(Header() + Lines(LastN(turns, n)))
        invariant 0 < n ==> Fits(turns, n, budget)
      {
        var line := Line(turns[|turns| - 1 - n]);
        OneMoreLine(turns, n);
        FitsMeans(turns, n + 1, budget);
        if total + ByteLen(line) > budget {
          break;
        }
        total := total + ByteLen(line);
        selected := selected + [line];
        n := n + 1;
      }
      LongestFit(turns, n, budget);
      ContextIsShown(turns, n);
      if selected == [] {
        return "";
      }
      selected := Reversed(selected);
      out := header;
      assert selected[0..] == selected;
      for i := 0 to |selected|
        invariant out + ConcatAll(selected[i..]) == header + ConcatAll(selected)
      {
        ConcatStep(out, selected, i);
        out := out + selected[i];
      }
      ConcatDone(out, selected);
    }
  }

  lemma LastPushed<T>(s: seq<T>, n: nat, x: T)
    ensures LastN(s, n) + [x] == LastN(s + [x], |LastN(s, n)| + 1)
  {
  }

  lemma WholeOrLess<T>(s: seq<T>, n: nat)
    ensures LastN(s, |LastN(s, n)|) == LastN(s, n)
  {
  }

  lemma DropFirst<T>(s: seq<T>, n: nat)
    requires 0 < n <= |s|
    ensures LastN(s, n)[1..] == LastN(s, n - 1)
  {
  }

  /** The lines of the last `n` turns, the latest first. */
  ghost function Shown(turns: seq<Turn>, n: nat): seq<string>
    requires n <= |turns|
  {
    seq(n, i requires 0 <= i < n => Line(turns[|turns| - 1 - i]))
  }

  lemma FitsMeans(turns: seq<Turn>, n: nat, budget: nat)
    ensures Fits(turns, n, budget) <==> ByteLen(Header() + Lines(LastN(turns, n))) <= budget
  {
  }

  lemma NothingFits(turns: seq<Turn>, budget: nat)
    requires turns == []
    ensures IsLongestFit(turns, 0, budget) && Context(turns, 0) == ""
  {
  }

  lemma TotalStarts(turns: seq<Turn>)
    ensures ByteLen(Header()) == ByteLen(Header() + Lines(LastN(turns, 0)))
  {
    hide Header, ByteLen;
    assert Header() + "" == Header();
  }

  lemma ConcatStep(out: string, lines: seq<string>, i: nat)
    requires i < |lines|
    ensures out + ConcatAll(lines[i..]) == (out + lines[i]) + ConcatAll(lines[i + 1..])
  {
    assert lines[i..][1..] == lines[i + 1..];
  }

  lemma ConcatDone(out: string, lines: seq<string>)
    ensures out + ConcatAll(lines[|lines|..]) == out
  {
  }

  lemma OneMoreLine(turns: seq<Turn>, n: nat)
    requires n < |turns|
    ensures var line := Line(turns[|turns| - 1 - n]);
            && ByteLen(Header() + Lines(LastN(turns, n + 1))) == ByteLen(Header() + Lines(LastN(turns, n))) + ByteLen(line)
            && Lines(LastN(turns, n + 1)) == line + Lines(LastN(turns, n))
  {
    var line := Line(turns[|turns| - 1 - n]);
    var rest := LastN(turns, n);
    LastOneMore(turns, n);
    assert LastN(turns, n + 1)[1..] == rest;
    assert Lines(LastN(turns, n + 1)) == line + Lines(rest);
    hide ByteLen, Lines, LastN, Line, Header;
    ByteLenConcat(Header(), line + Lines(rest));
    ByteLenConcat(line, Lines(rest));
    ByteLenConcat(Header(), Lines(rest));
  }

  /** More turns never take fewer bytes. */
  lemma {:induction false} SizeGrows(turns: seq<Turn>, n: nat, k: nat)
    requires n <= k <= |turns|
    ensures ByteLen(Header() + Lines(LastN(turns, n))) <= ByteLen(Header() + Lines(LastN(turns, k)))
    decreases k
  {
    hide ByteLen, Lines, LastN, Line, Header;
    if n < k {
      OneMoreLine(turns, k - 1);
      SizeGrows(turns, n, k - 1);
    }
  }

  /** The first turn that does not fit ends the search for good. */
  lemma LongestFit(turns: seq<Turn>, n: nat, budget: nat)
    requires n <= |turns| && (0 < n ==> Fits(turns, n, budget)) && (n < |turns| ==> !Fits(turns, n + 1, budget))
    ensures IsLongestFit(turns, n, budget)
  {
    hide ByteLen, Lines, LastN, Header;
    forall k | n < k <= |turns| ensures !Fits(turns, k, budget) {
      SizeGrows(turns, n + 1, k);
    }
  }

  lemma {:induction false} ShownReversed(turns: seq<Turn>, n: nat)
    requires n <= |turns|
    ensures ConcatAll(Reversed(Shown(turns, n))) == Lines(LastN(turns, n))
  {
    if 0 < n {
      ShownReversed(turns, n - 1);
      OneMoreLine(turns, n - 1);
      ShownOneMore(turns, n);
    }
  }

  lemma ShownOneMore(turns: seq<Turn>, n: nat)
    requires 0 < n <= |turns|
    ensures ConcatAll(Reversed(Shown(turns, n))) == Line(turns[|turns| - n]) + ConcatAll(Reversed(Shown(turns, n - 1)))
  {
    hide Line;
    var line := Line(turns[|turns| - n]);
    var rest := Reversed(Shown(turns, n - 1));
    assert Reversed(Shown(turns, n)) == [line] + rest;
    assert ([line] + rest)[1..] == rest;
  }

  lemma ContextIsShown(turns: seq<Turn>, n: nat)
    requires n <= |turns|
    ensures Context(turns, n) == if n == 0 then "" else Header() + ConcatAll(Reversed(Shown(turns, n)))
  {
    ShownReversed(turns, n);
  }

  // ---------------------------------------------------------------------------
  // What the search promises
  // ---------------------------------------------------------------------------

  /** There is exactly one longest fit, so the output is determined by the turns and the budget. */
  lemma LongestFitIsUnique(turns: seq<Turn>, n: nat, m: nat, budget: nat)
    requires IsLongestFit(turns, n, budget) && IsLongestFit(turns, m, budget)
    ensures n == m
  {
    hide Fits;
  }

  /** The output never exceeds the budget, and it is empty exactly when the latest turn does not fit. */
  lemma ContextFitsTheBudget(turns: seq<Turn>, n: nat, budget: nat)
    requires IsLongestFit(turns, n, budget)
    ensures ByteLen(Context(turns, n)) <= budget
    ensures Context(turns, n) == "" <==> turns == [] || !Fits(turns, 1, budget)
  {
    if 0 < n {
      FitsMeans(turns, n, budget);
      FitsMeans(turns, 1, budget);
      SizeGrows(turns, 1, n);
      assert |Header()| > 0;
    }
    hide Fits, Lines, ByteLen, LastN;
  }

  /** A longer history with the same end gives the same context: what was evicted has no trace in it. */
  lemma EvictedTurnsLeaveNoTrace(older: seq<Turn>, turns: seq<Turn>, maxTurns: nat, n: nat)
    requires maxTurns <= |turns| && n <= maxTurns
    ensures Context(LastN(older + turns, maxTurns), n) == Context(LastN(turns, maxTurns), n)
  {
    assert LastN(older + turns, maxTurns) == LastN(turns, maxTurns);
  }

  // ---------------------------------------------------------------------------
  // Reading a context back
  // ---------------------------------------------------------------------------

  /** The first line break, or the end. */
  function LineBreak(s: string): (n: nat)
    ensures n <= |s|
  {
    if s == "" || s[0] == '\n' then 0 else 1 + LineBreak(s[1..])
  }

  datatype Spoken = Spoken(role: Role, content: string)

  /** Who speaks in a line, and what. */
  function ReadLine(line: string): Option<Spoken> {
    if 6 <= |line| && line[..6] == "User: " then Some(Spoken(User, line[6..]))
    else if 11 <= |line| && line[..11] == "Assistant: " then Some(Spoken(Assistant, line[11..]))
    else None
  }

  function ReadLines(s: string): seq<Option<Spoken>>
    decreases |s|
  {
    if s == "" then []
    else
      var n := LineBreak(s);
      [ReadLine(s[..n])] + ReadLines(if n < |s| then s[n + 1..] else "")
  }

  function SpokenIn(turns: seq<Turn>): seq<Option<Spoken>> {
    if turns == [] then [] else [Some(Spoken(turns[0].role, turns[0].content))] + SpokenIn(turns[1..])
  }

  predicate OneLined(turns: seq<Turn>) {
    forall i | 0 <= i < |turns| :: '\n' !in turns[i].content
  }

  lemma {:induction false} LineBreakIs(s: string, n: nat)
    requires n < |s| && s[n] == '\n' && forall k | 0 <= k < n :: s[k] != '\n'
    ensures LineBreak(s) == n
  {
    if 0 < n {
      LineBreakIs(s[1..], n - 1);
    }
  }

  lemma LineReadsBack(turn: Turn)
    ensures Line(turn) != "" && Line(turn)[|Line(turn)| - 1] == '\n'
    ensures ReadLine(Line(turn)[..|Line(turn)| - 1]) == Some(Spoken(turn.role, turn.content))
    ensures '\n' !in turn.content ==> forall k | 0 <= k < |Line(turn)| - 1 :: Line(turn)[k] != '\n'
  {
    var line := Line(turn);
    var start := if turn.role == User then "User: " else "Assistant: ";
    assert line == start + turn.content + "\n" by {
      assert "User" + ": " == "User: " && "Assistant" + ": " == "Assistant: ";
    }
    assert |start| == if turn.role == User then 6 else 11;
    assert line[..|line| - 1] == start + turn.content;
    assert (start + turn.content)[..|start|] == start && (start + turn.content)[|start|..] == turn.content;
    assert start[0] == if turn.role == User then 'U' else 'A';
    assert '\n' !in start;
  }

  lemma {:induction false} LinesReadBack(turns: seq<Turn>)
    requires OneLined(turns)
    ensures ReadLines(Lines(turns)) == SpokenIn(turns)
  {
    if turns != [] {
      var line, rest := Line(turns[0]), Lines(turns[1..]);
      LineReadsBack(turns[0]);
      LinesReadBack(turns[1..]);
      hide Line, ReadLine, LineBreak;
      var text := line + rest;
      assert forall k | 0 <= k < |line| :: text[k] == line[k];
      LineBreakIs(text, |line| - 1);
      assert text[..|line| - 1] == line[..|line| - 1] && text[|line|..] == rest;
    }
  }

  /** A context begins with its header, and its lines say who spoke and what, when no turn spans several lines. */
  lemma ContextReadsBack(turns: seq<Turn>, n: nat)
    requires 0 < n && OneLined(LastN(turns, n))
    ensures |Context(turns, n)| >= 23 && Context(turns, n)[..23] == "[Conversation Context]\n"
    ensures ReadLines(Context(turns, n)[23..]) == SpokenIn(LastN(turns, n))
  {
    LinesReadBack(LastN(turns, n));
    assert |Header()| == 23;
    var lines := Lines(LastN(turns, n));
    hide Lines, LastN, ReadLines, SpokenIn;
    assert (Header() + lines)[..23] == Header() && (Header() + lines)[23..] == lines;
  }

  /** A turn of two lines can read like two turns. */
  lemma TwoLinesReadLikeTwoTurns(timestamp: string)
    ensures Lines([Turn(User, "a\nAssistant: b", timestamp)])
            == Lines([Turn(User, "a", timestamp), Turn(Assistant, "b", timestamp)])
  {
    var one := Turn(User, "a\nAssistant: b", timestamp);
    var first, second := Turn(User, "a", timestamp), Turn(Assistant, "b", timestamp);
    assert Line(one) == "User: a\nAssistant: b\n" && Line(first) == "User: a\n" && Line(second) == "Assistant: b\n";
    assert [one][1..] == [] && [first, second][1..] == [second] && [second][1..] == [];
    hide Line;
    assert Lines([second]) == Line(second) + "" == Line(second);
    assert Lines([one]) == Line(one) + "" == Line(one);
  }

  // ---------------------------------------------------------------------------
  // Bytes and characters
  // ---------------------------------------------------------------------------

  /** `Fits` with the budget counted in characters, as the configuration documents it. */
  predicate CharFits(turns: seq<Turn>, n: nat, budget: nat) {
    |Header() + Lines(LastN(turns, n))| <= budget
  }

  ghost predicate IsLongestCharFit(turns: seq<Turn>, n: nat, budget: nat) {
    && n <= |turns|
    && (0 < n ==> CharFits(turns, n, budget))
    && forall k | n < k <= |turns| :: !CharFits(turns, k, budget)
  }

  predicate IsAscii(s: string) {
    forall i | 0 <= i < |s| :: s[i] < '\U{80}'
  }

  predicate AllAscii(turns: seq<Turn>) {
    forall i | 0 <= i < |turns| :: IsAscii(turns[i].content)
  }

  lemma {:induction false} BytesOfAscii(s: string)
    ensures |s| <= ByteLen(s)
    ensures ByteLen(s) == |s| <==> IsAscii(s)
  {
    if s != [] {
      BytesOfAscii(s[1..]);
      assert s == [s[0]] + s[1..];
    }
  }

  lemma AsciiConcat(a: string, b: string)
    ensures IsAscii(a + b) <==> IsAscii(a) && IsAscii(b)
  {
    if IsAscii(a + b) {
      assert forall i | 0 <= i < |a| :: a[i] == (a + b)[i];
      assert forall i | 0 <= i < |b| :: b[i] == (a + b)[|a| + i];
    }
  }

  lemma AsciiLine(turn: Turn)
    ensures IsAscii(Line(turn)) <==> IsAscii(turn.content)
  {
    var start := RoleName(turn.role) + ": ";
    assert IsAscii(start) && IsAscii("\n");
    hide IsAscii;
    AsciiConcat(start, turn.content);
    AsciiConcat(start + turn.content, "\n");
  }

  lemma {:induction false} AsciiLines(turns: seq<Turn>)
    ensures IsAscii(Lines(turns)) <==> AllAscii(turns)
  {
    if turns != [] {
      AsciiLines(turns[1..]);
      AsciiLine(turns[0]);
      AsciiConcat(Line(turns[0]), Lines(turns[1..]));
      hide IsAscii, Line;
      assert turns == [turns[0]] + turns[1..];
    }
  }

  /** A context of ASCII turns has as many bytes as characters, and any other has more. */
  lemma ContextBytes(turns: seq<Turn>, n: nat)
    ensures var context := Header() + Lines(LastN(turns, n));
            |context| <= ByteLen(context) && (ByteLen(context) == |context| <==> AllAscii(LastN(turns, n)))
  {
    assert |Header()| == 23 && IsAscii(Header());
    hide IsAscii, Header, Lines, LastN, ByteLen;
    BytesOfAscii(Header() + Lines(LastN(turns, n)));
    AsciiConcat(Header(), Lines(LastN(turns, n)));
    AsciiLines(LastN(turns, n));
  }

  /** Every budget has a longest fit of either kind, up to `top`. */
  lemma {:induction false} LongestFitsExist(turns: seq<Turn>, top: nat, budget: nat) returns (n: nat, m: nat)
    requires top <= |turns|
    ensures n <= top && (0 < n ==> Fits(turns, n, budget)) && forall k | n < k <= top :: !Fits(turns, k, budget)
    ensures m <= top && (0 < m ==> CharFits(turns, m, budget)) && forall k | m < k <= top :: !CharFits(turns, k, budget)
  {
    hide Fits, CharFits;
    n, m := 0, 0;
    if 0 < top {
      n, m := LongestFitsExist(turns, top - 1, budget);
      n := if Fits(turns, top, budget) then top else n;
      m := if CharFits(turns, top, budget) then top else m;
    }
  }

  /** The context never shows more turns than a character budget would, and for ASCII turns it shows as many. */
  lemma BytesShowNoMore(turns: seq<Turn>, n: nat, m: nat, budget: nat)
    requires IsLongestFit(turns, n, budget) && IsLongestCharFit(turns, m, budget)
    ensures n <= m
    ensures AllAscii(turns) ==> n == m
  {
    FitsMeans(turns, n, budget);
    FitsMeans(turns, m, budget);
    ContextBytes(turns, n);
    ContextBytes(turns, m);
    assert AllAscii(turns) ==> AllAscii(LastN(turns, m));
    hide Header, Lines, ByteLen, IsAscii, Fits;
    assert 0 < n ==> CharFits(turns, n, budget);
    assert 0 < m && AllAscii(turns) ==> Fits(turns, m, budget);
  }

  /** A turn that is not ASCII is dropped by the byte budget that its character count would need. */
  lemma NonAsciiIsDropped(turns: seq<Turn>, i: nat) returns (budget: nat, n: nat, m: nat)
    requires i < |turns| && !IsAscii(turns[i].content)
    ensures IsLongestFit(turns, n, budget) && IsLongestCharFit(turns, m, budget) && n < |turns| - i <= m
  {
    var k := |turns| - i;
    budget := |Header() + Lines(LastN(turns, k))|;
    n, m := LongestFitsExist(turns, |turns|, budget);
    assert LastN(turns, k)[0] == turns[i];
    ContextBytes(turns, k);
    FitsMeans(turns, n, budget);
    hide Header, Lines, ByteLen, IsAscii, Fits, LastN;
    assert CharFits(turns, k, budget);
    if k <= n {
      SizeGrows(turns, k, n);
    }
  }

  /**
   The budget is documented in characters and counted in bytes: the two readings select the same turns under every
   budget if and only if all contents are ASCII.
   */
  lemma BudgetIsCharactersForAscii(turns: seq<Turn>)
    ensures (forall budget, n, m | IsLongestFit(turns, n, budget) && IsLongestCharFit(turns, m, budget) :: n == m)
            <==> AllAscii(turns)
  {
    hide IsLongestFit, IsLongestCharFit, IsAscii;
    if AllAscii(turns) {
      forall budget, n, m | IsLongestFit(turns, n, budget) && IsLongestCharFit(turns, m, budget) ensures n == m {
        BytesShowNoMore(turns, n, m, budget);
      }
    } else {
      var i :| 0 <= i < |turns| && !IsAscii(turns[i].content);
      var budget, n, m := NonAsciiIsDropped(turns, i);
    }
  }

  /** The budget counts bytes: a turn of 20 two-byte characters does not fit where 20 ASCII characters would. */
  lemma BudgetCountsBytes(a: string, e: string, timestamp: string)
    requires |a| == |e| == 20
    requires (forall i | 0 <= i < 20 :: a[i] < '\U{80}') && (forall i | 0 <= i < 20 :: '\U{80}' <= e[i] < '\U{800}')
    ensures IsLongestFit([Turn(User, a, timestamp)], 1, 50) && IsLongestFit([Turn(User, e, timestamp)], 0, 50)
  {
    OneTurnBytes(a, timestamp, 1);
    OneTurnBytes(e, timestamp, 2);
    hide ByteLen, Lines, Header;
  }

  lemma {:induction false} UniformBytes(s: string, width: nat)
    requires forall i | 0 <= i < |s| :: CharLen(s[i]) == width
    ensures ByteLen(s) == width * |s|
  {
    if s != [] {
      UniformBytes(s[1..], width);
    }
  }

  lemma OneTurnBytes(content: string, timestamp: string, width: nat)
    requires |content| == 20 && forall i | 0 <= i < 20 :: CharLen(content[i]) == width
    ensures ByteLen(Header() + Lines(LastN([Turn(User, content, timestamp)], 1))) == 30 + 20 * width
  {
    var turns := [Turn(User, content, timestamp)];
    HeaderBytes();
    UniformBytes(content, width);
    LineBytes(content, timestamp);
    hide ByteLen, Header, Lines, LastN, Line;
    OneMoreLine(turns, 0);
    TotalStarts(turns);
  }

  lemma HeaderBytes()
    ensures ByteLen(Header()) == 23
  {
    hide ByteLen;
    assert |Header()| == 23;
    UniformBytes(Header(), 1);
  }

  lemma LineBytes(content: string, timestamp: string)
    ensures ByteLen(Line(Turn(User, content, timestamp))) == 7 + ByteLen(content)
  {
    var start := "User: ";
    assert |start| == 6;
    UniformBytes(start, 1);
    UniformBytes("\n", 1);
    assert "User" + ": " == start;
    hide ByteLen;
    ByteLenConcat(start, content);
    ByteLenConcat(start + content, "\n");
  }
}
