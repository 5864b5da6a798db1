/**
 The ring of recent stderr lines of the Codex backend (src/backend/codex_stderr.rs).
 */
module CodexStderr {
  import opened Wrappers
  import opened Sequences

  const RING_SIZE: nat := 4096

  datatype Line = Line(sequence: nat, timestamp: string, text: string)

  /** Every line ever pushed, numbered from 1. */
  ghost predicate IsHistory(all: seq<Line>) {
    forall i | 0 <= i < |all| :: all[i].sequence == i + 1
  }

  datatype Hint = Hint(path: string, first: nat, last: nat)

  /** `snapshot_tail`: the lines printed, or None for an empty ring. */
  function SnapshotTail(lines: seq<Line>, tailLines: nat): Option<seq<Line>> {
    if lines == [] then None
    else Some(lines[if tailLines <= |lines| then |lines| - tailLines else 0..])
  }

  /** The element that `rev().take(n).next_back()` yields. */
  function OldestOfLast(lines: seq<Line>, n: nat): Option<Line> {
    if n == 0 || lines == [] then None
    else Some(lines[if n <= |lines| then |lines| - n else 0])
  }

  /** `log_hint` */
  function LogHint(logPath: Option<string>, lines: seq<Line>, tailLines: nat): Option<Hint> {
    if logPath.None? || lines == [] then None
    else
      var last := lines[|lines| - 1];
      var first := OldestOfLast(lines, tailLines);
      Some(Hint(logPath.value, if first.Some? then first.value.sequence else last.sequence, last.sequence))
  }

  class CodexStderrRing {
    var lines: seq<Line>
    var nextSequence: nat
    var logPath: Option<string>
    ghost var all: seq<Line>

    /** The ring is the end of the history, at most `RING_SIZE` lines of it. */
    ghost predicate Valid()
      reads this
    {
      IsHistory(all) && nextSequence == |all| + 1 && lines == LastN(all, RING_SIZE)
    }

    constructor (logPath: Option<string>)
      ensures Valid() && all == [] && this.logPath == logPath
    {
      lines, nextSequence, this.logPath := [], 1, logPath;
      all := [];
    }

    method PushLine(timestamp: string, text: string) returns (sequence: nat)
      requires Valid()
      modifies this`lines, this`nextSequence, this`all
      ensures Valid() && sequence == |all| && all == old(all) + [Line(sequence, timestamp, text)]
    {
      sequence := nextSequence;
      nextSequence := nextSequence + 1;
      if |lines| == RING_SIZE {
        lines := lines[1..];
      }
      lines := lines + [Line(sequence, timestamp, text)];
      all := all + [Line(sequence, timestamp, text)];
    }
  }

  /** The lines printed are the last lines of the whole history. */
  lemma TailOfRing(all: seq<Line>, tailLines: nat)
    requires all != []
    ensures SnapshotTail(LastN(all, RING_SIZE), tailLines)
            == Some(LastN(all, if tailLines < RING_SIZE then tailLines else RING_SIZE))
  {
    LastOfLast(all, RING_SIZE, tailLines);
  }

  lemma LastNEnds(all: seq<Line>, n: nat)
    requires IsHistory(all)
    ensures forall i | 0 <= i < |LastN(all, n)| :: LastN(all, n)[i].sequence == |all| - |LastN(all, n)| + 1 + i
  {
  }

  /** A snapshot needs a line, a hint needs a line and a log. */
  lemma WhatIsShownWhen(lines: seq<Line>, logPath: Option<string>, tailLines: nat)
    ensures SnapshotTail(lines, tailLines).None? <==> lines == []
    ensures LogHint(logPath, lines, tailLines).None? <==> lines == [] || logPath.None?
  {
  }

  /**
   In any ring, the range of a hint is exactly the sequence numbers of the lines the snapshot prints, without gaps,
   if and only if the tail length is positive.
   */
  lemma HintMatchesSnapshot(all: seq<Line>, path: string, tailLines: nat)
    requires IsHistory(all) && all != []
    ensures var ring := LastN(all, RING_SIZE);
            var shown := SnapshotTail(ring, tailLines).value;
            var hint := LogHint(Some(path), ring, tailLines).value;
            && hint.path == path && hint.last == |all|
            && (forall i | 0 <= i < |shown| :: shown[i].sequence == hint.first + i)
            && (|shown| == hint.last - hint.first + 1 <==> 0 < tailLines)
  {
    LastNEnds(all, RING_SIZE);
    NumberedHint(LastN(all, RING_SIZE), |all|, path, tailLines);
    hide LastN, IsHistory, SnapshotTail, LogHint;
  }

  lemma NumberedHint(ring: seq<Line>, last: nat, path: string, tailLines: nat)
    requires ring != [] && forall i | 0 <= i < |ring| :: ring[i].sequence == last - |ring| + 1 + i
    ensures SnapshotTail(ring, tailLines).Some? && LogHint(Some(path), ring, tailLines).Some?
    ensures var shown := SnapshotTail(ring, tailLines).value;
            var hint := LogHint(Some(path), ring, tailLines).value;
            && hint.path == path && hint.last == last
            && (forall i | 0 <= i < |shown| :: shown[i].sequence == hint.first + i)
            && (|shown| == hint.last - hint.first + 1 <==> 0 < tailLines)
  {
  }
}
