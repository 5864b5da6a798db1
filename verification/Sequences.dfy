/** The end of a sequence, for the bounded buffers. */
module Sequences {
  function LastN<T>(s: seq<T>, n: nat): (r: seq<T>)
    ensures |r| == if n <= |s| then n else |s|
  {
    if n <= |s| then s[|s| - n..] else s
  }

  /** The end of the end is the end. */
  lemma LastOfLast<T>(s: seq<T>, m: nat, n: nat)
    ensures LastN(LastN(s, m), n) == LastN(s, if n < m then n else m)
  {
    var l := LastN(s, m);
    assert l == s[|s| - |l|..];
  }

  lemma LastOneMore<T>(s: seq<T>, n: nat)
    requires n < |s|
    ensures LastN(s, n + 1) == [s[|s| - n - 1]] + LastN(s, n)
  {
  }
}
