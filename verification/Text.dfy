/** Strings and the UTF-8 lengths that the Rust code measures them by. */
module Text {
  function CharLen(c: char): (n: nat)
    ensures 1 <= n <= 4
  {
    if c < '\U{80}' then 1 else if c < '\U{800}' then 2 else if c < '\U{10000}' then 3 else 4
  }

  /** `str::len` */
  function ByteLen(s: string): nat {
    if s == [] then 0 else CharLen(s[0]) + ByteLen(s[1..])
  }

  lemma {:induction false} ByteLenConcat(a: string, b: string)
    ensures ByteLen(a + b) == ByteLen(a) + ByteLen(b)
  {
    if a == [] {
      assert a + b == b;
    } else {
      ByteLenConcat(a[1..], b);
      assert (a + b)[1..] == a[1..] + b;
    }
  }
}
