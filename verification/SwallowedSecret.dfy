/**
 A line on which a pass of `redact_stderr_line` meets an empty value, and which still ends up redacted
 (src/backend/codex_stderr.rs).
 */
module SwallowedSecret {
  import opened Wrappers
  import opened Redaction
  import opened LineRedaction

  function Swallowed(): string { "password=token= 012345678" }

  function SwallowedOut(): string { "password=<redacted> 012345678" }

  function Token(): Key { Key("token=", true) }

  function Password(): Key { Key("password=", true) }

  lemma SwallowedChars()
    ensures var text := Swallowed();
            && |text| == 25 && text[3] == 's' && text[15] == ' '
            && (forall k | 0 <= k < 25 :: text[k] == '=' <==> k == 8 || k == 14)
            && (forall k | 9 <= k < 15 :: !EndsValue(text[k]))
  {
    assert |Swallowed()| == 25;
  }

  lemma SwallowedOutChars()
    ensures var out := SwallowedOut();
            |out| == 29 && out[3] == 's' && forall k | 0 <= k < 29 :: out[k] == '=' <==> k == 8
  {
    assert |SwallowedOut()| == 29;
  }

  lemma SwallowedKeys()
    ensures KeyAt(Swallowed(), Token(), 9) && KeyAt(Swallowed(), Password(), 0)
  {
    assert |Swallowed()| == 25 && |Token().pattern| == 6 && |Password().pattern| == 9;
  }

  lemma SwallowedMask()
    ensures |Swallowed()| == 25 && Swallowed()[..9] + Mask() + Swallowed()[15..] == SwallowedOut()
    ensures FollowedByMask(SwallowedOut(), 9)
  {
    assert |Swallowed()| == 25 && |Mask()| == 10 && |SwallowedOut()| == 29;
    assert SwallowedOut()[9..19] == Mask();
    assert SwallowedOut()[19] == ' ';
  }

  lemma KeySizes()
    ensures |Token().pattern| == 6 && |Password().pattern| == 9
  {
  }

  lemma TokenIn(text: string, j: int)
    requires KeyAt(text, Token(), j)
    ensures 0 <= j && j + 6 <= |text| && text[j + 5] == '=' && text[j] != 's'
  {
    assert |Token().pattern| == 6 && Token().pattern[5] == '=' && Token().pattern[0] == 't';
    KeyChars(text, Token(), j);
    var first, last := text[j], text[j + 5];
  }

  lemma PasswordIn(text: string, j: int)
    requires KeyAt(text, Password(), j)
    ensures 0 <= j && j + 9 <= |text| && text[j + 8] == '='
  {
    assert |Password().pattern| == 9 && Password().pattern[8] == '=';
    KeyChars(text, Password(), j);
    var last := text[j + 8];
  }

  lemma OneTokenToRead()
    ensures Scan(Swallowed(), Token(), 0) == Some(Swallowed()) && !NoEmptyValue(Swallowed(), Token(), 0)
  {
    KeySizes();
    SwallowedKeys();
    SwallowedChars();
    hide Swallowed, Token, KeyAt, NextKey, Scan, NoEmptyValue, Masked, ValueEnd;
    var text := Swallowed();
    NextKeyBefore(text, Token(), 0, 9);
    NextKeyStands(text, Token(), 0);
    TokenIn(text, NextKey(text, Token(), 0).value);
    ValueEndsFirst(text, 15, 15);
    EmptyIsUnchanged(text, 15);
    ScanUnfolds(text, Token(), 0);
    ScanUnfolds(text, Token(), 25);
    NoEmptyUnfolds(text, Token(), 0);
  }

  lemma OnePasswordToRead()
    ensures Scan(Swallowed(), Password(), 0) == Some(SwallowedOut())
  {
    KeySizes();
    SwallowedKeys();
    SwallowedChars();
    SwallowedOutChars();
    SwallowedMask();
    hide Swallowed, SwallowedOut, Password, KeyAt, NextKey, Scan, ValueEnd, Mask, FollowedByMask, EndsValue;
    var text, out := Swallowed(), SwallowedOut();
    assert EndsValue(text[15]) by { SpaceEnds(); }
    NextKeyBefore(text, Password(), 0, 0);
    ValueEndsFirst(text, 9, 15);
    ScanUnfolds(text, Password(), 0);
    ScanUnfolds(out, Password(), 19);
    if NextKey(out, Password(), 19).Some? {
      NextKeyStands(out, Password(), 19);
      PasswordIn(out, NextKey(out, Password(), 19).value);
    }
  }

  lemma SpaceEnds()
    ensures EndsValue(' ')
  {
  }

  lemma OutIsRedacted()
    ensures Redacted(SwallowedOut(), Token()) && Redacted(SwallowedOut(), Password())
  {
    KeySizes();
    SwallowedOutChars();
    SwallowedMask();
    hide Swallowed, SwallowedOut, Token, Password, KeyAt, Mask, FollowedByMask;
    var out := SwallowedOut();
    forall i | KeyAt(out, Token(), i) ensures FollowedByMask(out, i + |Token().pattern|) {
      TokenIn(out, i);
    }
    forall i | KeyAt(out, Password(), i) ensures FollowedByMask(out, i + |Password().pattern|) {
      PasswordIn(out, i);
    }
  }

  // ---------------------------------------------------------------------------
  // The patterns that do not occur
  // ---------------------------------------------------------------------------

  ghost predicate Absent(text: string, key: Key) {
    forall i :: !KeyAt(text, key, i)
  }

  /** A key does not occur in a text without one of its characters. */
  lemma AbsentWithout(text: string, key: Key, m: nat)
    requires m < |key.pattern| && forall k | 0 <= k < |text| :: Fold(text[k], key.ignoreCase) != key.pattern[m]
    ensures Absent(text, key)
  {
    forall i ensures !KeyAt(text, key, i) {
      KeyHasChar(text, key, i, m);
    }
  }

  lemma KeyHasChar(text: string, key: Key, i: int, m: nat)
    requires m < |key.pattern|
    ensures KeyAt(text, key, i) ==> 0 <= i && i + m < |text| && Fold(text[i + m], key.ignoreCase) == key.pattern[m]
  {
  }

  /** None of the characters that tell the other patterns apart. */
  predicate Lacks(text: string) {
    forall k | 0 <= k < |text| :: text[k] !in {'-', 'B', '_', 'y', 'Y', 'z', 'Z'}
  }

  function OtherKeys(): seq<Key> {
    TokenPrefixes() + SecretKeys()[..5]
  }

  lemma OthersAreAbsent(text: string, key: Key)
    requires Lacks(text) && key in OtherKeys()
    ensures Absent(text, key)
  {
    var keys := SecretKeys();
    if key in TokenPrefixes() {
      PrefixIsAbsent(text, key);
    } else if key == keys[0] || key == keys[1] {
      assert key.pattern[|key.pattern| - 2] == 'y';
      AbsentWithout(text, key, |key.pattern| - 2);
    } else if key == keys[2] {
      assert key.pattern[7] == 'z';
      AbsentWithout(text, key, 7);
    } else {
      assert key == keys[3] || key == keys[4];
      assert key.pattern[|key.pattern| - 7] == '_';
      AbsentWithout(text, key, |key.pattern| - 7);
    }
  }

  lemma PrefixIsAbsent(text: string, key: Key)
    requires Lacks(text) && key in TokenPrefixes()
    ensures Absent(text, key)
  {
    if key.pattern == "Bearer " {
      assert key.pattern[0] == 'B';
      AbsentWithout(text, key, 0);
    } else {
      assert key.pattern[|key.pattern| - 1] == '-';
      AbsentWithout(text, key, |key.pattern| - 1);
    }
  }

  lemma AbsentPass(text: string, key: Key)
    requires Absent(text, key)
    ensures Scan(text, key, 0) == Some(text) && NoEmptyValue(text, key, 0) && MaskEach(text, key, 0) == text
    ensures NextKey(text, key, 0) == None && Redacted(text, key)
  {
    hide KeyAt, Scan, NoEmptyValue, MaskEach, NextKey;
    if NextKey(text, key, 0).Some? {
      NextKeyStands(text, key, 0);
    }
    ScanUnfolds(text, key, 0);
    NoEmptyUnfolds(text, key, 0);
    MaskEachUnfolds(text, key, 0);
  }

  lemma {:induction false} AbsentPasses(text: string, keys: seq<Key>, rest: seq<Key>)
    requires forall k | k in keys :: Absent(text, k)
    ensures ScanAll(text, keys + rest) == ScanAll(text, rest)
    ensures PassesReadValues(text, keys + rest) <==> PassesReadValues(text, rest)
    decreases |keys|
  {
    hide Scan, NoEmptyValue, MaskEach, Absent, Redacted;
    if keys == [] {
      assert keys + rest == rest;
    } else {
      AbsentPass(text, keys[0]);
      AbsentPasses(text, keys[1..], rest);
      assert (keys + rest)[1..] == keys[1..] + rest;
    }
  }

  lemma SwallowedLacks()
    ensures Lacks(Swallowed()) && Lacks(SwallowedOut())
  {
    assert |Swallowed()| == 25 && |SwallowedOut()| == 29;
  }

  lemma KeysInOrder()
    ensures AllKeys() == OtherKeys() + [Token(), Password()]
  {
  }

  /** The Authorization header has a `z`. */
  lemma NoHeader(text: string)
    requires Lacks(text)
    ensures RedactHeader(text) == text
  {
    assert HeaderKey().pattern[7] == 'z';
    AbsentWithout(text, HeaderKey(), 7);
    AbsentPass(text, HeaderKey());
  }

  lemma LastTwoPasses()
    ensures !PassesReadValues(Swallowed(), [Token(), Password()])
    ensures ScanAll(Swallowed(), [Token(), Password()]) == Some(SwallowedOut())
  {
    OneTokenToRead();
    OnePasswordToRead();
    hide Scan, NoEmptyValue, MaskEach, Swallowed, SwallowedOut, Token, Password;
    var keys := [Token(), Password()];
    assert keys[1..] == [Password()] && keys[1..][1..] == [];
    assert ScanAll(SwallowedOut(), []) == Some(SwallowedOut());
    assert ScanAll(Swallowed(), keys[1..]) == Some(SwallowedOut());
  }

  /**
   The converse fails for the end result: the token pass meets an empty value in this line, and yet the program
   redacts it, because the password pass swallows the bare token.
   */
  lemma LaterPassSwallows()
    ensures !PassesReadValues(RedactHeader(Swallowed()), AllKeys())
    ensures RedactLine(Swallowed()) == Some(SwallowedOut()) && forall k | k in AllKeys() :: Redacted(SwallowedOut(), k)
  {
    var text, out := Swallowed(), SwallowedOut();
    SwallowedLacks();
    NoHeader(text);
    KeysInOrder();
    LastTwoPasses();
    OutIsRedacted();
    hide Scan, ScanAll, PassesReadValues, RedactHeader, Lacks, Absent, Redacted, AllKeys, OtherKeys, Swallowed, SwallowedOut, Token, Password;
    forall k | k in OtherKeys() ensures Absent(text, k) && Redacted(out, k) {
      OthersAreAbsent(text, k);
      OthersAreAbsent(out, k);
      AbsentPass(out, k);
    }
    AbsentPasses(text, OtherKeys(), [Token(), Password()]);
  }
}
