/** Normalization of the Idempotency-Key header (event_service.py). */
module IdempotencyKey {
  import opened Wrappers

  const MAX_KEY_LENGTH: nat := 255

  datatype KeyError = EmptyKey | KeyTooLong

  /** The characters str.strip() removes. */
  predicate IsSpace(c: char) {
    var n := c as int;
    || 9 <= n <= 13 || 28 <= n <= 32 || n == 0x85 || n == 0xA0 || n == 0x1680
    || 0x2000 <= n <= 0x200A || n == 0x2028 || n == 0x2029 || n == 0x202F || n == 0x205F || n == 0x3000
  }

  /** Blanks, tabs and line ends are white space; no visible ASCII character is. */
  lemma AsciiSpaces(c: char)
    requires c as int < 128
    ensures c == ' ' || c == '\t' || c == '\n' || c == '\r' ==> IsSpace(c)
    ensures '!' <= c <= '~' ==> !IsSpace(c)
  {
  }

  function StripLeft(s: string): string {
    if s != "" && IsSpace(s[0]) then StripLeft(s[1..]) else s
  }

  function StripRight(s: string): string {
    if s != "" && IsSpace(s[|s| - 1]) then StripRight(s[..|s| - 1]) else s
  }

  function Strip(s: string): string {
    StripRight(StripLeft(s))
  }

  function NormalizeKey(raw: Option<string>): Result<Option<string>, KeyError> {
    if raw.None? then Ok(None)
    else
      var key := Strip(raw.value);
      if key == "" then Err(EmptyKey)
      else if |key| > MAX_KEY_LENGTH then Err(KeyTooLong)
      else Ok(Some(key))
  }

  predicate AllSpace(s: string) {
    forall i :: 0 <= i < |s| ==> IsSpace(s[i])
  }

  predicate Trimmed(s: string) {
    s != "" ==> !IsSpace(s[0]) && !IsSpace(s[|s| - 1])
  }

  lemma {:induction false} StripLeftSplits(s: string) returns (left: string)
    ensures s == left + StripLeft(s) && AllSpace(left)
    ensures StripLeft(s) != "" ==> !IsSpace(StripLeft(s)[0])
  {
    if s != "" && IsSpace(s[0]) {
      var rest := StripLeftSplits(s[1..]);
      left := [s[0]] + rest;
    } else {
      left := "";
    }
  }

  lemma {:induction false} StripRightSplits(s: string) returns (right: string)
    ensures s == StripRight(s) + right && AllSpace(right)
    ensures StripRight(s) != "" ==> !IsSpace(StripRight(s)[|StripRight(s)| - 1])
  {
    if s != "" && IsSpace(s[|s| - 1]) {
      var rest := StripRightSplits(s[..|s| - 1]);
      right := rest + [s[|s| - 1]];
    } else {
      right := "";
    }
  }

  /** Stripping removes white space at both ends and nothing else. */
  lemma StripSplits(s: string) returns (left: string, right: string)
    ensures s == left + Strip(s) + right
    ensures AllSpace(left) && AllSpace(right) && Trimmed(Strip(s))
  {
    left := StripLeftSplits(s);
    right := StripRightSplits(StripLeft(s));
    if Strip(s) != "" {
      assert StripLeft(s)[0] == Strip(s)[0];
    }
  }

  /** Two spellings of a header mean the same key exactly when they differ in outer white space only. */
  lemma NormalizedKeyIsTheTrimmedMiddle(left: string, key: string, right: string)
    requires AllSpace(left) && AllSpace(right) && Trimmed(key)
    ensures NormalizeKey(Some(left + key + right)) ==
              if key == "" then Err(EmptyKey) else if |key| > 255 then Err(KeyTooLong) else Ok(Some(key))
  {
    SkipLeft(left, key + right);
    assert left + key + right == left + (key + right);
    if key == "" {
      assert key + right == right + "";
      SkipLeft(right, "");
    } else {
      assert (key + right)[0] == key[0];
      SkipRight(key, right);
    }
  }

  lemma {:induction false} SkipLeft(left: string, rest: string)
    requires AllSpace(left)
    ensures StripLeft(left + rest) == StripLeft(rest)
  {
    if left == "" {
      assert left + rest == rest;
    } else {
      assert (left + rest)[1..] == left[1..] + rest;
      SkipLeft(left[1..], rest);
    }
  }

  lemma {:induction false} SkipRight(key: string, right: string)
    requires AllSpace(right) && key != "" && !IsSpace(key[|key| - 1])
    ensures StripRight(key + right) == key
    decreases |right|
  {
    if right == "" {
      assert key + right == key;
    } else {
      var s := key + right;
      assert s[..|s| - 1] == key + right[..|right| - 1];
      SkipRight(key, right[..|right| - 1]);
    }
  }

  /** A normalized key is its own normal form. */
  lemma NormalizationIsStable(raw: Option<string>)
    requires NormalizeKey(raw).Ok?
    ensures NormalizeKey(NormalizeKey(raw).value) == NormalizeKey(raw)
  {
    if raw.Some? {
      var left, right := StripSplits(raw.value);
      var key := Strip(raw.value);
      NormalizedKeyIsTheTrimmedMiddle("", key, "");
      assert "" + key + "" == key;
    }
  }
}
