/**
 The JSON a cursor is written in: one flat object of plain strings, whole numbers and null.  The
 reader stops at anything else, string escapes and nested values included.
 */
module CursorJson {
  import opened Wrappers
  import opened Digits
  import opened CursorFields

  datatype Value = VNull | VText(text: string) | VInt(n: int)

  type Member = (string, Value)

  predicate IsWhite(c: char) {
    c == ' ' || c == '\t' || c == '\n' || c == '\r'
  }

  function SkipWhite(s: string): (r: string)
    ensures |r| <= |s|
  {
    if s != "" && IsWhite(s[0]) then SkipWhite(s[1..]) else s
  }

  /** The rest of a string literal, after its opening quote. */
  function TakeString(s: string): (r: Option<(string, string)>)
    ensures r.Some? ==> |r.value.1| < |s|
  {
    if s == "" then None
    else if s[0] == '"' then Some(("", s[1..]))
    else if !PlainChar(s[0]) then None
    else
      var rest := TakeString(s[1..]);
      if rest.None? then None else Some(([s[0]] + rest.value.0, rest.value.1))
  }

  predicate IsDigit(c: char) {
    '0' <= c <= '9'
  }

  function TakeDigits(s: string): (r: (string, string))
    ensures |r.0| + |r.1| == |s|
  {
    if s != "" && IsDigit(s[0]) then
      var rest := TakeDigits(s[1..]);
      ([s[0]] + rest.0, rest.1)
    else ("", s)
  }

  /** A value and what follows it. */
  function TakeValue(s: string): (r: Option<(Value, string)>)
    ensures r.Some? ==> |r.value.1| < |s|
  {
    if s == "" then None
    else if s[0] == '"' then
      var t := TakeString(s[1..]);
      if t.None? then None else Some((VText(t.value.0), t.value.1))
    else if |s| >= 4 && s[..4] == "null" then Some((VNull, s[4..]))
    else
      var (digits, rest) := TakeDigits(s);
      var n := FromText(digits, 10);
      if digits == "" || n.None? || (|digits| > 1 && digits[0] == '0') then None
      else if rest != "" && (rest[0] == '.' || rest[0] == 'e' || rest[0] == 'E') then None
      else Some((VInt(n.value), rest))
  }

  /** One member and what follows it, white space skipped. */
  function TakeMember(s: string): (r: Option<(Member, string)>)
    ensures r.Some? ==> |r.value.1| < |s|
  {
    if s == "" || s[0] != '"' then None
    else
      var key := TakeString(s[1..]);
      if key.None? then None
      else
        var colon := SkipWhite(key.value.1);
        if colon == "" || colon[0] != ':' then None
        else
          var value := TakeValue(SkipWhite(colon[1..]));
          if value.None? then None else Some(((key.value.0, value.value.0), SkipWhite(value.value.1)))
  }

  /** The members of a non-empty object and what follows its closing brace. */
  function TakeMembers(s: string): Option<(seq<Member>, string)>
    decreases |s|
  {
    var first := TakeMember(s);
    if first.None? || first.value.1 == "" then None
    else
      var rest := first.value.1;
      if rest[0] == '}' then Some(([first.value.0], rest[1..]))
      else if rest[0] != ',' then None
      else
        var more := TakeMembers(SkipWhite(rest[1..]));
        if more.None? then None else Some(([first.value.0] + more.value.0, more.value.1))
  }

  /** A later member of the same name replaces an earlier one. */
  function ToMap(members: seq<Member>): map<string, Value> {
    if members == [] then map[]
    else
      var last := members[|members| - 1];
      ToMap(members[..|members| - 1])[last.0 := last.1]
  }

  function ParseObject(s: string): Option<map<string, Value>> {
    var open := SkipWhite(s);
    if open == "" || open[0] != '{' then None
    else
      var body := SkipWhite(open[1..]);
      if body != "" && body[0] == '}' then (if SkipWhite(body[1..]) == "" then Some(map[]) else None)
      else
        var members := TakeMembers(body);
        if members.None? || SkipWhite(members.value.1) != "" then None else Some(ToMap(members.value.0))
  }

  // ---------------------------------------------------------------- what the writer produces is read back

  function Quoted(s: string): string {
    "\"" + s + "\""
  }

  function WriteValue(v: Value): string
    requires v.VInt? ==> 0 <= v.n < 10
  {
    match v
    case VNull => "null"
    case VText(text) => Quoted(text)
    case VInt(n) => [DigitChar(n)]
  }

  predicate Writable(v: Value) {
    (v.VInt? ==> 0 <= v.n < 10) && (v.VText? ==> Plain(v.text))
  }

  function WriteMember(m: Member): string
    requires Writable(m.1)
  {
    Quoted(m.0) + ":" + WriteValue(m.1)
  }

  lemma {:induction false} StringIsTaken(t: string, rest: string)
    requires Plain(t)
    ensures TakeString(t + "\"" + rest) == Some((t, rest))
    decreases |t|
  {
    var s := t + "\"" + rest;
    if t == "" {
      assert s[1..] == rest;
    } else {
      assert s[1..] == t[1..] + "\"" + rest;
      StringIsTaken(t[1..], rest);
      assert t == [t[0]] + t[1..];
    }
  }

  predicate Ends(rest: string) {
    rest != "" && (rest[0] == ',' || rest[0] == '}')
  }

  lemma NothingToSkip(s: string)
    requires s != "" && !IsWhite(s[0])
    ensures SkipWhite(s) == s
  {
  }

  lemma ValueIsTaken(v: Value, rest: string)
    requires Writable(v) && Ends(rest)
    ensures var s := WriteValue(v) + rest; s != "" && !IsWhite(s[0]) && TakeValue(s) == Some((v, rest))
  {
    var s := WriteValue(v) + rest;
    match v {
      case VNull =>
        assert s[..4] == "null" && s[4..] == rest;
      case VText(text) =>
        assert s[1..] == text + "\"" + rest;
        StringIsTaken(text, rest);
      case VInt(n) =>
        DigitIsTaken(n, rest);
    }
  }

  lemma DigitIsTaken(n: int, rest: string)
    requires 0 <= n < 10 && Ends(rest)
    ensures TakeValue([DigitChar(n)] + rest) == Some((VInt(n), rest))
  {
    var s := [DigitChar(n)] + rest;
    assert s[1..] == rest;
    assert TakeDigits(rest) == ("", rest);
    assert TakeDigits(s) == ([DigitChar(n)] + "", rest);
    assert [DigitChar(n)] + "" == [DigitChar(n)];
    assert [DigitChar(n)][..0] == "";
    assert FromText([DigitChar(n)], 10) == Some(n);
    assert |s| >= 4 ==> s[..4][0] == s[0];
  }

  lemma MemberIsTaken(m: Member, rest: string)
    requires Plain(m.0) && Writable(m.1) && Ends(rest)
    ensures TakeMember(WriteMember(m) + rest) == Some((m, rest))
  {
    hide TakeString, TakeValue, WriteValue;
    var s := WriteMember(m) + rest;
    var tail := WriteValue(m.1) + rest;
    assert s[1..] == m.0 + "\"" + (":" + tail);
    StringIsTaken(m.0, ":" + tail);
    NothingToSkip(":" + tail);
    assert (":" + tail)[1..] == tail;
    ValueIsTaken(m.1, rest);
    NothingToSkip(tail);
    NothingToSkip(rest);
  }

  function WriteMembers(members: seq<Member>): string
    requires members != [] && forall i :: 0 <= i < |members| ==> Writable(members[i].1)
  {
    if |members| == 1 then WriteMember(members[0]) + "}"
    else WriteMember(members[0]) + "," + WriteMembers(members[1..])
  }

  lemma {:induction false} MembersAreTaken(members: seq<Member>)
    requires members != [] && forall i :: 0 <= i < |members| ==> Plain(members[i].0) && Writable(members[i].1)
    ensures TakeMembers(WriteMembers(members)) == Some((members, ""))
    ensures WriteMembers(members) != "" && WriteMembers(members)[0] == '"'
    decreases |members|
  {
    hide TakeMember, WriteMember;
    if |members| == 1 {
      MemberIsTaken(members[0], "}");
      StartsWithQuote(members[0]);
      assert members == [members[0]];
      assert "}"[1..] == "";
    } else {
      MembersAreTaken(members[1..]);
      StartsWithQuote(members[0]);
      OneMoreMember(members[0], WriteMembers(members[1..]), members[1..]);
      assert members == [members[0]] + members[1..];
    }
  }

  lemma OneMoreMember(m: Member, text: string, more: seq<Member>)
    requires Plain(m.0) && Writable(m.1) && text != "" && text[0] == '"' && TakeMembers(text) == Some((more, ""))
    ensures TakeMembers(WriteMember(m) + "," + text) == Some(([m] + more, ""))
  {
    hide TakeMember, WriteMember;
    MemberIsTaken(m, "," + text);
    assert WriteMember(m) + "," + text == WriteMember(m) + ("," + text);
    assert ("," + text)[1..] == text;
    NothingToSkip(text);
  }

  lemma StartsWithQuote(m: Member)
    requires Writable(m.1)
    ensures WriteMember(m) != "" && WriteMember(m)[0] == '"'
  {
  }

  /** A written object is read back as its members. */
  lemma ObjectRoundTrip(members: seq<Member>)
    requires members != [] && forall i :: 0 <= i < |members| ==> Plain(members[i].0) && Writable(members[i].1)
    ensures ParseObject("{" + WriteMembers(members)) == Some(ToMap(members))
  {
    hide TakeMembers, WriteMembers;
    MembersAreTaken(members);
    var s := "{" + WriteMembers(members);
    NothingToSkip(s);
    assert s[1..] == WriteMembers(members);
    NothingToSkip(WriteMembers(members));
  }
}
