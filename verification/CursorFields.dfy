/** The text forms of the values in a listing cursor: timestamp, UUID and status filter. */
module CursorFields {
  import opened Wrappers
  import opened Digits
  import opened Calendar
  import opened DeliveryTables

  const UUID_DIGITS: nat := 32

  /** ASCII text that a JSON string literal carries without escapes. */
  predicate PlainChar(c: char) {
    ' ' <= c <= '~' && c != '"' && c != '\\'
  }

  predicate Plain(s: string) {
    forall i :: 0 <= i < |s| ==> PlainChar(s[i])
  }

  lemma DigitsArePlain(n: nat, base: nat, width: nat)
    requires 2 <= base <= 16
    ensures Plain(ToText(n, base, width))
  {
    var s := ToText(n, base, width);
    forall i | 0 <= i < |s| ensures PlainChar(s[i]) {
      assert DigitValue(s[i]).Some?;
    }
  }

  // ---------------------------------------------------------------- timestamps

  function DateText(y: string, m: string, d: string): string {
    y + "-" + m + "-" + d
  }

  function HourText(h: string, n: string, c: string): string {
    h + ":" + n + ":" + c
  }

  function ClockText(h: string, n: string, c: string, u: string): string {
    HourText(h, n, c) + "." + u
  }

  function FormatTime(t: int): (s: string)
    requires ValidInstant(t)
  {
    var f := FieldsOf(t);
    DateText(ToText(f.year, 10, 4), ToText(f.month, 10, 2), ToText(f.day, 10, 2)) + "T"
    + ClockText(ToText(f.hour, 10, 2), ToText(f.minute, 10, 2), ToText(f.second, 10, 2), ToText(f.micro, 10, 6)) + "Z"
  }

  function ParseDate(s: string): Option<(nat, nat, nat)> {
    if |s| != 10 || s[4] != '-' || s[7] != '-' then None
    else
      var y, m, d := FromText(s[..4], 10), FromText(s[5..7], 10), FromText(s[8..], 10);
      if y.None? || m.None? || d.None? then None else Some((y.value, m.value, d.value))
  }

  function ParseHour(s: string): Option<(nat, nat, nat)> {
    if |s| != 8 || s[2] != ':' || s[5] != ':' then None
    else
      var h, n, c := FromText(s[..2], 10), FromText(s[3..5], 10), FromText(s[6..], 10);
      if h.None? || n.None? || c.None? then None else Some((h.value, n.value, c.value))
  }

  function ParseClock(s: string): Option<(nat, nat, nat, nat)> {
    if |s| != 15 || s[8] != '.' then None
    else
      var hour, u := ParseHour(s[..8]), FromText(s[9..], 10);
      if hour.None? || u.None? then None else Some((hour.value.0, hour.value.1, hour.value.2, u.value))
  }

  /** A final Z is read as +00:00; then YYYY-MM-DDTHH:MM:SS.ffffff+00:00 is required. */
  function ParseTime(s: string): Option<int> {
    var text := if s != "" && s[|s| - 1] == 'Z' then s[..|s| - 1] + "+00:00" else s;
    if |text| != 32 || text[26..] != "+00:00" || text[10] != 'T' then None
    else
      var date, clock := ParseDate(text[..10]), ParseClock(text[11..26]);
      if date.None? || clock.None? then None
      else
        var f := Fields(date.value.0, date.value.1, date.value.2, clock.value.0, clock.value.1, clock.value.2,
                        clock.value.3);
        if ValidFields(f) then Some(InstantOf(f)) else None
  }

  lemma Powers()
    ensures Power(10, 2) == 100 && Power(10, 4) == 10000 && Power(10, 6) == 1000000
  {
    PowerAdds(10, 2, 2);
    PowerAdds(10, 4, 2);
  }

  lemma ReadsDate(ys: string, ms: string, ds: string, y: nat, m: nat, d: nat)
    requires |ys| == 4 && |ms| == 2 && |ds| == 2
    requires FromText(ys, 10) == Some(y) && FromText(ms, 10) == Some(m) && FromText(ds, 10) == Some(d)
    ensures ParseDate(DateText(ys, ms, ds)) == Some((y, m, d))
  {
    hide FromText;
    var s := DateText(ys, ms, ds);
    assert s[..4] == ys && s[5..7] == ms && s[8..] == ds;
  }

  lemma ReadsHour(hs: string, ns: string, cs: string, h: nat, n: nat, c: nat)
    requires |hs| == 2 && |ns| == 2 && |cs| == 2
    requires FromText(hs, 10) == Some(h) && FromText(ns, 10) == Some(n) && FromText(cs, 10) == Some(c)
    ensures ParseHour(HourText(hs, ns, cs)) == Some((h, n, c))
  {
    hide FromText;
    var s := HourText(hs, ns, cs);
    assert s[..2] == hs && s[3..5] == ns && s[6..] == cs;
  }

  lemma ReadsClock(hs: string, ns: string, cs: string, us: string, h: nat, n: nat, c: nat, u: nat)
    requires |hs| == 2 && |ns| == 2 && |cs| == 2 && |us| == 6
    requires FromText(hs, 10) == Some(h) && FromText(ns, 10) == Some(n) && FromText(cs, 10) == Some(c)
    requires FromText(us, 10) == Some(u)
    ensures ParseClock(ClockText(hs, ns, cs, us)) == Some((h, n, c, u))
  {
    hide FromText, ParseHour;
    ReadsHour(hs, ns, cs, h, n, c);
    var s := ClockText(hs, ns, cs, us);
    assert s[..8] == HourText(hs, ns, cs) && s[9..] == us;
  }

  lemma DateRoundTrip(y: nat, m: nat, d: nat)
    requires y < 10000 && m < 100 && d < 100
    ensures ParseDate(DateText(ToText(y, 10, 4), ToText(m, 10, 2), ToText(d, 10, 2))) == Some((y, m, d))
  {
    hide ToText, FromText, ParseDate, DateText;
    Powers();
    NumeralRoundTrip(y, 10, 4);
    NumeralRoundTrip(m, 10, 2);
    NumeralRoundTrip(d, 10, 2);
    ReadsDate(ToText(y, 10, 4), ToText(m, 10, 2), ToText(d, 10, 2), y, m, d);
  }

  lemma ClockRoundTrip(h: nat, n: nat, c: nat, u: nat)
    requires h < 100 && n < 100 && c < 100 && u < 1000000
    ensures ParseClock(ClockText(ToText(h, 10, 2), ToText(n, 10, 2), ToText(c, 10, 2), ToText(u, 10, 6)))
            == Some((h, n, c, u))
  {
    hide ToText, FromText, ParseClock, ClockText;
    Powers();
    NumeralRoundTrip(h, 10, 2);
    NumeralRoundTrip(n, 10, 2);
    NumeralRoundTrip(c, 10, 2);
    NumeralRoundTrip(u, 10, 6);
    ReadsClock(ToText(h, 10, 2), ToText(n, 10, 2), ToText(c, 10, 2), ToText(u, 10, 6), h, n, c, u);
  }

  /** Every instant is read back from its text. */
  lemma TimeRoundTrip(t: int)
    requires ValidInstant(t)
    ensures ParseTime(FormatTime(t)) == Some(t)
  {
    var f := FieldsOf(t);
    DateRoundTrip(f.year, f.month, f.day);
    ClockRoundTrip(f.hour, f.minute, f.second, f.micro);
    var date := DateText(ToText(f.year, 10, 4), ToText(f.month, 10, 2), ToText(f.day, 10, 2));
    var clock := ClockText(ToText(f.hour, 10, 2), ToText(f.minute, 10, 2), ToText(f.second, 10, 2),
                           ToText(f.micro, 10, 6));
    ReadsTime(date, clock, f);
  }

  /** The layout YYYY-MM-DDTHH:MM:SS.ffffffZ. */
  lemma TimeText(t: int)
    requires ValidInstant(t)
    ensures var s := FormatTime(t);
            && |s| == 27 && s[4] == '-' && s[7] == '-' && s[10] == 'T' && s[13] == ':' && s[16] == ':'
            && s[19] == '.' && s[26] == 'Z'
    ensures var s, f := FormatTime(t), FieldsOf(t);
            && FromText(s[..4], 10) == Some(f.year) && FromText(s[5..7], 10) == Some(f.month)
            && FromText(s[8..10], 10) == Some(f.day) && FromText(s[11..13], 10) == Some(f.hour)
            && FromText(s[14..16], 10) == Some(f.minute) && FromText(s[17..19], 10) == Some(f.second)
            && FromText(s[20..26], 10) == Some(f.micro)
  {
    hide FromText, FieldsOf, ToText, DateText, ClockText;
    var f, s := FieldsOf(t), FormatTime(t);
    Powers();
    NumeralRoundTrip(f.year, 10, 4);
    NumeralRoundTrip(f.month, 10, 2);
    NumeralRoundTrip(f.day, 10, 2);
    NumeralRoundTrip(f.hour, 10, 2);
    NumeralRoundTrip(f.minute, 10, 2);
    NumeralRoundTrip(f.second, 10, 2);
    NumeralRoundTrip(f.micro, 10, 6);
    var date := DateText(ToText(f.year, 10, 4), ToText(f.month, 10, 2), ToText(f.day, 10, 2));
    var clock := ClockText(ToText(f.hour, 10, 2), ToText(f.minute, 10, 2), ToText(f.second, 10, 2),
                           ToText(f.micro, 10, 6));
    DateLayout(ToText(f.year, 10, 4), ToText(f.month, 10, 2), ToText(f.day, 10, 2));
    ClockLayout(ToText(f.hour, 10, 2), ToText(f.minute, 10, 2), ToText(f.second, 10, 2), ToText(f.micro, 10, 6));
    TimeLayout(date, clock, s);
  }

  lemma DateLayout(ys: string, ms: string, ds: string)
    requires |ys| == 4 && |ms| == 2 && |ds| == 2
    ensures var s := DateText(ys, ms, ds);
            && |s| == 10 && s[4] == '-' && s[7] == '-' && s[..4] == ys && s[5..7] == ms && s[8..10] == ds
  {
  }

  lemma ClockLayout(hs: string, ns: string, cs: string, us: string)
    requires |hs| == 2 && |ns| == 2 && |cs| == 2 && |us| == 6
    ensures var s := ClockText(hs, ns, cs, us);
            && |s| == 15 && s[2] == ':' && s[5] == ':' && s[8] == '.'
            && s[..2] == hs && s[3..5] == ns && s[6..8] == cs && s[9..15] == us
  {
    assert HourText(hs, ns, cs)[..2] == hs;
  }

  lemma TimeLayout(date: string, clock: string, s: string)
    requires |date| == 10 && |clock| == 15 && s == date + "T" + clock + "Z"
    ensures |s| == 27 && s[10] == 'T' && s[26] == 'Z'
    ensures s[..4] == date[..4] && s[5..7] == date[5..7] && s[8..10] == date[8..10]
    ensures s[11..13] == clock[..2] && s[14..16] == clock[3..5] && s[17..19] == clock[6..8]
    ensures s[20..26] == clock[9..15] && s[4] == date[4] && s[7] == date[7]
    ensures s[13] == clock[2] && s[16] == clock[5] && s[19] == clock[8]
  {
    assert s[..10] == date && s[11..26] == clock;
    assert date[..4] == s[..10][..4] == s[..4];
  }

  lemma ReadsTime(date: string, clock: string, f: Fields)
    requires ParseDate(date) == Some((f.year, f.month, f.day))
    requires ParseClock(clock) == Some((f.hour, f.minute, f.second, f.micro)) && ValidFields(f)
    ensures ParseTime(date + "T" + clock + "Z") == Some(InstantOf(f))
  {
    var s := date + "T" + clock + "Z";
    assert s[..|s| - 1] == date + "T" + clock;
    var text := date + "T" + clock + "+00:00";
    assert text[26..] == "+00:00" && text[..10] == date && text[11..26] == clock;
  }

  lemma TimeIsPlain(t: int)
    requires ValidInstant(t)
    ensures Plain(FormatTime(t))
  {
    var f := FieldsOf(t);
    DigitsArePlain(f.year, 10, 4);
    DigitsArePlain(f.month, 10, 2);
    DigitsArePlain(f.day, 10, 2);
    DigitsArePlain(f.hour, 10, 2);
    DigitsArePlain(f.minute, 10, 2);
    DigitsArePlain(f.second, 10, 2);
    DigitsArePlain(f.micro, 10, 6);
    var date := DateText(ToText(f.year, 10, 4), ToText(f.month, 10, 2), ToText(f.day, 10, 2));
    var clock := ClockText(ToText(f.hour, 10, 2), ToText(f.minute, 10, 2), ToText(f.second, 10, 2),
                           ToText(f.micro, 10, 6));
    assert Plain(date) && Plain(clock);
  }

  // ---------------------------------------------------------------- UUIDs

  predicate ValidUuid(id: int) {
    0 <= id < Power(16, UUID_DIGITS)
  }

  function Grouped(h: string): string
    requires |h| == UUID_DIGITS
  {
    h[..8] + "-" + h[8..12] + "-" + h[12..16] + "-" + h[16..20] + "-" + h[20..]
  }

  function FormatUuid(id: int): (s: string)
    requires ValidUuid(id)
  {
    Grouped(ToText(id, 16, UUID_DIGITS))
  }

  /** The layout 8-4-4-4-12 over the 32 hexadecimal digits. */
  lemma UuidText(id: int)
    requires ValidUuid(id)
    ensures var s := FormatUuid(id);
            && |s| == 36 && s[8] == '-' && s[13] == '-' && s[18] == '-' && s[23] == '-'
            && FromText(s[..8] + s[9..13] + s[14..18] + s[19..23] + s[24..], 16) == Some(id)
  {
    hide FromText, ToText, Grouped;
    var h, s := ToText(id, 16, UUID_DIGITS), FormatUuid(id);
    NumeralRoundTrip(id, 16, UUID_DIGITS);
    GroupedLayout(h);
    assert h[..8] + h[8..12] + h[12..16] + h[16..20] + h[20..] == h;
  }

  lemma GroupedLayout(h: string)
    requires |h| == UUID_DIGITS
    ensures var s := Grouped(h);
            && |s| == 36 && s[8] == '-' && s[13] == '-' && s[18] == '-' && s[23] == '-'
            && s[..8] == h[..8] && s[9..13] == h[8..12] && s[14..18] == h[12..16] && s[19..23] == h[16..20]
            && s[24..] == h[20..]
  {
  }

  lemma UuidIsPlain(id: int)
    requires ValidUuid(id)
    ensures Plain(FormatUuid(id))
  {
    DigitsArePlain(id, 16, UUID_DIGITS);
    GroupingIsPlain(ToText(id, 16, UUID_DIGITS));
  }

  lemma GroupingIsPlain(h: string)
    requires |h| == UUID_DIGITS && Plain(h)
    ensures Plain(Grouped(h))
  {
    var a, b, c, d := h[..8] + "-", h[8..12] + "-", h[12..16] + "-", h[16..20] + "-";
    assert Grouped(h) == a + b + c + d + h[20..];
  }

  function WithoutHyphens(s: string): string {
    if s == "" then "" else WithoutHyphens(s[..|s| - 1]) + if s[|s| - 1] == '-' then "" else [s[|s| - 1]]
  }

  function ParseUuid(s: string): Option<int> {
    var digits := WithoutHyphens(s);
    if |digits| != UUID_DIGITS then None
    else
      var n := FromText(digits, 16);
      if n.None? then None else Some(n.value)
  }

  lemma {:induction false} HyphensSplit(a: string, b: string)
    ensures WithoutHyphens(a + b) == WithoutHyphens(a) + WithoutHyphens(b)
    decreases |b|
  {
    if b == "" {
      assert a + b == a;
    } else {
      var s := a + b;
      assert s[..|s| - 1] == a + b[..|b| - 1];
      HyphensSplit(a, b[..|b| - 1]);
    }
  }

  lemma {:induction false} NoHyphens(s: string)
    requires forall i :: 0 <= i < |s| ==> s[i] != '-'
    ensures WithoutHyphens(s) == s
    decreases |s|
  {
    if s != "" {
      NoHyphens(s[..|s| - 1]);
    }
  }

  lemma DropOne(text: string, clean: string, part: string)
    requires WithoutHyphens(text) == clean
    requires forall i :: 0 <= i < |part| ==> part[i] != '-'
    ensures WithoutHyphens(text + "-" + part) == clean + part
  {
    HyphensSplit(text, "-");
    HyphensSplit(text + "-", part);
    NoHyphens(part);
    assert WithoutHyphens("-") == "" by { assert "-"[..0] == ""; }
  }

  /** Every UUID is read back from its hyphenated text. */
  lemma UuidRoundTrip(id: int)
    requires ValidUuid(id)
    ensures ParseUuid(FormatUuid(id)) == Some(id)
  {
    var h := ToText(id, 16, UUID_DIGITS);
    NumeralRoundTrip(id, 16, UUID_DIGITS);
    forall i | 0 <= i < |h| ensures h[i] != '-' {
      assert DigitValue(h[i]).Some?;
    }
    Ungroup(h);
  }

  lemma Ungroup(h: string)
    requires |h| == 32 && forall i :: 0 <= i < |h| ==> h[i] != '-'
    ensures WithoutHyphens(Grouped(h)) == h
  {
    NoHyphens(h[..8]);
    DropOne(h[..8], h[..8], h[8..12]);
    DropOne(h[..8] + "-" + h[8..12], h[..8] + h[8..12], h[12..16]);
    DropOne(h[..8] + "-" + h[8..12] + "-" + h[12..16], h[..8] + h[8..12] + h[12..16], h[16..20]);
    DropOne(h[..8] + "-" + h[8..12] + "-" + h[12..16] + "-" + h[16..20], h[..8] + h[8..12] + h[12..16] + h[16..20],
            h[20..]);
    assert h[..8] + h[8..12] + h[12..16] + h[16..20] + h[20..] == h;
  }

  // ---------------------------------------------------------------- status filters

  function StatusText(status: Status): (s: string)
    ensures Plain(s)
  {
    match status
    case Pending => "pending"
    case Processing => "processing"
    case Succeeded => "succeeded"
    case DeadLetter => "dead_letter"
  }

  function ParseStatus(s: string): Option<Status> {
    if s == "pending" then Some(Pending)
    else if s == "processing" then Some(Processing)
    else if s == "succeeded" then Some(Succeeded)
    else if s == "dead_letter" then Some(DeadLetter)
    else None
  }

  /** Exactly the four status names are read. */
  lemma StatusRoundTrip(s: string, status: Status)
    ensures ParseStatus(s) == Some(status) <==> s == StatusText(status)
  {
    assert "pending"[1] != "processing"[1];
  }
}
