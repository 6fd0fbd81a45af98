/** The opaque listing cursor (delivery_job_query_service.py): position and filter as base64url JSON. */
module JobCursor {
  import opened Wrappers
  import opened Calendar
  import opened DeliveryTables
  import opened Base64Url
  import opened CursorFields
  import opened CursorJson

  const CURSOR_VERSION: int := 1

  datatype Position = Position(updatedAt: int, id: int)

  predicate ValidPosition(p: Position) {
    ValidInstant(p.updatedAt) && ValidUuid(p.id)
  }

  function FilterValue(filter: Option<Status>): Value {
    if filter.None? then VNull else VText(StatusText(filter.value))
  }

  /** The payload's members in key order. */
  function Payload(p: Position, filter: Option<Status>): (members: seq<Member>)
    requires ValidPosition(p)
    ensures |members| == 4
  {
    [("id", VText(FormatUuid(p.id))), ("status", FilterValue(filter)),
     ("updated_at", VText(FormatTime(p.updatedAt))), ("v", VInt(CURSOR_VERSION))]
  }

  function ToBytes(s: string): Option<seq<Byte>> {
    if s == "" then Some([])
    else
      var rest := ToBytes(s[1..]);
      if rest.None? || s[0] as int >= 128 then None else Some([s[0] as int as Byte] + rest.value)
  }

  function FromBytes(bytes: seq<Byte>): Option<string> {
    if bytes == [] then Some("")
    else
      var rest := FromBytes(bytes[1..]);
      if rest.None? || bytes[0] >= 128 then None else Some([bytes[0] as char] + rest.value)
  }

  function EncodeCursor(p: Position, filter: Option<Status>): string
    requires ValidPosition(p)
  {
    PayloadIsPlain(p, filter);
    var bytes := ToBytes("{" + WriteMembers(Payload(p, filter)));
    BytesRoundTrip("{" + WriteMembers(Payload(p, filter)));
    StripPadding(Encode(bytes.value))
  }

  /** The checks on a decoded document; None is the validation error. */
  function CheckPayload(m: map<string, Value>, filter: Option<Status>): Option<Position> {
    if m.Keys != {"v", "updated_at", "id", "status"} then None
    else if m["v"] != VInt(CURSOR_VERSION) || !m["updated_at"].VText? || !m["id"].VText? then None
    else if m["status"].VInt? || (m["status"].VText? && ParseStatus(m["status"].text).None?) then None
    else
      var cursorFilter := if m["status"].VNull? then None else ParseStatus(m["status"].text);
      var at, id := ParseTime(m["updated_at"].text), ParseUuid(m["id"].text);
      if cursorFilter != filter || at.None? || id.None? then None else Some(Position(at.value, id.value))
  }

  function DecodeCursor(cursor: string, filter: Option<Status>): Option<Position> {
    if cursor == "" then None
    else
      var bytes := Decode(AddPadding(cursor));
      if bytes.None? then None
      else
        var text := FromBytes(bytes.value);
        if text.None? then None
        else
          var document := ParseObject(text.value);
          if document.None? then None else CheckPayload(document.value, filter)
  }

  // ---------------------------------------------------------------- round trip

  predicate AllAscii(s: string) {
    forall i :: 0 <= i < |s| ==> s[i] as int < 128
  }

  lemma {:induction false} BytesRoundTrip(s: string)
    requires AllAscii(s)
    ensures ToBytes(s).Some? && |ToBytes(s).value| == |s| && FromBytes(ToBytes(s).value) == Some(s)
    decreases |s|
  {
    if s != "" {
      BytesRoundTrip(s[1..]);
      var bytes := ToBytes(s).value;
      assert bytes[1..] == ToBytes(s[1..]).value;
      assert bytes[0] as char == s[0];
      assert s == [s[0]] + s[1..];
    }
  }

  lemma {:induction false} MembersAreAscii(members: seq<Member>)
    requires members != [] && forall i :: 0 <= i < |members| ==> Plain(members[i].0) && Writable(members[i].1)
    ensures AllAscii(WriteMembers(members))
    decreases |members|
  {
    var m := members[0];
    assert AllAscii(WriteValue(m.1));
    assert AllAscii(WriteMember(m));
    if |members| > 1 {
      MembersAreAscii(members[1..]);
    }
  }

  lemma PayloadIsPlain(p: Position, filter: Option<Status>)
    requires ValidPosition(p)
    ensures forall i :: 0 <= i < |Payload(p, filter)| ==>
              Plain(Payload(p, filter)[i].0) && Writable(Payload(p, filter)[i].1)
    ensures AllAscii("{" + WriteMembers(Payload(p, filter)))
  {
    hide FormatUuid, FormatTime, WriteMembers;
    UuidIsPlain(p.id);
    TimeIsPlain(p.updatedAt);
    MembersAreAscii(Payload(p, filter));
  }

  lemma MapOfFour(a: Member, b: Member, c: Member, d: Member)
    ensures ToMap([a, b, c, d]) == map[][a.0 := a.1][b.0 := b.1][c.0 := c.1][d.0 := d.1]
  {
    LastWins([], a);
    LastWins([a], b);
    LastWins([a, b], c);
    LastWins([a, b, c], d);
    assert [] + [a] == [a] && [a] + [b] == [a, b] && [a, b] + [c] == [a, b, c] && [a, b, c] + [d] == [a, b, c, d];
  }

  lemma LastWins(members: seq<Member>, m: Member)
    ensures ToMap(members + [m]) == ToMap(members)[m.0 := m.1]
  {
    var all := members + [m];
    assert all[..|all| - 1] == members;
  }

  lemma PayloadIsAccepted(p: Position, filter: Option<Status>, asked: Option<Status>)
    requires ValidPosition(p)
    ensures CheckPayload(ToMap(Payload(p, filter)), asked) == if asked == filter then Some(p) else None
  {
    hide FormatUuid, FormatTime, ParseUuid, ParseTime, StatusText, ParseStatus;
    var a, b, c, d := Payload(p, filter)[0], Payload(p, filter)[1], Payload(p, filter)[2], Payload(p, filter)[3];
    MapOfFour(a, b, c, d);
    UuidRoundTrip(p.id);
    TimeRoundTrip(p.updatedAt);
    if filter.Some? { StatusRoundTrip(StatusText(filter.value), filter.value); }
    var m := ToMap(Payload(p, filter));
    assert m.Keys == {"v", "updated_at", "id", "status"};
    DistinctKeys();
    assert m["id"] == a.1 && m["status"] == b.1 && m["updated_at"] == c.1 && m["v"] == d.1;
  }

  lemma DistinctKeys()
    ensures "id" != "status" && "id" != "updated_at" && "id" != "v" && "status" != "updated_at" && "status" != "v"
    ensures "updated_at" != "v"
  {
    assert "status"[0] != "updated_at"[0];
  }

  /** The text of a document of plain members, as a cursor. */
  function CursorOfDocument(members: seq<Member>): string
    requires members != [] && forall i :: 0 <= i < |members| ==> Plain(members[i].0) && Writable(members[i].1)
  {
    MembersAreAscii(members);
    BytesRoundTrip("{" + WriteMembers(members));
    StripPadding(Encode(ToBytes("{" + WriteMembers(members)).value))
  }

  /** Every document of plain members is read back and put to the checks. */
  lemma DocumentIsChecked(members: seq<Member>, asked: Option<Status>)
    requires members != [] && forall i :: 0 <= i < |members| ==> Plain(members[i].0) && Writable(members[i].1)
    ensures DecodeCursor(CursorOfDocument(members), asked) == CheckPayload(ToMap(members), asked)
  {
    hide WriteMembers, ParseObject, CheckPayload, ToBytes, FromBytes, Encode, Decode;
    MembersAreAscii(members);
    var text := "{" + WriteMembers(members);
    BytesRoundTrip(text);
    var bytes := ToBytes(text).value;
    DecodeEncode(bytes);
    PaddingRoundTrip(bytes);
    NonEmptyCursor(bytes);
    ObjectRoundTrip(members);
  }

  /**
   Which documents a decoder that was asked for a filter accepts, and as which position: the four members and no
   other, version 1, the filter's own status, and a timestamp and an identifier that can be read.
   */
  lemma AcceptedDocuments(members: seq<Member>, asked: Option<Status>, p: Position)
    requires members != [] && forall i :: 0 <= i < |members| ==> Plain(members[i].0) && Writable(members[i].1)
    ensures DecodeCursor(CursorOfDocument(members), asked) == Some(p) <==>
              var m := ToMap(members);
              && m.Keys == {"v", "updated_at", "id", "status"}
              && m["v"] == VInt(1)
              && m["updated_at"].VText? && ParseTime(m["updated_at"].text) == Some(p.updatedAt)
              && m["id"].VText? && ParseUuid(m["id"].text) == Some(p.id)
              && m["status"] == match asked
                                case None => VNull
                                case Some(Pending) => VText("pending")
                                case Some(Processing) => VText("processing")
                                case Some(Succeeded) => VText("succeeded")
                                case Some(DeadLetter) => VText("dead_letter")
  {
    hide DecodeCursor, CursorOfDocument, ParseTime, ParseUuid, CheckPayload, ToMap;
    DocumentIsChecked(members, asked);
    AcceptedPayloads(ToMap(members), asked, p);
  }

  lemma AcceptedPayloads(m: map<string, Value>, asked: Option<Status>, p: Position)
    ensures CheckPayload(m, asked) == Some(p) <==>
              && m.Keys == {"v", "updated_at", "id", "status"}
              && m["v"] == VInt(1)
              && m["updated_at"].VText? && ParseTime(m["updated_at"].text) == Some(p.updatedAt)
              && m["id"].VText? && ParseUuid(m["id"].text) == Some(p.id)
              && m["status"] == match asked
                                case None => VNull
                                case Some(Pending) => VText("pending")
                                case Some(Processing) => VText("processing")
                                case Some(Succeeded) => VText("succeeded")
                                case Some(DeadLetter) => VText("dead_letter")
  {
    hide ParseTime, ParseUuid, ParseStatus;
    if "status" in m && m["status"].VText? {
      StatusRoundTrip(m["status"].text, Pending);
      StatusRoundTrip(m["status"].text, Processing);
      StatusRoundTrip(m["status"].text, Succeeded);
      StatusRoundTrip(m["status"].text, DeadLetter);
    }
  }

  /** An encoded cursor is the document of its four members, in the order of their names. */
  lemma CursorIsDocument(p: Position, filter: Option<Status>)
    requires ValidPosition(p)
    ensures Payload(p, filter)
            == [("id", VText(FormatUuid(p.id))), ("status", FilterValue(filter)),
                ("updated_at", VText(FormatTime(p.updatedAt))), ("v", VInt(1))]
    ensures var members := Payload(p, filter);
            && (forall i :: 0 <= i < |members| ==> Plain(members[i].0) && Writable(members[i].1))
            && EncodeCursor(p, filter) == CursorOfDocument(members)
  {
    hide FormatUuid, FormatTime, WriteMembers, Encode, ToBytes, StripPadding;
    UuidIsPlain(p.id);
    TimeIsPlain(p.updatedAt);
    PayloadIsPlain(p, filter);
  }

  lemma MoreWritten(m: Member, rest: seq<Member>)
    requires Writable(m.1) && rest != [] && forall i :: 0 <= i < |rest| ==> Writable(rest[i].1)
    ensures WriteMembers([m] + rest) == WriteMember(m) + "," + WriteMembers(rest)
  {
    assert ([m] + rest)[1..] == rest;
  }

  lemma FourWritten(a: Member, b: Member, c: Member, d: Member)
    requires Writable(a.1) && Writable(b.1) && Writable(c.1) && Writable(d.1)
    ensures WriteMembers([a, b, c, d])
            == WriteMember(a) + "," + (WriteMember(b) + "," + (WriteMember(c) + "," + (WriteMember(d) + "}")))
  {
    hide WriteMember;
    MoreWritten(a, [b, c, d]);
    MoreWritten(b, [c, d]);
    MoreWritten(c, [d]);
    assert [a] + [b, c, d] == [a, b, c, d] && [b] + [c, d] == [b, c, d] && [c] + [d] == [c, d];
  }

  /** How the filter is written: its name in quotes, or null. */
  function FilterField(filter: Option<Status>): string {
    match filter
    case None => "null"
    case Some(Pending) => Quoted("pending")
    case Some(Processing) => Quoted("processing")
    case Some(Succeeded) => Quoted("succeeded")
    case Some(DeadLetter) => Quoted("dead_letter")
  }

  lemma FilterIsWritten(filter: Option<Status>)
    requires filter.Some? ==> Plain(StatusText(filter.value))
    ensures WriteMember(("status", FilterValue(filter))) == "\"status\":" + FilterField(filter)
  {
    hide Plain;
    assert Quoted("status") + ":" == "\"status\":";
    FilterValueText(filter);
  }

  lemma FilterValueText(filter: Option<Status>)
    requires filter.Some? ==> Plain(StatusText(filter.value))
    ensures WriteValue(FilterValue(filter)) == FilterField(filter)
  {
    hide Plain, Quoted;
  }

  lemma TextsAreWritten(id: string, time: string)
    requires Plain(id) && Plain(time)
    ensures WriteMember(("id", VText(id))) == "\"id\":" + Quoted(id)
    ensures WriteMember(("updated_at", VText(time))) == "\"updated_at\":" + Quoted(time)
    ensures WriteMember(("v", VInt(1))) == "\"v\":1"
  {
    assert Quoted("id") + ":" == "\"id\":";
    assert Quoted("updated_at") + ":" == "\"updated_at\":";
    assert Quoted("v") + ":" == "\"v\":";
  }

  /** The text of a cursor's document: compact, names sorted, an absent filter written as null. */
  lemma CursorText(p: Position, filter: Option<Status>)
    requires ValidPosition(p)
    ensures var text := "{" + ("\"id\":" + Quoted(FormatUuid(p.id)) + "," + ("\"status\":" + FilterField(filter) + ","
                               + ("\"updated_at\":" + Quoted(FormatTime(p.updatedAt)) + "," + ("\"v\":1" + "}"))));
            && AllAscii(text)
            && ToBytes(text).Some? && EncodeCursor(p, filter) == StripPadding(Encode(ToBytes(text).value))
  {
    hide FormatUuid, FormatTime, WriteMembers, WriteMember, Encode, ToBytes, StripPadding, Quoted, FilterField;
    UuidIsPlain(p.id);
    TimeIsPlain(p.updatedAt);
    PayloadIsPlain(p, filter);
    var m := Payload(p, filter);
    FourWritten(m[0], m[1], m[2], m[3]);
    FilterIsWritten(filter);
    TextsAreWritten(FormatUuid(p.id), FormatTime(p.updatedAt));
    BytesRoundTrip("{" + WriteMembers(m));
  }

  /** The bytes of an ASCII text are its character codes. */
  lemma {:induction false} BytesAreCodes(s: string)
    requires AllAscii(s)
    ensures ToBytes(s).Some? && |ToBytes(s).value| == |s|
    ensures forall i :: 0 <= i < |s| ==> ToBytes(s).value[i] == s[i] as int
    decreases |s|
  {
    if s != "" {
      BytesAreCodes(s[1..]);
    }
  }

  /** An encoded cursor gives back its position under its own filter and is rejected under any other. */
  lemma CursorRoundTrip(p: Position, filter: Option<Status>, asked: Option<Status>)
    requires ValidPosition(p)
    ensures DecodeCursor(EncodeCursor(p, filter), asked) == if asked == filter then Some(p) else None
  {
    hide CheckPayload, Payload, DecodeCursor, WriteMembers, ToBytes, Encode;
    PayloadIsPlain(p, filter);
    DocumentIsChecked(Payload(p, filter), asked);
    PayloadIsAccepted(p, filter, asked);
  }

  lemma NonEmptyCursor(bytes: seq<Byte>)
    ensures bytes != [] ==> StripPadding(Encode(bytes)) != ""
  {
    var body, n := EncodedShape(bytes);
    StripEquals(body, n);
    EncodedLength(bytes);
    if bytes != [] {
      assert Encode(bytes) != "";
    }
  }
}
