/** The URL-safe base 64 alphabet of section 5 of RFC 4648, with padding omitted and recomputed (section 3.2). */
module Base64Url {
  import opened Wrappers

  type Byte = n: int | 0 <= n < 256

  function Symbol(v: int): (c: char)
    requires 0 <= v < 64
    ensures c != '='
  {
    if v < 26 then ('A' as int + v) as char
    else if v < 52 then ('a' as int + v - 26) as char
    else if v < 62 then ('0' as int + v - 52) as char
    else if v == 62 then '-' else '_'
  }

  /** Both spellings of 62 and 63 are read: the URL-safe ones are translated to the standard ones first. */
  function SymbolValue(c: char): (v: Option<int>)
    ensures v.Some? ==> 0 <= v.value < 64
  {
    if 'A' <= c <= 'Z' then Some(c as int - 'A' as int)
    else if 'a' <= c <= 'z' then Some(c as int - 'a' as int + 26)
    else if '0' <= c <= '9' then Some(c as int - '0' as int + 52)
    else if c == '-' || c == '+' then Some(62)
    else if c == '_' || c == '/' then Some(63)
    else None
  }

  function EncodeQuad(x: Byte, y: Byte, z: Byte): (q: string)
    ensures |q| == 4 && NoPadding(q)
  {
    [Symbol(x / 4), Symbol(x % 4 * 16 + y / 16), Symbol(y % 16 * 4 + z / 64), Symbol(z % 64)]
  }

  function Encode(bytes: seq<Byte>): string {
    if bytes == [] then ""
    else if |bytes| == 1 then EncodeQuad(bytes[0], 0, 0)[..2] + "=="
    else if |bytes| == 2 then EncodeQuad(bytes[0], bytes[1], 0)[..3] + "="
    else EncodeQuad(bytes[0], bytes[1], bytes[2]) + Encode(bytes[3..])
  }

  /** The three bytes of four symbols. */
  function DecodeQuad(s: string): (r: Option<seq<Byte>>)
    requires |s| == 4
    ensures r.Some? ==> |r.value| == 3
  {
    var a, b, c, d := SymbolValue(s[0]), SymbolValue(s[1]), SymbolValue(s[2]), SymbolValue(s[3]);
    if a.None? || b.None? || c.None? || d.None? then None
    else Some([a.value * 4 + b.value / 16, b.value % 16 * 16 + c.value / 4, c.value % 4 * 64 + d.value])
  }

  /** A quad missing symbols reads as if they were zeros and loses the bytes they would make. */
  function Decode(s: string): Option<seq<Byte>> {
    if s == "" then Some([])
    else if |s| < 4 then None
    else if |s| == 4 && s[2..] == "==" then
      var quad := DecodeQuad(s[..2] + "AA");
      if quad.None? then None else Some(quad.value[..1])
    else if |s| == 4 && s[3..] == "=" then
      var quad := DecodeQuad(s[..3] + "A");
      if quad.None? then None else Some(quad.value[..2])
    else
      var quad, rest := DecodeQuad(s[..4]), Decode(s[4..]);
      if quad.None? || rest.None? then None else Some(quad.value + rest.value)
  }

  /** rstrip("="). */
  function StripPadding(s: string): string {
    if s != "" && s[|s| - 1] == '=' then StripPadding(s[..|s| - 1]) else s
  }

  /** "=" * (-len % 4). */
  function AddPadding(s: string): string {
    s + seq((-|s|) % 4, i => '=')
  }

  /** The alphabet of table 2 of section 5, in its parts. */
  lemma Alphabet(v: int)
    requires 0 <= v < 26
    ensures Symbol(v) == "ABCDEFGHIJKLMNOPQRSTUVWXYZ"[v]
    ensures Symbol(26 + v) == "abcdefghijklmnopqrstuvwxyz"[v]
    ensures v < 12 ==> Symbol(52 + v) == "0123456789-_"[v]
  {
    UpperCase(v);
    LowerCase(v);
    if v < 12 { Others(v); }
  }

  lemma UpperCase(v: int)
    requires 0 <= v < 26
    ensures Symbol(v) == "ABCDEFGHIJKLMNOPQRSTUVWXYZ"[v]
  {
  }

  lemma LowerCase(v: int)
    requires 0 <= v < 26
    ensures Symbol(26 + v) == "abcdefghijklmnopqrstuvwxyz"[v]
  {
  }

  lemma Others(v: int)
    requires 0 <= v < 12
    ensures Symbol(52 + v) == "0123456789-_"[v]
  {
  }

  /** Four symbols are the base 64 digits of the number whose base 256 digits the three bytes are. */
  lemma QuadValue(x: Byte, y: Byte, z: Byte)
    ensures forall i :: 0 <= i < 4 ==> SymbolValue(EncodeQuad(x, y, z)[i]).Some?
    ensures var q := EncodeQuad(x, y, z);
            ((SymbolValue(q[0]).value * 64 + SymbolValue(q[1]).value) * 64 + SymbolValue(q[2]).value) * 64
              + SymbolValue(q[3]).value
            == (x * 256 + y) * 256 + z
  {
    SymbolRoundTrip(x / 4);
    SymbolRoundTrip(x % 4 * 16 + y / 16);
    SymbolRoundTrip(y % 16 * 4 + z / 64);
    SymbolRoundTrip(z % 64);
  }

  /** The first test vectors of section 10, "f", "fo" and "foo". */
  lemma TestVectors()
    ensures Encode([102]) == "Zg==" && Encode([102, 111]) == "Zm8=" && Encode([102, 111, 111]) == "Zm9v"
  {
    assert Encode([]) == "" && [102, 111, 111][3..] == [];
  }

  lemma SymbolRoundTrip(v: int)
    requires 0 <= v < 64
    ensures SymbolValue(Symbol(v)) == Some(v)
  {
  }

  lemma QuadArithmetic(x: Byte, y: Byte, z: Byte)
    ensures x / 4 * 4 + (x % 4 * 16 + y / 16) / 16 == x
    ensures (x % 4 * 16 + y / 16) % 16 * 16 + (y % 16 * 4 + z / 64) / 4 == y
    ensures (y % 16 * 4 + z / 64) % 4 * 64 + z % 64 == z
  {
    assert (x % 4 * 16 + y / 16) / 16 == x % 4;
    assert (x % 4 * 16 + y / 16) % 16 == y / 16;
    assert (y % 16 * 4 + z / 64) / 4 == y % 16;
    assert (y % 16 * 4 + z / 64) % 4 == z / 64;
  }

  lemma QuadRoundTrip(x: Byte, y: Byte, z: Byte)
    ensures DecodeQuad(EncodeQuad(x, y, z)) == Some([x, y, z])
  {
    QuadArithmetic(x, y, z);
    SymbolRoundTrip(x / 4);
    SymbolRoundTrip(x % 4 * 16 + y / 16);
    SymbolRoundTrip(y % 16 * 4 + z / 64);
    SymbolRoundTrip(z % 64);
  }

  lemma OneByte(x: Byte)
    ensures Decode(Encode([x])) == Some([x])
  {
    var quad := EncodeQuad(x, 0, 0);
    var s := quad[..2] + "==";
    QuadRoundTrip(x, 0, 0);
    assert s[2..] == "==" && s[..2] + "AA" == quad;
    assert [x, 0, 0][..1] == [x];
  }

  lemma TwoBytes(x: Byte, y: Byte)
    ensures Decode(Encode([x, y])) == Some([x, y])
  {
    var quad := EncodeQuad(x, y, 0);
    var s := quad[..3] + "=";
    QuadRoundTrip(x, y, 0);
    assert s[3..] == "=" && s[..3] + "A" == quad;
    assert s[2] == quad[2] && s[2..][0] == s[2];
    assert [x, y, 0][..2] == [x, y];
  }

  lemma MoreText(x: Byte, y: Byte, z: Byte, text: string, rest: seq<Byte>)
    requires Decode(text) == Some(rest)
    ensures Decode(EncodeQuad(x, y, z) + text) == Some([x, y, z] + rest)
  {
    var quad := EncodeQuad(x, y, z);
    var s := quad + text;
    QuadRoundTrip(x, y, z);
    assert s[..4] == quad && s[4..] == text;
    assert s[2..][0] == quad[2] && s[3..][0] == quad[3];
  }

  lemma MoreBytes(x: Byte, y: Byte, z: Byte, rest: seq<Byte>)
    requires Decode(Encode(rest)) == Some(rest)
    ensures Decode(Encode([x, y, z] + rest)) == Some([x, y, z] + rest)
  {
    var bytes := [x, y, z] + rest;
    assert bytes[3..] == rest;
    assert Encode(bytes) == EncodeQuad(x, y, z) + Encode(rest);
    MoreText(x, y, z, Encode(rest), rest);
  }

  /** Decoding an encoding gives back the bytes, for every byte string. */
  lemma {:induction false} DecodeEncode(bytes: seq<Byte>)
    ensures Decode(Encode(bytes)) == Some(bytes)
    decreases |bytes|
  {
    hide EncodeQuad, DecodeQuad;
    if bytes == [] {
    } else if |bytes| == 1 {
      OneByte(bytes[0]);
      assert bytes == [bytes[0]];
    } else if |bytes| == 2 {
      TwoBytes(bytes[0], bytes[1]);
      assert bytes == [bytes[0], bytes[1]];
    } else {
      DecodeEncode(bytes[3..]);
      MoreBytes(bytes[0], bytes[1], bytes[2], bytes[3..]);
      assert bytes == [bytes[0], bytes[1], bytes[2]] + bytes[3..];
    }
  }

  /** An encoding is symbols followed by at most two padding characters, in whole quads. */
  lemma {:induction false} EncodedShape(bytes: seq<Byte>) returns (body: string, n: nat)
    ensures n <= 2 && Encode(bytes) == body + Equals(n) && NoPadding(body)
    decreases |bytes|
  {
    hide EncodeQuad;
    if bytes == [] {
      body, n := "", 0;
    } else if |bytes| == 1 {
      body, n := EncodeQuad(bytes[0], 0, 0)[..2], 2;
      assert Equals(2) == "==";
    } else if |bytes| == 2 {
      body, n := EncodeQuad(bytes[0], bytes[1], 0)[..3], 1;
      assert Equals(1) == "=";
    } else {
      var quad := EncodeQuad(bytes[0], bytes[1], bytes[2]);
      var rest;
      rest, n := EncodedShape(bytes[3..]);
      body := quad + rest;
      Reassociate(quad, rest, Equals(n));
    }
  }

  lemma Reassociate(a: string, b: string, c: string)
    ensures a + (b + c) == a + b + c
  {
  }

  lemma {:induction false} EncodedLength(bytes: seq<Byte>)
    ensures |Encode(bytes)| % 4 == 0
    decreases |bytes|
  {
    hide EncodeQuad;
    if |bytes| >= 3 {
      EncodedLength(bytes[3..]);
    }
  }

  function Equals(n: nat): string {
    seq(n, i => '=')
  }

  predicate NoPadding(s: string) {
    forall i :: 0 <= i < |s| ==> s[i] != '='
  }

  lemma {:induction false} StripEquals(body: string, n: nat)
    requires NoPadding(body)
    ensures StripPadding(body + Equals(n)) == body
    decreases n
  {
    var s := body + Equals(n);
    if n == 0 {
      assert s == body;
    } else {
      assert s[..|s| - 1] == body + Equals(n - 1);
      StripEquals(body, n - 1);
    }
  }

  /** Recomputing stripped padding is the identity on every encoding. */
  lemma PaddingRoundTrip(bytes: seq<Byte>)
    ensures AddPadding(StripPadding(Encode(bytes))) == Encode(bytes)
  {
    var body, n := EncodedShape(bytes);
    EncodedLength(bytes);
    StripEquals(body, n);
    MissingPadding(|body|, n);
    assert AddPadding(body) == body + Equals(n);
  }

  lemma MissingPadding(length: int, n: int)
    requires 0 <= length && 0 <= n && (length + n) % 4 == 0 && n <= 2
    ensures (-length) % 4 == n
  {
  }
}
