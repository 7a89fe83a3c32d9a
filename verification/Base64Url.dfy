/**
 * Unpadded base64url: sections 5 and 3.2 of RFC 4648. Decoding is strict: a text is accepted only if it is the
 * one canonical encoding of its bytes (section 3.5 of RFC 4648).
 */
module Base64Url {
  import opened Dicts

  type Byte = b: int | 0 <= b < 256

  type Sextet = d: int | 0 <= d < 64

  /** Table 2 of RFC 4648. */
  function ToChar(d: Sextet): char {
    if d < 26 then 'A' + d as char
    else if d < 52 then 'a' + (d - 26) as char
    else if d < 62 then '0' + (d - 52) as char
    else if d == 62 then '-' else '_'
  }

  predicate InAlphabet(c: char) {
    'A' <= c <= 'Z' || 'a' <= c <= 'z' || '0' <= c <= '9' || c == '-' || c == '_'
  }

  function FromChar(c: char): Sextet
    requires InAlphabet(c)
  {
    if 'A' <= c <= 'Z' then (c - 'A') as int
    else if 'a' <= c <= 'z' then (c - 'a') as int + 26
    else if '0' <= c <= '9' then (c - '0') as int + 52
    else if c == '-' then 62 else 63
  }

  lemma CharRoundTrip(d: Sextet)
    ensures InAlphabet(ToChar(d)) && FromChar(ToChar(d)) == d
  {
  }

  lemma SextetRoundTrip(c: char)
    requires InAlphabet(c)
    ensures ToChar(FromChar(c)) == c
  {
  }

  // ---- Regrouping: three bytes are four sextets ----

  function Group(a: Byte, b: Byte, c: Byte): seq<Sextet> {
    [a / 4, a % 4 * 16 + b / 16, b % 16 * 4 + c / 64, c % 64]
  }

  function Ungroup(x: Sextet, y: Sextet, z: Sextet, u: Sextet): seq<Byte> {
    [x * 4 + y / 16, y % 16 * 16 + z / 4, z % 4 * 64 + u]
  }

  /** A rest of one or two bytes makes two or three sextets, padded with zero bits. */
  function ToSextets(b: seq<Byte>): seq<Sextet> {
    if |b| == 0 then []
    else if |b| == 1 then Group(b[0], 0, 0)[..2]
    else if |b| == 2 then Group(b[0], b[1], 0)[..3]
    else Group(b[0], b[1], b[2]) + ToSextets(b[3..])
  }

  /** A rest of two or three sextets loses its pad bits; a single one is an error. */
  function ToBytes(s: seq<Sextet>): Option<seq<Byte>> {
    if |s| == 0 then Some([])
    else if |s| == 1 then None
    else if |s| == 2 then Some(Ungroup(s[0], s[1], 0, 0)[..1])
    else if |s| == 3 then Some(Ungroup(s[0], s[1], s[2], 0)[..2])
    else
      match ToBytes(s[4..])
      case None => None
      case Some(rest) => Some(Ungroup(s[0], s[1], s[2], s[3]) + rest)
  }

  lemma UngroupGroup(a: Byte, b: Byte, c: Byte)
    ensures var s := Group(a, b, c); Ungroup(s[0], s[1], s[2], s[3]) == [a, b, c]
  {
  }

  lemma GroupUngroup(x: Sextet, y: Sextet, z: Sextet, u: Sextet)
    ensures var b := Ungroup(x, y, z, u); Group(b[0], b[1], b[2]) == [x, y, z, u]
  {
    assert (x * 4 + y / 16) / 4 == x && (x * 4 + y / 16) % 4 == y / 16;
    assert (y % 16 * 16 + z / 4) / 16 == y % 16 && (y % 16 * 16 + z / 4) % 16 == z / 4;
    assert (z % 4 * 64 + u) / 64 == z % 4;
  }

  lemma OneByte(a: Byte)
    ensures ToBytes(Group(a, 0, 0)[..2]) == Some([a])
  {
    var s := Group(a, 0, 0)[..2];
    assert s == [a / 4, a % 4 * 16] && a % 4 * 16 / 16 == a % 4;
    var x: int, y: int := s[0], s[1];
    assert x * 4 + y / 16 == a;
    assert ToBytes(s).value == Ungroup(s[0], s[1], 0, 0)[..1] == [a];
  }

  lemma TwoBytes(a: Byte, b: Byte)
    ensures ToBytes(Group(a, b, 0)[..3]) == Some([a, b])
  {
    var s := Group(a, b, 0);
    UngroupGroup(a, b, 0);
    assert s[3] == 0 && s[..3] == [s[0], s[1], s[2]];
    assert Ungroup(s[0], s[1], s[2], 0)[..2] == [a, b];
  }

  lemma {:induction false} BytesRoundTrip(b: seq<Byte>)
    ensures ToBytes(ToSextets(b)) == Some(b)
  {
    if |b| >= 3 {
      var head, rest := Group(b[0], b[1], b[2]), ToSextets(b[3..]);
      UngroupGroup(b[0], b[1], b[2]);
      BytesRoundTrip(b[3..]);
      assert (head + rest)[4..] == rest;
      assert b == [b[0], b[1], b[2]] + b[3..];
    } else if |b| == 2 {
      TwoBytes(b[0], b[1]);
      assert b == [b[0], b[1]];
    } else if |b| == 1 {
      OneByte(b[0]);
      assert b == [b[0]];
    }
  }

  /** The bits of the last sextet that carry no data are zero. */
  predicate ZeroPadBits(s: seq<Sextet>) {
    if |s| % 4 == 2 then s[|s| - 1] % 16 == 0
    else if |s| % 4 == 3 then s[|s| - 1] % 4 == 0
    else true
  }

  lemma TwoSextets(x: Sextet, y: Sextet)
    ensures ToBytes([x, y]).Some?
    ensures ToSextets(ToBytes([x, y]).value) == [x, y / 16 * 16]
  {
    var s := [x, y];
    assert ToBytes(s) == Some(Ungroup(s[0], s[1], 0, 0)[..1]);
    GroupUngroup(x, y / 16 * 16, 0, 0);
  }

  lemma ThreeSextets(x: Sextet, y: Sextet, z: Sextet)
    ensures ToBytes([x, y, z]).Some?
    ensures ToSextets(ToBytes([x, y, z]).value) == [x, y, z / 4 * 4]
  {
    var s := [x, y, z];
    assert ToBytes(s) == Some(Ungroup(s[0], s[1], s[2], 0)[..2]);
    GroupUngroup(x, y, z / 4 * 4, 0);
  }

  lemma ThreeMoreBytes(head: seq<Byte>, tail: seq<Byte>)
    requires |head| == 3
    ensures ToSextets(head + tail) == Group(head[0], head[1], head[2]) + ToSextets(tail)
  {
    assert (head + tail)[3..] == tail;
  }

  lemma FourMoreSextets(s: seq<Sextet>, tail: seq<Byte>)
    requires |s| >= 4 && ToBytes(s[4..]) == Some(tail)
    ensures exists b: seq<Byte> :: ToBytes(s) == Some(b) && ToSextets(b) == s[..4] + ToSextets(tail)
  {
    var x, y, z, u := s[0], s[1], s[2], s[3];
    var head := Ungroup(x, y, z, u);
    var b := head + tail;
    assert ToBytes(s) == Some(b);
    assert ToSextets(b) == s[..4] + ToSextets(tail) by {
      ThreeMoreBytes(head, tail);
      GroupUngroup(x, y, z, u);
      assert s[..4] == [x, y, z, u];
    }
  }

  lemma SameTail(s: seq<Sextet>, back: seq<Sextet>, rest: seq<Sextet>)
    requires |s| >= 4 && back == s[..4] + rest && (rest == s[4..] <==> ZeroPadBits(s[4..]))
    ensures back == s <==> ZeroPadBits(s)
  {
    assert s == s[..4] + s[4..];
    assert back[4..] == rest;
  }

  /** A decodable sequence encodes back to itself exactly when its pad bits are zero. */
  predicate Returns(s: seq<Sextet>) {
    var b := ToBytes(s);
    (b.Some? <==> |s| % 4 != 1) && (b.Some? ==> (ToSextets(b.value) == s <==> ZeroPadBits(s)))
  }

  lemma ReturnsShort(s: seq<Sextet>)
    requires |s| < 4
    ensures Returns(s)
  {
    if |s| == 2 {
      TwoSextets(s[0], s[1]);
      assert s == [s[0], s[1]];
    } else if |s| == 3 {
      ThreeSextets(s[0], s[1], s[2]);
      assert s == [s[0], s[1], s[2]];
    }
  }

  lemma ReturnsLong(s: seq<Sextet>)
    requires |s| >= 4 && Returns(s[4..])
    ensures Returns(s)
  {
    if ToBytes(s[4..]).Some? {
      var tail := ToBytes(s[4..]).value;
      FourMoreSextets(s, tail);
      SameTail(s, ToSextets(ToBytes(s).value), ToSextets(tail));
    }
  }

  lemma {:induction false} SextetsCanonical(s: seq<Sextet>)
    ensures Returns(s)
  {
    if |s| < 4 {
      ReturnsShort(s);
    } else {
      SextetsCanonical(s[4..]);
      ReturnsLong(s);
    }
  }

  /** Four characters for three bytes, and no padding. */
  lemma {:induction false} EncodedSize(b: seq<Byte>)
    ensures |ToSextets(b)| == (4 * |b| + 2) / 3
  {
    if |b| >= 3 {
      EncodedSize(b[3..]);
    }
  }

  // ---- Texts ----

  function ToText(s: seq<Sextet>): (text: string)
    ensures |text| == |s|
  {
    seq(|s|, i requires 0 <= i < |s| => ToChar(s[i]))
  }

  predicate AllInAlphabet(text: string) {
    forall i :: 0 <= i < |text| ==> InAlphabet(text[i])
  }

  function FromText(text: string): (s: seq<Sextet>)
    requires AllInAlphabet(text)
    ensures |s| == |text|
  {
    seq(|text|, i requires 0 <= i < |text| => FromChar(text[i]))
  }

  /** `_encode` */
  function Encode(b: seq<Byte>): string {
    ToText(ToSextets(b))
  }

  /** The lenient standard decoder after padding is put back. */
  function LenientDecode(text: string): Option<seq<Byte>> {
    if AllInAlphabet(text) then ToBytes(FromText(text)) else None
  }

  /** `_decode`: not empty, and nothing but the canonical encoding. */
  function Decode(text: string): Option<seq<Byte>> {
    if text == "" then None else
      match LenientDecode(text)
      case None => None
      case Some(b) => if Encode(b) == text then Some(b) else None
  }

  lemma TextRoundTrip(s: seq<Sextet>)
    ensures AllInAlphabet(ToText(s)) && FromText(ToText(s)) == s
  {
    forall i | 0 <= i < |s| ensures InAlphabet(ToText(s)[i]) && FromChar(ToText(s)[i]) == s[i] {
      CharRoundTrip(s[i]);
    }
  }

  lemma CharsRoundTrip(text: string)
    requires AllInAlphabet(text)
    ensures ToText(FromText(text)) == text
  {
    forall i | 0 <= i < |text| ensures ToText(FromText(text))[i] == text[i] {
      SextetRoundTrip(text[i]);
    }
  }

  /** Printing then parsing is the identity on all non-empty byte strings. */
  lemma RoundTrip(b: seq<Byte>)
    requires b != []
    ensures Decode(Encode(b)) == Some(b) && AllInAlphabet(Encode(b))
  {
    TextRoundTrip(ToSextets(b));
    BytesRoundTrip(b);
  }

  /** No two byte strings share an encoding. */
  lemma EncodeInjective(a: seq<Byte>, b: seq<Byte>)
    requires Encode(a) == Encode(b)
    ensures a == b
  {
    TextRoundTrip(ToSextets(a));
    TextRoundTrip(ToSextets(b));
    BytesRoundTrip(a);
    BytesRoundTrip(b);
  }

  /** Exactly the texts over the alphabet, of a possible length and with zero pad bits, are accepted. */
  lemma Canonical(text: string)
    requires text != ""
    ensures Decode(text).Some? <==> AllInAlphabet(text) && |text| % 4 != 1 && ZeroPadBits(FromText(text))
    ensures Decode(text).Some? ==> Encode(Decode(text).value) == text
  {
    if AllInAlphabet(text) {
      var s := FromText(text);
      SextetsCanonical(s);
      CharsRoundTrip(text);
      if ToBytes(s).Some? {
        TextRoundTrip(ToSextets(ToBytes(s).value));
      }
    }
  }

  /** Every accepted text is the encoding of its bytes, and of nothing else. */
  lemma AcceptedIsEncoding(text: string, b: seq<Byte>)
    requires b != []
    ensures Decode(text) == Some(b) <==> text == Encode(b)
  {
    RoundTrip(b);
  }
}
