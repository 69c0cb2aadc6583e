/**
 Base64 of sections 4 and 3.5 of RFC 4648, and the strict decoding that accepts only
 what the encoder produces.
 */
module Base64 {
  import opened Wrappers

  function Digit(v: int): (c: char)
    requires 0 <= v < 64
    ensures Value(c) == v && c != '='
  {
    if v < 26 then (v + 65) as char          // A-Z
    else if v < 52 then (v + 71) as char     // a-z
    else if v < 62 then (v - 4) as char      // 0-9
    else if v == 62 then '+' else '/'
  }

  /** A character's value, or -1 outside the alphabet. */
  function Value(c: char): (v: int)
    ensures -1 <= v < 64
    ensures v >= 0 ==> c != '='
  {
    if 'A' <= c <= 'Z' then c as int - 65
    else if 'a' <= c <= 'z' then c as int - 71
    else if '0' <= c <= '9' then c as int + 4
    else if c == '+' then 62
    else if c == '/' then 63
    else -1
  }

  /** The alphabet of table 1 of RFC 4648: capitals, small letters and digits, each in order, and two signs. */
  lemma AlphabetIs(v: int)
    requires 0 <= v < 64
    ensures v < 26 ==> Digit(v) == 'A' + v as char
    ensures 26 <= v < 52 ==> Digit(v) == 'a' + (v - 26) as char
    ensures 52 <= v < 62 ==> Digit(v) == '0' + (v - 52) as char
    ensures Digit(62) == '+' && Digit(63) == '/'
  {
  }

  function Encode(raw: seq<byte>): string {
    if raw == [] then ""
    else
      var a := raw[0] as int;
      if |raw| == 1 then [Digit(a / 4), Digit(a % 4 * 16), '=', '=']
      else
        var b := raw[1] as int;
        if |raw| == 2 then [Digit(a / 4), Digit(a % 4 * 16 + b / 16), Digit(b % 16 * 4), '=']
        else
          var c := raw[2] as int;
          [Digit(a / 4), Digit(a % 4 * 16 + b / 16), Digit(b % 16 * 4 + c / 64), Digit(c % 64)] + Encode(raw[3..])
  }

  /** The three bytes four six-bit values hold. */
  function Bytes(p: int, q: int, r: int, s: int): seq<byte>
    requires 0 <= p < 64 && 0 <= q < 64 && 0 <= r < 64 && 0 <= s < 64
  {
    [(p * 4 + q / 16) as byte, (q % 16 * 16 + r / 4) as byte, (r % 4 * 64 + s) as byte]
  }

  /** The library's decoder: it checks alphabet and padding but ignores the spare bits. */
  function Lenient(text: string): Option<seq<byte>> {
    if text == "" then Some([])
    else if |text| < 4 then None
    else
      var p, q, r, s := Value(text[0]), Value(text[1]), Value(text[2]), Value(text[3]);
      if p < 0 || q < 0 then None
      else if text[2..] == "==" then Some([(p * 4 + q / 16) as byte])
      else if r < 0 then None
      else if text[3..] == "=" then Some([(p * 4 + q / 16) as byte, (q % 16 * 16 + r / 4) as byte])
      else if s < 0 then None
      else
        match Lenient(text[4..])
        case None => None
        case Some(rest) =>
          Some(Bytes(p, q, r, s) + rest)
  }

  lemma {:induction false} RoundTrip(raw: seq<byte>)
    ensures Lenient(Encode(raw)) == Some(raw)
  {
    if |raw| == 1 {
      OneByte(raw[0]);
      assert raw == [raw[0]];
    } else if |raw| == 2 {
      TwoBytes(raw[0], raw[1]);
      assert raw == [raw[0], raw[1]];
    } else if |raw| >= 3 {
      RoundTrip(raw[3..]);
      FullGroup(raw[0], raw[1], raw[2], Encode(raw[3..]));
      assert raw == [raw[0], raw[1], raw[2]] + raw[3..];
    }
  }

  function Group(a: byte, b: byte, c: byte): string {
    [Digit(a as int / 4), Digit(a as int % 4 * 16 + b as int / 16),
     Digit(b as int % 16 * 4 + c as int / 64), Digit(c as int % 64)]
  }

  /** Four six-bit digits hold exactly three bytes. */
  lemma Sextets(a: int, b: int, c: int)
    requires 0 <= a < 256 && 0 <= b < 256 && 0 <= c < 256
    ensures var p, q, r, s := a / 4, a % 4 * 16 + b / 16, b % 16 * 4 + c / 64, c % 64;
      p * 4 + q / 16 == a && q % 16 * 16 + r / 4 == b && r % 4 * 64 + s == c
  {
    assert (a % 4 * 16 + b / 16) / 16 == a % 4 && (a % 4 * 16 + b / 16) % 16 == b / 16;
    assert (b % 16 * 4 + c / 64) / 4 == b % 16 && (b % 16 * 4 + c / 64) % 4 == c / 64;
  }

  lemma FullGroup(a: byte, b: byte, c: byte, tail: string)
    ensures var rest := Lenient(tail);
      Lenient(Group(a, b, c) + tail) == if rest.Some? then Some([a, b, c] + rest.value) else None
  {
    var text := Group(a, b, c) + tail;
    GroupBytes(a, b, c);
    assert text[4..] == tail;
    assert text[2..] != "==" && text[3..] != "=" by { assert text[2] != '=' && text[3] != '='; }
    assert text[0] == Group(a, b, c)[0] && text[1] == Group(a, b, c)[1];
    assert text[2] == Group(a, b, c)[2] && text[3] == Group(a, b, c)[3];
  }

  lemma GroupBytes(a: byte, b: byte, c: byte)
    ensures var group := Group(a, b, c);
      && Value(group[0]) >= 0 && Value(group[1]) >= 0 && Value(group[2]) >= 0 && Value(group[3]) >= 0
      && Bytes(Value(group[0]), Value(group[1]), Value(group[2]), Value(group[3])) == [a, b, c]
  {
    DigitBack(a as int / 4);
    DigitBack(a as int % 4 * 16 + b as int / 16);
    DigitBack(b as int % 16 * 4 + c as int / 64);
    DigitBack(c as int % 64);
    BytesBack(a, b, c);
  }

  lemma DigitBack(v: int)
    requires 0 <= v < 64
    ensures Value(Digit(v)) == v
  {
  }

  lemma BytesBack(a: byte, b: byte, c: byte)
    ensures
      Bytes(a as int / 4, a as int % 4 * 16 + b as int / 16, b as int % 16 * 4 + c as int / 64, c as int % 64)
      == [a, b, c]
  {
    Sextets(a as int, b as int, c as int);
  }

  lemma OneByte(a: byte)
    ensures Lenient(Encode([a])) == Some([a])
  {
    var text := Encode([a]);
    assert text[2..] == "==";
  }

  lemma TwoBytes(a: byte, b: byte)
    ensures Lenient(Encode([a, b])) == Some([a, b])
  {
    var text := Encode([a, b]);
    Sextets(a as int, b as int, 0);
    assert text[3..] == "=" && text[2..] != "==" by { assert text[2] != '='; }
  }

  lemma {:induction false} EncodedLength(raw: seq<byte>)
    ensures |Encode(raw)| == 4 * ((|raw| + 2) / 3)
  {
    if |raw| >= 3 {
      EncodedLength(raw[3..]);
      OneMoreGroup(|raw|);
    } else if raw != [] {
      assert (|raw| + 2) / 3 == 1;
    }
  }

  lemma OneMoreGroup(n: nat)
    requires n >= 3
    ensures 4 * ((n + 2) / 3) == 4 + 4 * ((n - 3 + 2) / 3)
  {
  }

  /** The decoder followed by the comparison with a fresh encoding. */
  function Strict(text: string): Option<seq<byte>> {
    var raw := Lenient(text);
    if raw.Some? && Encode(raw.value) == text then raw else None
  }

  /** Accepted texts are exactly the encoder's outputs, each decoding to its own source. */
  lemma StrictIsCanonical(text: string, raw: seq<byte>)
    ensures Strict(text) == Some(raw) <==> text == Encode(raw)
  {
    RoundTrip(raw);
  }

  /** The vectors of section 10 of RFC 4648 that end in one group, and the two characters only high bits reach. */
  lemma KnownEncodings()
    ensures Encode([]) == "" && Encode([102]) == "Zg==" && Encode([102, 111]) == "Zm8="
    ensures Encode([251, 255]) == "+/8="
  {
  }

  lemma EncodeGroup(a: byte, b: byte, c: byte, rest: seq<byte>)
    ensures Encode([a, b, c] + rest) == Group(a, b, c) + Encode(rest)
  {
    var raw := [a, b, c] + rest;
    assert raw[3..] == rest;
  }

  /** The two vectors of full groups. */
  lemma KnownGroups()
    ensures Encode([102, 111, 111] + []) == "Zm9v"
    ensures Encode([102, 111, 111] + ([98, 97, 114] + [])) == "Zm9vYmFy"
  {
    EncodeGroup(102, 111, 111, []);
    EncodeGroup(98, 97, 114, []);
    EncodeGroup(102, 111, 111, [98, 97, 114] + []);
    assert Group(102, 111, 111) == "Zm9v" && Group(98, 97, 114) == "YmFy";
  }

  /** Spare bits the library tolerates are refused: two texts never mean the same bytes. */
  lemma SpareBitsRefused()
    ensures Lenient("QR==") == Some([65]) && Lenient("QQ==") == Some([65])
    ensures Strict("QR==") == None && Strict("QQ==") == Some([65])
  {
    assert "QR=="[2..] == "==" && "QQ=="[2..] == "==";
    assert Encode([65]) == "QQ==";
    assert "QR=="[1] != "QQ=="[1];
  }
}
