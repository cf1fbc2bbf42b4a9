/**
 Device secrets travel as unpadded base64url text (section 5 of RFC 4648).  The backend encodes and
 decodes them with the Python library; the firmware decodes them on a board that only has the
 section 4 alphabet.  Both decoders end in the same lenient `binascii` routine, modelled by `Decode`.
 */
module DeviceSecret {
  import opened Common
  import opened Alphabet

  type Byte = x: int | 0 <= x < 256
  type Sextet = x: int | 0 <= x < 64

  datatype DecodeError = NotAscii | IncorrectPadding

  function Letter(v: Sextet): char {
    if v < 26 then 'A' + v as char
    else if v < 52 then 'a' + (v - 26) as char
    else if v < 62 then '0' + (v - 52) as char
    else if v == 62 then '+'
    else '/'
  }

  /** The value of a letter of the section 4 alphabet; every other character has none. */
  function Value(c: char): Option<Sextet> {
    if 'A' <= c <= 'Z' then Some(c as int - 'A' as int)
    else if 'a' <= c <= 'z' then Some(c as int - 'a' as int + 26)
    else if '0' <= c <= '9' then Some(c as int - '0' as int + 52)
    else if c == '+' then Some(62)
    else if c == '/' then Some(63)
    else None
  }

  lemma LetterValue(v: Sextet)
    ensures Value(Letter(v)) == Some(v) && Letter(v) != '=' && Letter(v) != '-' && Letter(v) != '_'
    ensures Letter(v) < 128 as char
  {
    if v < 26 {
      assert Letter(v) as int == 'A' as int + v;
    } else if v < 52 {
      assert Letter(v) as int == 'a' as int + v - 26;
    } else if v < 62 {
      assert Letter(v) as int == '0' as int + v - 52;
    }
  }

  function Quad(x: Byte, y: Byte, z: Byte): string {
    [Letter(x / 4), Letter(x % 4 * 16 + y / 16), Letter(y % 16 * 4 + z / 64), Letter(z % 64)]
  }

  /** Padded encoding with the section 4 alphabet. */
  function EncodeStandard(b: seq<Byte>): string {
    if |b| == 0 then ""
    else if |b| == 1 then [Letter(b[0] / 4), Letter(b[0] % 4 * 16), '=', '=']
    else if |b| == 2 then [Letter(b[0] / 4), Letter(b[0] % 4 * 16 + b[1] / 16), Letter(b[1] % 16 * 4), '=']
    else Quad(b[0], b[1], b[2]) + EncodeStandard(b[3..])
  }

  function UrlChar(c: char): char {
    if c == '+' then '-' else if c == '/' then '_' else c
  }

  function StandardChar(c: char): char {
    if c == '-' then '+' else if c == '_' then '/' else c
  }

  function ToUrl(s: string): (t: string)
    ensures |t| == |s|
  {
    seq(|s|, i requires 0 <= i < |s| => UrlChar(s[i]))
  }

  function ToStandard(s: string): (t: string)
    ensures |t| == |s|
  {
    seq(|s|, i requires 0 <= i < |s| => StandardChar(s[i]))
  }

  function StripPadding(s: string): string {
    if |s| > 0 && s[|s| - 1] == '=' then StripPadding(s[..|s| - 1]) else s
  }

  /** The padding both decoders restore: `-len % 4` equals signs, with Python's floored remainder. */
  function Padding(length: nat): string {
    seq((4 - length % 4) % 4, i => '=')
  }

  function EncodeDeviceSecret(secret: seq<Byte>): string {
    StripPadding(ToUrl(EncodeStandard(secret)))
  }

  function Emit(b: Byte, rest: Result<seq<Byte>, DecodeError>): Result<seq<Byte>, DecodeError> {
    match rest
    case Ok(bytes) => Ok([b] + bytes)
    case Err(e) => Err(e)
  }

  /**
   One character at a time, as the library's decoder: letters fill the quantum, a pad that completes
   the quantum stops the scan, anything else is skipped.  `left` holds the bits not yet emitted.
   */
  function Decode(s: string, quantum: int, left: int, pads: nat): Result<seq<Byte>, DecodeError>
    requires 0 <= quantum < 4
    requires 0 <= left < (if quantum == 1 then 64 else if quantum == 2 then 16 else if quantum == 3 then 4 else 1)
    decreases |s|
  {
    if |s| == 0 then
      if quantum == 0 then Ok([]) else Err(IncorrectPadding)
    else if s[0] == '=' then
      if quantum >= 2 && quantum + pads + 1 >= 4 then Ok([])
      else Decode(s[1..], quantum, left, pads + 1)
    else match Value(s[0])
      case None => Decode(s[1..], quantum, left, pads)
      case Some(v) =>
        if quantum == 0 then Decode(s[1..], 1, v, 0)
        else if quantum == 1 then Emit(left * 4 + v / 16, Decode(s[1..], 2, v % 16, 0))
        else if quantum == 2 then Emit(left * 16 + v / 4, Decode(s[1..], 3, v % 4, 0))
        else Emit(left * 64 + v, Decode(s[1..], 0, 0, 0))
  }

  predicate Ascii(s: string) {
    forall i :: 0 <= i < |s| ==> s[i] < 128 as char
  }

  /** The backend pads first and lets the library translate the alphabet. */
  function BackendDecode(encoded: string): Result<seq<Byte>, DecodeError> {
    if Ascii(encoded) then Decode(ToStandard(encoded + Padding(|encoded|)), 0, 0, 0) else Err(NotAscii)
  }

  /** The firmware translates first, then pads. */
  function FirmwareDecode(encoded: string): Result<seq<Byte>, DecodeError> {
    var standard := ToStandard(encoded);
    if Ascii(encoded) then Decode(standard + Padding(|standard|), 0, 0, 0) else Err(NotAscii)
  }

  lemma DecodersAgree(encoded: string)
    ensures BackendDecode(encoded) == FirmwareDecode(encoded)
  {
    var pad := Padding(|encoded|);
    assert ToStandard(encoded + pad) == ToStandard(encoded) + pad;
  }

  predicate PlainChar(c: char) {
    c != '-' && c != '_' && c < 128 as char
  }

  lemma StandardUrl(s: string)
    requires forall c :: c in s ==> PlainChar(c)
    ensures ToStandard(ToUrl(s)) == s && Ascii(ToUrl(s))
  {
    forall i | 0 <= i < |s| ensures StandardChar(UrlChar(s[i])) == s[i] && UrlChar(s[i]) < 128 as char {
      assert PlainChar(s[i]);
    }
  }

  lemma PlainQuad(x: Byte, y: Byte, z: Byte)
    ensures forall c :: c in Quad(x, y, z) ==> PlainChar(c)
    ensures '=' !in Quad(x, y, z)
  {
    LetterValue(x / 4);
    LetterValue(x % 4 * 16 + y / 16);
    LetterValue(y % 16 * 4 + z / 64);
    LetterValue(z % 64);
  }

  lemma {:induction false} EncodedText(b: seq<Byte>)
    ensures forall c :: c in EncodeStandard(b) ==> PlainChar(c)
  {
    if |b| == 0 {
    } else if |b| >= 3 {
      EncodedText(b[3..]);
      PlainQuad(b[0], b[1], b[2]);
    } else if |b| == 2 {
      PlainQuad(b[0], b[1], 0);
    } else if |b| == 1 {
      PlainQuad(b[0], 0, 0);
    }
  }

  /** Translation keeps the padding where it is, so stripping commutes with it. */
  lemma {:induction false} StripUrl(s: string)
    ensures StripPadding(ToUrl(s)) == ToUrl(StripPadding(s))
    ensures |StripPadding(s)| <= |s|
    ensures StripPadding(s) == s[..|StripPadding(s)|]
  {
    if |s| == 0 || s[|s| - 1] != '=' {
    } else {
      var t := s[..|s| - 1];
      StripUrl(t);
      assert ToUrl(s)[..|s| - 1] == ToUrl(t);
    }
  }

  /** The url-safe text, translated back, is the padded standard text without its padding. */
  lemma TextBack(secret: seq<Byte>)
    ensures Ascii(EncodeDeviceSecret(secret))
    ensures ToStandard(EncodeDeviceSecret(secret)) == StripPadding(EncodeStandard(secret))
  {
    var std := EncodeStandard(secret);
    EncodedText(secret);
    StripUrl(std);
    StandardUrl(StripPadding(std));
  }

  lemma {:induction false} StripAppend(q: string, t: string)
    requires |q| > 0 && q[|q| - 1] != '='
    ensures StripPadding(q + t) == q + StripPadding(t)
  {
    if |t| == 0 {
      assert q + t == q;
    } else if t[|t| - 1] == '=' {
      StripAppend(q, t[..|t| - 1]);
      assert (q + t)[..|q + t| - 1] == q + t[..|t| - 1];
    }
  }

  /** `text` is what its own unpadded form is padded back to. */
  ghost predicate PadsBack(text: string) {
    var s := StripPadding(text); s + Padding(|s|) == text
  }

  lemma RepadAppend(q: string, rest: string)
    requires |q| == 4 && q[3] != '='
    requires PadsBack(rest)
    ensures PadsBack(q + rest)
  {
    StripAppend(q, rest);
    var t := StripPadding(rest);
    assert |q + t| % 4 == |t| % 4;
    assert q + t + Padding(|t|) == q + (t + Padding(|t|));
  }

  lemma RepadTail(q: string, pad: string)
    requires |q| > 0 && q[|q| - 1] != '='
    requires (|q| == 3 && pad == "=") || (|q| == 2 && pad == "==")
    ensures PadsBack(q + pad)
  {
    StripAppend(q, pad);
    assert "=="[..1] == "=" && "="[..0] == "";
    assert StripPadding("==") == StripPadding("=") == StripPadding("") == "";
    assert q + "" == q;
  }

  lemma RepadOne(x: Byte)
    ensures PadsBack(EncodeStandard([x]))
  {
    PlainQuad(x, 0, 0);
    RepadTail(Quad(x, 0, 0)[..2], "==");
    assert EncodeStandard([x]) == Quad(x, 0, 0)[..2] + "==";
  }

  lemma RepadTwo(x: Byte, y: Byte)
    ensures PadsBack(EncodeStandard([x, y]))
  {
    PlainQuad(x, y, 0);
    RepadTail(Quad(x, y, 0)[..3], "=");
    assert EncodeStandard([x, y]) == Quad(x, y, 0)[..3] + "=";
  }

  lemma {:induction false} Repad(b: seq<Byte>)
    ensures PadsBack(EncodeStandard(b))
  {
    if |b| == 0 {
    } else if |b| == 1 {
      RepadOne(b[0]);
      assert b == [b[0]];
    } else if |b| == 2 {
      RepadTwo(b[0], b[1]);
      assert b == [b[0], b[1]];
    } else {
      PlainQuad(b[0], b[1], b[2]);
      Repad(b[3..]);
      RepadAppend(Quad(b[0], b[1], b[2]), EncodeStandard(b[3..]));
    }
  }

  /** Three bytes survive being split into four sextets and shifted back together. */
  lemma JoinBits(x: Byte, y: Byte, z: Byte)
    ensures var v := x % 4 * 16 + y / 16; x / 4 * 4 + v / 16 == x && v % 16 == y / 16
    ensures var w := y % 16 * 4 + z / 64; y / 16 * 16 + w / 4 == y && w % 4 == z / 64
    ensures z / 64 * 64 + z % 64 == z
  {
  }

  /** What the decoder does with two, three or four letters at the start of a quantum. */
  lemma DecodeLetters(c: string, a: Sextet, b: Sextet, rest: string)
    requires |c| == 2 && Value(c[0]) == Some(a) && Value(c[1]) == Some(b)
    requires '=' !in c
    ensures Decode(c + rest, 0, 0, 0) == Emit(a * 4 + b / 16, Decode(rest, 2, b % 16, 0))
  {
    var s := c + rest;
    assert s[1..][1..] == rest;
  }

  lemma DecodeHead(x: Byte, y: Byte, rest: string)
    ensures Decode(Quad(x, y, 0)[..2] + rest, 0, 0, 0) == Emit(x, Decode(rest, 2, y / 16, 0))
  {
    var b := x % 4 * 16 + y / 16;
    LetterValue(x / 4);
    LetterValue(b);
    JoinBits(x, y, 0);
    DecodeLetters([Letter(x / 4), Letter(b)], x / 4, b, rest);
  }

  lemma DecodeThird(c: char, v: Sextet, left: int, rest: string)
    requires Value(c) == Some(v) && c != '=' && 0 <= left < 16
    ensures Decode([c] + rest, 2, left, 0) == Emit(left * 16 + v / 4, Decode(rest, 3, v % 4, 0))
  {
    assert ([c] + rest)[1..] == rest;
  }

  lemma DecodeMiddle(y: Byte, z: Byte, rest: string)
    ensures Decode([Letter(y % 16 * 4 + z / 64)] + rest, 2, y / 16, 0) == Emit(y, Decode(rest, 3, z / 64, 0))
  {
    LetterValue(y % 16 * 4 + z / 64);
    JoinBits(0, y, z);
    DecodeThird(Letter(y % 16 * 4 + z / 64), y % 16 * 4 + z / 64, y / 16, rest);
  }

  lemma DecodeFourth(c: char, v: Sextet, left: int, rest: string)
    requires Value(c) == Some(v) && c != '=' && 0 <= left < 4
    ensures Decode([c] + rest, 3, left, 0) == Emit(left * 64 + v, Decode(rest, 0, 0, 0))
  {
    assert ([c] + rest)[1..] == rest;
  }

  lemma DecodeQuad(x: Byte, y: Byte, z: Byte, rest: string)
    ensures Decode(Quad(x, y, z) + rest, 0, 0, 0) == Emit(x, Emit(y, Emit(z, Decode(rest, 0, 0, 0))))
  {
    var q := Quad(x, y, z);
    var last := q[3..] + rest;
    assert q + rest == q[..2] + ([q[2]] + last);
    assert q[..2] == Quad(x, y, 0)[..2];
    DecodeHead(x, y, [q[2]] + last);
    DecodeMiddle(y, z, last);
    LetterValue(z % 64);
    JoinBits(0, 0, z);
    assert last == [Letter(z % 64)] + rest;
    DecodeFourth(Letter(z % 64), z % 64, z / 64, rest);
  }

  lemma DecodeOne(x: Byte)
    ensures Decode(EncodeStandard([x]), 0, 0, 0) == Ok([x])
  {
    assert EncodeStandard([x]) == Quad(x, 0, 0)[..2] + "==";
    DecodeHead(x, 0, "==");
    assert "=="[1..] == "=";
    assert [x] + [] == [x];
  }

  lemma DecodeTwo(x: Byte, y: Byte)
    ensures Decode(EncodeStandard([x, y]), 0, 0, 0) == Ok([x, y])
  {
    var third := [Letter(y % 16 * 4 + 0 / 64)];
    assert EncodeStandard([x, y]) == Quad(x, y, 0)[..2] + (third + "=");
    DecodeHead(x, y, third + "=");
    DecodeMiddle(y, 0, "=");
    assert Decode("=", 3, 0, 0) == Ok([]);
    assert [x] + ([y] + []) == [x, y];
  }

  lemma {:induction false} DecodeEncoded(b: seq<Byte>)
    ensures Decode(EncodeStandard(b), 0, 0, 0) == Ok(b)
  {
    if |b| == 0 {
    } else if |b| == 1 {
      DecodeOne(b[0]);
      assert b == [b[0]];
    } else if |b| == 2 {
      DecodeTwo(b[0], b[1]);
      assert b == [b[0], b[1]];
    } else {
      DecodeEncoded(b[3..]);
      DecodeQuad(b[0], b[1], b[2], EncodeStandard(b[3..]));
      assert [b[0]] + ([b[1]] + ([b[2]] + b[3..])) == b;
    }
  }

  lemma StrippedTail(q: string, pad: string)
    requires |q| > 0 && '=' !in q && (pad == "=" || pad == "==")
    ensures StripPadding(q + pad) == q
  {
    StripAppend(q, pad);
    assert "=="[..1] == "=" && "="[..0] == "";
    assert StripPadding("==") == StripPadding("=") == StripPadding("") == "";
    assert q + "" == q;
  }

  lemma OneTail(x: Byte)
    ensures EncodeStandard([x]) == Quad(x, 0, 0)[..2] + "=="
  {
  }

  lemma TwoTail(x: Byte, y: Byte)
    ensures EncodeStandard([x, y]) == Quad(x, y, 0)[..3] + "="
  {
  }

  /** No pad is handed out. */
  lemma {:induction false} NoPads(b: seq<Byte>)
    ensures '=' !in StripPadding(EncodeStandard(b))
  {
    if |b| == 0 {
    } else if |b| == 1 {
      PlainQuad(b[0], 0, 0);
      StrippedTail(Quad(b[0], 0, 0)[..2], "==");
      OneTail(b[0]);
      assert b == [b[0]];
    } else if |b| == 2 {
      PlainQuad(b[0], b[1], 0);
      StrippedTail(Quad(b[0], b[1], 0)[..3], "=");
      TwoTail(b[0], b[1]);
      assert b == [b[0], b[1]];
    } else {
      PlainQuad(b[0], b[1], b[2]);
      NoPads(b[3..]);
      StripAppend(Quad(b[0], b[1], b[2]), EncodeStandard(b[3..]));
    }
  }

  /** Provisioning then decoding gives the secret back, on the server and on the board alike. */
  lemma SecretRoundTrip(secret: seq<Byte>)
    ensures BackendDecode(EncodeDeviceSecret(secret)) == Ok(secret)
    ensures FirmwareDecode(EncodeDeviceSecret(secret)) == Ok(secret)
    ensures '=' !in EncodeDeviceSecret(secret)
  {
    NoPads(secret);
    StripUrl(EncodeStandard(secret));
    var text := EncodeDeviceSecret(secret);
    TextBack(secret);
    Repad(secret);
    DecodeEncoded(secret);
    DecodersAgree(text);
  }

  // ---- the alphabets and the bits, spelled out ----

  const STANDARD := UPPER + LOWER + DIGITS + "+/"
  const URL_SAFE := UPPER + LOWER + DIGITS + "-_"

  /** The letters are those of RFC 4648: section 4, and section 5 after translation. */
  lemma LettersSpelled(v: Sextet)
    ensures |STANDARD| == |URL_SAFE| == 64
    ensures Letter(v) == STANDARD[v] && UrlChar(Letter(v)) == URL_SAFE[v]
  {
    Runs();
    if v < 26 {
      assert Letter(v) as int == 'A' as int + v;
    } else if v < 52 {
      assert Letter(v) as int == 'a' as int + v - 26;
    } else if v < 62 {
      assert Letter(v) as int == '0' as int + v - 52;
    }
  }

  lemma ValuesSpelled(c: char)
    ensures Value(c).Some? <==> c in STANDARD
    ensures Value(StandardChar(c)).Some? <==> c in STANDARD || c in URL_SAFE
  {
    Ranges(c);
  }

  /** Four letters that spell a 24-bit number, most significant bits first. */
  ghost predicate Spells(text: string, n: int) {
    exists a: Sextet, b: Sextet, c: Sextet, d: Sextet ::
      text == [Letter(a), Letter(b), Letter(c), Letter(d)] && a * 262144 + b * 4096 + c * 64 + d == n
  }

  /** Three bytes as one number. */
  function Number(x: int, y: int, z: int): int {
    x * 65536 + y * 256 + z
  }

  lemma QuadSpells(x: Byte, y: Byte, z: Byte)
    ensures Spells(Quad(x, y, z), Number(x, y, z))
  {
    var a: Sextet, b: Sextet := x / 4, x % 4 * 16 + y / 16;
    var c: Sextet, d: Sextet := y % 16 * 4 + z / 64, z % 64;
    assert Quad(x, y, z) == [Letter(a), Letter(b), Letter(c), Letter(d)];
    assert a * 262144 + b * 4096 + c * 64 + d == x * 65536 + y * 256 + z;
  }

  /**
   Each three bytes are one group of four letters.  A last group of one or two bytes is filled up with zero bits
   and keeps its first two or three letters, the others being pads.
   */
  lemma {:induction false} EncodedInGroups(b: seq<Byte>)
    ensures |b| == 0 ==> EncodeStandard(b) == ""
    ensures |b| == 1 ==> EncodeStandard(b) == Quad(b[0], 0, 0)[..2] + "=="
    ensures |b| == 2 ==> EncodeStandard(b) == Quad(b[0], b[1], 0)[..3] + "="
    ensures |b| >= 3 ==> EncodeStandard(b) == Quad(b[0], b[1], b[2]) + EncodeStandard(b[3..])
  {
    if |b| == 1 {
      OneTail(b[0]);
      assert b == [b[0]];
    } else if |b| == 2 {
      TwoTail(b[0], b[1]);
      assert b == [b[0], b[1]];
    }
  }

  // ---- which texts decode ----

  predicate Clean(s: string) {
    forall i :: 0 <= i < |s| ==> Value(s[i]).Some?
  }

  /** Four letters at the start of a quantum are three bytes. */
  lemma DecodeFour(s: string, rest: string) returns (x: Byte, y: Byte, z: Byte)
    requires |s| == 4 && Clean(s)
    ensures Decode(s + rest, 0, 0, 0) == Emit(x, Emit(y, Emit(z, Decode(rest, 0, 0, 0))))
  {
    var a: int, b: int := Value(s[0]).value, Value(s[1]).value;
    var c: int, d: int := Value(s[2]).value, Value(s[3]).value;
    x, y, z := a * 4 + b / 16, b % 16 * 16 + c / 4, c % 4 * 64 + d;
    assert s + rest == s[..2] + ([s[2]] + ([s[3]] + rest));
    assert forall i :: 0 <= i < 2 ==> s[..2][i] == s[i] && s[i] != '=';
    DecodeLetters(s[..2], a, b, [s[2]] + ([s[3]] + rest));
    DecodeThird(s[2], c, b % 16, [s[3]] + rest);
    DecodeFourth(s[3], d, c % 4, rest);
  }

  lemma OneLetterFails(c: char)
    requires Value(c).Some?
    ensures Decode([c] + "===", 0, 0, 0).Err?
  {
    var v := Value(c).value;
    assert ([c] + "===")[1..] == "===" && "==="[1..] == "==" && "=="[1..] == "=" && "="[1..] == "";
    assert Decode("=", 1, v, 2) == Decode("", 1, v, 3);
    assert Decode("==", 1, v, 1) == Decode("=", 1, v, 2);
    assert Decode("===", 1, v, 0) == Decode("==", 1, v, 1);
  }

  lemma TwoLettersDecode(s: string)
    requires |s| == 2 && Clean(s)
    ensures var r := Decode(s + "==", 0, 0, 0); r.Ok? && |r.value| == 1
  {
    var a, b := Value(s[0]).value, Value(s[1]).value;
    assert s[0] != '=' && s[1] != '=';
    DecodeLetters(s, a, b, "==");
    assert "=="[1..] == "=";
    assert Decode("=", 2, b % 16, 1) == Ok([]);
  }

  lemma ThreeLettersDecode(s: string)
    requires |s| == 3 && Clean(s)
    ensures var r := Decode(s + "=", 0, 0, 0); r.Ok? && |r.value| == 2
  {
    var a, b, c := Value(s[0]).value, Value(s[1]).value, Value(s[2]).value;
    assert s[0] != '=' && s[1] != '=' && s[2] != '=';
    assert s + "=" == s[..2] + ([s[2]] + "=");
    DecodeLetters(s[..2], a, b, [s[2]] + "=");
    DecodeThird(s[2], c, b % 16, "=");
    assert Decode("=", 3, c % 4, 0) == Ok([]);
  }

  predicate DecodesTo(text: string, ok: bool, length: nat) {
    var r := Decode(text, 0, 0, 0);
    r.Ok? == ok && (ok ==> |r.value| == length)
  }

  lemma Padded(s: string)
    requires |s| < 4
    ensures |s| == 0 ==> s + Padding(|s|) == ""
    ensures |s| == 1 ==> s + Padding(|s|) == [s[0]] + "==="
    ensures |s| == 2 ==> s + Padding(|s|) == s + "=="
    ensures |s| == 3 ==> s + Padding(|s|) == s + "="
  {
  }

  /** What is left after whole groups of four letters, with its padding. */
  lemma DecodeTail(s: string)
    requires |s| < 4 && Clean(s)
    ensures DecodesTo(s + Padding(|s|), |s| != 1, |s| * 3 / 4)
  {
    Padded(s);
    if |s| == 1 {
      OneLetterFails(s[0]);
    } else if |s| == 2 {
      TwoLettersDecode(s);
    } else if |s| == 3 {
      ThreeLettersDecode(s);
    }
  }

  /** A group of four letters more is three bytes more. */
  lemma GroupMore(s: string, rest: string, ok: bool, length: nat)
    requires |s| == 4 && Clean(s) && DecodesTo(rest, ok, length)
    ensures DecodesTo(s + rest, ok, length + 3)
  {
    var x, y, z := DecodeFour(s, rest);
  }

  lemma {:induction false} CleanDecodes(s: string)
    requires Clean(s)
    ensures DecodesTo(s + Padding(|s|), |s| % 4 != 1, |s| * 3 / 4)
  {
    if |s| < 4 {
      DecodeTail(s);
    } else {
      var rest := s[4..];
      CleanDecodes(rest);
      assert s + Padding(|s|) == s[..4] + (rest + Padding(|rest|));
      GroupMore(s[..4], rest + Padding(|rest|), |rest| % 4 != 1, |rest| * 3 / 4);
    }
  }

  /**
   A text of url-safe letters alone decodes exactly when its length is not one more than a multiple of four, to
   three bytes for every four letters.
   */
  lemma LettersDecode(encoded: string)
    requires forall c :: c in encoded ==> c in URL_SAFE
    ensures FirmwareDecode(encoded).Ok? <==> |encoded| % 4 != 1
    ensures FirmwareDecode(encoded).Ok? ==> |FirmwareDecode(encoded).value| == |encoded| * 3 / 4
  {
    var standard := ToStandard(encoded);
    forall i | 0 <= i < |encoded| ensures Value(standard[i]).Some? && encoded[i] < 128 as char {
      assert encoded[i] in URL_SAFE;
      ValuesSpelled(encoded[i]);
    }
    CleanDecodes(standard);
  }
}
