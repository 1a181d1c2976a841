/** The byte codecs that the CSV branch of the column extractor tries, as Python's bytes.decode implements them. */
module Codecs {
  import opened Base

  datatype Codec = Utf8 | Utf8Sig | Latin1 | Cp1252

  /** One step of the UTF-8 decoder: a decoded character and the bytes it used, or the length of the
      maximal ill-formed subpart that Python reports (and skips with errors='ignore'). */
  datatype Utf8Step = Decoded(c: char, len: nat) | Invalid(len: nat)

  predicate InRange(b: byte, lo: int, hi: int) { lo <= b as int <= hi }

  /** RFC 3629 well-formed sequences: no overlong forms, no surrogates, nothing above U+10FFFF. */
  function DecodeStep(b: seq<byte>): (st: Utf8Step)
    requires |b| > 0
    ensures 1 <= st.len <= |b| && st.len <= 4
    ensures st.Decoded? && st.len == 1 <==> b[0] < 0x80
  {
    var b0 := b[0] as int;
    if b0 < 0x80 then Decoded(b0 as char, 1)
    else if b0 < 0xC2 then Invalid(1)
    else if b0 < 0xE0 then
      if |b| >= 2 && InRange(b[1], 0x80, 0xBF) then
        Decoded(((b0 - 0xC0) * 0x40 + (b[1] as int - 0x80)) as char, 2)
      else Invalid(1)
    else if b0 < 0xF0 then
      var lo := if b0 == 0xE0 then 0xA0 else 0x80;
      var hi := if b0 == 0xED then 0x9F else 0xBF;
      if |b| < 2 || !InRange(b[1], lo, hi) then Invalid(1)
      else if |b| < 3 || !InRange(b[2], 0x80, 0xBF) then Invalid(2)
      else
        Decoded(((b0 - 0xE0) * 0x1000 + (b[1] as int - 0x80) * 0x40 + (b[2] as int - 0x80)) as char, 3)
    else if b0 < 0xF5 then
      var lo := if b0 == 0xF0 then 0x90 else 0x80;
      var hi := if b0 == 0xF4 then 0x8F else 0xBF;
      if |b| < 2 || !InRange(b[1], lo, hi) then Invalid(1)
      else if |b| < 3 || !InRange(b[2], 0x80, 0xBF) then Invalid(2)
      else if |b| < 4 || !InRange(b[3], 0x80, 0xBF) then Invalid(3)
      else
        Decoded(((b0 - 0xF0) * 0x40000 + (b[1] as int - 0x80) * 0x1000
                 + (b[2] as int - 0x80) * 0x40 + (b[3] as int - 0x80)) as char, 4)
    else Invalid(1)
  }

  /** bytes.decode('utf-8'): fails on the first ill-formed sequence. */
  function Utf8Decode(b: seq<byte>): Option<string>
    decreases |b|
  {
    if b == [] then Some([])
    else
      match DecodeStep(b)
      case Invalid(_) => None
      case Decoded(c, n) =>
        match Utf8Decode(b[n..])
        case None => None
        case Some(rest) => Some([c] + rest)
  }

  /** bytes.decode('utf-8', errors='ignore'): ill-formed subparts are dropped. */
  function Utf8DecodeIgnore(b: seq<byte>): string
    decreases |b|
  {
    if b == [] then []
    else
      match DecodeStep(b)
      case Invalid(n) => Utf8DecodeIgnore(b[n..])
      case Decoded(c, n) => [c] + Utf8DecodeIgnore(b[n..])
  }

  const Bom: seq<byte> := [0xEF, 0xBB, 0xBF]

  /** bytes.decode('utf-8-sig'): one leading byte-order mark is dropped, the rest is strict UTF-8. */
  function Utf8SigDecode(b: seq<byte>): Option<string> {
    if |b| >= 3 && b[..3] == Bom then Utf8Decode(b[3..]) else Utf8Decode(b)
  }

  function Latin1Decode(b: seq<byte>): string {
    seq(|b|, k requires 0 <= k < |b| => (b[k] as int) as char)
  }

  /** Windows-1252: 0x80..0x9F hold typographic characters; 0x81, 0x8D, 0x8F, 0x90 and 0x9D are
      undefined and make Python's codec raise. */
  function Cp1252Char(b: byte): Option<char> {
    var n := b as int;
    if n < 0x80 || n >= 0xA0 then Some(n as char)
    else if n == 0x81 || n == 0x8D || n == 0x8F || n == 0x90 || n == 0x9D then None
    else
      var table: seq<int> := [
        0x20AC, 0, 0x201A, 0x0192, 0x201E, 0x2026, 0x2020, 0x2021,
        0x02C6, 0x2030, 0x0160, 0x2039, 0x0152, 0, 0x017D, 0,
        0, 0x2018, 0x2019, 0x201C, 0x201D, 0x2022, 0x2013, 0x2014,
        0x02DC, 0x2122, 0x0161, 0x203A, 0x0153, 0, 0x017E, 0x0178];
      var cp := table[n - 0x80];
      if 0 <= cp < 0xD800 then Some(cp as char) else None
  }

  function Cp1252Decode(b: seq<byte>): Option<string>
    decreases |b|
  {
    if b == [] then Some([])
    else
      match Cp1252Char(b[0])
      case None => None
      case Some(c) =>
        match Cp1252Decode(b[1..])
        case None => None
        case Some(rest) => Some([c] + rest)
  }

  function Decode(codec: Codec, b: seq<byte>): Option<string> {
    match codec
    case Utf8 => Utf8Decode(b)
    case Utf8Sig => Utf8SigDecode(b)
    case Latin1 => Some(Latin1Decode(b))
    case Cp1252 => Cp1252Decode(b)
  }

  /** The text from the first codec of `codecs` that decodes `b`, if any does. */
  function DecodeFirst(codecs: seq<Codec>, b: seq<byte>): Option<string> {
    if codecs == [] then None
    else if Decode(codecs[0], b).Some? then Decode(codecs[0], b)
    else DecodeFirst(codecs[1..], b)
  }

  /** Latin-1 maps every byte to the character with the same code point, so it never fails. */
  lemma Latin1Total(b: seq<byte>)
    ensures Decode(Latin1, b).Some?
    ensures |Decode(Latin1, b).value| == |b|
    ensures forall k :: 0 <= k < |b| ==> Decode(Latin1, b).value[k] as int == b[k] as int
  {
  }

  /** Strict UTF-8 accepts a byte-order mark exactly when it accepts what follows it; the mark becomes U+FEFF. */
  lemma Utf8OfBom(rest: seq<byte>)
    ensures Utf8Decode(Bom + rest).Some? <==> Utf8Decode(rest).Some?
    ensures Utf8Decode(rest).Some? ==> Utf8Decode(Bom + rest).value == ['\U{FEFF}'] + Utf8Decode(rest).value
  {
    var b := Bom + rest;
    assert DecodeStep(b) == Decoded('\U{FEFF}', 3);
    assert b[3..] == rest;
  }

  /** Whenever UTF-8 fails, UTF-8-with-signature fails too: listed second, it can never be the codec that wins. */
  lemma Utf8SigNeverWins(b: seq<byte>)
    ensures Utf8Decode(b).None? ==> Utf8SigDecode(b).None?
  {
    if |b| >= 3 && b[..3] == Bom {
      assert b == Bom + b[3..];
      Utf8OfBom(b[3..]);
    }
  }

  /** A leading ASCII byte is decoded on its own, as the character with its code point. */
  lemma AsciiStep(b: seq<byte>)
    requires |b| > 0 && b[0] < 0x80
    ensures Utf8Decode(b).Some? <==> Utf8Decode(b[1..]).Some?
    ensures Utf8Decode(b[1..]).Some? ==> Utf8Decode(b).value == [(b[0] as int) as char] + Utf8Decode(b[1..]).value
  {
    assert DecodeStep(b) == Decoded((b[0] as int) as char, 1);
  }

  /** ASCII bytes decode to the same code points whatever the rest of the input holds. */
  lemma {:induction false} Utf8AsciiPrefix(a: seq<byte>, rest: seq<byte>)
    requires forall k :: 0 <= k < |a| ==> a[k] < 0x80
    ensures Utf8Decode(a + rest).Some? <==> Utf8Decode(rest).Some?
    ensures Utf8Decode(rest).Some? ==> Utf8Decode(a + rest).value == Latin1Decode(a) + Utf8Decode(rest).value
  {
    if a != [] {
      var b := a + rest;
      assert b[0] == a[0] && b[1..] == a[1..] + rest;
      AsciiStep(b);
      Utf8AsciiPrefix(a[1..], rest);
      assert Latin1Decode(a) == [(a[0] as int) as char] + Latin1Decode(a[1..]);
    } else {
      assert a + rest == rest;
    }
  }

  lemma Latin1Append(a: seq<byte>, b: seq<byte>)
    ensures Latin1Decode(a + b) == Latin1Decode(a) + Latin1Decode(b)
  {
  }
}
