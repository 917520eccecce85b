/** UTF-8 as an encoding: the byte strings that decode as text are the encodings of sequences of Unicode scalar
    values (table 3-6 of the Unicode Standard). */
module Utf8Text {
  import opened ByteStrings
  import opened Utf8

  /** A code point that is not a surrogate. */
  type Scalar = c: nat | c < 0xD800 || 0xE000 <= c < 0x110000

  /** Six bits behind the marker of a continuation byte. */
  function Low(n: nat): byte {
    0x80 + n % 64
  }

  function EncodeScalar(c: Scalar): Bytes {
    if c < 0x80 then [c]
    else if c < 0x800 then [0xC0 + c / 64, Low(c)]
    else if c < 0x10000 then [0xE0 + c / 64 / 64, Low(c / 64), Low(c)]
    else [0xF0 + c / 64 / 64 / 64, Low(c / 64 / 64), Low(c / 64), Low(c)]
  }

  function EncodeText(text: seq<Scalar>): Bytes {
    if text == [] then [] else EncodeScalar(text[0]) + EncodeText(text[1..])
  }

  /** An encoded scalar is read as one character. */
  lemma {:induction false} ScalarIsFirst(c: Scalar, rest: Bytes)
    ensures FirstCharLength(EncodeScalar(c) + rest) == |EncodeScalar(c)|
  {
    var s := EncodeScalar(c) + rest;
    assert forall i :: 0 <= i < |EncodeScalar(c)| ==> s[i] == EncodeScalar(c)[i];
  }

  /** The bits of a continuation byte, behind those read before. */
  function Join(high: nat, low: byte): nat
    requires Continuation(low)
  {
    var bits: nat := low;
    high * 64 + (bits - 0x80)
  }

  lemma {:induction false} Joined(high: nat, low: byte)
    requires Continuation(low)
    ensures Join(high, low) / 64 == high && Low(Join(high, low)) == low
  {
  }

  /** A character that is read is an encoded scalar. */
  lemma {:induction false} FirstIsScalar(s: Bytes) returns (c: Scalar)
    requires FirstCharLength(s) > 0
    ensures EncodeScalar(c) == s[..FirstCharLength(s)]
  {
    var n, lead: nat := FirstCharLength(s), s[0];
    if n == 1 { c := lead; }
    else if n == 2 {
      c := Join(lead - 0xC0, s[1]);
      Joined(lead - 0xC0, s[1]);
    } else if n == 3 {
      var high := Join(lead - 0xE0, s[1]);
      Joined(lead - 0xE0, s[1]);
      c := Join(high, s[2]);
      Joined(high, s[2]);
    } else {
      var top := Join(lead - 0xF0, s[1]);
      Joined(lead - 0xF0, s[1]);
      var high := Join(top, s[2]);
      Joined(top, s[2]);
      c := Join(high, s[3]);
      Joined(high, s[3]);
    }
  }

  lemma {:induction false} TextIsUtf8(text: seq<Scalar>)
    ensures IsUtf8(EncodeText(text))
  {
    if text != [] {
      var first, rest := EncodeScalar(text[0]), EncodeText(text[1..]);
      TextIsUtf8(text[1..]);
      ScalarIsFirst(text[0], rest);
      assert (first + rest)[|first|..] == rest;
    }
  }

  lemma {:induction false} Utf8IsText(s: Bytes) returns (text: seq<Scalar>)
    requires IsUtf8(s)
    ensures EncodeText(text) == s
  {
    text := [];
    if s != [] {
      var n := FirstCharLength(s);
      var c := FirstIsScalar(s);
      var rest := Utf8IsText(s[n..]);
      text := [c] + rest;
      assert text[1..] == rest && s == s[..n] + s[n..];
    }
  }

  /** Well-formed UTF-8 is exactly what encodes some text: no overlong form, no surrogate, nothing truncated. */
  lemma {:induction false} Utf8Iff(s: Bytes)
    ensures IsUtf8(s) <==> exists text :: EncodeText(text) == s
  {
    if IsUtf8(s) { var text := Utf8IsText(s); }
    if text :| EncodeText(text) == s { TextIsUtf8(text); }
  }

  /** Different texts have different encodings. */
  lemma {:induction false} TextIsUnique(a: seq<Scalar>, b: seq<Scalar>)
    requires EncodeText(a) == EncodeText(b)
    ensures a == b
  {
    if a != [] && b != [] {
      var x, y := EncodeScalar(a[0]), EncodeScalar(b[0]);
      ScalarIsFirst(a[0], EncodeText(a[1..]));
      ScalarIsFirst(b[0], EncodeText(b[1..]));
      SplitEqual(x, EncodeText(a[1..]), y, EncodeText(b[1..]));
      ScalarIsUnique(a[0], b[0]);
      TextIsUnique(a[1..], b[1..]);
      assert a == [a[0]] + a[1..] && b == [b[0]] + b[1..];
    }
  }

  lemma {:induction false} ScalarIsUnique(c: Scalar, d: Scalar)
    requires EncodeScalar(c) == EncodeScalar(d)
    ensures c == d
  {
    var x, y := EncodeScalar(c), EncodeScalar(d);
    assert forall i :: 0 <= i < |x| ==> x[i] == y[i];
  }
}
