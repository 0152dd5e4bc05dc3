/** UTF-8, as Rust's `String::as_bytes` produces it and `read_to_string`
    accepts it. The flink file stores a segment identifier as these bytes. */
module Utf8 {
  import opened ShmErrors

  /** A continuation byte 10xxxxxx. */
  predicate IsCont(b: Byte) { 0x80 <= b < 0xC0 }

  /** The UTF-8 encoding of one Unicode scalar value. */
  function EncodeChar(c: char): (r: seq<Byte>)
    ensures 1 <= |r| <= 4
    ensures (r[0] < 0x80) == (|r| == 1)
    ensures forall i :: 1 <= i < |r| ==> IsCont(r[i])
  {
    var n := c as int;
    if n < 0x80 then [n]
    else if n < 0x800 then [0xC0 + n / 0x40, 0x80 + n % 0x40]
    else if n < 0x1_0000 then [0xE0 + n / 0x1000, 0x80 + (n / 0x40) % 0x40, 0x80 + n % 0x40]
    else [0xF0 + n / 0x4_0000, 0x80 + (n / 0x1000) % 0x40, 0x80 + (n / 0x40) % 0x40, 0x80 + n % 0x40]
  }

  /** `s.as_bytes()`. */
  function Encode(s: string): (r: seq<Byte>)
    ensures |s| <= |r| <= 4 * |s|
  {
    if s == [] then [] else EncodeChar(s[0]) + Encode(s[1..])
  }

  /** Decodes the first scalar value of `b`, strictly: no overlong forms, no
      surrogates, nothing above U+10FFFF. Returns it and the bytes it took. */
  function DecodeChar(b: seq<Byte>): (r: Option<(char, nat)>)
    requires |b| > 0
    ensures r.Some? ==> 1 <= r.value.1 <= |b| && r.value.1 <= 4
  {
    var b0 := b[0] as int;
    if b0 < 0x80 then Some((b0 as char, 1))
    else if 0xC2 <= b0 < 0xE0 then
      if |b| >= 2 && IsCont(b[1]) then
        Some((((b0 - 0xC0) * 0x40 + (b[1] as int - 0x80)) as char, 2))
      else None
    else if 0xE0 <= b0 < 0xF0 then
      if |b| >= 3 && IsCont(b[1]) && IsCont(b[2]) then
        var n := (b0 - 0xE0) * 0x1000 + (b[1] as int - 0x80) * 0x40 + (b[2] as int - 0x80);
        if 0x800 <= n && !(0xD800 <= n < 0xE000) then Some((n as char, 3)) else None
      else None
    else if 0xF0 <= b0 < 0xF5 then
      if |b| >= 4 && IsCont(b[1]) && IsCont(b[2]) && IsCont(b[3]) then
        var n := (b0 - 0xF0) * 0x4_0000 + (b[1] as int - 0x80) * 0x1000 + (b[2] as int - 0x80) * 0x40 + (b[3] as int - 0x80);
        if 0x1_0000 <= n < 0x11_0000 then Some((n as char, 4)) else None
      else None
    else None
  }

  /** `String::from_utf8`: the string the bytes encode, or None when they
      are not valid UTF-8 (read_to_string then fails). */
  function Decode(b: seq<Byte>): (r: Option<string>)
    decreases |b|
  {
    if b == [] then Some([])
    else
      match DecodeChar(b)
      case None => None
      case Some((c, k)) =>
        match Decode(b[k..])
        case None => None
        case Some(s) => Some([c] + s)
  }

  lemma DecodeEncodeChar(c: char, rest: seq<Byte>)
    ensures DecodeChar(EncodeChar(c) + rest) == Some((c, |EncodeChar(c)|))
  {
    var n := c as int;
    if n < 0x80 {
    } else if n < 0x800 {
      DecodeEncodeTwo(c, rest);
    } else if n < 0x1_0000 {
      DecodeEncodeThree(c, rest);
    } else {
      DecodeEncodeFour(c, rest);
    }
  }

  lemma DecodeEncodeTwo(c: char, rest: seq<Byte>)
    requires 0x80 <= c as int < 0x800
    ensures DecodeChar(EncodeChar(c) + rest) == Some((c, 2))
  {
    var n := c as int;
    assert (n / 0x40) * 0x40 + n % 0x40 == n;
    assert DecodeChar(EncodeChar(c) + rest) == Some((n as char, 2));
  }

  lemma DecodeEncodeThree(c: char, rest: seq<Byte>)
    requires 0x800 <= c as int < 0x1_0000
    ensures DecodeChar(EncodeChar(c) + rest) == Some((c, 3))
  {
    var n := c as int;
    var e := EncodeChar(c) + rest;
    assert e[0] as int == 0xE0 + n / 0x1000;
    assert e[1] as int == 0x80 + (n / 0x40) % 0x40 && e[2] as int == 0x80 + n % 0x40;
    assert (n / 0x1000) * 0x1000 + ((n / 0x40) % 0x40) * 0x40 + n % 0x40 == n;
    assert DecodeChar(e) == Some((n as char, 3));
  }

  lemma DecodeEncodeFour(c: char, rest: seq<Byte>)
    requires 0x1_0000 <= c as int
    ensures DecodeChar(EncodeChar(c) + rest) == Some((c, 4))
  {
    var n := c as int;
    var e := EncodeChar(c) + rest;
    var mid := n / 0x40;
    var hi := mid / 0x40;
    assert hi == n / 0x1000;
    assert hi / 0x40 == n / 0x4_0000;
    assert e[0] as int == 0xF0 + hi / 0x40 && e[1] as int == 0x80 + hi % 0x40;
    assert e[2] as int == 0x80 + mid % 0x40 && e[3] as int == 0x80 + n % 0x40;
    assert (hi / 0x40) * 0x4_0000 + (hi % 0x40) * 0x1000 + (mid % 0x40) * 0x40 + n % 0x40 == n;
    assert DecodeChar(e) == Some((n as char, 4));
  }

  lemma EncodeDecodeChar(b: seq<Byte>)
    requires |b| > 0 && DecodeChar(b).Some?
    ensures EncodeChar(DecodeChar(b).value.0) == b[..DecodeChar(b).value.1]
  {
    var b0 := b[0] as int;
    if b0 < 0x80 {
    } else if 0xC2 <= b0 < 0xE0 {
      EncodeDecodeTwo(b);
    } else if 0xE0 <= b0 < 0xF0 {
      EncodeDecodeThree(b);
    } else {
      EncodeDecodeFour(b);
    }
  }

  lemma EncodeDecodeTwo(b: seq<Byte>)
    requires |b| >= 2 && 0xC2 <= b[0] < 0xE0 && IsCont(b[1])
    ensures DecodeChar(b) == Some((((b[0] as int - 0xC0) * 0x40 + (b[1] as int - 0x80)) as char, 2))
    ensures EncodeChar(DecodeChar(b).value.0) == b[..2]
  {
    var n := (b[0] as int - 0xC0) * 0x40 + (b[1] as int - 0x80);
    assert n / 0x40 == b[0] - 0xC0 && n % 0x40 == b[1] - 0x80;
    assert EncodeChar(n as char) == b[..2];
  }

  lemma EncodeDecodeThree(b: seq<Byte>)
    requires |b| >= 3 && 0xE0 <= b[0] < 0xF0 && DecodeChar(b).Some?
    ensures DecodeChar(b).value.1 == 3
    ensures EncodeChar(DecodeChar(b).value.0) == b[..3]
  {
    var n := (b[0] as int - 0xE0) * 0x1000 + (b[1] as int - 0x80) * 0x40 + (b[2] as int - 0x80);
    assert DecodeChar(b) == Some((n as char, 3));
    assert n / 0x1000 == b[0] - 0xE0;
    assert n / 0x40 == (b[0] as int - 0xE0) * 0x40 + (b[1] as int - 0x80);
    assert (n / 0x40) % 0x40 == b[1] - 0x80 && n % 0x40 == b[2] - 0x80;
    assert EncodeChar(n as char) == b[..3];
  }

  lemma EncodeDecodeFour(b: seq<Byte>)
    requires |b| >= 4 && 0xF0 <= b[0] < 0xF5 && DecodeChar(b).Some?
    ensures DecodeChar(b).value.1 == 4
    ensures EncodeChar(DecodeChar(b).value.0) == b[..4]
  {
    var hi := (b[0] as int - 0xF0) * 0x40 + (b[1] as int - 0x80);
    var mid := hi * 0x40 + (b[2] as int - 0x80);
    var n := mid * 0x40 + (b[3] as int - 0x80);
    assert n == (b[0] as int - 0xF0) * 0x4_0000 + (b[1] as int - 0x80) * 0x1000 + (b[2] as int - 0x80) * 0x40 + (b[3] as int - 0x80);
    assert DecodeChar(b) == Some((n as char, 4));
    assert n / 0x40 == mid && n % 0x40 == b[3] - 0x80;
    assert mid / 0x40 == hi && mid % 0x40 == b[2] - 0x80;
    assert n / 0x1000 == hi;
    assert hi / 0x40 == b[0] - 0xF0 && hi % 0x40 == b[1] - 0x80;
    assert n / 0x4_0000 == b[0] - 0xF0;
    assert EncodeChar(n as char) == b[..4];
  }

  /** Reading back the bytes a string was written as gives the string. */
  lemma {:induction false} DecodeEncode(s: string)
    ensures Decode(Encode(s)) == Some(s)
  {
    if s != [] {
      var e := Encode(s);
      var k := |EncodeChar(s[0])|;
      DecodeEncodeChar(s[0], Encode(s[1..]));
      assert e[k..] == Encode(s[1..]);
      DecodeEncode(s[1..]);
      assert [s[0]] + s[1..] == s;
    }
  }

  /** One step of `Decode`: the first scalar value, then the rest. */
  lemma DecodeStep(b: seq<Byte>)
    requires b != [] && Decode(b).Some?
    ensures DecodeChar(b).Some?
    ensures Decode(b[DecodeChar(b).value.1..]).Some?
    ensures Decode(b).value == [DecodeChar(b).value.0] + Decode(b[DecodeChar(b).value.1..]).value
  {
  }

  lemma EncodeCons(c: char, s: string)
    ensures Encode([c] + s) == EncodeChar(c) + Encode(s)
  {
    assert ([c] + s)[1..] == s;
  }

  /** Bytes that decode to a string are exactly that string's encoding, so
      two different strings never read back from the same bytes. */
  lemma {:induction false} EncodeDecode(b: seq<Byte>)
    requires Decode(b).Some?
    ensures Encode(Decode(b).value) == b
    decreases |b|
  {
    if b != [] {
      DecodeStep(b);
      var c := DecodeChar(b).value.0;
      var k := DecodeChar(b).value.1;
      EncodeDecodeChar(b);
      EncodeDecode(b[k..]);
      var s := Decode(b[k..]).value;
      EncodeCons(c, s);
      Reassemble(b, k, EncodeChar(c), Encode(s));
    }
  }

  lemma Reassemble(b: seq<Byte>, k: nat, x: seq<Byte>, y: seq<Byte>)
    requires k <= |b| && x == b[..k] && y == b[k..]
    ensures x + y == b
  {
    assert b == b[..k] + b[k..];
  }
}
