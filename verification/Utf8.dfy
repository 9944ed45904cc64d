/**
 UTF-8 over Unicode scalar values (section 3 of RFC 3629). A Python string holding a lone surrogate,
 which `encode` refuses, is not a value of this model.
 */
module Utf8 {
  import opened Basics

  type Byte = n: nat | n < 256

  function EncodeChar(c: char): (b: seq<Byte>)
    ensures 1 <= |b| <= 4
  {
    var n := c as int;
    if n < 0x80 then [n]
    else if n < 0x800 then [0xC0 + n / 64, 0x80 + n % 64]
    else if n < 0x10000 then [0xE0 + n / 4096, 0x80 + n / 64 % 64, 0x80 + n % 64]
    else [0xF0 + n / 262144, 0x80 + n / 4096 % 64, 0x80 + n / 64 % 64, 0x80 + n % 64]
  }

  function Encode(s: string): seq<Byte> {
    if s == [] then [] else EncodeChar(s[0]) + Encode(s[1..])
  }

  predicate Continues(b: seq<Byte>, i: nat) {
    i < |b| && 0x80 <= b[i] < 0xC0
  }

  function Bits(b: Byte, tag: nat): nat
    requires tag <= b
  {
    b - tag
  }

  predicate Scalar(n: nat) {
    n < 0xD800 || 0xE000 <= n < 0x110000
  }

  /** One character and the number of bytes it took; overlong forms and surrogates are refused. */
  function DecodeChar(b: seq<Byte>): (r: Option<(char, nat)>)
    ensures r.Some? ==> 1 <= r.value.1 <= |b|
  {
    if b == [] then None
    else if b[0] < 0x80 then Some((b[0] as char, 1))
    else if b[0] < 0xC0 then None
    else if b[0] < 0xE0 then
      if !Continues(b, 1) then None else
      var n := Bits(b[0], 0xC0) * 64 + Bits(b[1], 0x80);
      if n < 0x80 then None else Some((n as char, 2))
    else if b[0] < 0xF0 then
      if !Continues(b, 1) || !Continues(b, 2) then None else
      var n := Bits(b[0], 0xE0) * 4096 + Bits(b[1], 0x80) * 64 + Bits(b[2], 0x80);
      if n < 0x800 || !Scalar(n) then None else Some((n as char, 3))
    else
      if !Continues(b, 1) || !Continues(b, 2) || !Continues(b, 3) then None else
      var n := Bits(b[0], 0xF0) * 262144 + Bits(b[1], 0x80) * 4096 + Bits(b[2], 0x80) * 64 + Bits(b[3], 0x80);
      if n < 0x10000 || !Scalar(n) then None else Some((n as char, 4))
  }

  function Decode(b: seq<Byte>): Option<string>
    decreases |b|
  {
    if b == [] then Some([]) else
    var c := DecodeChar(b);
    if c.None? then None else
    var tail := Decode(b[c.value.1..]);
    if tail.None? then None else Some([c.value.0] + tail.value)
  }

  lemma Digits64(n: nat)
    ensures n == n / 64 * 64 + n % 64
    ensures n / 64 == n / 4096 * 64 + n / 64 % 64
    ensures n / 4096 == n / 262144 * 64 + n / 4096 % 64
  {
  }

  lemma DecodesChar(c: char, rest: seq<Byte>)
    ensures DecodeChar(EncodeChar(c) + rest) == Some((c, |EncodeChar(c)|))
  {
    Digits64(c as int);
    var b := EncodeChar(c) + rest;
    assert b[..|EncodeChar(c)|] == EncodeChar(c);
    assert forall i :: 0 <= i < |EncodeChar(c)| ==> b[i] == EncodeChar(c)[i];
  }

  /** Decoding undoes encoding, so no two strings share their bytes. */
  lemma {:induction false} DecodeEncode(s: string)
    ensures Decode(Encode(s)) == Some(s)
    decreases |s|
  {
    if s != [] {
      var first, more := EncodeChar(s[0]), Encode(s[1..]);
      DecodesChar(s[0], more);
      assert (first + more)[|first|..] == more;
      DecodeEncode(s[1..]);
      assert [s[0]] + s[1..] == s;
    }
  }

  // --- only what encoding writes is decoded --------------------------------------------------------

  lemma Split64(high: nat, low: nat)
    requires low < 64
    ensures (high * 64 + low) / 64 == high && (high * 64 + low) % 64 == low
  {
  }

  lemma TwoBytes(x: nat, y: nat, c: char)
    requires x < 32 && y < 64 && c as int == x * 64 + y >= 0x80
    ensures EncodeChar(c) == [0xC0 + x, 0x80 + y]
  {
    Split64(x, y);
  }

  lemma ThreeBytes(x: nat, y: nat, z: nat, c: char)
    requires x < 16 && y < 64 && z < 64 && c as int == x * 4096 + y * 64 + z >= 0x800
    ensures EncodeChar(c) == [0xE0 + x, 0x80 + y, 0x80 + z]
  {
    var n := c as int;
    assert n == (x * 64 + y) * 64 + z;
    Split64(x * 64 + y, z);
    Split64(x, y);
    Digits64(n);
    assert n / 4096 == n / 64 / 64;
  }

  lemma FourBytes(x: nat, y: nat, z: nat, w: nat, c: char)
    requires y < 64 && z < 64 && w < 64 && c as int == x * 262144 + y * 4096 + z * 64 + w >= 0x10000
    ensures x < 16 && EncodeChar(c) == [0xF0 + x, 0x80 + y, 0x80 + z, 0x80 + w]
  {
    var n := c as int;
    assert n == ((x * 64 + y) * 64 + z) * 64 + w;
    Split64((x * 64 + y) * 64 + z, w);
    Split64(x * 64 + y, z);
    Split64(x, y);
    Digits64(n);
    assert n / 4096 == n / 64 / 64 && n / 262144 == n / 4096 / 64;
  }

  lemma DecodedChar(b: seq<Byte>)
    ensures DecodeChar(b).Some? ==> var (c, k) := DecodeChar(b).value; EncodeChar(c) == b[..k]
  {
    if DecodeChar(b).Some? {
      var (c, k) := DecodeChar(b).value;
      if k == 2 {
        TwoBytes(b[0] - 0xC0, b[1] - 0x80, c);
      } else if k == 3 {
        ThreeBytes(b[0] - 0xE0, b[1] - 0x80, b[2] - 0x80, c);
      } else if k == 4 {
        FourBytes(b[0] - 0xF0, b[1] - 0x80, b[2] - 0x80, b[3] - 0x80, c);
      }
    }
  }

  lemma {:induction false} EncodeDecoded(b: seq<Byte>)
    ensures Decode(b).Some? ==> Encode(Decode(b).value) == b
    decreases |b|
  {
    if Decode(b).Some? && b != [] {
      var (c, k) := DecodeChar(b).value;
      DecodedChar(b);
      EncodeDecoded(b[k..]);
      var tail := Decode(b[k..]).value;
      assert ([c] + tail)[1..] == tail;
      assert b[..k] + b[k..] == b;
    }
  }

  /** Decoding is strict: it accepts the bytes that encoding writes and no others. */
  lemma DecodedExactly(b: seq<Byte>, s: string)
    ensures Decode(b) == Some(s) <==> b == Encode(s)
  {
    DecodeEncode(s);
    EncodeDecoded(b);
  }
}
