/**
 Base64 with the URL-safe alphabet (section 5 of RFC 4648), padding stripped by the writer and
 restored from the length by the reader (section 3.2 of RFC 4648). The reader is the runtime's
 lenient decoder: it maps '-' and '_' to '+' and '/', skips characters outside the alphabet, and
 stops at complete padding.
 */
module Base64Url {
  import opened Basics
  import opened Utf8

  function Symbol(n: nat): (c: char)
    requires n < 64
  {
    if n < 26 then ('A' as int + n) as char
    else if n < 52 then ('a' as int + n - 26) as char
    else if n < 62 then ('0' as int + n - 52) as char
    else if n == 62 then '-' else '_'
  }

  function Value(c: char): (n: Option<nat>)
    ensures n.Some? ==> n.value < 64
  {
    if 'A' <= c <= 'Z' then Some(c as int - 'A' as int)
    else if 'a' <= c <= 'z' then Some(c as int - 'a' as int + 26)
    else if '0' <= c <= '9' then Some(c as int - '0' as int + 52)
    else if c == '-' || c == '+' then Some(62)
    else if c == '_' || c == '/' then Some(63)
    else None
  }

  lemma SymbolRoundTrip(n: nat)
    requires n < 64
    ensures Value(Symbol(n)) == Some(n) && Symbol(n) != '=' && Symbol(n) != '.'
  {
  }

  /** The four six-bit values of three bytes. */
  function First(x: Byte): (n: nat)
    ensures n < 64
  {
    x / 4
  }

  function Second(x: Byte, y: Byte): (n: nat)
    ensures n < 64
  {
    x % 4 * 16 + y / 16
  }

  function Third(y: Byte, z: Byte): (n: nat)
    ensures n < 64
  {
    y % 16 * 4 + z / 64
  }

  function Fourth(z: Byte): (n: nat)
    ensures n < 64
  {
    z % 64
  }

  /** `_b64encode`: the encoding without its padding. */
  function Encode(b: seq<Byte>): string {
    if b == [] then []
    else if |b| == 1 then [Symbol(First(b[0]))] + [Symbol(Second(b[0], 0))]
    else if |b| == 2 then [Symbol(First(b[0]))] + ([Symbol(Second(b[0], b[1]))] + [Symbol(Third(b[1], 0))])
    else EncodeGroup(b[0], b[1], b[2]) + Encode(b[3..])
  }

  function EncodeGroup(x: Byte, y: Byte, z: Byte): string {
    [Symbol(First(x)), Symbol(Second(x, y)), Symbol(Third(y, z)), Symbol(Fourth(z))]
  }

  /** The bits left over from earlier characters fit their position in a group of four. */
  predicate Pending(quad: nat, left: nat) {
    match quad
    case 0 => left == 0
    case 1 => left < 64
    case 2 => left < 16
    case 3 => left < 4
    case _ => false
  }

  /** The byte finished by the character in position `quad` of its group, if any. */
  function Finished(quad: nat, left: nat, n: nat): seq<Byte>
    requires Pending(quad, left) && n < 64
  {
    match quad
    case 0 => []
    case 1 => [left * 4 + n / 16]
    case 2 => [left * 16 + n / 4]
    case _ => [left * 64 + n]
  }

  function Next(quad: nat): nat {
    if quad == 3 then 0 else quad + 1
  }

  /** The bits the character leaves for the next byte. */
  function Kept(quad: nat, n: nat): (left: nat)
    requires quad < 4 && n < 64
    ensures Pending(Next(quad), left)
  {
    match quad
    case 0 => n
    case 1 => n % 16
    case 2 => n % 4
    case _ => 0
  }

  function Prepend(b: seq<Byte>, tail: Option<seq<Byte>>): Option<seq<Byte>> {
    if tail.None? then None else Some(b + tail.value)
  }

  /** The decoder's loop, from a position in a group of four, the bits left over and the pads just seen. */
  function Scan(s: string, quad: nat, left: nat, pads: nat): Option<seq<Byte>>
    requires Pending(quad, left)
    decreases |s|
  {
    if s == [] then
      if quad == 0 then Some([]) else None
    else if s[0] == '=' then
      if quad >= 2 && quad + pads + 1 >= 4 then Some([])
      else Scan(s[1..], quad, left, if quad >= 2 then pads + 1 else pads)
    else if Value(s[0]).None? then
      Scan(s[1..], quad, left, pads)
    else
      var n := Value(s[0]).value;
      Prepend(Finished(quad, left, n), Scan(s[1..], Next(quad), Kept(quad, n), 0))
  }

  /** The padding that makes the length a multiple of four. */
  function Padding(n: nat): string {
    match n % 4
    case 1 => "==="
    case 2 => "=="
    case 3 => "="
    case _ => ""
  }

  /** `_b64decode`; text outside ASCII is refused before decoding. */
  function Decode(s: string): Option<seq<Byte>> {
    if exists c :: c in s && c as int >= 128 then None else Scan(s + Padding(|s|), 0, 0, 0)
  }

  // --- the round trip --------------------------------------------------------------------------

  /** No encoded text holds a dot, a pad or a character outside ASCII. */
  lemma {:induction false} EncodeAlphabet(b: seq<Byte>)
    ensures forall c :: c in Encode(b) ==> c != '.' && c != '=' && c as int < 128
    decreases |b|
  {
    if |b| >= 3 {
      EncodeAlphabet(b[3..]);
    }
  }

  /** One character of the alphabet. */
  lemma {:induction false} ScanSymbol(n: nat, rest: string, quad: nat, left: nat, out: seq<Byte>, next: nat, kept: nat)
    requires n < 64 && Pending(quad, left) && out == Finished(quad, left, n)
    requires next == Next(quad) && kept == Kept(quad, n)
    ensures Scan([Symbol(n)] + rest, quad, left, 0) == Prepend(out, Scan(rest, next, kept, 0))
  {
    SymbolRoundTrip(n);
    assert ([Symbol(n)] + rest)[1..] == rest;
  }

  lemma HighAndLow(high: nat, low: nat)
    ensures low < 16 ==> (high * 16 + low) / 16 == high && (high * 16 + low) % 16 == low
    ensures low < 4 ==> (high * 4 + low) / 4 == high && (high * 4 + low) % 4 == low
  {
  }

  lemma FirstByte(x: Byte, y: Byte)
    ensures Pending(1, First(x)) && Finished(1, First(x), Second(x, y)) == [x] && Kept(1, Second(x, y)) == y / 16
  {
    HighAndLow(x % 4, y / 16);
  }

  lemma SecondByte(y: Byte, z: Byte)
    ensures Pending(2, y / 16) && Finished(2, y / 16, Third(y, z)) == [y] && Kept(2, Third(y, z)) == z / 64
  {
    HighAndLow(y % 16, z / 64);
  }

  lemma PrependNone(tail: Option<seq<Byte>>)
    ensures Prepend([], tail) == tail
  {
    assert tail.Some? ==> [] + tail.value == tail.value;
  }

  lemma {:induction false} ScanFirst(x: Byte, y: Byte, rest: string)
    ensures Scan([Symbol(First(x))] + ([Symbol(Second(x, y))] + rest), 0, 0, 0)
            == Prepend([x], Scan(rest, 2, y / 16, 0))
  {
    var more := [Symbol(Second(x, y))] + rest;
    FirstByte(x, y);
    ScanSymbol(First(x), more, 0, 0, [], 1, First(x));
    ScanSymbol(Second(x, y), rest, 1, First(x), [x], 2, y / 16);
    PrependNone(Scan(more, 1, First(x), 0));
  }

  lemma {:induction false} ScanSecond(y: Byte, z: Byte, rest: string)
    ensures Scan([Symbol(Third(y, z))] + rest, 2, y / 16, 0) == Prepend([y], Scan(rest, 3, z / 64, 0))
  {
    SecondByte(y, z);
    ScanSymbol(Third(y, z), rest, 2, y / 16, [y], 3, z / 64);
  }

  lemma {:induction false} ScanThird(z: Byte, rest: string)
    ensures Scan([Symbol(Fourth(z))] + rest, 3, z / 64, 0) == Prepend([z], Scan(rest, 0, 0, 0))
  {
    var left := z / 64;
    assert Pending(3, left) && Finished(3, left, Fourth(z)) == [z] && Kept(3, Fourth(z)) == 0;
    ScanSymbol(Fourth(z), rest, 3, left, [z], 0, 0);
  }

  lemma ScanPads()
    ensures Scan("==", 2, 0, 0) == Some([]) && Scan("=", 3, 0, 0) == Some([])
  {
    assert "=="[1..] == "=";
    assert Scan("=", 2, 0, 1) == Some([]);
  }

  lemma Join(b: seq<Byte>)
    ensures Prepend(b, Some([])) == Some(b)
  {
    assert b + [] == b;
  }

  lemma {:induction false} ScanOneByte(x: Byte)
    ensures Scan([Symbol(First(x))] + ([Symbol(Second(x, 0))] + "=="), 0, 0, 0) == Some([x])
  {
    ScanFirst(x, 0, "==");
    ScanPads();
    Join([x]);
  }

  lemma {:induction false} ScanTwoBytes(x: Byte, y: Byte)
    ensures Scan([Symbol(First(x))] + ([Symbol(Second(x, y))] + ([Symbol(Third(y, 0))] + "=")), 0, 0, 0)
            == Some([x] + [y])
  {
    ScanFirst(x, y, [Symbol(Third(y, 0))] + "=");
    ScanSecond(y, 0, "=");
    ScanPads();
    Join([y]);
  }

  lemma {:induction false} ScanGroup(x: Byte, y: Byte, z: Byte, rest: string)
    ensures Scan([Symbol(First(x))]
                 + ([Symbol(Second(x, y))] + ([Symbol(Third(y, z))] + ([Symbol(Fourth(z))] + rest))), 0, 0, 0)
            == Prepend([x], Prepend([y], Prepend([z], Scan(rest, 0, 0, 0))))
  {
    ScanThird(z, rest);
    ScanSecond(y, z, [Symbol(Fourth(z))] + rest);
    ScanFirst(x, y, [Symbol(Third(y, z))] + ([Symbol(Fourth(z))] + rest));
  }

  lemma Regroup(p: char, q: char, r: char, s: char, more: string, pad: string)
    ensures [p, q, r, s] + more + pad == [p] + ([q] + ([r] + ([s] + (more + pad))))
  {
  }

  lemma EncodedOne(x: Byte)
    ensures Encode([x]) + Padding(|Encode([x])|) == [Symbol(First(x))] + ([Symbol(Second(x, 0))] + "==")
  {
  }

  lemma EncodedTwo(x: Byte, y: Byte)
    ensures Encode([x] + [y]) + Padding(|Encode([x] + [y])|)
            == [Symbol(First(x))] + ([Symbol(Second(x, y))] + ([Symbol(Third(y, 0))] + "="))
  {
  }

  lemma {:induction false} ScanShort(b: seq<Byte>, text: string)
    requires |b| < 3 && text == Encode(b) + Padding(|Encode(b)|)
    ensures Scan(text, 0, 0, 0) == Some(b)
  {
    if |b| == 1 {
      assert b == [b[0]];
      EncodedOne(b[0]);
      ScanOneByte(b[0]);
    } else if |b| == 2 {
      assert b == [b[0]] + [b[1]];
      EncodedTwo(b[0], b[1]);
      ScanTwoBytes(b[0], b[1]);
    }
  }

  /** One group of three bytes in front of text that decodes. */
  lemma {:induction false} ScanLonger(x: Byte, y: Byte, z: Byte, more: string, pad: string, tail: seq<Byte>)
    requires Scan(more + pad, 0, 0, 0) == Some(tail)
    ensures Scan(EncodeGroup(x, y, z) + more + pad, 0, 0, 0) == Some([x] + ([y] + ([z] + tail)))
  {
    Regroup(Symbol(First(x)), Symbol(Second(x, y)), Symbol(Third(y, z)), Symbol(Fourth(z)), more, pad);
    ScanGroup(x, y, z, more + pad);
  }

  lemma EncodedText(b: seq<Byte>)
    requires |b| >= 3
    ensures Encode(b) + Padding(|Encode(b)|)
            == EncodeGroup(b[0], b[1], b[2]) + Encode(b[3..]) + Padding(|Encode(b[3..])|)
  {
    assert |EncodeGroup(b[0], b[1], b[2])| == 4;
    PaddingRepeats(|Encode(b[3..])|);
  }

  lemma {:induction false} ScanPrefixed(b: seq<Byte>, more: string, pad: string)
    requires |b| >= 3 && Scan(more + pad, 0, 0, 0) == Some(b[3..])
    ensures Scan(EncodeGroup(b[0], b[1], b[2]) + more + pad, 0, 0, 0) == Some(b)
  {
    ScanLonger(b[0], b[1], b[2], more, pad, b[3..]);
    assert [b[0]] + ([b[1]] + ([b[2]] + b[3..])) == b;
  }

  lemma {:induction false} ScanEncoded(b: seq<Byte>, text: string)
    requires text == Encode(b) + Padding(|Encode(b)|)
    ensures Scan(text, 0, 0, 0) == Some(b)
    decreases |b|
  {
    if |b| < 3 {
      ScanShort(b, text);
    } else {
      var more, pad := Encode(b[3..]), Padding(|Encode(b[3..])|);
      ScanEncoded(b[3..], more + pad);
      ScanPrefixed(b, more, pad);
      EncodedText(b);
    }
  }

  lemma PaddingRepeats(n: nat)
    ensures Padding(4 + n) == Padding(n)
  {
  }

  /** Every byte string survives stripping and restoring its padding. */
  lemma DecodeEncode(b: seq<Byte>)
    ensures Decode(Encode(b)) == Some(b)
  {
    EncodeAlphabet(b);
    ScanEncoded(b, Encode(b) + Padding(|Encode(b)|));
  }
}
