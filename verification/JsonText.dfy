/**
 JSON text: the compact printer of `json.dumps` with `ensure_ascii=False`, and the reader of
 `json.loads`. Reading back what was printed gives the same value, so printing is injective, and
 canonical text agrees exactly for values that are the same JSON.
 */
module JsonText {
  import opened Basics
  import opened Json

  type Parsed<T> = Option<(T, string)>

  lemma Assoc(a: string, b: string, c: string)
    ensures a + b + c == a + (b + c)
  {
  }

  lemma AfterFirst(c: string, s: string)
    requires |c| == 1
    ensures (c + s)[0] == c[0] && (c + s)[1..] == s
  {
  }

  // --- strings ---------------------------------------------------------------------------------

  function HexDigit(n: nat): (c: char)
    requires n < 16
  {
    "0123456789abcdef"[n]
  }

  function HexValue(c: char): (n: Option<nat>)
    ensures n.Some? ==> n.value < 16
  {
    if '0' <= c <= '9' then Some(c as int - '0' as int)
    else if 'a' <= c <= 'f' then Some(c as int - 'a' as int + 10)
    else if 'A' <= c <= 'F' then Some(c as int - 'A' as int + 10)
    else None
  }

  function EscapeChar(c: char): string {
    match c
    case '\"' => "\\\""
    case '\\' => "\\\\"
    case '\n' => "\\n"
    case '\r' => "\\r"
    case '\t' => "\\t"
    case '\U{0008}' => "\\b"
    case '\U{000C}' => "\\f"
    case _ => if c as int < 0x20 then "\\u00" + [HexDigit(c as int / 16), HexDigit(c as int % 16)] else [c]
  }

  function Escaped(s: string): string {
    if s == [] then [] else EscapeChar(s[0]) + Escaped(s[1..])
  }

  function PrintString(s: string): string {
    "\"" + (Escaped(s) + "\"")
  }

  /** `\uXXXX`; a surrogate half is outside this model's characters. */
  function ReadHex(s: string): (r: Parsed<char>)
    ensures r.Some? ==> |r.value.1| < |s|
  {
    if |s| < 4 then None else
    var a, b, c, d := HexValue(s[0]), HexValue(s[1]), HexValue(s[2]), HexValue(s[3]);
    if a.None? || b.None? || c.None? || d.None? then None else
    var n := ((a.value * 16 + b.value) * 16 + c.value) * 16 + d.value;
    if 0xD800 <= n < 0xE000 then None else Some((n as char, s[4..]))
  }

  function ReadEscape(s: string): (r: Parsed<char>)
    ensures r.Some? ==> |r.value.1| < |s|
  {
    if s == [] then None else
    match s[0]
    case '\"' => Some(('\"', s[1..]))
    case '\\' => Some(('\\', s[1..]))
    case '/' => Some(('/', s[1..]))
    case 'b' => Some(('\U{0008}', s[1..]))
    case 'f' => Some(('\U{000C}', s[1..]))
    case 'n' => Some(('\n', s[1..]))
    case 'r' => Some(('\r', s[1..]))
    case 't' => Some(('\t', s[1..]))
    case 'u' => ReadHex(s[1..])
    case _ => None
  }

  /** The rest of a string after its opening quote. */
  function ReadString(s: string): (r: Parsed<string>)
    ensures r.Some? ==> |r.value.1| < |s|
    decreases |s|
  {
    if s == [] then None
    else if s[0] == '\"' then Some(([], s[1..]))
    else if s[0] as int < 0x20 then None
    else
      var c := if s[0] == '\\' then ReadEscape(s[1..]) else Some((s[0], s[1..]));
      if c.None? then None else
      var tail := ReadString(c.value.1);
      if tail.None? then None else Some(([c.value.0] + tail.value.0, tail.value.1))
  }

  /** Reads the character that `EscapeChar` wrote. */
  lemma ReadsEscapedChar(c: char, rest: string)
    ensures var t := EscapeChar(c) + rest; t[0] != '\"' && t[0] as int >= 0x20
    ensures var t := EscapeChar(c) + rest;
            (if t[0] == '\\' then ReadEscape(t[1..]) else Some((t[0], t[1..]))) == Some((c, rest))
  {
    var t := EscapeChar(c) + rest;
    if |EscapeChar(c)| == 6 {
      ReadsEscapedControl(c, rest);
    } else {
      assert t[|EscapeChar(c)|..] == rest;
      assert |EscapeChar(c)| == 2 ==> t[1..][1..] == rest;
    }
  }

  lemma ReadsEscapedControl(c: char, rest: string)
    requires |EscapeChar(c)| == 6
    ensures var t := EscapeChar(c) + rest; t[0] == '\\' && ReadEscape(t[1..]) == Some((c, rest))
  {
    var t := EscapeChar(c) + rest;
    var hex := t[1..][1..];
    assert hex[..4] == ['0', '0', HexDigit(c as int / 16), HexDigit(c as int % 16)] && hex[4..] == rest;
    HexRoundTrip(c as int / 16);
    HexRoundTrip(c as int % 16);
    assert ReadHex(hex) == Some((c, rest));
  }

  lemma HexRoundTrip(n: nat)
    requires n < 16
    ensures HexValue(HexDigit(n)) == Some(n)
  {
  }

  lemma {:induction false} ReadsPrintedString(s: string, rest: string)
    ensures ReadString(Escaped(s) + ("\"" + rest)) == Some((s, rest))
    decreases |s|
  {
    if s == [] {
      assert [] + ("\"" + rest) == "\"" + rest;
      AfterFirst("\"", rest);
    } else {
      var more := Escaped(s[1..]) + ("\"" + rest);
      Assoc(EscapeChar(s[0]), Escaped(s[1..]), "\"" + rest);
      ReadsEscapedChar(s[0], more);
      ReadsPrintedString(s[1..], rest);
      assert [s[0]] + s[1..] == s;
    }
  }

  // --- integers --------------------------------------------------------------------------------

  function Digit(n: nat): (c: char)
    requires n < 10
    ensures '0' <= c <= '9' && c as int - '0' as int == n
  {
    ('0' as int + n) as char
  }

  predicate IsDigit(c: char) {
    '0' <= c <= '9'
  }

  function Decimal(n: nat): (d: string)
    ensures d != [] && (forall c :: c in d ==> IsDigit(c))
    ensures n > 0 ==> d[0] != '0'
  {
    if n < 10 then [Digit(n)] else Decimal(n / 10) + [Digit(n % 10)]
  }

  function DecimalValue(d: string): nat
    requires forall c :: c in d ==> IsDigit(c)
  {
    if d == [] then 0 else
    assert IsDigit(d[|d| - 1]);
    10 * DecimalValue(d[..|d| - 1]) + (d[|d| - 1] as int - '0' as int)
  }

  lemma {:induction false} DecimalRoundTrip(n: nat)
    ensures DecimalValue(Decimal(n)) == n
  {
    if n >= 10 {
      DecimalRoundTrip(n / 10);
      assert Decimal(n)[..|Decimal(n)| - 1] == Decimal(n / 10);
    } else {
      assert DecimalValue([Digit(n)]) == 10 * DecimalValue([]) + n by { assert [Digit(n)][..0] == []; }
    }
  }

  function PrintInteger(n: int): string {
    if n < 0 then "-" + Decimal(-n) else Decimal(n)
  }

  function DigitRun(s: string): (k: nat)
    ensures k <= |s| && (forall c :: c in s[..k] ==> IsDigit(c))
    ensures k < |s| ==> !IsDigit(s[k])
  {
    if s == [] || !IsDigit(s[0]) then 0 else
    var k := DigitRun(s[1..]);
    assert s[..k + 1] == [s[0]] + s[1..][..k];
    k + 1
  }

  /** A run of digits without a leading zero, or the single digit zero. */
  function ReadNatural(s: string): (r: Parsed<nat>)
    ensures r.Some? ==> |r.value.1| < |s|
  {
    if s != [] && s[0] == '0' then Some((0, s[1..])) else
    var k := DigitRun(s);
    if k == 0 then None else Some((DecimalValue(s[..k]), s[k..]))
  }

  function ReadInteger(s: string): (r: Parsed<int>)
    ensures r.Some? ==> |r.value.1| < |s|
  {
    if s != [] && s[0] == '-' then
      var r := ReadNatural(s[1..]);
      if r.None? then None else
      Some((-(r.value.0 as int), r.value.1))
    else
      ReadNatural(s)
  }

  lemma {:induction false} DigitRunStops(d: string, rest: string)
    requires forall c :: c in d ==> IsDigit(c)
    requires rest == [] || !IsDigit(rest[0])
    ensures DigitRun(d + rest) == |d|
  {
    if d == [] {
      assert d + rest == rest;
    } else {
      assert (d + rest)[1..] == d[1..] + rest && d[0] in d;
      DigitRunStops(d[1..], rest);
    }
  }

  lemma ReadsPrintedNatural(n: nat, rest: string)
    requires rest == [] || !IsDigit(rest[0])
    ensures ReadNatural(Decimal(n) + rest) == Some((n, rest))
  {
    var d, t := Decimal(n), Decimal(n) + rest;
    DecimalRoundTrip(n);
    DigitRunStops(d, rest);
    assert t[..|d|] == d && t[|d|..] == rest;
  }

  lemma ReadsPrintedInteger(n: int, rest: string)
    requires rest == [] || !IsDigit(rest[0])
    ensures ReadInteger(PrintInteger(n) + rest) == Some((n, rest))
  {
    hide ReadNatural, Decimal;
    if n < 0 {
      Assoc("-", Decimal(-n), rest);
      AfterFirst("-", Decimal(-n) + rest);
      ReadsPrintedNatural(-n, rest);
    } else {
      assert IsDigit(Decimal(n)[0]);
      ReadsPrintedNatural(n, rest);
    }
  }

  // --- values ----------------------------------------------------------------------------------

  function Print(v: Json): (t: string) {
    match v
    case Null => "null"
    case Boolean(b) => if b then "true" else "false"
    case Number(n) => PrintInteger(n)
    case String(s) => PrintString(s)
    case Array(items) => if items.NoItems? then "[]" else "[" + (PrintItems(items) + "]")
    case Object(members) => if members.NoMembers? then "{}" else "{" + (PrintMembers(members) + "}")
  }

  function PrintItems(items: Items): string
    requires items.Item?
  {
    Print(items.head) + if items.tail.NoItems? then "" else "," + PrintItems(items.tail)
  }

  function PrintMembers(m: Members): string
    requires m.Member?
  {
    PrintString(m.key) + (":" + (Print(m.value) + if m.rest.NoMembers? then "" else "," + PrintMembers(m.rest)))
  }

  predicate IsSpace(c: char) {
    c == ' ' || c == '\t' || c == '\n' || c == '\r'
  }

  function SkipSpace(s: string): (r: string)
    ensures |r| <= |s|
  {
    if s != [] && IsSpace(s[0]) then SkipSpace(s[1..]) else s
  }

  function ReadLiteral(s: string, word: string, v: Json): (r: Parsed<Json>)
    requires word != []
    ensures r.Some? ==> |r.value.1| < |s|
  {
    if word <= s then Some((v, s[|word|..])) else None
  }

  function ReadScalar(s: string): (r: Parsed<Json>)
    requires s != []
    ensures r.Some? ==> |r.value.1| < |s|
  {
    match s[0]
    case 'n' => ReadLiteral(s, "null", Null)
    case 't' => ReadLiteral(s, "true", Boolean(true))
    case 'f' => ReadLiteral(s, "false", Boolean(false))
    case '\"' =>
      var r := ReadString(s[1..]);
      if r.None? then None else Some((String(r.value.0), r.value.1))
    case _ =>
      var r := ReadInteger(s);
      if r.None? then None else Some((Number(r.value.0), r.value.1))
  }

  function ReadValue(text: string): (r: Parsed<Json>)
    ensures r.Some? ==> |r.value.1| < |text|
    decreases |text|, 0
  {
    var s := SkipSpace(text);
    if s == [] then None
    else if s[0] == '[' then
      var t := SkipSpace(s[1..]);
      if t != [] && t[0] == ']' then Some((Array(NoItems), t[1..])) else
      var r := ReadItems(t);
      if r.None? then None else Some((Array(r.value.0), r.value.1))
    else if s[0] == '{' then
      var t := SkipSpace(s[1..]);
      if t != [] && t[0] == '}' then Some((Object(NoMembers), t[1..])) else
      var r := ReadMembers(t);
      if r.None? then None else Some((Object(r.value.0), r.value.1))
    else
      ReadScalar(s)
  }

  function ReadItems(text: string): (r: Parsed<Items>)
    ensures r.Some? ==> |r.value.1| < |text|
    decreases |text|, 1
  {
    var head := ReadValue(text);
    if head.None? then None else
    var s := SkipSpace(head.value.1);
    if s != [] && s[0] == ']' then Some((Item(head.value.0, NoItems), s[1..]))
    else if s != [] && s[0] == ',' then
      var tail := ReadItems(s[1..]);
      if tail.None? then None else Some((Item(head.value.0, tail.value.0), tail.value.1))
    else None
  }

  function ReadMembers(text: string): (r: Parsed<Members>)
    ensures r.Some? ==> |r.value.1| < |text|
    decreases |text|, 1
  {
    var s := SkipSpace(text);
    if s == [] || s[0] != '\"' then None else
    var key := ReadString(s[1..]);
    if key.None? then None else
    var colon := SkipSpace(key.value.1);
    if colon == [] || colon[0] != ':' then None else
    var value := ReadValue(colon[1..]);
    if value.None? then None else
    var t := SkipSpace(value.value.1);
    if t != [] && t[0] == '}' then Some((Member(key.value.0, value.value.0, NoMembers), t[1..]))
    else if t != [] && t[0] == ',' then
      var rest := ReadMembers(t[1..]);
      if rest.None? then None else Some((Member(key.value.0, value.value.0, rest.value.0), rest.value.1))
    else None
  }

  /** `json.loads` of a decoded text: one value and nothing but white space after it. */
  function Loads(text: string): Option<Json> {
    var r := ReadValue(text);
    if r.Some? && SkipSpace(r.value.1) == [] then Some(r.value.0) else None
  }

  /** `json.dumps` with sorted keys and compact separators. */
  function Dumps(v: Json): string {
    Print(Canon(v))
  }

  // --- reading back what was printed ---------------------------------------------------------------

  /** What may follow a printed value without being taken for more of it. */
  predicate Follows(rest: string) {
    rest == [] || rest[0] == ',' || rest[0] == ']' || rest[0] == '}'
  }

  lemma {:induction false} PrintStarts(v: Json)
    ensures Print(v) != [] && !IsSpace(Print(v)[0]) && !Follows(Print(v))
    ensures v.Number? ==> Print(v)[0] == '-' || IsDigit(Print(v)[0])
    ensures Print(v)[0] == '[' <==> v.Array?
    ensures Print(v)[0] == '{' <==> v.Object?
  {
    if v.Number? && v.n >= 0 {
      assert Decimal(v.n)[0] in Decimal(v.n);
    }
  }

  lemma ReadsPrintedScalar(v: Json, rest: string)
    requires Follows(rest) && !v.Array? && !v.Object?
    ensures Print(v) != []
    ensures ReadScalar(Print(v) + rest) == Some((v, rest))
  {
    match v {
      case Number(n) => ReadsPrintedNumber(n, rest);
      case String(s) => ReadsPrintedQuoted(s, rest);
      case _ => ReadsPrintedWord(v, rest);
    }
  }

  /** A printed string followed by more text, regrouped after its opening quote. */
  lemma SplitString(s: string, rest: string)
    ensures PrintString(s) + rest == "\"" + (Escaped(s) + ("\"" + rest))
  {
    Assoc("\"", Escaped(s) + "\"", rest);
    Assoc(Escaped(s), "\"", rest);
  }

  lemma ReadsPrintedQuoted(s: string, rest: string)
    ensures ReadScalar(PrintString(s) + rest) == Some((String(s), rest))
  {
    SplitString(s, rest);
    AfterFirst("\"", Escaped(s) + ("\"" + rest));
    ReadsPrintedString(s, rest);
  }

  lemma ReadsPrintedNumber(n: int, rest: string)
    requires Follows(rest)
    ensures PrintInteger(n) != []
    ensures ReadScalar(PrintInteger(n) + rest) == Some((Number(n), rest))
  {
    PrintStarts(Number(n));
    ReadsPrintedInteger(n, rest);
    assert (PrintInteger(n) + rest)[0] == Print(Number(n))[0];
  }

  lemma ReadsPrintedWord(v: Json, rest: string)
    requires v.Null? || v.Boolean?
    ensures Print(v) != []
    ensures ReadScalar(Print(v) + rest) == Some((v, rest))
  {
    var t := Print(v) + rest;
    assert Print(v) <= t && t[|Print(v)|..] == rest;
  }

  lemma {:induction false} ReadsPrinted(v: Json, rest: string)
    requires Follows(rest)
    ensures ReadValue(Print(v) + rest) == Some((v, rest))
    decreases v, 0
  {
    match v {
      case Array(items) => ReadsPrintedArray(items, rest);
      case Object(members) => ReadsPrintedObject(members, rest);
      case _ =>
        ReadsPrintedScalar(v, rest);
        PrintStarts(v);
        assert (Print(v) + rest)[0] == Print(v)[0];
    }
  }

  lemma ReadValueOfArray(t: string)
    requires |t| > 1 && t[0] == '[' && !IsSpace(t[1]) && t[1] != ']'
    ensures ReadItems(t[1..]).Some? ==>
              var r := ReadItems(t[1..]).value; ReadValue(t) == Some((Array(r.0), r.1))
  {
    assert SkipSpace(t) == t && SkipSpace(t[1..]) == t[1..];
  }

  lemma {:induction false} ReadsPrintedArray(items: Items, rest: string)
    requires Follows(rest)
    ensures ReadValue(Print(Array(items)) + rest) == Some((Array(items), rest))
    decreases items, 1
  {
    if items.NoItems? {
      var t := "[]" + rest;
      assert t[1..] == "]" + rest && t[1..][1..] == rest;
    } else {
      var body := PrintItems(items);
      Assoc("[", body + "]", rest);
      Assoc(body, "]", rest);
      AfterFirst("[", body + ("]" + rest));
      PrintStarts(items.head);
      assert (body + ("]" + rest))[0] == Print(items.head)[0];
      ReadValueOfArray("[" + (body + ("]" + rest)));
      ReadsPrintedItems(items, rest);
    }
  }

  /** Reading one element and whatever the text goes on with. */
  lemma ReadsOneItem(t: string, head: Json, after: string)
    requires ReadValue(t) == Some((head, after))
    requires after != [] && (after[0] == ']' || (after[0] == ',' && ReadItems(after[1..]).Some?))
    ensures after[0] == ']' ==> ReadItems(t) == Some((Item(head, NoItems), after[1..]))
    ensures after[0] == ',' ==>
              var r := ReadItems(after[1..]).value; ReadItems(t) == Some((Item(head, r.0), r.1))
  {
    assert SkipSpace(after) == after;
  }

  lemma {:induction false} ReadsPrintedItems(items: Items, rest: string)
    requires items.Item? && Follows(rest)
    ensures ReadItems(PrintItems(items) + ("]" + rest)) == Some((items, rest))
    decreases items, 0
  {
    var head, close := Print(items.head), "]" + rest;
    if items.tail.NoItems? {
      assert head + "" == head;
      AfterFirst("]", rest);
      ReadsPrinted(items.head, close);
      ReadsOneItem(head + close, items.head, close);
    } else {
      var more := PrintItems(items.tail);
      Assoc(head, "," + more, close);
      Assoc(",", more, close);
      AfterFirst(",", more + close);
      ReadsPrintedItems(items.tail, rest);
      ReadsPrinted(items.head, "," + (more + close));
      ReadsOneItem(head + ("," + (more + close)), items.head, "," + (more + close));
    }
  }

  lemma ReadValueOfObject(t: string)
    requires |t| > 1 && t[0] == '{' && t[1] == '\"'
    ensures ReadMembers(t[1..]).Some? ==>
              var r := ReadMembers(t[1..]).value; ReadValue(t) == Some((Object(r.0), r.1))
  {
    assert SkipSpace(t) == t && SkipSpace(t[1..]) == t[1..];
  }

  lemma {:induction false} ReadsPrintedObject(members: Members, rest: string)
    requires Follows(rest)
    ensures ReadValue(Print(Object(members)) + rest) == Some((Object(members), rest))
    decreases members, 1
  {
    if members.NoMembers? {
      var t := "{}" + rest;
      assert t[1..] == "}" + rest && t[1..][1..] == rest;
    } else {
      var body := PrintMembers(members);
      Assoc("{", body + "}", rest);
      Assoc(body, "}", rest);
      AfterFirst("{", body + ("}" + rest));
      assert (body + ("}" + rest))[0] == '\"';
      ReadValueOfObject("{" + (body + ("}" + rest)));
      ReadsPrintedMembers(members, rest);
    }
  }

  /** Reading one member: its key, its value, and whatever the text goes on with. */
  lemma ReadsOneMember(t: string, key: string, colon: string, value: Json, after: string)
    requires t != [] && t[0] == '\"' && ReadString(t[1..]) == Some((key, colon))
    requires colon != [] && colon[0] == ':' && ReadValue(colon[1..]) == Some((value, after))
    requires after != [] && (after[0] == '}' || (after[0] == ',' && ReadMembers(after[1..]).Some?))
    ensures after[0] == '}' ==> ReadMembers(t) == Some((Member(key, value, NoMembers), after[1..]))
    ensures after[0] == ',' ==>
              var r := ReadMembers(after[1..]).value; ReadMembers(t) == Some((Member(key, value, r.0), r.1))
  {
    assert SkipSpace(t) == t && SkipSpace(colon) == colon && SkipSpace(after) == after;
  }

  /** The text after the first member's value. */
  function AfterMember(m: Members, close: string): string
    requires m.Member?
  {
    if m.rest.NoMembers? then close else "," + (PrintMembers(m.rest) + close)
  }

  lemma SplitMembers(m: Members, close: string)
    requires m.Member?
    ensures PrintMembers(m) + close == PrintString(m.key) + (":" + (Print(m.value) + AfterMember(m, close)))
  {
    var key, value := PrintString(m.key), Print(m.value);
    var tail := if m.rest.NoMembers? then "" else "," + PrintMembers(m.rest);
    Assoc(key, ":" + (value + tail), close);
    Assoc(":", value + tail, close);
    Assoc(value, tail, close);
    if m.rest.NoMembers? {
      assert "" + close == close;
    } else {
      Assoc(",", PrintMembers(m.rest), close);
    }
  }

  lemma {:induction false} ReadsPrintedMembers(m: Members, rest: string)
    requires m.Member? && Follows(rest)
    ensures ReadMembers(PrintMembers(m) + ("}" + rest)) == Some((m, rest))
    decreases m, 0
  {
    var after := AfterMember(m, "}" + rest);
    var colon := ":" + (Print(m.value) + after);
    SplitMembers(m, "}" + rest);
    SplitString(m.key, colon);
    AfterFirst("\"", Escaped(m.key) + ("\"" + colon));
    ReadsPrintedString(m.key, colon);
    AfterFirst(":", Print(m.value) + after);
    if m.rest.NoMembers? {
      AfterFirst("}", rest);
    } else {
      AfterFirst(",", PrintMembers(m.rest) + ("}" + rest));
      ReadsPrintedMembers(m.rest, rest);
    }
    ReadsPrinted(m.value, after);
    ReadsOneMember("\"" + (Escaped(m.key) + ("\"" + colon)), m.key, colon, m.value, after);
  }

  /** `json.loads(json.dumps(v))` is `v` with its members in key order, for every value. */
  lemma LoadsDumps(v: Json)
    ensures Loads(Dumps(v)) == Some(Canon(v))
  {
    assert Print(Canon(v)) + [] == Print(Canon(v));
    ReadsPrinted(Canon(v), []);
  }

  /** Canonical text agrees exactly for values that are the same JSON. */
  lemma DumpsInjective(a: Json, b: Json)
    requires Dictionaries(a) && Dictionaries(b)
    ensures Dumps(a) == Dumps(b) <==> SameJson(a, b)
  {
    LoadsDumps(a);
    LoadsDumps(b);
    CanonSame(a, b);
  }

  // --- what the options of `json.dumps` make of the text -------------------------------------------

  /** Sorting once is enough. */
  lemma {:induction false} CanonCanon(v: Json)
    requires Dictionaries(v)
    ensures Dictionaries(Canon(v)) && SameJson(v, Canon(v))
    decreases v
  {
    if v.Array? {
      CanonItemsSame(v.items);
    } else if v.Object? {
      CanonMembersSame(v.members);
    }
  }

  lemma {:induction false} CanonItemsSame(items: Items)
    requires DictionariesIn(items)
    ensures DictionariesIn(CanonItems(items)) && SameItems(items, CanonItems(items))
    decreases items
  {
    if items.Item? {
      CanonCanon(items.head);
      CanonItemsSame(items.tail);
    }
  }

  lemma {:induction false} InsertDictionary(key: string, value: Json, m: Members)
    requires DistinctKeys(m) && DictionariesUnder(m) && Dictionaries(value) && !HasKey(m, key)
    ensures DistinctKeys(Insert(key, value, m)) && DictionariesUnder(Insert(key, value, m))
  {
    if m.Member? && !Before(key, m.key) {
      InsertDictionary(key, value, m.rest);
      InsertKeeps(key, value, m.rest, m.key);
    }
  }

  lemma {:induction false} CanonMembersSame(m: Members)
    requires DistinctKeys(m) && DictionariesUnder(m)
    ensures DistinctKeys(CanonMembers(m)) && DictionariesUnder(CanonMembers(m)) && SameMembers(m, CanonMembers(m))
    decreases m
  {
    if m.Member? {
      CanonCanon(m.value);
      CanonMembersSame(m.rest);
      InsertDictionary(m.key, Canon(m.value), CanonMembers(m.rest));
    }
    forall k ensures Get(CanonMembers(m), k) == Mapped(Get(m, k)) {
      CanonMembersGet(m, k);
    }
    forall k | HasKey(m, k) ensures SameJson(Get(m, k).value, Canon(Get(m, k).value)) {
      BoundValue(m, k);
      CanonCanon(Get(m, k).value);
    }
  }

  /** `sort_keys=True`: the text is that of the same JSON with every object's keys ascending by code points. */
  lemma DumpsSorts(v: Json)
    requires Dictionaries(v)
    ensures exists w :: Loads(Dumps(v)) == Some(w) && SameJson(v, w) && KeysAscend(w) && Dumps(v) == Print(w)
  {
    LoadsDumps(v);
    CanonCanon(v);
    CanonAscends(v);
  }

  /** The characters of a text that are outside its string literals. */
  function Outside(t: string, inside: bool): string
    decreases |t|
  {
    if t == [] then []
    else if inside && t[0] == '\\' then Outside(if |t| == 1 then [] else t[2..], true)
    else if inside then Outside(t[1..], t[0] != '\"')
    else if t[0] == '\"' then Outside(t[1..], true)
    else [t[0]] + Outside(t[1..], false)
  }

  lemma {:induction false} OutsideString(s: string, rest: string)
    ensures Outside(Escaped(s) + ("\"" + rest), true) == Outside(rest, false)
  {
    var t := Escaped(s) + ("\"" + rest);
    if s == [] {
      assert t == "\"" + rest && t[1..] == rest;
    } else {
      var tail := Escaped(s[1..]) + ("\"" + rest);
      assert t == EscapeChar(s[0]) + tail;
      OutsideString(s[1..], rest);
      OutsideChar(s[0], tail);
    }
  }

  lemma OutsideChar(c: char, rest: string)
    ensures Outside(EscapeChar(c) + rest, true) == Outside(rest, true)
  {
    var e, t := EscapeChar(c), EscapeChar(c) + rest;
    if |e| == 1 {
      assert t[1..] == rest;
    } else if |e| == 2 {
      assert t[2..] == rest;
    } else {
      assert t[2..] == e[2..] + rest && e[2] == '0' && e[3] == '0';
      OutsidePlain(e[2..], rest);
    }
  }

  lemma {:induction false} OutsidePlain(p: string, rest: string)
    requires forall c :: c in p ==> c != '\\' && c != '\"'
    ensures Outside(p + rest, true) == Outside(rest, true)
  {
    if p == [] {
      assert p + rest == rest;
    } else {
      assert (p + rest)[1..] == p[1..] + rest && p[0] in p && forall c :: c in p[1..] ==> c in p;
      OutsidePlain(p[1..], rest);
    }
  }

  /** No white space but what a text had after the value. */
  predicate Compact(t: string, rest: string) {
    forall c :: c in Outside(t, false) && IsWhite(c) ==> c in Outside(rest, false)
  }

  predicate IsWhite(c: char) {
    c == ' ' || c == '\t' || c == '\n' || c == '\r'
  }

  lemma OutsidePunctuation(c: char, rest: string)
    requires c != '\"'
    ensures Outside([c] + rest, false) == [c] + Outside(rest, false)
  {
    assert ([c] + rest)[1..] == rest;
  }

  lemma {:induction false} OutsideWord(w: string, rest: string)
    requires forall c :: c in w ==> c != '\"'
    ensures Outside(w + rest, false) == w + Outside(rest, false)
  {
    if w == [] {
      assert w + rest == rest;
    } else {
      assert (w + rest)[1..] == w[1..] + rest && w[0] in w && forall c :: c in w[1..] ==> c in w;
      OutsideWord(w[1..], rest);
    }
  }

  lemma OutsideQuoted(s: string, rest: string)
    ensures Outside(PrintString(s) + rest, false) == Outside(rest, false)
  {
    var t := PrintString(s) + rest;
    assert t[0] == '\"' && t[1..] == Escaped(s) + ("\"" + rest);
    OutsideString(s, rest);
  }

  lemma OutsideScalar(v: Json, rest: string)
    requires !v.Array? && !v.Object?
    ensures Compact(Print(v) + rest, rest)
  {
    if v.String? {
      OutsideQuoted(v.s, rest);
    } else {
      OutsideWord(Print(v), rest);
    }
  }

  /** One punctuation mark more on both sides. */
  lemma CompactAfter(c: char, t: string, d: char, rest: string)
    requires c != '\"' && d != '\"' && !IsWhite(c) && !IsWhite(d) && Compact(t, [d] + rest)
    ensures Compact([c] + t, rest)
  {
    OutsidePunctuation(c, t);
    OutsidePunctuation(d, rest);
  }

  lemma {:induction false} PrintIsCompact(v: Json, rest: string)
    ensures Compact(Print(v) + rest, rest)
    decreases v, 2
  {
    hide Compact, Print;
    if v.Array? {
      ArrayIsCompact(v.items, rest);
    } else if v.Object? {
      ObjectIsCompact(v.members, rest);
    } else {
      OutsideScalar(v, rest);
    }
  }

  lemma {:induction false} ArrayIsCompact(items: Items, rest: string)
    ensures Compact(Print(Array(items)) + rest, rest)
    decreases items, 1
  {
    if items.NoItems? {
      OutsideWord("[]", rest);
    } else {
      var inner := PrintItems(items);
      ItemsAreCompact(items, [']'] + rest);
      assert Print(Array(items)) == ['['] + (inner + [']']);
      hide Compact, Print, PrintItems;
      assert Print(Array(items)) + rest == ['['] + (inner + ([']'] + rest));
      CompactAfter('[', inner + ([']'] + rest), ']', rest);
    }
  }

  lemma {:induction false} ObjectIsCompact(m: Members, rest: string)
    ensures Compact(Print(Object(m)) + rest, rest)
    decreases m, 1
  {
    if m.NoMembers? {
      OutsideWord("{}", rest);
    } else {
      var inner := PrintMembers(m);
      MembersAreCompact(m, ['}'] + rest);
      assert Print(Object(m)) == ['{'] + (inner + ['}']);
      hide Compact, Print, PrintMembers;
      assert Print(Object(m)) + rest == ['{'] + (inner + (['}'] + rest));
      CompactAfter('{', inner + (['}'] + rest), '}', rest);
    }
  }

  /** A value, a punctuation mark and the rest. */
  lemma CompactThen(t: string, c: char, more: string, rest: string)
    requires c != '\"' && !IsWhite(c) && Compact(t, [c] + more) && Compact(more, rest)
    ensures Compact(t, rest)
  {
    OutsidePunctuation(c, more);
  }

  lemma {:induction false} ItemsAreCompact(items: Items, rest: string)
    requires items.Item?
    ensures Compact(PrintItems(items) + rest, rest)
    decreases items, 0
  {
    hide Compact;
    if items.tail.NoItems? {
      assert PrintItems(items) + rest == Print(items.head) + rest;
      PrintIsCompact(items.head, rest);
    } else {
      var more := PrintItems(items.tail) + rest;
      ItemsAreCompact(items.tail, rest);
      PrintIsCompact(items.head, [','] + more);
      assert PrintItems(items) + rest == Print(items.head) + ([','] + more);
      CompactThen(Print(items.head) + ([','] + more), ',', more, rest);
    }
  }

  lemma {:induction false} MembersAreCompact(m: Members, rest: string)
    requires m.Member?
    ensures Compact(PrintMembers(m) + rest, rest)
    decreases m, 0
  {
    if m.rest.NoMembers? {
      assert PrintMembers(m) + rest == PrintString(m.key) + ([':'] + (Print(m.value) + rest));
      hide Compact;
      PrintIsCompact(m.value, rest);
      CompactMember(m.key, Print(m.value) + rest, rest);
    } else {
      var more := PrintMembers(m.rest) + rest;
      var t := Print(m.value) + ([','] + more);
      assert PrintMembers(m) + rest == PrintString(m.key) + ([':'] + t);
      hide Compact;
      MembersAreCompact(m.rest, rest);
      PrintIsCompact(m.value, [','] + more);
      CompactThen(t, ',', more, rest);
      CompactMember(m.key, t, rest);
    }
  }

  lemma CompactMember(key: string, t: string, rest: string)
    requires Compact(t, rest)
    ensures Compact(PrintString(key) + ([':'] + t), rest)
  {
    OutsideQuoted(key, [':'] + t);
    OutsidePunctuation(':', t);
  }

  /** `separators=(",", ":")`: the text has no white space outside its strings. */
  lemma DumpsIsCompact(v: Json)
    ensures forall c :: c in Outside(Dumps(v), false) ==> c != ' ' && c != '\t' && c != '\n' && c != '\r'
  {
    PrintIsCompact(Canon(v), []);
    assert Print(Canon(v)) + [] == Print(Canon(v));
  }

  /**
   `ensure_ascii=False`: a character stands for itself unless it is a quote, a backslash or a control
   character. Seven have a two-character escape, the rest of the control characters `\\u00` and two lower-case
   hexadecimal digits; and each escape is the one that reads back.
   */
  lemma EscapesExactly(c: char)
    ensures c as int >= 0x20 && c != '\"' && c != '\\' ==> EscapeChar(c) == [c]
    ensures c in ['\"', '\\', '\n', '\r', '\t', 8 as char, 12 as char] ==>
              |EscapeChar(c)| == 2 && EscapeChar(c)[0] == '\\' && ReadEscape(EscapeChar(c)[1..]) == Some((c, []))
    ensures c as int < 0x20 && c !in ['\n', '\r', '\t', 8 as char, 12 as char] ==>
              && |EscapeChar(c)| == 6 && EscapeChar(c)[..4] == "\\u00"
              && (forall d :: d in EscapeChar(c) ==> !('A' <= d <= 'Z'))
              && ReadEscape(EscapeChar(c)[1..]) == Some((c, []))
  {
    ReadsEscapedChar(c, []);
    assert EscapeChar(c) + [] == EscapeChar(c);
  }

  // --- texts with known keys -----------------------------------------------------------------------

  predicate Plain(s: string) {
    forall c :: c in s ==> c as int >= 0x20 && c != '\"' && c != '\\'
  }

  lemma {:induction false} PlainIsItself(s: string)
    requires Plain(s)
    ensures Escaped(s) == s
  {
    if s != [] {
      assert s[0] in s && EscapeChar(s[0]) == [s[0]];
      hide EscapeChar;
      assert forall c :: c in s[1..] ==> c in s;
      PlainIsItself(s[1..]);
      assert s == [s[0]] + s[1..];
    }
  }

  lemma Regroup(q: string, k: string, colon: string, v: string, more: string)
    ensures (q + (k + q)) + (colon + (v + more)) == q + k + (q + colon) + v + more
  {
  }

  /** A member with a plain key prints as `"key":value`. */
  lemma PrintsField(name: string, key: string, value: Json, rest: Members)
    requires Plain(key) && name == "\"" + key + "\":"
    ensures PrintMembers(Member(key, value, rest))
         == name + Print(value) + if rest.NoMembers? then "" else "," + PrintMembers(rest)
  {
    PlainIsItself(key);
    hide Escaped, Print, Plain;
    Regroup("\"", key, ":", Print(value), if rest.NoMembers? then "" else "," + PrintMembers(rest));
    assert "\":" == "\"" + ":";
  }

  /** The next member of a text so far. */
  lemma NextField(text: string, comma: string, name: string, value: string, more: string)
    ensures text + (comma + (name + value + more)) == text + (comma + name) + value + more
  {
  }
}
