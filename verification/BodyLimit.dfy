/**
 The request-body cap of the Python services: the declared length, the bounded read into sealed
 blocks, the replay of those blocks, and the middleware that strings them together.
 */
module BodyLimit {
  import opened Basics
  import opened Utf8
  import opened Chunks
  import JsonText
  import DoublingReader

  const BLOCK_BYTES: nat := 65536
  const MAX_DECLARED_DIGITS: nat := 18

  // --- the declared length -------------------------------------------------------------------------

  datatype Header = Header(name: string, value: string)

  /** ASCII lower case, as `bytes.lower`. */
  function Lower(s: string): string {
    if s == [] then [] else [if 'A' <= s[0] <= 'Z' then (s[0] as int + 32) as char else s[0]] + Lower(s[1..])
  }

  function ContentLengths(headers: seq<Header>): seq<string> {
    if headers == [] then []
    else if Lower(headers[0].name) == "content-length" then [headers[0].value] + ContentLengths(headers[1..])
    else ContentLengths(headers[1..])
  }

  predicate AllDigits(s: string) {
    forall c :: c in s ==> JsonText.IsDigit(c)
  }

  function StripZeros(s: string): (r: string)
    ensures AllDigits(s) ==> AllDigits(r)
    ensures r != [] ==> r[0] != '0'
  {
    if s != [] && s[0] == '0' then StripZeros(s[1..]) else s
  }

  function Pow10(n: nat): (p: nat)
    ensures p >= 1
  {
    if n == 0 then 1 else 10 * Pow10(n - 1)
  }

  /** `_declared_length`; a numeral of more than 18 digits saturates. */
  function Declared(headers: seq<Header>): Option<nat> {
    var values := ContentLengths(headers);
    if |values| != 1 || values[0] == [] || !AllDigits(values[0]) then None else
    Some(Saturated(values[0], MAX_DECLARED_DIGITS))
  }

  function Saturated(numeral: string, most: nat): nat
    requires AllDigits(numeral)
  {
    var stripped := StripZeros(numeral);
    var digits := if stripped == [] then "0" else stripped;
    if |digits| > most then Pow10(most) else JsonText.DecimalValue(digits)
  }

  lemma {:induction false} ValueOfLeadingZero(s: string)
    requires AllDigits(s) && s != [] && s[0] == '0'
    ensures AllDigits(s[1..]) && JsonText.DecimalValue(s) == JsonText.DecimalValue(s[1..])
    decreases |s|
  {
    if |s| == 1 {
      assert s[..0] == [] && s[1..] == [];
    } else {
      ValueOfLeadingZero(s[..|s| - 1]);
      assert s[..|s| - 1][1..] == s[1..][..|s| - 2];
    }
  }

  lemma {:induction false} StripKeepsValue(s: string)
    requires AllDigits(s)
    ensures JsonText.DecimalValue(StripZeros(s)) == JsonText.DecimalValue(s)
    decreases |s|
  {
    if s != [] && s[0] == '0' {
      ValueOfLeadingZero(s);
      StripKeepsValue(s[1..]);
    }
  }

  /** A numeral's size in digits bounds its value from both sides. */
  lemma {:induction false} ValueBySize(s: string)
    requires AllDigits(s)
    ensures JsonText.DecimalValue(s) < Pow10(|s|)
    ensures s != [] && s[0] != '0' ==> JsonText.DecimalValue(s) >= Pow10(|s| - 1)
    decreases |s|
  {
    if s != [] {
      var front := s[..|s| - 1];
      assert JsonText.IsDigit(s[|s| - 1]);
      ValueBySize(front);
      if front == [] {
        assert JsonText.DecimalValue(front) == 0 && s[0] == s[|s| - 1];
      }
    }
  }

  lemma {:induction false} Pow10Monotone(a: nat, b: nat)
    requires a <= b
    ensures Pow10(a) <= Pow10(b)
    decreases b
  {
    if a < b {
      Pow10Monotone(a, b - 1);
    }
  }

  lemma ZeroNumeral()
    ensures JsonText.DecimalValue("0") == 0 && JsonText.DecimalValue([]) == 0
  {
    assert "0"[..0] == [];
  }

  /** Saturation gives the numeral's value, or the power of ten when the value is that or more. */
  lemma SaturationKeepsOrder(numeral: string, most: nat)
    requires AllDigits(numeral) && most > 0
    ensures var value := JsonText.DecimalValue(numeral);
            Saturated(numeral, most) == if value < Pow10(most) then value else Pow10(most)
  {
    var stripped := StripZeros(numeral);
    StripKeepsValue(numeral);
    ValueBySize(stripped);
    ZeroNumeral();
    if |stripped| > most {
      Pow10Monotone(most, |stripped| - 1);
    } else {
      Pow10Monotone(|stripped|, most);
    }
  }

  /** The name is Content-Length, in whatever case. */
  predicate NamesLength(name: string) {
    |name| == 14 && forall i :: 0 <= i < 14 ==> name[i] == "content-length"[i] || name[i] == "CONTENT-LENGTH"[i]
  }

  lemma {:induction false} LowerAt(s: string)
    ensures |Lower(s)| == |s|
    ensures forall i :: 0 <= i < |s| ==>
              Lower(s)[i] == if 'A' <= s[i] <= 'Z' then (s[i] as int + 32) as char else s[i]
  {
    if s != [] {
      LowerAt(s[1..]);
    }
  }

  lemma NamesExactly(name: string)
    ensures Lower(name) == "content-length" <==> NamesLength(name)
  {
    LowerAt(name);
    var small, large := "content-length", "CONTENT-LENGTH";
    assert |small| == 14 && |large| == 14;
    forall i | 0 <= i < 14 && i < |name|
      ensures Lower(name)[i] == small[i] <==> name[i] == small[i] || name[i] == large[i]
    {
      assert small[i] == '-' || ('a' <= small[i] <= 'z' && large[i] as int + 32 == small[i] as int);
      assert small[i] == '-' ==> large[i] == '-';
    }
  }

  /** Header `i` is the only Content-Length. */
  predicate OnlyLength(headers: seq<Header>, i: nat) {
    i < |headers| && forall k :: 0 <= k < |headers| ==> (NamesLength(headers[k].name) <==> k == i)
  }

  /** One header is a Content-Length, it is all digits, and its value is over the cap. */
  predicate DeclaresMore(headers: seq<Header>, cap: nat) {
    exists i :: 0 <= i < |headers| && OnlyLength(headers, i)
      && headers[i].value != [] && (forall c :: c in headers[i].value ==> '0' <= c <= '9')
      && JsonText.DecimalValue(headers[i].value) > cap
  }

  lemma OnlyLengthLater(headers: seq<Header>, i: nat)
    requires headers != [] && !NamesLength(headers[0].name)
    ensures OnlyLength(headers, i + 1) <==> OnlyLength(headers[1..], i)
  {
    hide NamesLength;
    var rest := headers[1..];
    assert forall k :: 0 <= k < |rest| ==> rest[k] == headers[k + 1];
    if OnlyLength(rest, i) {
      forall k | 0 <= k < |headers| ensures NamesLength(headers[k].name) <==> k == i + 1 {
        assert k > 0 ==> headers[k] == rest[k - 1];
      }
    }
  }

  lemma {:induction false} NoLength(headers: seq<Header>)
    ensures ContentLengths(headers) == [] <==> forall k :: 0 <= k < |headers| ==> !NamesLength(headers[k].name)
  {
    if headers != [] {
      hide NamesLength, Lower;
      NamesExactly(headers[0].name);
      NoLength(headers[1..]);
      assert forall k :: 0 < k < |headers| ==> headers[k] == headers[1..][k - 1];
    }
  }

  /** A single value was found exactly when one header is the only Content-Length, and it is that one's. */
  lemma {:induction false} OneLength(headers: seq<Header>)
    ensures |ContentLengths(headers)| == 1 <==> exists i: nat :: OnlyLength(headers, i)
    ensures forall i: nat :: OnlyLength(headers, i) ==> ContentLengths(headers) == [headers[i].value]
  {
    if headers != [] {
      hide NamesLength, Lower;
      var rest := headers[1..];
      NamesExactly(headers[0].name);
      NoLength(headers);
      NoLength(rest);
      if NamesLength(headers[0].name) {
        assert forall i: nat :: OnlyLength(headers, i) ==> i == 0;
        assert forall k :: 0 < k < |headers| ==> headers[k] == rest[k - 1];
        assert OnlyLength(headers, 0) <==> ContentLengths(rest) == [];
      } else {
        OneLength(rest);
        forall i: nat ensures OnlyLength(headers, i) <==> i > 0 && OnlyLength(rest, i - 1) {
          if i > 0 {
            OnlyLengthLater(headers, i - 1);
          }
        }
        if i: nat :| OnlyLength(rest, i) {
          assert OnlyLength(headers, i + 1);
        }
      }
    }
  }

  lemma TenToTheEighteenth()
    ensures Pow10(MAX_DECLARED_DIGITS) == 1_000_000_000_000_000_000
  {
    assert Pow10(3) == 1000;
    assert Pow10(6) == 1000 * Pow10(3);
    assert Pow10(9) == 1000 * Pow10(6);
    assert Pow10(12) == 1000 * Pow10(9);
    assert Pow10(15) == 1000 * Pow10(12);
    assert Pow10(18) == 1000 * Pow10(15);
  }

  /**
   The early refusal fires exactly when the cap is below 10^18 and there is a single all-digit
   Content-Length whose value exceeds it, whatever its size, its leading zeros and the case of its name.
   */
  lemma EarlyRefusalExact(headers: seq<Header>, cap: nat)
    ensures Declared(headers).Some? && Declared(headers).value > cap <==>
            cap < 1_000_000_000_000_000_000 && DeclaresMore(headers, cap)
  {
    TenToTheEighteenth();
    OneLength(headers);
    hide Pow10, Saturated, NamesLength, ContentLengths;
    if |ContentLengths(headers)| == 1 {
      var i: nat :| OnlyLength(headers, i);
      if AllDigits(headers[i].value) {
        SaturationKeepsOrder(headers[i].value, MAX_DECLARED_DIGITS);
      }
    }
  }

  // --- the bounded read ----------------------------------------------------------------------------

  /** An ASGI message: a part of the body, or anything else (a disconnect). */
  datatype Message = Request(body: seq<Byte>, more: bool) | Other

  datatype Verdict = Complete | Overflow | Disconnected | Waiting

  /** The part of the run of messages that the reader takes, after `total` bytes. */
  function VerdictOf(messages: seq<Message>, total: nat, cap: nat): Verdict {
    if messages == [] then Waiting
    else if messages[0].Other? then Disconnected
    else if total + |messages[0].body| > cap then Overflow
    else if !messages[0].more then Complete
    else VerdictOf(messages[1..], total + |messages[0].body|, cap)
  }

  /** The bodies up to and including the first message that is not followed by more. */
  function Bodies(messages: seq<Message>): seq<seq<Byte>> {
    if messages == [] || messages[0].Other? then []
    else if !messages[0].more then [messages[0].body]
    else [messages[0].body] + Bodies(messages[1..])
  }

  /** Blocks that reached the block size. */
  predicate Sealed(blocks: seq<seq<Byte>>) {
    forall i :: 0 <= i < |blocks| ==> |blocks[i]| >= BLOCK_BYTES
  }

  /** No block has reached this size. */
  predicate Below(blocks: seq<seq<Byte>>, size: nat) {
    forall i :: 0 <= i < |blocks| ==> |blocks[i]| < size
  }

  /** The size of the largest body among the messages. */
  function LargestChunk(messages: seq<Message>): nat {
    if messages == [] then 0 else
    var n, last := LargestChunk(messages[..|messages| - 1]), messages[|messages| - 1];
    if last.Request? && |last.body| > n then |last.body| else n
  }

  lemma {:induction false} ChunkWithin(messages: seq<Message>, i: nat)
    requires i < |messages| && messages[i].Request?
    ensures |messages[i].body| <= LargestChunk(messages)
    decreases |messages|
  {
    if i < |messages| - 1 {
      ChunkWithin(messages[..|messages| - 1], i);
    }
  }

  lemma {:induction false} SealedBytes(blocks: seq<seq<Byte>>)
    requires Sealed(blocks)
    ensures |Concat(blocks)| >= |blocks| * BLOCK_BYTES
    decreases |blocks|
  {
    if blocks != [] {
      SealedBytes(blocks[..|blocks| - 1]);
    }
  }

  /** One chunk onto the pending bytes, sealing them as a block once they reach the block size. */
  method Extend(sealed: seq<seq<Byte>>, pending: seq<Byte>, chunk: seq<Byte>, ghost size: nat)
    returns (blocks: seq<seq<Byte>>, rest: seq<Byte>)
    requires Sealed(sealed) && Below(sealed, size) && |pending| < BLOCK_BYTES && BLOCK_BYTES + |chunk| <= size
    ensures Sealed(blocks) && Below(blocks, size) && |rest| < BLOCK_BYTES
    ensures Concat(blocks) + rest == Concat(sealed) + pending + chunk
    ensures if |pending| + |chunk| < 65536 then blocks == sealed && rest == pending + chunk
            else blocks == sealed + [pending + chunk] && rest == []
  {
    blocks, rest := sealed, pending + chunk;
    if |rest| >= BLOCK_BYTES {
      ConcatSnoc(sealed, rest);
      blocks, rest := sealed + [rest], [];
    }
  }

  /** The pending bytes as a last block, or an empty block when there is nothing at all. */
  method Finish(sealed: seq<seq<Byte>>, pending: seq<Byte>, cap: nat, ghost size: nat) returns (blocks: seq<seq<Byte>>)
    requires Sealed(sealed) && |Concat(sealed)| <= cap
    requires Below(sealed, size) && |pending| < BLOCK_BYTES <= size
    ensures Below(blocks, size)
    ensures Concat(blocks) == Concat(sealed) + pending
    ensures 1 <= |blocks| <= cap / BLOCK_BYTES + 1 && Sealed(blocks[..|blocks| - 1])
  {
    SealedBytes(sealed);
    blocks := sealed;
    if pending != [] || sealed == [] {
      ConcatSnoc(sealed, pending);
      blocks := sealed + [pending];
      assert blocks[..|blocks| - 1] == sealed;
    }
  }

  /** The bytes of those bodies. */
  function Received(messages: seq<Message>): seq<Byte> {
    if messages == [] || messages[0].Other? then []
    else if !messages[0].more then messages[0].body
    else messages[0].body + Received(messages[1..])
  }

  lemma {:induction false} ReceivedIsConcat(messages: seq<Message>)
    ensures Received(messages) == Concat(Bodies(messages))
    decreases |messages|
  {
    if messages != [] && messages[0].Request? {
      var m, rest := messages[0], messages[1..];
      ConcatCons(m.body, Bodies(rest));
      ConcatOne(m.body);
      ReceivedIsConcat(rest);
    }
  }

  /** What one more message does to the verdict on the messages still to come, and to their bytes. */
  lemma TakeOne(messages: seq<Message>, i: nat, total: nat, cap: nat)
    requires i < |messages|
    ensures VerdictOf(messages[i..], total, cap)
            == (var m := messages[i];
                if m.Other? then Disconnected
                else if total + |m.body| > cap then Overflow
                else if !m.more then Complete else VerdictOf(messages[i + 1..], total + |m.body|, cap))
    ensures messages[i].Request? && messages[i].more ==>
              Received(messages[i..]) == messages[i].body + Received(messages[i + 1..])
    ensures messages[i].Request? && !messages[i].more ==> Received(messages[i..]) == messages[i].body
  {
    assert messages[i..][1..] == messages[i + 1..];
  }

  lemma Regroup(a: seq<Byte>, b: seq<Byte>, c: seq<Byte>)
    ensures a + (b + c) == a + b + c
  {
  }

  /** The read loop, up to the last message: sealed blocks and the bytes still pending. */
  method Collect(messages: seq<Message>, cap: nat)
    returns (verdict: Verdict, sealed: seq<seq<Byte>>, pending: seq<Byte>)
    ensures verdict == VerdictOf(messages, 0, cap)
    ensures verdict.Complete? ==> Concat(sealed) + pending == Received(messages) && |Received(messages)| <= cap
    ensures Sealed(sealed) && Below(sealed, BLOCK_BYTES + LargestChunk(messages)) && |pending| < BLOCK_BYTES
  {
    var total: nat := 0;
    sealed, pending := [], [];
    ghost var held: seq<Byte> := [];
    assert messages[0..] == messages && [] + Received(messages) == Received(messages);
    for i := 0 to |messages|
      invariant VerdictOf(messages, 0, cap) == VerdictOf(messages[i..], total, cap)
      invariant Received(messages) == held + Received(messages[i..])
      invariant Concat(sealed) + pending == held && |held| == total <= cap
      invariant Sealed(sealed) && Below(sealed, BLOCK_BYTES + LargestChunk(messages)) && |pending| < BLOCK_BYTES
    {
      var message := messages[i];
      TakeOne(messages, i, total, cap);
      if message.Other? {
        verdict := Disconnected;
        return;
      }
      total := total + |message.body|;
      if total > cap {
        verdict := Overflow;
        return;
      }
      ChunkWithin(messages, i);
      sealed, pending := Extend(sealed, pending, message.body, BLOCK_BYTES + LargestChunk(messages));
      if !message.more {
        verdict := Complete;
        return;
      }
      Regroup(held, message.body, Received(messages[i + 1..]));
      held := held + message.body;
    }
    verdict := Waiting;
  }

  /**
   `_read_bounded`. On a complete body the blocks concatenate to the bodies received, however they
   were chunked, and there are between one and cap/65536 + 1 of them, none larger than the block size
   plus one chunk.
   */
  method ReadBounded(messages: seq<Message>, cap: nat) returns (verdict: Verdict, blocks: seq<seq<Byte>>)
    ensures verdict == VerdictOf(messages, 0, cap)
    ensures verdict.Complete? ==> Concat(blocks) == Concat(Bodies(messages)) && |Concat(blocks)| <= cap
    ensures verdict.Complete? ==> 1 <= |blocks| <= cap / 65536 + 1
    ensures verdict.Complete? ==> forall i :: 0 <= i < |blocks| - 1 ==> |blocks[i]| >= 65536
    ensures verdict.Complete? ==> forall i :: 0 <= i < |blocks| ==> |blocks[i]| < 65536 + LargestChunk(messages)
  {
    var sealed, pending;
    verdict, sealed, pending := Collect(messages, cap);
    if !verdict.Complete? {
      return verdict, [];
    }
    ReceivedIsConcat(messages);
    blocks := Finish(sealed, pending, cap, BLOCK_BYTES + LargestChunk(messages));
  }

  // --- the replay ----------------------------------------------------------------------------------

  /** The messages a drained replay serves. */
  function Replayed(blocks: seq<seq<Byte>>): (messages: seq<Message>)
    ensures |messages| == |blocks|
  {
    seq(|blocks|, i requires 0 <= i < |blocks| => Request(blocks[i], i + 1 < |blocks|))
  }

  class Replay {
    var queue: seq<seq<Byte>>

    constructor (blocks: seq<seq<Byte>>)
      ensures queue == blocks
    {
      queue := blocks;
    }

    /** The next buffered block, or None to hand over to the original `receive`. */
    method Next() returns (message: Option<Message>)
      modifies this
      ensures old(queue) == [] ==> message == None && queue == []
      ensures old(queue) != [] ==> message == Some(Replayed(old(queue))[0]) && queue == old(queue)[1..]
    {
      if queue == [] {
        return None;
      }
      var body := queue[0];
      queue := queue[1..];
      return Some(Request(body, queue != []));
    }

    /** An application that reads until the original `receive` would be called. */
    method Drain() returns (messages: seq<Message>)
      modifies this
      ensures queue == [] && messages == Replayed(old(queue))
    {
      messages := [];
      ghost var all := Replayed(queue);
      while true
        invariant all == messages + Replayed(queue)
        decreases |queue|
      {
        ReplayedSplit(queue);
        var next := Next();
        if next.None? {
          break;
        }
        messages := messages + [next.value];
      }
    }
  }

  lemma ReplayedSplit(blocks: seq<seq<Byte>>)
    ensures blocks != [] ==> Replayed(blocks) == [Replayed(blocks)[0]] + Replayed(blocks[1..])
  {
    if blocks != [] {
      ReplayedTail(blocks);
    }
  }

  lemma {:induction false} ReplayedTail(blocks: seq<seq<Byte>>)
    requires blocks != []
    ensures Replayed(blocks)[0] == Request(blocks[0], |blocks| > 1)
    ensures Replayed(blocks)[1..] == Replayed(blocks[1..])
  {
  }

  /** Replayed messages are themselves a complete body: the same blocks, and within any cap they fit. */
  lemma {:induction false} ReplayReadsBack(blocks: seq<seq<Byte>>, total: nat, cap: nat)
    requires blocks != []
    ensures Bodies(Replayed(blocks)) == blocks
    ensures VerdictOf(Replayed(blocks), total, cap) == if total + |Concat(blocks)| <= cap then Complete else Overflow
    decreases |blocks|
  {
    ReplayedTail(blocks);
    var rest := blocks[1..];
    assert blocks == [blocks[0]] + rest;
    ConcatCons(blocks[0], rest);
    if rest != [] {
      ReplayReadsBack(rest, total + |blocks[0]|, cap);
    } else {
      assert Concat(rest) == [];
    }
  }

  // --- the middleware --------------------------------------------------------------------------------

  datatype Outcome = Served(messages: seq<Message>) | TooLarge | Incomplete | NeverAnswered

  /** Bodies of messages that end normally: each is a request, and only the last says there is no more. */
  predicate EndsNormally(messages: seq<Message>) {
    && messages != []
    && (forall i :: 0 <= i < |messages| ==> messages[i].Request? && (messages[i].more <==> i + 1 < |messages|))
  }

  lemma {:induction false} NormalVerdict(messages: seq<Message>, total: nat, cap: nat)
    requires EndsNormally(messages)
    ensures |Bodies(messages)| == |messages|
    ensures forall i :: 0 <= i < |messages| ==> Bodies(messages)[i] == messages[i].body
    ensures VerdictOf(messages, total, cap) == if total + |Concat(Bodies(messages))| <= cap then Complete else Overflow
    decreases |messages|
  {
    var m, rest := messages[0], messages[1..];
    ConcatCons(m.body, Bodies(rest));
    if rest == [] {
      ConcatOne(m.body);
    } else {
      NormalVerdict(rest, total + |m.body|, cap);
    }
  }

  /** The first `k` messages are parts of the body with more to come. */
  predicate Flowing(messages: seq<Message>, k: nat) {
    k <= |messages| && forall i :: 0 <= i < k ==> messages[i].Request? && messages[i].more
  }

  /** The bytes in the first `k` messages. */
  function Taken(messages: seq<Message>, k: nat): nat
    requires k <= |messages|
  {
    if k == 0 then 0 else (if messages[0].Request? then |messages[0].body| else 0) + Taken(messages[1..], k - 1)
  }

  /** Message `k` ends the body, goes over the cap, or is no part of a body at all. */
  predicate EndsAt(messages: seq<Message>, k: nat, total: nat, cap: nat) {
    && k < |messages| && Flowing(messages, k) && messages[k].Request? && !messages[k].more
    && total + Taken(messages, k + 1) <= cap
  }

  predicate ExceedsAt(messages: seq<Message>, k: nat, total: nat, cap: nat) {
    k < |messages| && Flowing(messages, k) && messages[k].Request? && total + Taken(messages, k + 1) > cap
  }

  predicate BreaksAt(messages: seq<Message>, k: nat, total: nat, cap: nat) {
    k < |messages| && Flowing(messages, k) && messages[k].Other? && total + Taken(messages, k) <= cap
  }

  lemma OneLater(messages: seq<Message>, k: nat, total: nat, cap: nat)
    requires messages != [] && messages[0].Request? && messages[0].more
    ensures var rest, taken := messages[1..], total + |messages[0].body|;
            && (EndsAt(messages, k + 1, total, cap) <==> EndsAt(rest, k, taken, cap))
            && (ExceedsAt(messages, k + 1, total, cap) <==> ExceedsAt(rest, k, taken, cap))
            && (BreaksAt(messages, k + 1, total, cap) <==> BreaksAt(rest, k, taken, cap))
            && (Flowing(messages, k + 1) <==> Flowing(rest, k))
  {
    var rest := messages[1..];
    assert Flowing(messages, k + 1) <==> Flowing(rest, k) by {
      assert forall i :: 0 <= i < |rest| ==> rest[i] == messages[i + 1];
      if Flowing(rest, k) {
        forall i | 0 <= i < k + 1 ensures messages[i].Request? && messages[i].more {
          assert i > 0 ==> messages[i] == rest[i - 1];
        }
      }
    }
  }

  /** The verdict by the message that decides it. */
  lemma {:induction false} VerdictExactly(messages: seq<Message>, total: nat, cap: nat)
    requires total <= cap
    ensures VerdictOf(messages, total, cap) == Complete <==> exists k: nat :: EndsAt(messages, k, total, cap)
    ensures VerdictOf(messages, total, cap) == Overflow <==> exists k: nat :: ExceedsAt(messages, k, total, cap)
    ensures VerdictOf(messages, total, cap) == Disconnected <==> exists k: nat :: BreaksAt(messages, k, total, cap)
    ensures VerdictOf(messages, total, cap) == Waiting <==>
            Flowing(messages, |messages|) && total + Taken(messages, |messages|) <= cap
    decreases |messages|
  {
    if messages != [] {
      FirstMessage(messages, total, cap);
      var m, rest := messages[0], messages[1..];
      if m.Request? && m.more && total + |m.body| <= cap {
        var taken := total + |m.body|;
        VerdictExactly(rest, taken, cap);
        hide EndsAt, ExceedsAt, BreaksAt, Flowing;
        forall k: nat
          ensures EndsAt(messages, k + 1, total, cap) <==> EndsAt(rest, k, taken, cap)
          ensures ExceedsAt(messages, k + 1, total, cap) <==> ExceedsAt(rest, k, taken, cap)
          ensures BreaksAt(messages, k + 1, total, cap) <==> BreaksAt(rest, k, taken, cap)
          ensures Flowing(messages, k + 1) <==> Flowing(rest, k)
        {
          OneLater(messages, k, total, cap);
        }
        LaterOrNow(messages, rest, total, taken, cap);
      }
    }
  }

  /** What the first message decides. */
  lemma FirstMessage(messages: seq<Message>, total: nat, cap: nat)
    requires messages != [] && total <= cap
    ensures var m := messages[0];
            && (EndsAt(messages, 0, total, cap) <==> m.Request? && !m.more && total + |m.body| <= cap)
            && (ExceedsAt(messages, 0, total, cap) <==> m.Request? && total + |m.body| > cap)
            && (BreaksAt(messages, 0, total, cap) <==> m.Other?)
            && (!(m.Request? && m.more) ==> forall k: nat :: k > 0 ==> !Flowing(messages, k))
            && (m.Request? && total + |m.body| > cap ==>
                  forall k: nat :: k < |messages| ==>
                    !EndsAt(messages, k, total, cap) && !BreaksAt(messages, k + 1, total, cap))
            && (m.Request? && total + |m.body| > cap ==> total + Taken(messages, |messages|) > cap)
  {
    assert Taken(messages, 1) == if messages[0].Request? then |messages[0].body| else 0;
  }

  lemma LaterOrNow(messages: seq<Message>, rest: seq<Message>, total: nat, taken: nat, cap: nat)
    requires messages != [] && rest == messages[1..] && messages[0].Request? && messages[0].more
    requires taken == total + |messages[0].body| <= cap
    ensures (exists k: nat :: EndsAt(messages, k, total, cap)) <==> exists k: nat :: EndsAt(rest, k, taken, cap)
    ensures (exists k: nat :: ExceedsAt(messages, k, total, cap)) <==> exists k: nat :: ExceedsAt(rest, k, taken, cap)
    ensures (exists k: nat :: BreaksAt(messages, k, total, cap)) <==> exists k: nat :: BreaksAt(rest, k, taken, cap)
  {
    FirstMessage(messages, total, cap);
    hide EndsAt, ExceedsAt, BreaksAt;
    if k: nat :| EndsAt(messages, k, total, cap) { OneLater(messages, k - 1, total, cap); }
    if k: nat :| EndsAt(rest, k, taken, cap) { OneLater(messages, k, total, cap); }
    if k: nat :| ExceedsAt(messages, k, total, cap) { OneLater(messages, k - 1, total, cap); }
    if k: nat :| ExceedsAt(rest, k, taken, cap) { OneLater(messages, k, total, cap); }
    if k: nat :| BreaksAt(messages, k, total, cap) { OneLater(messages, k - 1, total, cap); }
    if k: nat :| BreaksAt(rest, k, taken, cap) { OneLater(messages, k, total, cap); }
  }

  /** `BodyLimitMiddleware.__call__` for an HTTP request. */
  method Handle(headers: seq<Header>, messages: seq<Message>, cap: nat) returns (outcome: Outcome)
    ensures cap < 1_000_000_000_000_000_000 && DeclaresMore(headers, cap) ==> outcome == TooLarge
    ensures !(cap < 1_000_000_000_000_000_000 && DeclaresMore(headers, cap)) ==>
              match VerdictOf(messages, 0, cap)
              case Overflow => outcome == TooLarge
              case Disconnected => outcome == Incomplete
              case Waiting => outcome == NeverAnswered
              case Complete =>
                && outcome.Served?
                && EndsNormally(outcome.messages) && |outcome.messages| <= cap / 65536 + 1
                && Concat(Bodies(outcome.messages)) == Concat(Bodies(messages))
                && |Concat(Bodies(messages))| <= cap
  {
    EarlyRefusalExact(headers, cap);
    hide DeclaresMore;
    var declared := Declared(headers);
    if declared.Some? && declared.value > cap {
      return TooLarge;
    }
    var verdict, blocks := ReadBounded(messages, cap);
    match verdict {
      case Overflow => return TooLarge;
      case Disconnected => return Incomplete;
      case Waiting => return NeverAnswered;
      case Complete =>
        var replay := new Replay(blocks);
        var served := replay.Drain();
        ReplayReadsBack(blocks, 0, cap);
        return Served(served);
    }
  }

  /** On a stream that ends normally and declares no length, this reader and the doubling reader agree. */
  method ReadersAgree(messages: seq<Message>, cap: nat)
    returns (verdict: Verdict, blocks: seq<seq<Byte>>, body: Option<seq<Byte>>)
    requires EndsNormally(messages)
    ensures verdict.Complete? <==> |Concat(Bodies(messages))| <= cap
    ensures verdict.Complete? <==> body.Some?
    ensures verdict.Overflow? <==> body.None?
    ensures body.Some? ==> Concat(blocks) == body.value == Concat(Bodies(messages))
  {
    verdict, blocks := ReadBounded(messages, cap);
    NormalVerdict(messages, 0, cap);
    var chunks := seq(|messages|, i requires 0 <= i < |messages| => messages[i].body);
    assert chunks == Bodies(messages);
    var capacity, reallocations, copied;
    body, capacity, reallocations, copied := DoublingReader.ReadStream(chunks, cap);
  }
}
