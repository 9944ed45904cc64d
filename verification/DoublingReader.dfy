/** Byte chunks and their concatenation. */
module Chunks {
  import opened Utf8

  function Concat(chunks: seq<seq<Byte>>): seq<Byte> {
    if chunks == [] then [] else Concat(chunks[..|chunks| - 1]) + chunks[|chunks| - 1]
  }

  lemma ConcatOne(chunk: seq<Byte>)
    ensures Concat([chunk]) == chunk
  {
    assert [chunk][..0] == [];
  }

  lemma ConcatSnoc(chunks: seq<seq<Byte>>, chunk: seq<Byte>)
    ensures Concat(chunks + [chunk]) == Concat(chunks) + chunk
  {
    assert (chunks + [chunk])[..|chunks|] == chunks;
  }

  lemma {:induction false} ConcatAppend(a: seq<seq<Byte>>, b: seq<seq<Byte>>)
    ensures Concat(a + b) == Concat(a) + Concat(b)
    decreases |b|
  {
    if b == [] {
      assert a + b == a;
    } else {
      var front, last := b[..|b| - 1], b[|b| - 1];
      assert a + b == (a + front) + [last];
      ConcatSnoc(a + front, last);
      ConcatAppend(a, front);
    }
  }

  lemma ConcatCons(chunk: seq<Byte>, chunks: seq<seq<Byte>>)
    ensures Concat([chunk] + chunks) == chunk + Concat(chunks)
  {
    ConcatAppend([chunk], chunks);
    ConcatOne(chunk);
  }

  /** The bytes so far are never more than the bytes in all. */
  lemma ConcatUpTo(chunks: seq<seq<Byte>>, i: nat)
    requires i < |chunks|
    ensures Concat(chunks[..i + 1]) == Concat(chunks[..i]) + chunks[i]
    ensures |Concat(chunks[..i + 1])| <= |Concat(chunks)|
  {
    assert chunks[..i + 1] == chunks[..i] + [chunks[i]];
    ConcatSnoc(chunks[..i], chunks[i]);
    assert chunks == chunks[..i + 1] + chunks[i + 1..];
    ConcatAppend(chunks[..i + 1], chunks[i + 1..]);
  }
}

/**
 The bounded body reader of the edge worker and the console: chunks are copied into a buffer that
 doubles, never past the cap. The counters of reallocations and of bytes copied while growing are
 the model's; the code keeps only the buffer and its length.
 */
module DoublingReader {
  import opened Basics
  import opened Utf8
  import opened Chunks
  import JsonText

  function Pow2(n: nat): (p: nat)
    ensures p >= 1
  {
    if n == 0 then 1 else 2 * Pow2(n - 1)
  }

  lemma {:induction false} Pow2Monotone(a: nat, b: nat)
    requires a <= b
    ensures Pow2(a) <= Pow2(b)
    decreases b
  {
    if a < b {
      Pow2Monotone(a, b - 1);
    }
  }

  /** The least power of two that reaches `n`. */
  function CeilLog2(n: nat): (k: nat)
    requires n > 0
    ensures Pow2(k) >= n && (k > 0 ==> Pow2(k - 1) < n)
  {
    if n == 1 then 0 else
    var k := CeilLog2((n + 1) / 2);
    assert k > 0 ==> Pow2(k) == 2 * Pow2(k - 1);
    k + 1
  }

  lemma PowerBelow(k: nat, n: nat)
    requires n > 0
    ensures Pow2(k) <= n ==> k <= CeilLog2(n)
    ensures Pow2(k) < n ==> k < CeilLog2(n)
  {
    if k > CeilLog2(n) {
      Pow2Monotone(CeilLog2(n) + 1, k);
    } else if k == CeilLog2(n) {
      assert Pow2(k) >= n;
    }
  }

  function NextCapacity(capacity: nat, needed: nat, cap: nat): nat {
    Min(cap, Max(capacity * 2, needed))
  }

  /**
   How often the buffer has been reallocated, for a capacity: each reallocation but the one that
   reaches the cap at least doubles it.
   */
  predicate Doublings(reallocations: nat, capacity: nat, cap: nat) {
    && (reallocations == 0 ==> capacity == 0)
    && (reallocations == 1 ==> capacity >= 1)
    && (reallocations >= 2 ==>
          Pow2(reallocations - 1) <= capacity || (capacity == cap && Pow2(reallocations - 2) < cap))
  }

  /** Bytes copied while growing, for a capacity. */
  predicate Copies(copied: nat, capacity: nat, cap: nat) {
    copied <= capacity || (capacity == cap && copied <= 2 * cap)
  }

  lemma GrowthStep(reallocations: nat, copied: nat, capacity: nat, length: nat, needed: nat, cap: nat)
    requires Doublings(reallocations, capacity, cap) && Copies(copied, capacity, cap)
    requires length <= capacity < needed <= cap
    ensures needed <= NextCapacity(capacity, needed, cap) <= cap
    ensures Doublings(reallocations + 1, NextCapacity(capacity, needed, cap), cap)
    ensures Copies(copied + length, NextCapacity(capacity, needed, cap), cap)
  {
    if reallocations >= 1 {
      assert Pow2(reallocations) == 2 * Pow2(reallocations - 1);
    }
  }

  lemma DoublingsBounded(reallocations: nat, capacity: nat, cap: nat)
    requires Doublings(reallocations, capacity, cap) && capacity <= cap && cap > 0
    ensures reallocations <= CeilLog2(cap) + 1
  {
    if reallocations >= 2 {
      PowerBelow(reallocations - 1, cap);
      PowerBelow(reallocations - 2, cap);
    }
  }

  /** `Uint8Array.set`: the value's bytes at an offset. */
  method SetBytes(buffer: array<Byte>, value: seq<Byte>, at: nat)
    requires at + |value| <= buffer.Length
    modifies buffer
    ensures buffer[..at + |value|] == old(buffer[..at]) + value
  {
    forall k | 0 <= k < |value| {
      buffer[at + k] := value[k];
    }
  }

  /** One chunk that fits the cap: the buffer grows if it must, and the chunk goes after the bytes held. */
  method Append(buffer: array<Byte>, length: nat, value: seq<Byte>, cap: nat) returns (grown: array<Byte>)
    requires length <= buffer.Length && length + |value| <= cap
    modifies buffer
    ensures grown == buffer || fresh(grown)
    ensures grown.Length ==
            if length + |value| <= buffer.Length then buffer.Length
            else if cap <= 2 * buffer.Length then cap
            else if length + |value| <= 2 * buffer.Length then 2 * buffer.Length
            else length + |value|
    ensures length + |value| <= grown.Length && grown[..length + |value|] == old(buffer[..length]) + value
  {
    grown := buffer;
    if length + |value| > buffer.Length {
      grown := new Byte[NextCapacity(buffer.Length, length + |value|, cap)];
      SetBytes(grown, buffer[..length], 0);
    }
    SetBytes(grown, value, length);
  }

  /**
   The read loop. Returns exactly the bytes of the stream when they fit the cap and null otherwise;
   the buffer never exceeds the cap, and growing it is logarithmic in allocations and linear in copies.
   */
  method ReadStream(chunks: seq<seq<Byte>>, cap: nat)
    returns (body: Option<seq<Byte>>, capacity: nat, reallocations: nat, copied: nat)
    ensures body == if |Concat(chunks)| <= cap then Some(Concat(chunks)) else None
    ensures capacity <= cap
    ensures cap > 0 ==> reallocations <= CeilLog2(cap) + 1
    ensures cap == 0 ==> reallocations == 0
    ensures copied <= 2 * cap
  {
    var buffer := new Byte[0];
    var length: nat := 0;
    capacity, reallocations, copied := 0, 0, 0;
    for i := 0 to |chunks|
      invariant fresh(buffer) && length <= buffer.Length == capacity <= cap
      invariant buffer[..length] == Concat(chunks[..i])
      invariant Doublings(reallocations, capacity, cap) && Copies(copied, capacity, cap)
    {
      var value := chunks[i];
      ConcatUpTo(chunks, i);
      if length + |value| > cap {
        BoundsAtExit(reallocations, copied, capacity, cap);
        return None, capacity, reallocations, copied;
      }
      if length + |value| > capacity {
        GrowthStep(reallocations, copied, capacity, length, length + |value|, cap);
        reallocations, copied := reallocations + 1, copied + length;
      }
      buffer := Append(buffer, length, value, cap);
      length, capacity := length + |value|, buffer.Length;
    }
    assert chunks[..|chunks|] == chunks;
    body := Some(buffer[..length]);
    BoundsAtExit(reallocations, copied, capacity, cap);
  }

  lemma BoundsAtExit(reallocations: nat, copied: nat, capacity: nat, cap: nat)
    requires Doublings(reallocations, capacity, cap) && Copies(copied, capacity, cap) && capacity <= cap
    ensures cap > 0 ==> reallocations <= CeilLog2(cap) + 1
    ensures cap == 0 ==> reallocations == 0
    ensures copied <= 2 * cap
  {
    if cap > 0 {
      DoublingsBounded(reallocations, capacity, cap);
    }
  }

  /** A Content-Length of digits only, as a number; anything else counts as undeclared. */
  function DeclaredLength(header: Option<string>): Option<nat> {
    if header.None? || header.value == [] || exists c :: c in header.value && !JsonText.IsDigit(c) then None
    else Some(JsonText.DecimalValue(header.value))
  }

  /** The body a caller gets: nothing is read when the declared length is over the cap or there is no stream. */
  method ReadBoundedBody(header: Option<string>, stream: Option<seq<seq<Byte>>>, cap: nat)
    returns (body: Option<seq<Byte>>)
    ensures body == None <==>
            || (header.Some? && header.value != [] && (forall c :: c in header.value ==> '0' <= c <= '9')
                && JsonText.DecimalValue(header.value) > cap)
            || (stream.Some? && |Concat(stream.value)| > cap)
    ensures body.Some? ==> body.value == if stream.None? then [] else Concat(stream.value)
  {
    var declared := DeclaredLength(header);
    if declared.Some? && declared.value > cap {
      return None;
    }
    if stream.None? {
      return Some([]);
    }
    var capacity, reallocations, copied;
    body, capacity, reallocations, copied := ReadStream(stream.value, cap);
  }
}
