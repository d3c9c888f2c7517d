/**
 The chunked body decoder of the supplier-offer transport with its running byte budget: section 7.1 of
 RFC 9112, without chunk extensions and without trailer fields.

 `Chunks` says what a wire image means; `Wire` is the encoder.  `Response` reads incrementally, in
 pieces of any positive size.
 */
module Chunked {
  import opened Common

  const CR: Byte := 13
  const LF: Byte := 10
  const CRLF: seq<Byte> := [CR, LF]
  const LINE_LIMIT := 65

  // ----- size lines -----------------------------------------------------------------------

  predicate IsHex(b: Byte) { 48 <= b <= 57 || 65 <= b <= 70 || 97 <= b <= 102 }

  function DigitValue(b: Byte): nat {
    if 48 <= b <= 57 then b - 48 else if 65 <= b <= 70 then b - 55 else if 97 <= b <= 102 then b - 87 else 0
  }

  function HexValue(digits: seq<Byte>): nat {
    if digits == [] then 0 else HexValue(digits[..|digits| - 1]) * 16 + DigitValue(digits[|digits| - 1])
  }

  predicate AllHex(t: seq<Byte>) { forall i :: 0 <= i < |t| ==> IsHex(t[i]) }

  /** Where `readline(limit)` stops: after the first line feed, or at the limit or the end. */
  function LineEnd(input: seq<Byte>, limit: nat): (n: nat)
    ensures n <= |input| && n <= limit
    ensures forall i :: 0 <= i < n - 1 ==> input[i] != LF
    ensures n < |input| && n < limit ==> n > 0 && input[n - 1] == LF
  {
    if limit == 0 || input == [] then 0
    else if input[0] == LF then 1
    else 1 + LineEnd(input[1..], limit - 1)
  }

  function ReadLine(input: seq<Byte>, limit: nat): seq<Byte> { input[..LineEnd(input, limit)] }

  /** One or more hexadecimal digits and the line end. */
  predicate IsSizeLine(line: seq<Byte>) {
    |line| >= 3 && line[|line| - 2..] == CRLF && AllHex(line[..|line| - 2])
  }

  /** Digits that fit a size line. */
  predicate IsSizeText(digits: seq<Byte>) { 1 <= |digits| <= LINE_LIMIT - 2 && AllHex(digits) }

  lemma ReadLineFinds(line: seq<Byte>, rest: seq<Byte>, limit: nat)
    requires line != [] && |line| <= limit && line[|line| - 1] == LF
    requires forall i :: 0 <= i < |line| - 1 ==> line[i] != LF
    ensures ReadLine(line + rest, limit) == line
  {
    var input := line + rest;
    var n := LineEnd(input, limit);
    assert forall i :: 0 <= i < |line| ==> input[i] == line[i];
    assert n == |line|;
    assert input[..|line|] == line;
  }

  lemma SizeLineFound(digits: seq<Byte>, rest: seq<Byte>)
    requires IsSizeText(digits)
    ensures ReadLine(digits + CRLF + rest, LINE_LIMIT) == digits + CRLF && IsSizeLine(digits + CRLF)
    ensures (digits + CRLF)[..|digits|] == digits && (digits + CRLF + rest)[|digits| + 2..] == rest
  {
    var line := digits + CRLF;
    assert forall i :: 0 <= i < |digits| ==> line[i] == digits[i];
    ReadLineFinds(line, rest, LINE_LIMIT);
  }

  // ----- the meaning of a wire image ------------------------------------------------------

  datatype Decoded = Bad | Body(bytes: seq<Byte>, rest: seq<Byte>)

  function Prepend(head: seq<Byte>, d: Decoded): Decoded {
    if d.Bad? then Bad else Body(head + d.bytes, d.rest)
  }

  /** At a size line, with at most `budget` more body bytes allowed. */
  function Chunks(input: seq<Byte>, budget: nat): Decoded
    decreases |input|, 1
  {
    var line := ReadLine(input, LINE_LIMIT);
    if !IsSizeLine(line) then Bad
    else
      var size, after := HexValue(line[..|line| - 2]), input[|line|..];
      if size > budget then Bad
      else if size > 0 then Inside(after, size, budget - size)
      else if ReadLine(after, 3) == CRLF then Body([], after[2..])
      else Bad
  }

  /** Inside a chunk with `left` bytes to go. */
  function Inside(input: seq<Byte>, left: nat, budget: nat): Decoded
    decreases |input|, 0
  {
    if |input| < left + 2 || input[left..left + 2] != CRLF then Bad
    else Prepend(input[..left], Chunks(input[left + 2..], budget))
  }

  /** A part of the chunk can be taken first. */
  lemma InsideSplits(input: seq<Byte>, left: nat, amount: nat, budget: nat)
    requires amount <= left && amount <= |input|
    ensures Inside(input, left, budget) == Prepend(input[..amount], Inside(input[amount..], left - amount, budget))
  {
    hide Chunks;
    var tail := input[amount..];
    if |input| >= left + 2 {
      assert tail[left - amount..left - amount + 2] == input[left..left + 2];
      assert tail[left - amount + 2..] == input[left + 2..];
      var d := Chunks(input[left + 2..], budget);
      if d.Body? {
        assert input[..left] + d.bytes == input[..amount] + (tail[..left - amount] + d.bytes);
      }
    }
  }

  lemma InsideTooShort(input: seq<Byte>, left: nat, budget: nat)
    requires left > |input|
    ensures Inside(input, left, budget).Bad?
  {
  }

  lemma {:induction false} WithinBudget(input: seq<Byte>, budget: nat)
    ensures Chunks(input, budget).Body? ==> |Chunks(input, budget).bytes| <= budget
    decreases |input|
  {
    var line := ReadLine(input, LINE_LIMIT);
    if IsSizeLine(line) {
      var size, after := HexValue(line[..|line| - 2]), input[|line|..];
      if 0 < size <= budget && |after| >= size + 2 {
        WithinBudget(after[size + 2..], budget - size);
      }
    }
  }

  // ----- the encoder ----------------------------------------------------------------------

  const LOWER := "0123456789abcdef"
  const UPPER := "0123456789ABCDEF"

  function Digit(value: nat, upper: bool): Byte
    requires value < 16
  {
    (if upper then UPPER[value] else LOWER[value]) as int
  }

  /** How many numbers can be written with this many hexadecimal digits. */
  function Numbers(width: nat): nat { if width == 0 then 1 else 16 * Numbers(width - 1) }

  /** The number as `width` hexadecimal digits, most significant first and zeros in front; the digits at
      the positions in `upper` are in upper case. */
  function SizeText(n: nat, width: nat, upper: set<nat>): (t: seq<Byte>)
    ensures |t| == width
  {
    if width == 0 then [] else SizeText(n / 16, width - 1, upper) + [Digit(n % 16, width in upper)]
  }

  lemma DigitRead(value: nat, upper: bool)
    requires value < 16
    ensures IsHex(Digit(value, upper)) && DigitValue(Digit(value, upper)) == value
  {
    assert LOWER[value] == (if value < 10 then '0' + value as char else 'a' + (value - 10) as char);
    assert UPPER[value] == (if value < 10 then '0' + value as char else 'A' + (value - 10) as char);
  }

  /** The size that is read is the size that was written. */
  lemma {:induction false} SizeTextRead(n: nat, width: nat, upper: set<nat>)
    requires n < Numbers(width)
    ensures AllHex(SizeText(n, width, upper)) && HexValue(SizeText(n, width, upper)) == n
  {
    if width > 0 {
      var t := SizeText(n, width, upper);
      SizeTextRead(n / 16, width - 1, upper);
      DigitRead(n % 16, width in upper);
      hide Digit, DigitValue, IsHex;
      assert t[..width - 1] == SizeText(n / 16, width - 1, upper);
    }
  }

  /** Positions beyond the digits do not matter. */
  lemma {:induction false} CasesBeyond(n: nat, width: nat, upper: set<nat>, more: nat)
    requires more > width
    ensures SizeText(n, width, upper + {more}) == SizeText(n, width, upper)
  {
    if width > 0 {
      CasesBeyond(n / 16, width - 1, upper, more);
    }
  }

  /** Every text of hexadecimal digits is some number written this way. */
  lemma {:induction false} EveryHexIsSizeText(t: seq<Byte>) returns (upper: set<nat>)
    requires AllHex(t)
    ensures HexValue(t) < Numbers(|t|) && t == SizeText(HexValue(t), |t|, upper)
  {
    upper := {};
    if t != [] {
      var last := t[|t| - 1];
      upper := EveryHexIsSizeText(t[..|t| - 1]);
      assert IsHex(last);
      DigitBack(last);
      hide Digit, DigitValue, IsHex;
      var n := HexValue(t);
      assert n / 16 == HexValue(t[..|t| - 1]) && n % 16 == DigitValue(last);
      if 65 <= last <= 70 {
        CasesBeyond(n / 16, |t| - 1, upper, |t|);
        upper := upper + {|t|};
      } else {
        LessCases(n / 16, |t| - 1, upper, |t|);
        upper := upper - {|t|};
      }
      assert t == t[..|t| - 1] + [last];
    }
  }

  lemma {:induction false} LessCases(n: nat, width: nat, upper: set<nat>, more: nat)
    requires more > width
    ensures SizeText(n, width, upper - {more}) == SizeText(n, width, upper)
  {
    if width > 0 {
      LessCases(n / 16, width - 1, upper, more);
    }
  }

  lemma DigitBack(b: Byte)
    requires IsHex(b)
    ensures DigitValue(b) < 16 && Digit(DigitValue(b), 65 <= b <= 70) == b
  {
    var value := DigitValue(b);
    assert LOWER[value] == (if value < 10 then '0' + value as char else 'a' + (value - 10) as char);
    assert UPPER[value] == (if value < 10 then '0' + value as char else 'A' + (value - 10) as char);
  }

  /** A chunk: how its size is written, and its data. */
  datatype Chunk = Chunk(width: nat, upper: set<nat>, data: seq<Byte>)

  function Digits(c: Chunk): seq<Byte> { SizeText(|c.data|, c.width, c.upper) }

  /** A size line has at most 63 digits, and the size fits its digits. */
  predicate ChunkOk(c: Chunk) { 1 <= c.width <= 63 && 0 < |c.data| < Numbers(c.width) }

  predicate AllOk(chunks: seq<Chunk>) { forall i :: 0 <= i < |chunks| ==> ChunkOk(chunks[i]) }

  /** The last size line is zero, written with this many digits. */
  predicate IsLast(zeros: nat) { 1 <= zeros <= 63 }

  const NEWLINE: seq<Byte> := ['\r' as int, '\n' as int]

  function Wire(chunks: seq<Chunk>, zeros: nat): seq<Byte> {
    if chunks == [] then SizeText(0, zeros, {}) + NEWLINE + NEWLINE
    else Digits(chunks[0]) + NEWLINE + (chunks[0].data + NEWLINE + Wire(chunks[1..], zeros))
  }

  lemma {:induction false} NumbersPositive(width: nat)
    ensures Numbers(width) >= 1
  {
    if width > 0 {
      NumbersPositive(width - 1);
    }
  }

  lemma ChunkSizeRead(c: Chunk)
    requires ChunkOk(c)
    ensures IsSizeText(Digits(c)) && HexValue(Digits(c)) == |c.data|
  {
    SizeTextRead(|c.data|, c.width, c.upper);
  }

  lemma LastSizeRead(zeros: nat)
    requires IsLast(zeros)
    ensures IsSizeText(SizeText(0, zeros, {})) && HexValue(SizeText(0, zeros, {})) == 0
  {
    NumbersPositive(zeros);
    SizeTextRead(0, zeros, {});
  }

  /** Zero is written in one way only: it has no letters. */
  lemma {:induction false} ZeroHasNoLetters(width: nat, upper: set<nat>)
    ensures SizeText(0, width, upper) == SizeText(0, width, {})
  {
    if width > 0 {
      ZeroHasNoLetters(width - 1, upper);
      assert LOWER[0] == UPPER[0];
    }
  }

  function Data(chunks: seq<Chunk>): seq<Byte> {
    if chunks == [] then [] else chunks[0].data + Data(chunks[1..])
  }

  /** What follows a size line. */
  function AfterSize(size: nat, after: seq<Byte>, budget: nat): Decoded {
    if size > budget then Bad
    else if size > 0 then Inside(after, size, budget - size)
    else if ReadLine(after, 3) == CRLF then Body([], after[2..])
    else Bad
  }

  lemma AtSizeLine(digits: seq<Byte>, after: seq<Byte>, budget: nat)
    requires IsSizeText(digits)
    ensures Chunks(digits + CRLF + after, budget) == AfterSize(HexValue(digits), after, budget)
  {
    hide HexValue, Inside;
    SizeLineFound(digits, after);
  }

  lemma InsideWhole(data: seq<Byte>, tail: seq<Byte>, budget: nat)
    ensures Inside(data + CRLF + tail, |data|, budget) == Prepend(data, Chunks(tail, budget))
  {
    hide Chunks;
    var after := data + CRLF + tail;
    assert after[..|data|] == data && after[|data|..|data| + 2] == CRLF && after[|data| + 2..] == tail;
  }

  /** Decoding inverts encoding, whatever follows on the connection, exactly when the budget suffices. */
  lemma {:induction false} DecodesWire(chunks: seq<Chunk>, zeros: nat, rest: seq<Byte>, budget: nat)
    requires AllOk(chunks) && IsLast(zeros)
    ensures Chunks(Wire(chunks, zeros) + rest, budget) ==
              if |Data(chunks)| <= budget then Body(Data(chunks), rest) else Bad
  {
    hide HexValue, IsSizeText, SizeText, Digits, Chunks, Inside, ReadLine;
    if chunks == [] {
      var line := SizeText(0, zeros, {});
      assert Wire(chunks, zeros) + rest == line + CRLF + (CRLF + rest);
      LastSizeRead(zeros);
      AtSizeLine(line, CRLF + rest, budget);
      ReadLineFinds(CRLF, rest, 3);
      assert (CRLF + rest)[2..] == rest;
    } else {
      var c, tail := chunks[0], Wire(chunks[1..], zeros) + rest;
      ChunkSizeRead(c);
      assert Wire(chunks, zeros) + rest == Digits(c) + CRLF + (c.data + CRLF + tail);
      AtSizeLine(Digits(c), c.data + CRLF + tail, budget);
      if |c.data| <= budget {
        InsideWhole(c.data, tail, budget - |c.data|);
        DecodesWire(chunks[1..], zeros, rest, budget - |c.data|);
      }
    }
  }

  /** A decodable image starts with a size line. */
  lemma SizeLineSplit(input: seq<Byte>, budget: nat) returns (digits: seq<Byte>, after: seq<Byte>)
    requires Chunks(input, budget).Body?
    ensures IsSizeText(digits) && input == digits + CRLF + after
  {
    hide HexValue, Inside;
    var line := ReadLine(input, LINE_LIMIT);
    digits, after := line[..|line| - 2], input[|line|..];
    assert line == digits + CRLF;
  }

  lemma InsideSplit(after: seq<Byte>, size: nat, budget: nat) returns (data: seq<Byte>, tail: seq<Byte>)
    requires Inside(after, size, budget).Body?
    ensures |data| == size && after == data + CRLF + tail
  {
    hide Chunks;
    data, tail := after[..size], after[size + 2..];
  }

  /** A decodable image is the last line and the empty trailer, or a chunk and a decodable image. */
  lemma OneChunk(input: seq<Byte>, budget: nat) returns (digits: seq<Byte>, data: seq<Byte>, tail: seq<Byte>)
    requires Chunks(input, budget).Body?
    ensures IsSizeText(digits) && HexValue(digits) == |data| <= budget
    ensures data == [] ==> input == digits + CRLF + CRLF + tail && Chunks(input, budget) == Body([], tail)
    ensures data != [] ==> input == digits + CRLF + (data + CRLF + tail)
    ensures data != [] ==> Chunks(input, budget) == Prepend(data, Chunks(tail, budget - |data|)) && |tail| < |input|
  {
    hide HexValue, IsSizeText, Chunks, Inside;
    var after;
    digits, after := SizeLineSplit(input, budget);
    AtSizeLine(digits, after, budget);
    var size := HexValue(digits);
    if size == 0 {
      data, tail := [], after[2..];
      assert after == CRLF + tail;
      assert digits + CRLF + (CRLF + tail) == digits + CRLF + CRLF + tail;
    } else {
      data, tail := InsideSplit(after, size, budget - size);
      InsideWhole(data, tail, budget - size);
    }
  }

  lemma WireStep(c: Chunk, chunks: seq<Chunk>, zeros: nat, rest: seq<Byte>)
    ensures Wire([c] + chunks, zeros) + rest == Digits(c) + CRLF + (c.data + CRLF + (Wire(chunks, zeros) + rest))
    ensures Data([c] + chunks) == c.data + Data(chunks)
  {
    hide SizeText, Digits;
    assert ([c] + chunks)[1..] == chunks;
  }

  /** Nothing but an encoding is accepted. */
  lemma {:induction false} OnlyWireDecodes(input: seq<Byte>, budget: nat) returns (chunks: seq<Chunk>, zeros: nat)
    requires Chunks(input, budget).Body?
    ensures AllOk(chunks) && IsLast(zeros)
    ensures input == Wire(chunks, zeros) + Chunks(input, budget).rest
    ensures Chunks(input, budget).bytes == Data(chunks) && |Data(chunks)| <= budget
    decreases |input|
  {
    hide Chunks, HexValue, SizeText;
    var digits, data, tail := OneChunk(input, budget);
    var upper := EveryHexIsSizeText(digits);
    if data == [] {
      chunks, zeros := [], |digits|;
      ZeroHasNoLetters(zeros, upper);
    } else {
      var c := Chunk(|digits|, upper, data);
      chunks, zeros := OnlyWireDecodes(tail, budget - |data|);
      WireStep(c, chunks, zeros, Chunks(input, budget).rest);
      chunks := [c] + chunks;
    }
  }

  // ----- the incremental reader -----------------------------------------------------------

  const PIECE := 64 * 1024

  class Response {
    const maximum: nat
    var input: seq<Byte>         // what the connection still delivers
    var open: bool
    var chunkLeft: Option<nat>
    var declared: nat            // the sum of all chunk sizes seen
    ghost var delivered: nat     // body bytes handed out

    constructor (maximum: nat, input: seq<Byte>)
      ensures this.maximum == maximum && this.input == input && Valid()
      ensures open && chunkLeft == None && declared == 0 && delivered == 0
    {
      this.maximum, this.input := maximum, input;
      open, chunkLeft, declared, delivered := true, None, 0, 0;
    }

    /** Every declared byte has been delivered or is still to come in the current chunk. */
    ghost predicate Valid() reads this {
      && declared == delivered + (if chunkLeft.Some? then chunkLeft.value else 0) && declared <= maximum
      && (!open ==> chunkLeft.None?)
    }

    /** The part of the body that is still to be delivered. */
    ghost function Pending(): Decoded
      requires Valid()
      reads this
    {
      if !open then Body([], input)
      else if chunkLeft.Some? then Inside(input, chunkLeft.value, maximum - declared)
      else Chunks(input, maximum - declared)
    }

    /** `_safe_read`: exactly the requested bytes, or IncompleteRead. */
    method SafeRead(amount: nat) returns (data: Option<seq<Byte>>)
      modifies `input
      ensures amount <= |old(input)| ==> data == Some(old(input)[..amount]) && input == old(input)[amount..]
      ensures amount > |old(input)| ==> data.None?
    {
      if amount > |input| { input := []; return None; }
      data := Some(input[..amount]);
      input := input[amount..];
    }

    /** `_read_next_chunk_size`: a bad line or a size beyond the budget closes the connection with
        nothing but the line consumed. */
    method ReadNextChunkSize() returns (size: Option<nat>)
      requires declared <= maximum
      modifies `input, `open, `declared
      ensures var line := ReadLine(old(input), LINE_LIMIT);
        && input == old(input)[|line|..]
        && (size.Some? <==> IsSizeLine(line) && HexValue(line[..|line| - 2]) <= maximum - old(declared))
        && (size.Some? ==> size.value == HexValue(line[..|line| - 2]))
      ensures size.Some? ==> declared == old(declared) + size.value && open == old(open)
      ensures size.None? ==> declared == old(declared) && !open
    {
      var line := ReadLine(input, LINE_LIMIT);
      input := input[|line|..];
      if !IsSizeLine(line) { open := false; return None; }
      var value := HexValue(line[..|line| - 2]);
      if value > maximum - declared { open := false; return None; }
      declared := declared + value;
      return Some(value);
    }

    /** `_read_and_discard_trailer`: the trailer must be empty. */
    method ReadTrailer() returns (ok: bool)
      modifies `input, `open
      ensures ok <==> ReadLine(old(input), 3) == CRLF
      ensures if ok then input == old(input)[2..] && open == old(open) else !open
    {
      var line := ReadLine(input, 3);
      input := input[|line|..];
      ok := line == CRLF;
      if !ok { open := false; }
    }

    /** `_get_chunk_left`: moves to the next chunk when the current one is used up, and closes at the
        end; None is an exception. */
    method GetChunkLeft() returns (left: Option<Option<nat>>)
      requires Valid() && open
      modifies `input, `open, `chunkLeft, `declared
      ensures left.None? ==> old(Pending()).Bad? && !open
      ensures left == Some(None) ==> Valid() && !open && old(Pending()) == Body([], input) && declared == delivered
      ensures left.Some? && left.value.Some? ==>
                Valid() && open && chunkLeft == left.value && chunkLeft.value > 0 && Pending() == old(Pending())
      ensures left.Some? && left.value.Some? ==> |input| <= |old(input)|
    {
      hide HexValue, IsSizeLine;
      if chunkLeft.Some? && chunkLeft.value > 0 { return Some(chunkLeft); }
      if chunkLeft.Some? {
        var terminator := SafeRead(2);
        if terminator.None? || terminator.value != CRLF { open := false; return None; }
        EndOfChunk(old(input), maximum - declared);
      }
      var size := ReadNextChunkSize();
      if size.None? { return None; }
      chunkLeft := size;
      if size.value == 0 {
        var ok := ReadTrailer();
        if !ok { return None; }
        open, chunkLeft := false, None;
      }
      return Some(chunkLeft);
    }

    lemma EndOfChunk(before: seq<Byte>, budget: nat)
      ensures Inside(before, 0, budget) ==
                if |before| < 2 || before[..2] != CRLF then Bad else Chunks(before[2..], budget)
    {
      hide Chunks;
      if |before| >= 2 {
        var d := Chunks(before[2..], budget);
        assert before[..0] == [];
        assert d.Body? ==> [] + d.bytes == d.bytes;
      }
    }

    /** `read(amount)` on a chunked response: the next bytes of the body, fewer only at its end, or an
        exception that a well-formed body never causes. */
    method Read(amount: nat) returns (bytes: Option<seq<Byte>>)
      requires Valid() && amount > 0
      modifies this
      ensures bytes.Some? ==> Valid() && |bytes.value| <= amount && old(Pending()) == Prepend(bytes.value, Pending())
      ensures bytes.Some? && open ==> |bytes.value| == amount
      ensures bytes.Some? ==> delivered == old(delivered) + |bytes.value|
      ensures bytes.None? ==> old(Pending()).Bad?
    {
      hide Chunks, Inside;
      var value, wanted := [], amount;
      ghost var all := Pending();
      PrependNothing(all);
      if !open { return Some([]); }
      while true
        invariant Valid() && open && all == Prepend(value, Pending())
        invariant wanted > 0 && |value| + wanted == amount && delivered == old(delivered) + |value|
        decreases |input|
      {
        var left := GetChunkLeft();
        if left.None? { return None; }
        if left.value.None? {
          return Some(value);
        }
        var n := left.value.value;
        var take := if wanted <= n then wanted else n;
        ghost var inside := input;
        var data := SafeRead(take);
        if data.None? { InsideTooShort(inside, n, maximum - declared); return None; }
        InsideSplits(inside, n, take, maximum - declared);
        PrependTwice(value, data.value, Inside(input, n - take, maximum - declared));
        value, chunkLeft, delivered := value + data.value, Some(n - take), delivered + take;
        if wanted <= n { return Some(value); }
        wanted := wanted - n;
      }
    }

    lemma PrependNothing(d: Decoded)
      ensures Prepend([], d) == d
    {
      assert d.Body? ==> [] + d.bytes == d.bytes;
    }

    lemma PrependTwice(a: seq<Byte>, b: seq<Byte>, d: Decoded)
      ensures Prepend(a, Prepend(b, d)) == Prepend(a + b, d)
    {
      assert d.Body? ==> a + (b + d.bytes) == (a + b) + d.bytes;
    }

    /** The body loop: it succeeds exactly on a well-formed nonempty body within the limit, with the
        whole body, and then the declared sizes add up to its length. */
    method ReadBody() returns (body: Option<seq<Byte>>)
      requires Valid() && open && chunkLeft == None && declared == 0
      modifies this
      ensures body.Some? <==> old(Pending()).Body? && old(Pending()).bytes != []
      ensures body.Some? ==> body.value == old(Pending()).bytes && input == old(Pending()).rest
      ensures body.Some? ==> declared == |body.value| <= maximum
    {
      hide Chunks, Inside;
      var data := [];
      ghost var all := Pending();
      PrependNothing(all);
      WithinBudget(input, maximum);
      while |data| <= maximum
        invariant Valid() && all == Prepend(data, Pending()) && delivered == |data|
        decreases maximum + 1 - |data|
      {
        var size := if PIECE <= maximum + 1 - |data| then PIECE else maximum + 1 - |data|;
        ghost var before := Pending();
        var chunk := Read(size);
        if chunk.None? { return None; }
        PrependTwice(data, chunk.value, Pending());
        if chunk.value == [] { break; }
        data := data + chunk.value;
        if |data| > maximum { return None; }
      }
      if data == [] { return None; }
      return Some(data);
    }
  }
}
