/** Newline framing of the runtime's input: read_protocol_line over a reader that delivers arbitrary chunks. */
module ProtocolLine {
  import opened Characters
  import opened Sequences

  type Bytes = seq<Byte>

  const NEWLINE: Byte := 10
  const CARRIAGE_RETURN: Byte := 13
  const MAX_MESSAGE_BYTES: nat := 8 * 1024 * 1024

  datatype Line = EndOfInput | Data(bytes: Bytes) | TooLarge

  // ----- the reference: the input split at its newlines

  predicate IsOneLine(bytes: Bytes) {
    forall k | 0 <= k < |bytes| :: bytes[k] != NEWLINE
  }

  function WithoutCarriageReturn(bytes: Bytes): Bytes {
    if bytes != [] && bytes[|bytes| - 1] == CARRIAGE_RETURN then bytes[..|bytes| - 1] else bytes
  }

  /** A line that a newline ends. The cap counts a carriage return before the newline. */
  function EndedLine(payload: Bytes): Line {
    if |payload| > MAX_MESSAGE_BYTES then TooLarge else Data(WithoutCarriageReturn(payload))
  }

  /** What follows the last newline: nothing, or a line that the end of the input ends. */
  function LastLine(payload: Bytes): Line {
    if payload == [] then EndOfInput else if |payload| > MAX_MESSAGE_BYTES then TooLarge else Data(payload)
  }

  function IndexOfNewline(bytes: Bytes): (index: nat)
    ensures index <= |bytes|
    ensures index < |bytes| ==> bytes[index] == NEWLINE
    ensures IsOneLine(bytes[..index])
  {
    if bytes == [] || bytes[0] == NEWLINE then
      0
    else
      var rest := IndexOfNewline(bytes[1..]);
      assert bytes[..rest + 1] == [bytes[0]] + bytes[1..][..rest];
      rest + 1
  }

  /** The first line of a byte stream, and the stream behind it. */
  function FirstLine(bytes: Bytes): (first: (Line, Bytes))
    ensures first.0 == EndOfInput <==> bytes == []
    ensures bytes != [] ==> |first.1| < |bytes|
  {
    var index := IndexOfNewline(bytes);
    if index < |bytes| then (EndedLine(bytes[..index]), bytes[index + 1..]) else (LastLine(bytes), [])
  }

  /** All lines up to the end of the input. */
  function Lines(bytes: Bytes): seq<Line>
    decreases |bytes|
  {
    var (line, rest) := FirstLine(bytes);
    if line == EndOfInput then [] else [line] + Lines(rest)
  }

  // ----- the reader

  /** A buffered reader: fill_buf shows the next chunk, empty only at the end of the input. */
  class Reader {
    var chunks: seq<Bytes>

    ghost predicate Valid()
      reads this
    {
      forall chunk | chunk in chunks :: chunk != []
    }

    ghost function Contents(): Bytes
      reads this
    {
      Flatten(chunks)
    }

    constructor (chunks: seq<Bytes>)
      requires forall chunk | chunk in chunks :: chunk != []
      ensures Valid() && Contents() == Flatten(chunks)
    {
      this.chunks := chunks;
    }

    method FillBuf() returns (available: Bytes)
      requires Valid()
      ensures available <= Contents()
      ensures available == [] <==> Contents() == []
      ensures available == if chunks == [] then [] else chunks[0]
    {
      available := if chunks == [] then [] else chunks[0];
      assert chunks != [] ==> chunks[0] in chunks;
    }

    method Consume(amount: nat)
      requires Valid() && chunks != [] && amount <= |chunks[0]|
      modifies this
      ensures Valid() && Contents() == old(Contents())[amount..]
    {
      var first, others := chunks[0], chunks[1..];
      var rest := first[amount..];
      assert forall chunk | chunk in others :: chunk in chunks;
      assert (first + Flatten(others))[amount..] == rest + Flatten(others);
      if rest == [] {
        chunks := others;
      } else {
        chunks := [rest] + others;
        assert chunks[1..] == others;
      }
    }
  }

  // ----- one line

  lemma FirstLineEnds(before: Bytes, after: Bytes)
    requires IsOneLine(before)
    ensures FirstLine(before + [NEWLINE] + after) == (EndedLine(before), after)
  {
    var whole := before + [NEWLINE] + after;
    IndexOfNewlineIs(whole, |before|);
    assert whole[..|before|] == before && whole[|before| + 1..] == after;
  }

  lemma IndexOfNewlineIs(bytes: Bytes, index: nat)
    requires index < |bytes| && bytes[index] == NEWLINE && IsOneLine(bytes[..index])
    ensures IndexOfNewline(bytes) == index
  {
    var found := IndexOfNewline(bytes);
    assert forall k | 0 <= k < index :: bytes[k] == bytes[..index][k];
    assert forall k | 0 <= k < found :: bytes[k] == bytes[..found][k];
  }

  lemma FirstLineAtEnd(bytes: Bytes)
    requires IsOneLine(bytes)
    ensures FirstLine(bytes) == (LastLine(bytes), [])
  {
    assert IndexOfNewline(bytes) == |bytes|;
    assert bytes[..|bytes|] == bytes;
  }

  /** The variables hold what has been seen of the line, unless that is too large. */
  ghost predicate Holds(seen: Bytes, data: Bytes, tooLarge: bool) {
    && (tooLarge <==> |seen| > MAX_MESSAGE_BYTES)
    && data == if tooLarge then [] else seen
  }

  lemma HoldsMore(seen: Bytes, data: Bytes, tooLarge: bool, payload: Bytes)
    requires Holds(seen, data, tooLarge)
    ensures tooLarge ==> Holds(seen + payload, data, true)
    ensures !tooLarge && |data| + |payload| > MAX_MESSAGE_BYTES ==> Holds(seen + payload, [], true)
    ensures !tooLarge && |data| + |payload| <= MAX_MESSAGE_BYTES ==> Holds(seen + payload, data + payload, false)
  {
  }

  lemma HoldsAtEnd(seen: Bytes, data: Bytes, tooLarge: bool)
    requires Holds(seen, data, tooLarge)
    ensures LastLine(seen) == if tooLarge then TooLarge else if data == [] then EndOfInput else Data(data)
  {
  }

  lemma HoldsAtNewline(seen: Bytes, data: Bytes, tooLarge: bool)
    requires Holds(seen, data, tooLarge)
    ensures EndedLine(seen) == if tooLarge then TooLarge else Data(WithoutCarriageReturn(data))
  {
  }

  /** Reads one line, as read_protocol_line does: whatever the chunks, the line and the input left behind it are those
      of the newline split. */
  method ReadProtocolLine(reader: Reader) returns (line: Line)
    requires reader.Valid()
    modifies reader
    ensures reader.Valid()
    ensures (line, reader.Contents()) == FirstLine(old(reader.Contents()))
  {
    hide FirstLine, Flatten, IsOneLine, IndexOfNewline, Holds, EndedLine, LastLine;
    EmptyLine();
    var data: Bytes := [];
    var tooLarge := false;
    ghost var seen: Bytes := [];
    while true
      invariant reader.Valid()
      invariant old(reader.Contents()) == seen + reader.Contents()
      invariant IsOneLine(seen) && Holds(seen, data, tooLarge)
      decreases |reader.Contents()|
    {
      var available := reader.FillBuf();
      if available == [] {
        assert old(reader.Contents()) == seen;
        FirstLineAtEnd(seen);
        HoldsAtEnd(seen, data, tooLarge);
        return if data == [] && !tooLarge then EndOfInput else if tooLarge then TooLarge else Data(data);
      }
      var newlineIndex := IndexOfNewline(available);
      var hasNewline := newlineIndex < |available|;
      var payload := available[..newlineIndex];
      LongerLine(seen, payload);
      HoldsMore(seen, data, tooLarge, payload);
      if !tooLarge {
        if |data| + |payload| > MAX_MESSAGE_BYTES {
          tooLarge := true;
          data := [];
        } else {
          data := data + payload;
        }
      }
      ghost var left := reader.Contents();
      reader.Consume(if hasNewline then newlineIndex + 1 else |available|);
      assert payload == left[..newlineIndex];
      if hasNewline {
        SeenToNewline(seen, left, newlineIndex);
        seen := seen + payload;
        FirstLineEnds(seen, reader.Contents());
        HoldsAtNewline(seen, data, tooLarge);
        if tooLarge {
          return TooLarge;
        }
        if data != [] && data[|data| - 1] == CARRIAGE_RETURN {
          data := data[..|data| - 1];
        }
        return Data(data);
      }
      SeenMore(seen, left, |available|);
      seen := seen + payload;
    }
  }

  lemma EmptyLine()
    ensures IsOneLine([]) && Holds([], [], false)
  {
  }

  lemma LongerLine(seen: Bytes, more: Bytes)
    requires IsOneLine(seen) && IsOneLine(more)
    ensures IsOneLine(seen + more)
  {
  }

  lemma SeenMore(seen: Bytes, left: Bytes, n: nat)
    requires n <= |left|
    ensures seen + left == seen + left[..n] + left[n..]
  {
  }

  lemma SeenToNewline(seen: Bytes, left: Bytes, index: nat)
    requires index < |left| && left[index] == NEWLINE
    ensures seen + left == seen + left[..index] + [NEWLINE] + left[index + 1..]
  {
  }

  lemma SplitAtNewline(bytes: Bytes, index: nat)
    requires index < |bytes| && bytes[index] == NEWLINE
    ensures bytes == bytes[..index] + [NEWLINE] + bytes[index + 1..]
  {
  }

  // ----- the whole stream

  /** Reads to the end of the input, as serve does while no request shuts it down. */
  method ReadAllLines(reader: Reader) returns (lines: seq<Line>)
    requires reader.Valid()
    modifies reader
    ensures lines == Lines(old(reader.Contents()))
  {
    hide FirstLine, Flatten;
    lines := [];
    while true
      invariant reader.Valid()
      invariant lines + Lines(reader.Contents()) == Lines(old(reader.Contents()))
      decreases |reader.Contents()|
    {
      var line := ReadProtocolLine(reader);
      if line == EndOfInput {
        assert lines + [] == lines;
        return;
      }
      assert lines + ([line] + Lines(reader.Contents())) == lines + [line] + Lines(reader.Contents());
      lines := lines + [line];
    }
  }

  /** A newline-ended line is read as itself, and the lines behind it as if it had not been there, however large it
      is. */
  lemma NextLineUnaffected(payload: Bytes, rest: Bytes)
    requires IsOneLine(payload)
    ensures Lines(payload + [NEWLINE] + rest) == [EndedLine(payload)] + Lines(rest)
  {
    hide FirstLine;
    FirstLineEnds(payload, rest);
  }

  function EndedLines(payloads: seq<Bytes>): seq<Line> {
    if payloads == [] then [] else [EndedLine(payloads[0])] + EndedLines(payloads[1..])
  }

  /** Payloads with a newline behind each of them. */
  function Join(payloads: seq<Bytes>): Bytes {
    if payloads == [] then [] else payloads[0] + [NEWLINE] + Join(payloads[1..])
  }

  /** The lines of a stream are its newline split: one line per newline, too large exactly if its payload exceeds the
      cap, and one more for what the input ends without a newline, whose carriage return stays. */
  lemma {:induction false} LinesOfJoin(payloads: seq<Bytes>, last: Bytes)
    requires forall payload | payload in payloads :: IsOneLine(payload)
    requires IsOneLine(last)
    ensures Lines(Join(payloads) + last) == EndedLines(payloads) + (if last == [] then [] else [LastLine(last)])
  {
    hide FirstLine;
    if payloads == [] {
      assert [] + last == last;
      FirstLineAtEnd(last);
    } else {
      var rest := Join(payloads[1..]) + last;
      assert Join(payloads) + last == payloads[0] + [NEWLINE] + rest;
      NextLineUnaffected(payloads[0], rest);
      LinesOfJoin(payloads[1..], last);
    }
  }

  /** Every stream is such a join, so LinesOfJoin covers every input. */
  lemma {:induction false} EveryStreamIsAJoin(bytes: Bytes) returns (payloads: seq<Bytes>, last: Bytes)
    ensures bytes == Join(payloads) + last && IsOneLine(last)
    ensures forall payload | payload in payloads :: IsOneLine(payload)
    decreases |bytes|
  {
    var index := IndexOfNewline(bytes);
    if index < |bytes| {
      var others, end := EveryStreamIsAJoin(bytes[index + 1..]);
      payloads, last := [bytes[..index]] + others, end;
      assert payloads[1..] == others;
      SplitAtNewline(bytes, index);
      assert bytes == bytes[..index] + [NEWLINE] + (Join(others) + end);
    } else {
      payloads, last := [], bytes;
      assert bytes[..index] == bytes;
      assert [] + bytes == bytes;
    }
  }
}
