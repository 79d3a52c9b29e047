/** The streaming stripper of tool-call blocks, and why cutting the text into chunks does not matter. */
module ToolProtocolStripper {
  import opened Wrappers
  import opened Sequences
  import opened TagSearch
  import opened ToolProtocolGrammar
  import opened ToolProtocolTags

  const LOOKBEHIND_LENGTH := 64

  /** The visible text and the number of blocks taken out of it. */
  datatype Stripped = Stripped(text: Text, blocks: nat)

  function Before(text: Text, blocks: nat, rest: Stripped): Stripped {
    Stripped(text + rest.text, blocks + rest.blocks)
  }

  lemma BeforeBefore(text: Text, blocks: nat, text': Text, blocks': nat, rest: Stripped)
    ensures Before(text, blocks, Before(text', blocks', rest)) == Before(text + text', blocks + blocks', rest)
  {
    assert text + (text' + rest.text) == text + text' + rest.text;
  }

  // ----- the reference: one leftmost pass over the whole text

  /** Every block from an open tag to the first close tag behind it is dropped; a block that is never closed
      is dropped to the end of the text. inside says that the text starts within a block. */
  function Strip(tags: Tags, inside: bool, text: Text): Stripped
    decreases |text|, if inside then 0 else 1
  {
    match FindPattern(if inside then tags.close else tags.open, text)
    case None =>
      if inside then Stripped([], 1) else Stripped(text, 0)
    case Some(tag) =>
      if inside then
        Before([], 1, Strip(tags, false, text[tag.end..]))
      else
        Before(text[..tag.start], 0, Strip(tags, true, text[tag.start..]))
  }

  /** No open tag that starts a block is longer than the hold-back plus one. */
  predicate OpenTagsFit(tags: Tags, inside: bool, text: Text)
    decreases |text|, if inside then 0 else 1
  {
    match FindPattern(if inside then tags.close else tags.open, text)
    case None => true
    case Some(tag) =>
      if inside then
        OpenTagsFit(tags, false, text[tag.end..])
      else
        tag.end - tag.start <= LOOKBEHIND_LENGTH + 1 && OpenTagsFit(tags, true, text[tag.start..])
  }

  /** One step of the reference pass. */
  lemma StripStep(tags: Tags, inside: bool, text: Text)
    ensures match FindPattern(if inside then tags.close else tags.open, text)
            case None =>
              && Strip(tags, inside, text) == (if inside then Stripped([], 1) else Stripped(text, 0))
              && OpenTagsFit(tags, inside, text)
            case Some(tag) =>
              if inside then
                && Strip(tags, inside, text) == Before([], 1, Strip(tags, false, text[tag.end..]))
                && OpenTagsFit(tags, inside, text) == OpenTagsFit(tags, false, text[tag.end..])
              else
                && Strip(tags, inside, text) == Before(text[..tag.start], 0, Strip(tags, true, text[tag.start..]))
                && OpenTagsFit(tags, inside, text) ==
                   (tag.end - tag.start <= LOOKBEHIND_LENGTH + 1 && OpenTagsFit(tags, true, text[tag.start..]))
  {
    hide FindPattern;
  }

  // ----- the stripper: what one drain of the buffer emits and keeps

  datatype Drained = Drained(text: Text, blocks: nat, inside: bool, buffer: Text)

  function LastIndexOf(text: Text, unit: CodeUnit): (index: int)
    ensures -1 <= index < |text|
    ensures index >= 0 ==> text[index] == unit
    ensures forall k | index < k < |text| :: text[k] != unit
  {
    if text == [] then -1
    else if text[|text| - 1] == unit then |text| - 1
    else LastIndexOf(text[..|text| - 1], unit)
  }

  /** How much of a text without an open tag can be emitted now. */
  function FlushLength(text: Text): (length: nat)
    ensures length <= |text|
    ensures length < |text| ==> |text| - length <= LOOKBEHIND_LENGTH && text[length] == LESS_THAN
    ensures forall k | length < k < |text| :: text[k] != LESS_THAN
  {
    var start := LastIndexOf(text, LESS_THAN);
    if start < 0 then |text|
    else if |text| - start <= LOOKBEHIND_LENGTH then start
    else |text|
  }

  function Drain(tags: Tags, isFinal: bool, inside: bool, buffer: Text): Drained
    decreases |buffer|, if inside then 0 else 1
  {
    if buffer == [] then
      Drained([], 0, inside, [])
    else
      match FindPattern(if inside then tags.close else tags.open, buffer)
      case None =>
        if inside then
          if isFinal then Drained([], 1, false, []) else Drained([], 0, true, buffer)
        else
          var n := if isFinal then |buffer| else FlushLength(buffer);
          Drained(buffer[..n], 0, false, buffer[n..])
      case Some(tag) =>
        if inside then
          var d := Drain(tags, isFinal, false, buffer[tag.end..]);
          d.(blocks := 1 + d.blocks)
        else
          var d := Drain(tags, isFinal, true, buffer[tag.start..]);
          d.(text := buffer[..tag.start] + d.text)
  }

  /** One step of a drain. */
  lemma DrainStep(tags: Tags, isFinal: bool, inside: bool, buffer: Text)
    requires buffer != []
    ensures match FindPattern(if inside then tags.close else tags.open, buffer)
            case None =>
              Drain(tags, isFinal, inside, buffer) ==
              if inside then
                if isFinal then Drained([], 1, false, []) else Drained([], 0, true, buffer)
              else
                var n := if isFinal then |buffer| else FlushLength(buffer);
                Drained(buffer[..n], 0, false, buffer[n..])
            case Some(tag) =>
              if inside then
                var d := Drain(tags, isFinal, false, buffer[tag.end..]);
                Drain(tags, isFinal, inside, buffer) == d.(blocks := 1 + d.blocks)
              else
                var d := Drain(tags, isFinal, true, buffer[tag.start..]);
                Drain(tags, isFinal, inside, buffer) == d.(text := buffer[..tag.start] + d.text)
  {
    hide FindPattern, FlushLength;
  }

  lemma DrainNothing(tags: Tags, isFinal: bool, inside: bool)
    ensures Drain(tags, isFinal, inside, []) == Drained([], 0, inside, [])
  {
  }

  /** What the stripper holds between two calls: outside a block at most 64 code units that start at their only
      "<" and hold no open tag; inside a block a text that starts with a whole open tag and holds no close tag. */
  ghost predicate Resting(tags: Tags, inside: bool, buffer: Text) {
    if inside then
      FindPattern(tags.close, buffer).None? && exists n :: TagAt(tags.open, buffer, 0, n)
    else
      && FindPattern(tags.open, buffer).None?
      && (buffer != [] ==>
            && |buffer| <= LOOKBEHIND_LENGTH && buffer[0] == LESS_THAN
            && forall k | 0 < k < |buffer| :: buffer[k] != LESS_THAN)
  }

  /** What a stripper in the given state emits for the chunks followed by a flush. */
  function Stream(tags: Tags, inside: bool, buffer: Text, chunks: seq<Text>): Stripped
    decreases |chunks|
  {
    if chunks == [] then
      var d := Drain(tags, true, inside, buffer);
      Stripped(d.text, d.blocks)
    else
      var d := Drain(tags, false, inside, buffer + chunks[0]);
      Before(d.text, d.blocks, Stream(tags, d.inside, d.buffer, chunks[1..]))
  }

  // ----- slices

  lemma SliceOfConcat(first: Text, second: Text, n: nat)
    requires n <= |first|
    ensures (first + second)[n..] == first[n..] + second
    ensures (first + second)[..n] == first[..n]
  {
  }

  lemma SliceOfSlice(text: Text, m: nat, n: nat)
    requires m + n <= |text|
    ensures text[m..][n..] == text[m + n..]
    ensures text[..m] + text[m..][..n] == text[..m + n]
    ensures text[..m + n][m..] == text[m..][..n] && text[..m + n][..m] == text[..m]
  {
  }

  lemma SplitAt(text: Text, m: nat, n: nat)
    requires m <= n <= |text|
    ensures text[m..] == text[m..n] + text[n..]
  {
  }

  // ----- one drain

  /** A drain leaves a resting state, and one at the end leaves the empty state outside any block. */
  lemma {:induction false} DrainRests(tags: Tags, isFinal: bool, inside: bool, buffer: Text)
    requires inside ==> exists n :: TagAt(tags.open, buffer, 0, n)
    ensures var d := Drain(tags, isFinal, inside, buffer);
            Resting(tags, d.inside, d.buffer) && (isFinal ==> !d.inside && d.buffer == [])
    decreases |buffer|, if inside then 0 else 1
  {
    if buffer == [] {
      FindPatternMeaning(tags.open, []);
    } else {
      FindPatternMeaning(if inside then tags.close else tags.open, buffer);
      match FindPattern(if inside then tags.close else tags.open, buffer) {
        case None =>
          if !inside {
            var n := if isFinal then |buffer| else FlushLength(buffer);
            FindPatternDrop(tags.open, buffer, n);
          }
        case Some(tag) =>
          if inside {
            DrainRests(tags, isFinal, false, buffer[tag.end..]);
          } else {
            TagAtDrop(tags.open, buffer, tag.start, 0, tag.end - tag.start);
            DrainRests(tags, isFinal, true, buffer[tag.start..]);
          }
      }
    }
  }

  /** The first open tag of a buffer without one, followed by more text, starts behind what is emitted now. */
  lemma TagStartsBehindEmittedText(pattern: Pattern, buffer: Text, more: Text)
    requires FindPattern(pattern, buffer).None?
    requires var found := FindPattern(pattern, buffer + more);
             found.Some? ==> found.value.end - found.value.start <= LOOKBEHIND_LENGTH + 1 || more == []
    ensures var found := FindPattern(pattern, buffer + more);
            found.Some? ==> FlushLength(buffer) <= found.value.start
  {
    hide FindPattern;
    var whole := buffer + more;
    FindPatternMeaning(pattern, buffer);
    FindPatternMeaning(pattern, whole);
    if FindPattern(pattern, whole).Some? {
      var tag := FindPattern(pattern, whole).value;
      TagAtShape(pattern, whole, tag.start, tag.end);
      if tag.end <= |buffer| {
        TagAtExtend(pattern, buffer, more, tag.start, tag.end);
      }
      assert tag.end > |buffer|;
      var start := LastIndexOf(buffer, LESS_THAN);
      assert start >= 0 ==> whole[start] == LESS_THAN;
      assert tag.start < |buffer| ==> buffer[tag.start] == LESS_THAN;
    }
  }

  lemma StripDropsPrefix(tags: Tags, text: Text, n: nat)
    requires n <= |text|
    requires FindPattern(tags.open, text).Some? ==> n <= FindPattern(tags.open, text).value.start
    ensures Strip(tags, false, text) == Before(text[..n], 0, Strip(tags, false, text[n..]))
    ensures OpenTagsFit(tags, false, text) == OpenTagsFit(tags, false, text[n..])
  {
    hide FindPattern, Strip, OpenTagsFit;
    StripStep(tags, false, text);
    StripStep(tags, false, text[n..]);
    FindPatternDrop(tags.open, text, n);
    match FindPattern(tags.open, text) {
      case None =>
        assert text == text[..n] + text[n..];
      case Some(tag) =>
        SliceOfSlice(text, n, tag.start - n);
        BeforeBefore(text[..n], 0, text[n..][..tag.start - n], 0, Strip(tags, true, text[tag.start..]));
    }
  }

  /** A buffer without an open tag, then more text: the emitted part can no longer belong to a tag that fits. */
  lemma EmittedTextHoldsNoTag(tags: Tags, buffer: Text, more: Text)
    requires FindPattern(tags.open, buffer).None?
    requires OpenTagsFit(tags, false, buffer + more) || more == []
    ensures var n := FlushLength(buffer);
            && Strip(tags, false, buffer + more) == Before(buffer[..n], 0, Strip(tags, false, buffer[n..] + more))
            && OpenTagsFit(tags, false, buffer + more) == OpenTagsFit(tags, false, buffer[n..] + more)
  {
    hide FindPattern, Strip, OpenTagsFit;
    var n := FlushLength(buffer);
    StripStep(tags, false, buffer + more);
    assert more == [] ==> buffer + more == buffer;
    TagStartsBehindEmittedText(tags.open, buffer, more);
    StripDropsPrefix(tags, buffer + more, n);
    SliceOfConcat(buffer, more, n);
  }

  /** One write changes nothing about what is still to come: what it emits, followed by the strip of the kept
      buffer and the future text, is the strip of everything. */
  lemma {:induction false} DrainKeepsTheFuture(tags: Tags, inside: bool, buffer: Text, more: Text)
    requires OpenTagsFit(tags, inside, buffer + more) || more == []
    ensures var d := Drain(tags, false, inside, buffer);
            && Strip(tags, inside, buffer + more) == Before(d.text, d.blocks, Strip(tags, d.inside, d.buffer + more))
            && (OpenTagsFit(tags, inside, buffer + more) ==> OpenTagsFit(tags, d.inside, d.buffer + more))
    decreases |buffer|, if inside then 0 else 1
  {
    hide FindPattern, FlushLength, Strip, OpenTagsFit, Drain;
    var whole := buffer + more;
    var pattern := if inside then tags.close else tags.open;
    StripStep(tags, inside, whole);
    if buffer == [] {
      DrainNothing(tags, false, inside);
      assert [] + more == more;
    } else {
      DrainStep(tags, false, inside, buffer);
      match FindPattern(pattern, buffer) {
        case None =>
          if !inside {
            EmittedTextHoldsNoTag(tags, buffer, more);
          }
        case Some(tag) =>
          FindPatternStable(pattern, buffer, more);
          if inside {
            SliceOfConcat(buffer, more, tag.end);
            DrainKeepsTheFuture(tags, false, buffer[tag.end..], more);
          } else {
            SliceOfConcat(buffer, more, tag.start);
            DrainKeepsTheFuture(tags, true, buffer[tag.start..], more);
            var d := Drain(tags, false, true, buffer[tag.start..]);
            BeforeBefore(buffer[..tag.start], 0, d.text, d.blocks, Strip(tags, d.inside, d.buffer + more));
          }
      }
    }
  }

  /** The final drain is the reference strip of what is left. */
  lemma {:induction false} FinalDrainIsStrip(tags: Tags, inside: bool, buffer: Text)
    requires inside ==> buffer != []
    ensures var d := Drain(tags, true, inside, buffer);
            Stripped(d.text, d.blocks) == Strip(tags, inside, buffer)
    decreases |buffer|, if inside then 0 else 1
  {
    hide FindPattern, Drain, Strip, OpenTagsFit;
    StripStep(tags, inside, buffer);
    if buffer == [] {
      FindPatternMeaning(tags.open, []);
      DrainNothing(tags, true, inside);
    } else {
      DrainStep(tags, true, inside, buffer);
      match FindPattern(if inside then tags.close else tags.open, buffer) {
        case None =>
        case Some(tag) =>
          if inside {
            FinalDrainIsStrip(tags, false, buffer[tag.end..]);
          } else {
            FinalDrainIsStrip(tags, true, buffer[tag.start..]);
          }
      }
    }
  }

  // ----- whole streams

  /** From any resting state, the stream of any chunks is the strip of the buffer and all the chunks. */
  lemma {:induction false} StreamFromState(tags: Tags, inside: bool, buffer: Text, chunks: seq<Text>)
    requires inside ==> buffer != []
    requires OpenTagsFit(tags, inside, buffer + Flatten(chunks)) || |chunks| <= 1
    requires chunks == [] || OpenTagsFit(tags, inside, buffer + Flatten(chunks)) || Flatten(chunks[1..]) == []
    ensures Stream(tags, inside, buffer, chunks) == Strip(tags, inside, buffer + Flatten(chunks))
    decreases |chunks|
  {
    if chunks == [] {
      assert buffer + [] == buffer;
      FinalDrainIsStrip(tags, inside, buffer);
    } else {
      var arrived := buffer + chunks[0];
      var more := Flatten(chunks[1..]);
      assert arrived + more == buffer + Flatten(chunks);
      DrainKeepsTheFuture(tags, inside, arrived, more);
      var d := Drain(tags, false, inside, arrived);
      DrainLeavesTextInBlock(tags, inside, arrived);
      StreamFromState(tags, d.inside, d.buffer, chunks[1..]);
    }
  }

  lemma {:induction false} DrainLeavesTextInBlock(tags: Tags, inside: bool, buffer: Text)
    requires inside ==> buffer != []
    ensures var d := Drain(tags, false, inside, buffer); d.inside ==> d.buffer != []
    decreases |buffer|, if inside then 0 else 1
  {
    if buffer != [] {
      match FindPattern(if inside then tags.close else tags.open, buffer)
      case None =>
      case Some(tag) =>
        DrainLeavesTextInBlock(tags, !inside, if inside then buffer[tag.end..] else buffer[tag.start..]);
    }
  }

  // ----- when a tag is too long to be held back

  /** The rest of a text inside a block never shows more than the same text outside a block. */
  lemma InsideShowsLess(tags: Tags, text: Text)
    ensures |Strip(tags, true, text).text| <= |Strip(tags, false, text).text|
  {
    hide FindPattern, Strip, OpenTagsFit;
    StripStep(tags, true, text);
    StripStep(tags, false, text);
    var open, close := FindPattern(tags.open, text), FindPattern(tags.close, text);
    if close.Some? {
      if open.Some? && open.value.start <= close.value.start {
        FindPatternDrop(tags.close, text, open.value.start);
        SliceOfSlice(text, open.value.start, close.value.end - open.value.start);
        StripStep(tags, true, text[open.value.start..]);
      } else {
        OpenTagBehindCloseTag(tags, text, close.value);
        StripDropsPrefix(tags, text, close.value.end);
      }
    }
  }

  lemma OpenTagBehindCloseTag(tags: Tags, text: Text, close: Match)
    requires FindPattern(tags.close, text) == Some(close)
    requires var open := FindPattern(tags.open, text); open.Some? ==> close.start < open.value.start
    ensures var open := FindPattern(tags.open, text); open.Some? ==> close.end <= open.value.start
  {
    hide FindPattern;
    FindPatternMeaning(tags.open, text);
    FindPatternMeaning(tags.close, text);
    if FindPattern(tags.open, text).Some? {
      var open := FindPattern(tags.open, text).value;
      TagAtShape(tags.open, text, open.start, open.end);
      NoOverlap(tags.close, text, close.start, close.end, open.start);
    }
  }

  /** Text without "<" in front is passed through. */
  lemma StripPassesPlainText(tags: Tags, plain: Text, text: Text)
    requires forall k | 0 <= k < |plain| :: plain[k] != LESS_THAN
    ensures Strip(tags, false, plain + text).text == plain + Strip(tags, false, text).text
  {
    hide FindPattern, Strip;
    var whole := plain + text;
    FindPatternMeaning(tags.open, whole);
    var found := FindPattern(tags.open, whole);
    if found.Some? {
      TagAtShape(tags.open, whole, found.value.start, found.value.end);
      assert forall k | 0 <= k < |plain| :: whole[k] == plain[k];
    }
    StripDropsPrefix(tags, whole, |plain|);
    assert whole[|plain|..] == text && whole[..|plain|] == plain;
  }

  /** A block that starts with an open tag is stripped as the text behind that tag is. */
  lemma StripSkipsItsOpenTag(tags: Tags, text: Text, n: nat)
    requires TagAt(tags.open, text, 0, n)
    ensures Strip(tags, true, text) == Strip(tags, true, text[n..])
  {
    hide FindPattern, Strip, OpenTagsFit;
    StripStep(tags, true, text);
    StripStep(tags, true, text[n..]);
    CloseTagFollows(tags, text, n);
    FindPatternDrop(tags.close, text, n);
    if FindPattern(tags.close, text).Some? {
      SliceOfSlice(text, n, FindPattern(tags.close, text).value.end - n);
    }
  }

  /** In a text that starts with an open tag, the first close tag starts behind it. */
  lemma CloseTagFollows(tags: Tags, text: Text, n: nat)
    requires TagAt(tags.open, text, 0, n)
    ensures var close := FindPattern(tags.close, text); close.Some? ==> n <= close.value.start
  {
    hide FindPattern;
    FindPatternMeaning(tags.close, text);
    TagAtShape(tags.open, text, 0, n);
    if FindPattern(tags.close, text).Some? {
      var close := FindPattern(tags.close, text).value;
      TagAtShape(tags.close, text, close.start, close.end);
      assert tags.open(text[0..n]) && !tags.close(text[0..n]);
    }
  }

  /** Up to the cut right behind the hold-back, nothing is recognised and all of it is emitted. */
  lemma DrainEmitsLongPrefix(tags: Tags, text: Text, tag: Match)
    requires FindPattern(tags.open, text) == Some(tag)
    requires tag.end - tag.start > LOOKBEHIND_LENGTH + 1
    ensures var first := text[..tag.start + LOOKBEHIND_LENGTH + 1];
            Drain(tags, false, false, first) == Drained(first, 0, false, [])
  {
    hide FindPattern;
    var k := tag.start + LOOKBEHIND_LENGTH + 1;
    var first := text[..k];
    FindPatternMeaning(tags.open, text);
    TagAtShape(tags.open, text, tag.start, tag.end);
    assert first + text[k..] == text;
    if FindPattern(tags.open, first).Some? {
      FindPatternStable(tags.open, first, text[k..]);
    }
    assert first[tag.start] == LESS_THAN;
    assert LastIndexOf(first, LESS_THAN) == tag.start;
  }

  /** A single chunk is stripped exactly, whatever its tags. */
  lemma StreamOfOneChunk(tags: Tags, chunk: Text)
    ensures Stream(tags, false, [], [chunk]) == Strip(tags, false, chunk)
  {
    hide FindPattern, Strip, OpenTagsFit, Drain;
    assert [] + chunk == chunk && chunk + [] == chunk && [chunk][1..] == [];
    DrainKeepsTheFuture(tags, false, chunk, []);
    DrainLeavesTextInBlock(tags, false, chunk);
    var d := Drain(tags, false, false, chunk);
    assert d.buffer + [] == d.buffer;
    FinalDrainIsStrip(tags, d.inside, d.buffer);
  }

  /** Two chunks: the first is drained, the second is stripped from where that leaves the stripper. */
  lemma StreamOfTwoChunks(tags: Tags, inside: bool, first: Text, second: Text)
    ensures var d := Drain(tags, false, inside, first);
            Stream(tags, inside, [], [first, second]) ==
              Before(d.text, d.blocks, Stream(tags, d.inside, d.buffer, [second]))
  {
    hide Drain;
    assert [] + first == first && [first, second][1..] == [second];
  }

  /** Cut right behind the hold-back, the first open tag that does not fit is emitted as text. */
  lemma CutInsideLongTag(tags: Tags, text: Text, tag: Match)
    requires FindPattern(tags.open, text) == Some(tag)
    requires tag.end - tag.start > LOOKBEHIND_LENGTH + 1
    ensures Leaks(tags, false, text, tag.start + LOOKBEHIND_LENGTH + 1)
  {
    hide FindPattern, Strip, OpenTagsFit, Drain, Stream;
    var k := tag.start + LOOKBEHIND_LENGTH + 1;
    DrainEmitsLongPrefix(tags, text, tag);
    StreamOfTwoChunks(tags, false, text[..k], text[k..]);
    StreamOfOneChunk(tags, text[k..]);
    RestOfTagIsPassed(tags, text, tag, k);
    StripStep(tags, false, text);
  }

  /** From inside the first open tag on, the reference pass shows the rest of the tag and more than the block shows. */
  lemma RestOfTagIsPassed(tags: Tags, text: Text, tag: Match, k: nat)
    requires FindPattern(tags.open, text) == Some(tag) && tag.start < k <= tag.end
    ensures |Strip(tags, false, text[k..]).text| >= tag.end - k + |Strip(tags, true, text[tag.start..]).text|
  {
    hide FindPattern, Strip, OpenTagsFit;
    FindPatternMeaning(tags.open, text);
    TagAtShape(tags.open, text, tag.start, tag.end);
    var tail, behind := text[k..tag.end], text[tag.end..];
    SplitAt(text, k, tag.end);
    StripPassesPlainText(tags, tail, behind);
    var n := tag.end - tag.start;
    TagAtDrop(tags.open, text, tag.start, 0, n);
    StripSkipsItsOpenTag(tags, text[tag.start..], n);
    SliceOfSlice(text, tag.start, n);
    InsideShowsLess(tags, behind);
  }

  /** The stream of the two chunks cut at k shows more than the reference pass. */
  ghost predicate Leaks(tags: Tags, inside: bool, text: Text, k: nat)
    requires k <= |text|
  {
    |Stream(tags, inside, [], [text[..k], text[k..]]).text| > |Strip(tags, inside, text).text|
  }

  /** A stream cut behind the close tag of the block shows as much as the stream of the text behind the block. */
  lemma StreamBehindBlock(tags: Tags, text: Text, tag: Match, j: nat)
    requires FindPattern(tags.close, text) == Some(tag) && tag.end + j <= |text|
    ensures |Stream(tags, true, [], [text[..tag.end + j], text[tag.end + j..]]).text| ==
            |Stream(tags, false, [], [text[tag.end..][..j], text[tag.end..][j..]]).text|
  {
    hide FindPattern, Drain, Stream;
    DrainBehindBlock(tags, text, tag, j);
    DropTwice(text, tag.end, j);
    StreamOfTwoChunks(tags, true, text[..tag.end + j], text[tag.end + j..]);
    StreamOfTwoChunks(tags, false, text[tag.end..][..j], text[tag.end + j..]);
  }

  lemma DrainBehindBlock(tags: Tags, text: Text, tag: Match, j: nat)
    requires FindPattern(tags.close, text) == Some(tag) && tag.end + j <= |text|
    ensures var d := Drain(tags, false, false, text[tag.end..][..j]);
            Drain(tags, false, true, text[..tag.end + j]) == d.(blocks := 1 + d.blocks)
  {
    hide FindPattern, Drain, FlushLength;
    FirstTagInPrefix(tags.close, text, tag, tag.end + j);
    DrainStep(tags, false, true, text[..tag.end + j]);
    SliceOfSlice(text, tag.end, j);
  }

  /** A cut behind the close tag of the block leaks if it leaks from the text behind the block. */
  lemma LeakBehindBlock(tags: Tags, text: Text, tag: Match, j: nat)
    requires FindPattern(tags.close, text) == Some(tag)
    requires tag.end + j <= |text| && Leaks(tags, false, text[tag.end..], j)
    ensures Leaks(tags, true, text, tag.end + j)
  {
    hide FindPattern, Strip, OpenTagsFit, Stream;
    StreamBehindBlock(tags, text, tag, j);
    StripStep(tags, true, text);
  }

  /** A stream cut behind the open tag shows as much as the text before the tag and the stream of the block. */
  lemma StreamInsideBlock(tags: Tags, text: Text, tag: Match, j: nat)
    requires FindPattern(tags.open, text) == Some(tag) && tag.end <= tag.start + j <= |text|
    ensures |Stream(tags, false, [], [text[..tag.start + j], text[tag.start + j..]]).text| ==
            tag.start + |Stream(tags, true, [], [text[tag.start..][..j], text[tag.start..][j..]]).text|
  {
    hide FindPattern, Drain, Stream;
    DrainInsideBlock(tags, text, tag, j);
    DropTwice(text, tag.start, j);
    StreamOfTwoChunks(tags, false, text[..tag.start + j], text[tag.start + j..]);
    StreamOfTwoChunks(tags, true, text[tag.start..][..j], text[tag.start + j..]);
  }

  lemma DropTwice(text: Text, m: nat, n: nat)
    requires m + n <= |text|
    ensures text[m..][n..] == text[m + n..]
  {
  }

  lemma DrainInsideBlock(tags: Tags, text: Text, tag: Match, j: nat)
    requires FindPattern(tags.open, text) == Some(tag) && tag.end <= tag.start + j <= |text|
    ensures var d := Drain(tags, false, true, text[tag.start..][..j]);
            Drain(tags, false, false, text[..tag.start + j]) == d.(text := text[..tag.start] + d.text)
  {
    hide FindPattern, Drain, FlushLength;
    FirstTagInPrefix(tags.open, text, tag, tag.start + j);
    DrainStep(tags, false, false, text[..tag.start + j]);
    SliceOfSlice(text, tag.start, j);
  }

  /** A cut behind the open tag leaks if it leaks from the block that starts there. */
  lemma LeakInsideBlock(tags: Tags, text: Text, tag: Match, j: nat)
    requires FindPattern(tags.open, text) == Some(tag)
    requires tag.end <= tag.start + j <= |text| && Leaks(tags, true, text[tag.start..], j)
    ensures Leaks(tags, false, text, tag.start + j)
  {
    hide FindPattern, Strip, OpenTagsFit, Stream;
    StreamInsideBlock(tags, text, tag, j);
    StripStep(tags, false, text);
  }

  lemma FirstTagInPrefix(pattern: Pattern, text: Text, tag: Match, k: nat)
    requires FindPattern(pattern, text) == Some(tag) && tag.end <= k <= |text|
    ensures FindPattern(pattern, text[..k]) == Some(tag)
  {
    hide FindPattern;
    var first := text[..k];
    assert first + text[k..] == text;
    FindPatternMeaning(pattern, text);
    TagAtExtend(pattern, first, text[k..], tag.start, tag.end);
    FindPatternMeaning(pattern, first);
    if FindPattern(pattern, first).Some? {
      FindPatternStable(pattern, first, text[k..]);
    }
  }

  /** If some open tag does not fit, two chunks suffice to make the stream show text that the strip hides. */
  lemma {:induction false} LongTagLeaks(tags: Tags, inside: bool, text: Text) returns (k: nat)
    requires !OpenTagsFit(tags, inside, text)
    ensures k <= |text| && Leaks(tags, inside, text, k)
    ensures inside ==> FindPattern(tags.close, text).Some? && FindPattern(tags.close, text).value.end <= k
    decreases |text|, if inside then 0 else 1
  {
    hide FindPattern, Strip, OpenTagsFit, Leaks;
    StripStep(tags, inside, text);
    if inside {
      var tag := FindPattern(tags.close, text).value;
      var j := LongTagLeaks(tags, false, text[tag.end..]);
      LeakBehindBlock(tags, text, tag, j);
      k := tag.end + j;
    } else {
      var tag := FindPattern(tags.open, text).value;
      if tag.end - tag.start > LOOKBEHIND_LENGTH + 1 {
        k := tag.start + LOOKBEHIND_LENGTH + 1;
        CutInsideLongTag(tags, text, tag);
      } else {
        var j := LongTagLeaks(tags, true, text[tag.start..]);
        FindPatternMeaning(tags.open, text);
        TagAtDrop(tags.open, text, tag.start, 0, tag.end - tag.start);
        CloseTagFollows(tags, text[tag.start..], tag.end - tag.start);
        LeakInsideBlock(tags, text, tag, j);
        k := tag.start + j;
      }
    }
  }

  // ----- the law

  /** Cutting does not matter: whatever the chunks, the stripper emits what one pass over the whole text leaves. */
  lemma ChunkingDoesNotMatter(tags: Tags, chunks: seq<Text>)
    requires OpenTagsFit(tags, false, Flatten(chunks))
    ensures Stream(tags, false, [], chunks) == Strip(tags, false, Flatten(chunks))
  {
    hide FindPattern, Strip, Stream, OpenTagsFit;
    assert [] + Flatten(chunks) == Flatten(chunks);
    StreamFromState(tags, false, [], chunks);
  }

  /** For a text, the law holds of every way to cut it exactly if every open tag that starts a block is at most
      one code unit longer than the hold-back. */
  lemma ChunkingLaw(tags: Tags, text: Text)
    ensures (forall chunks | Flatten(chunks) == text :: Stream(tags, false, [], chunks) == Strip(tags, false, text))
            <==> OpenTagsFit(tags, false, text)
  {
    hide FindPattern, Strip, Stream, OpenTagsFit;
    if OpenTagsFit(tags, false, text) {
      forall chunks | Flatten(chunks) == text
        ensures Stream(tags, false, [], chunks) == Strip(tags, false, text)
      {
        ChunkingDoesNotMatter(tags, chunks);
      }
    } else {
      var k := LongTagLeaks(tags, false, text);
      var chunks := [text[..k], text[k..]];
      FlattenTwo(text[..k], text[k..]);
      assert Stream(tags, false, [], chunks) != Strip(tags, false, text);
    }
  }

  lemma FlattenTwo(first: Text, second: Text)
    ensures Flatten([first, second]) == first + second
  {
    assert [first, second][1..] == [second] && [second][1..] == [];
    assert Flatten([second]) == second + [] == second;
  }

  /** The law for the tags of the protocol. */
  lemma ToolCallChunkingLaw(text: Text)
    ensures (forall chunks | Flatten(chunks) == text ::
               Stream(TOOL_CALL_TAGS, false, [], chunks) == Strip(TOOL_CALL_TAGS, false, text))
            <==> OpenTagsFit(TOOL_CALL_TAGS, false, text)
  {
    ChunkingLaw(TOOL_CALL_TAGS, text);
  }

  lemma PaddedTagIsFound(n: nat)
    ensures FindPattern(TOOL_CALL_TAGS.open, PaddedTag(n)) == Some(Match(0, n + 12))
    ensures FindPattern(TOOL_CALL_TAGS.close, PaddedTag(n)) == None
  {
    hide FindPattern, PaddedTag, IsOpenTag, IsCloseTag;
    var tag := PaddedTag(n);
    PaddedTagIsOpenTag(n);
    TagShapes(tag);
    assert tag[0..n + 12] == tag;
    FindPatternIs(TOOL_CALL_TAGS.open, tag, Match(0, n + 12));
    forall i, j | 0 <= i < |tag|
      ensures !TagAt(TOOL_CALL_TAGS.close, tag, i, j)
    {
      if TagAt(TOOL_CALL_TAGS.close, tag, i, j) {
        TagAtShape(TOOL_CALL_TAGS.close, tag, i, j);
        TagAtShape(TOOL_CALL_TAGS.open, tag, 0, n + 12);
      }
    }
    FindPatternIsNone(TOOL_CALL_TAGS.close, tag);
  }

  /** The law fails of some texts: an open tag with n blanks in it is hidden however it is cut exactly if n <= 53. */
  lemma PaddedTagChunkingLaw(n: nat)
    ensures (forall chunks | Flatten(chunks) == PaddedTag(n) ::
               Stream(TOOL_CALL_TAGS, false, [], chunks) == Strip(TOOL_CALL_TAGS, false, PaddedTag(n)))
            <==> n <= 53
  {
    hide FindPattern, Strip, Stream, OpenTagsFit, PaddedTag;
    var tag := PaddedTag(n);
    PaddedTagIsFound(n);
    StripStep(TOOL_CALL_TAGS, false, tag);
    assert tag[0..] == tag;
    StripStep(TOOL_CALL_TAGS, true, tag);
    ToolCallChunkingLaw(tag);
  }

  /** What the reference pass means: if open is the first open tag of before + open, and close the first close tag of
      open + body + close, then exactly open + body + close is taken out, as one block. */
  lemma StripRemovesOneBlock(tags: Tags, before: Text, open: Text, body: Text, close: Text, rest: Text)
    requires FindPattern(tags.open, before + open) == Some(Match(|before|, |before| + |open|))
    requires FindPattern(tags.close, open + body + close) == Some(Match(|open + body|, |open + body + close|))
    ensures Strip(tags, false, before + (open + body + close + rest)) == Before(before, 1, Strip(tags, false, rest))
  {
    hide FindPattern, Strip, OpenTagsFit;
    var block := open + body + close;
    var whole := before + (block + rest);
    assert before + open + (body + close + rest) == whole;
    FindPatternStable(tags.open, before + open, body + close + rest);
    StripStep(tags, false, whole);
    SliceOfConcat(before, block + rest, |before|);
    BlockIsOneBlock(tags, block, rest);
  }

  lemma BlockIsOneBlock(tags: Tags, block: Text, rest: Text)
    requires FindPattern(tags.close, block).Some? && FindPattern(tags.close, block).value.end == |block|
    ensures Strip(tags, true, block + rest) == Before([], 1, Strip(tags, false, rest))
  {
    hide FindPattern, Strip, OpenTagsFit;
    FindPatternStable(tags.close, block, rest);
    StripStep(tags, true, block + rest);
    SliceOfConcat(block, rest, |block|);
  }

  // ----- the object

  /** What has been emitted so far and what the rest of the drain yields make up the whole drain. */
  ghost predicate Accounts(whole: Drained, textDeltas: seq<Text>, blocks: nat, rest: Drained) {
    whole == rest.(text := Flatten(textDeltas) + rest.text, blocks := blocks + rest.blocks)
  }

  lemma {:induction false} FlattenAppend(chunks: seq<Text>, chunk: Text)
    ensures Flatten(chunks + [chunk]) == Flatten(chunks) + chunk
  {
    if chunks == [] {
      assert [chunk][1..] == [];
    } else {
      assert (chunks + [chunk])[1..] == chunks[1..] + [chunk];
      FlattenAppend(chunks[1..], chunk);
    }
  }

  lemma AccountForAll(whole: Drained)
    ensures Accounts(whole, [], 0, whole)
  {
    assert [] + whole.text == whole.text;
  }

  lemma AccountForText(whole: Drained, textDeltas: seq<Text>, blocks: nat, text: Text, rest: Drained)
    requires Accounts(whole, textDeltas, blocks, rest.(text := text + rest.text))
    ensures Accounts(whole, if text == [] then textDeltas else textDeltas + [text], blocks, rest)
  {
    hide Flatten;
    if text == [] {
      assert text + rest.text == rest.text;
    } else {
      FlattenAppend(textDeltas, text);
      assert Flatten(textDeltas) + (text + rest.text) == Flatten(textDeltas) + text + rest.text;
    }
  }

  /** Outside a block without an open tag: the text that is safe is emitted. */
  lemma AccountForPlainText(tags: Tags, isFinal: bool, whole: Drained, textDeltas: seq<Text>, blocks: nat, buffer: Text)
    requires buffer != [] && FindPattern(tags.open, buffer).None?
    requires Accounts(whole, textDeltas, blocks, Drain(tags, isFinal, false, buffer))
    ensures var n := if isFinal then |buffer| else FlushLength(buffer);
            Accounts(whole, if n == 0 then textDeltas else textDeltas + [buffer[..n]], blocks,
                     Drained([], 0, false, buffer[n..]))
  {
    hide FindPattern, Drain, FlushLength, Accounts;
    DrainStep(tags, isFinal, false, buffer);
    var n := if isFinal then |buffer| else FlushLength(buffer);
    assert buffer[..n] + [] == buffer[..n];
    AccountForText(whole, textDeltas, blocks, buffer[..n], Drained([], 0, false, buffer[n..]));
  }

  /** Outside a block with an open tag: the text before the tag is emitted. */
  lemma AccountForOpenTag(tags: Tags, isFinal: bool, whole: Drained, textDeltas: seq<Text>, blocks: nat, buffer: Text)
    requires buffer != [] && FindPattern(tags.open, buffer).Some?
    requires Accounts(whole, textDeltas, blocks, Drain(tags, isFinal, false, buffer))
    ensures var n := FindPattern(tags.open, buffer).value.start;
            Accounts(whole, if n == 0 then textDeltas else textDeltas + [buffer[..n]], blocks,
                     Drain(tags, isFinal, true, buffer[n..]))
  {
    hide FindPattern, Drain, FlushLength, Accounts;
    DrainStep(tags, isFinal, false, buffer);
    var n := FindPattern(tags.open, buffer).value.start;
    AccountForText(whole, textDeltas, blocks, buffer[..n], Drain(tags, isFinal, true, buffer[n..]));
  }

  /** Inside a block: a whole block is counted, and at the end an open one too. */
  lemma AccountForBlock(tags: Tags, isFinal: bool, whole: Drained, textDeltas: seq<Text>, blocks: nat, buffer: Text)
    requires buffer != []
    requires Accounts(whole, textDeltas, blocks, Drain(tags, isFinal, true, buffer))
    ensures match FindPattern(tags.close, buffer)
            case Some(tag) => Accounts(whole, textDeltas, blocks + 1, Drain(tags, isFinal, false, buffer[tag.end..]))
            case None =>
              if isFinal then Accounts(whole, textDeltas, blocks + 1, Drained([], 0, false, []))
              else Accounts(whole, textDeltas, blocks, Drained([], 0, true, buffer))
  {
    hide FindPattern, Drain, FlushLength;
    DrainStep(tags, isFinal, true, buffer);
  }

  lemma AccountIsComplete(whole: Drained, textDeltas: seq<Text>, blocks: nat, inside: bool, buffer: Text)
    requires Accounts(whole, textDeltas, blocks, Drained([], 0, inside, buffer))
    ensures whole == Drained(Flatten(textDeltas), blocks, inside, buffer)
  {
    assert Flatten(textDeltas) + [] == Flatten(textDeltas);
  }

  /** The stripper that createAgentInternalToolProtocolStripper returns. */
  class Stripper {
    const tags: Tags := TOOL_CALL_TAGS
    var buffer: Text
    var isInsideToolCallBlock: bool

    ghost predicate Valid()
      reads this
    {
      Resting(tags, isInsideToolCallBlock, buffer)
    }

    constructor ()
      ensures Valid() && buffer == [] && !isInsideToolCallBlock
    {
      buffer := [];
      isInsideToolCallBlock := false;
      new;
      FindPatternIsNone(tags.open, []);
    }

    /** The loop of drain: it takes blocks out of the buffer until no whole tag is left in it. */
    method DrainBuffer(isFinal: bool) returns (textDeltas: seq<Text>, suppressedBlockCount: nat)
      requires isInsideToolCallBlock ==> exists n :: TagAt(tags.open, buffer, 0, n)
      modifies this
      ensures Valid() && (isFinal ==> buffer == [] && !isInsideToolCallBlock)
      ensures Drain(tags, isFinal, old(isInsideToolCallBlock), old(buffer)) ==
              Drained(Flatten(textDeltas), suppressedBlockCount, isInsideToolCallBlock, buffer)
    {
      hide FindPattern, Drain, FlushLength, Accounts;
      textDeltas, suppressedBlockCount := [], 0;
      ghost var whole := Drain(tags, isFinal, isInsideToolCallBlock, buffer);
      DrainRests(tags, isFinal, isInsideToolCallBlock, buffer);
      AccountForAll(whole);
      while |buffer| > 0
        invariant Accounts(whole, textDeltas, suppressedBlockCount, Drain(tags, isFinal, isInsideToolCallBlock, buffer))
        decreases |buffer|
      {
        if !isInsideToolCallBlock {
          var openTag := FindPattern(tags.open, buffer);
          if openTag.None? {
            AccountForPlainText(tags, isFinal, whole, textDeltas, suppressedBlockCount, buffer);
            var flushLength := if isFinal then |buffer| else FlushLength(buffer);
            if flushLength > 0 {
              textDeltas := textDeltas + [buffer[..flushLength]];
              buffer := buffer[flushLength..];
            }
            break;
          }
          AccountForOpenTag(tags, isFinal, whole, textDeltas, suppressedBlockCount, buffer);
          if openTag.value.start > 0 {
            textDeltas := textDeltas + [buffer[..openTag.value.start]];
            buffer := buffer[openTag.value.start..];
          }
          isInsideToolCallBlock := true;
        }
        AccountForBlock(tags, isFinal, whole, textDeltas, suppressedBlockCount, buffer);
        var closeTag := FindPattern(tags.close, buffer);
        if closeTag.None? {
          if isFinal {
            suppressedBlockCount := suppressedBlockCount + 1;
            buffer := [];
            isInsideToolCallBlock := false;
          }
          break;
        }
        suppressedBlockCount := suppressedBlockCount + 1;
        buffer := buffer[closeTag.value.end..];
        isInsideToolCallBlock := false;
      }
      DrainNothing(tags, isFinal, isInsideToolCallBlock);
      AccountIsComplete(whole, textDeltas, suppressedBlockCount, isInsideToolCallBlock, buffer);
    }

    method Write(text: Text) returns (textDeltas: seq<Text>, suppressedBlockCount: nat)
      requires Valid()
      modifies this
      ensures Valid()
      ensures Drain(tags, false, old(isInsideToolCallBlock), old(buffer) + text) ==
              Drained(Flatten(textDeltas), suppressedBlockCount, isInsideToolCallBlock, buffer)
    {
      if isInsideToolCallBlock {
        var n :| TagAt(tags.open, buffer, 0, n);
        TagAtExtend(tags.open, buffer, text, 0, n);
      }
      buffer := buffer + text;
      textDeltas, suppressedBlockCount := DrainBuffer(false);
    }

    method Flush() returns (textDeltas: seq<Text>, suppressedBlockCount: nat)
      requires Valid()
      modifies this
      ensures Valid() && buffer == [] && !isInsideToolCallBlock
      ensures Drain(tags, true, old(isInsideToolCallBlock), old(buffer)) ==
              Drained(Flatten(textDeltas), suppressedBlockCount, false, [])
    {
      textDeltas, suppressedBlockCount := DrainBuffer(true);
    }
  }

  lemma {:induction false} FlattenConcat(first: seq<Text>, second: seq<Text>)
    ensures Flatten(first + second) == Flatten(first) + Flatten(second)
  {
    if first == [] {
      assert first + second == second;
    } else {
      assert (first + second)[1..] == first[1..] + second;
      FlattenConcat(first[1..], second);
    }
  }

  /** What has been emitted so far, and what the rest of the stream yields, make up the whole. */
  ghost predicate Emitted(whole: Stripped, textDeltas: seq<Text>, blocks: nat, rest: Stripped) {
    Before(Flatten(textDeltas), blocks, rest) == whole
  }

  lemma NothingEmitted(whole: Stripped)
    ensures Emitted(whole, [], 0, whole)
  {
  }

  lemma EmitMore(whole: Stripped, textDeltas: seq<Text>, blocks: nat, deltas: seq<Text>, more: nat, rest: Stripped)
    requires Emitted(whole, textDeltas, blocks, Before(Flatten(deltas), more, rest))
    ensures Emitted(whole, textDeltas + deltas, blocks + more, rest)
  {
    hide Flatten;
    FlattenConcat(textDeltas, deltas);
    BeforeBefore(Flatten(textDeltas), blocks, Flatten(deltas), more, rest);
  }

  lemma AllEmitted(whole: Stripped, textDeltas: seq<Text>, blocks: nat)
    requires Emitted(whole, textDeltas, blocks, Stripped([], 0))
    ensures Stripped(Flatten(textDeltas), blocks) == whole
  {
    assert Flatten(textDeltas) + [] == Flatten(textDeltas);
  }

  lemma StreamStep(tags: Tags, inside: bool, buffer: Text, chunks: seq<Text>, i: nat)
    requires i < |chunks|
    ensures var d := Drain(tags, false, inside, buffer + chunks[i]);
            Stream(tags, inside, buffer, chunks[i..]) ==
            Before(d.text, d.blocks, Stream(tags, d.inside, d.buffer, chunks[i + 1..]))
  {
    hide Drain;
    assert chunks[i..][1..] == chunks[i + 1..];
  }

  lemma StreamEnds(tags: Tags, inside: bool, buffer: Text)
    ensures var d := Drain(tags, true, inside, buffer);
            Stream(tags, inside, buffer, []) == Before(d.text, d.blocks, Stripped([], 0))
  {
    hide Drain;
    var d := Drain(tags, true, inside, buffer);
    assert d.text + [] == d.text;
  }

  /** One chunk of a stream. */
  method StripChunk(stripper: Stripper, chunks: seq<Text>, i: nat, ghost whole: Stripped, before: seq<Text>, count: nat)
    returns (textDeltas: seq<Text>, suppressedBlockCount: nat)
    requires i < |chunks| && stripper.Valid()
    requires Emitted(whole, before, count,
                     Stream(TOOL_CALL_TAGS, stripper.isInsideToolCallBlock, stripper.buffer, chunks[i..]))
    modifies stripper
    ensures stripper.Valid()
    ensures Emitted(whole, textDeltas, suppressedBlockCount,
                    Stream(TOOL_CALL_TAGS, stripper.isInsideToolCallBlock, stripper.buffer, chunks[i + 1..]))
  {
    hide Drain, Stream, Flatten, Resting, Emitted, Before;
    StreamStep(TOOL_CALL_TAGS, stripper.isInsideToolCallBlock, stripper.buffer, chunks, i);
    var deltas, blocks := stripper.Write(chunks[i]);
    EmitMore(whole, before, count, deltas, blocks,
             Stream(TOOL_CALL_TAGS, stripper.isInsideToolCallBlock, stripper.buffer, chunks[i + 1..]));
    textDeltas, suppressedBlockCount := before + deltas, count + blocks;
  }

  /** A whole stream through a new stripper: the concatenated deltas and the summed counts are those of one pass over
      the whole text, if its open tags fit. */
  method StripChunks(chunks: seq<Text>) returns (textDeltas: seq<Text>, suppressedBlockCount: nat)
    ensures Stripped(Flatten(textDeltas), suppressedBlockCount) == Stream(TOOL_CALL_TAGS, false, [], chunks)
    ensures OpenTagsFit(TOOL_CALL_TAGS, false, Flatten(chunks)) ==>
              Stripped(Flatten(textDeltas), suppressedBlockCount) == Strip(TOOL_CALL_TAGS, false, Flatten(chunks))
  {
    hide Drain, Strip, Stream, OpenTagsFit, Flatten, Resting, Emitted, Before, IsOpenTag, IsCloseTag;
    var stripper := new Stripper();
    textDeltas, suppressedBlockCount := [], 0;
    ghost var whole := Stream(TOOL_CALL_TAGS, false, [], chunks);
    NothingEmitted(whole);
    assert chunks[0..] == chunks;
    for i := 0 to |chunks|
      invariant fresh(stripper) && stripper.Valid()
      invariant Emitted(whole, textDeltas, suppressedBlockCount,
                        Stream(TOOL_CALL_TAGS, stripper.isInsideToolCallBlock, stripper.buffer, chunks[i..]))
    {
      textDeltas, suppressedBlockCount := StripChunk(stripper, chunks, i, whole, textDeltas, suppressedBlockCount);
    }
    assert chunks[|chunks|..] == [];
    StreamEnds(TOOL_CALL_TAGS, stripper.isInsideToolCallBlock, stripper.buffer);
    var deltas, blocks := stripper.Flush();
    EmitMore(whole, textDeltas, suppressedBlockCount, deltas, blocks, Stripped([], 0));
    textDeltas, suppressedBlockCount := textDeltas + deltas, suppressedBlockCount + blocks;
    AllEmitted(whole, textDeltas, suppressedBlockCount);
    if OpenTagsFit(TOOL_CALL_TAGS, false, Flatten(chunks)) {
      ChunkingDoesNotMatter(TOOL_CALL_TAGS, chunks);
    }
  }
}
