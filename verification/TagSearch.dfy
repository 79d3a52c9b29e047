/** Leftmost search for a tag in text that may grow on its right.

    Text is a sequence of UTF-16 code units, so every length and index is the one the source counts. */
module TagSearch {
  import opened Wrappers

  newtype CodeUnit = u: int | 0 <= u < 0x1_0000
  type Text = seq<CodeUnit>

  const LESS_THAN: CodeUnit := 0x3C
  const GREATER_THAN: CodeUnit := 0x3E

  ghost predicate WithoutBrackets(text: Text) {
    forall k | 0 <= k < |text| :: text[k] != LESS_THAN && text[k] != GREATER_THAN
  }

  /** A tag starts with its only "<" and ends with its only ">". */
  ghost predicate HasTagShape(text: Text) {
    && 2 <= |text|
    && text[0] == LESS_THAN
    && text[|text| - 1] == GREATER_THAN
    && WithoutBrackets(text[1..|text| - 1])
  }

  /** A pattern: the set of texts it matches as a whole, all of them tags. */
  type Pattern = p: Text -> bool | forall text | p(text) :: HasTagShape(text) witness (text: Text) => false

  /** A match at the code units start to end - 1. */
  datatype Match = Match(start: nat, end: nat)

  predicate TagAt(pattern: Pattern, text: Text, start: int, end: int) {
    0 <= start < end <= |text| && pattern(text[start..end])
  }

  lemma TagAtShape(pattern: Pattern, text: Text, i: int, j: int)
    requires TagAt(pattern, text, i, j)
    ensures text[i] == LESS_THAN && text[j - 1] == GREATER_THAN
    ensures forall k | i < k < j :: text[k] != LESS_THAN
    ensures forall k | i <= k < j - 1 :: text[k] != GREATER_THAN
  {
    var tag := text[i..j];
    assert pattern(tag);
    assert HasTagShape(tag);
    forall k | i < k < j - 1
      ensures text[k] != LESS_THAN && text[k] != GREATER_THAN
    {
      assert tag[1..|tag| - 1][k - i - 1] == text[k];
    }
  }

  function IndexOf(text: Text, unit: CodeUnit, start: nat): (index: nat)
    requires start <= |text|
    ensures start <= index <= |text|
    ensures forall k | start <= k < index :: text[k] != unit
    ensures index < |text| ==> text[index] == unit
    decreases |text| - start
  {
    if start == |text| || text[start] == unit then start else IndexOf(text, unit, start + 1)
  }

  function FindPattern(pattern: Pattern, text: Text): (found: Option<Match>)
    ensures found.Some? ==> found.value.start < found.value.end <= |text|
  {
    FindFrom(pattern, text, 0)
  }

  function FindFrom(pattern: Pattern, text: Text, from: nat): (found: Option<Match>)
    requires from <= |text|
    ensures found.Some? ==> from <= found.value.start < found.value.end <= |text|
    decreases |text| - from
  {
    if from == |text| then
      None
    else
      var end := IndexOf(text, GREATER_THAN, from);
      if end < |text| && TagAt(pattern, text, from, end + 1) then
        Some(Match(from, end + 1))
      else
        FindFrom(pattern, text, from + 1)
  }

  /** No match starts between from and to - 1. */
  ghost predicate NoTagStarts(pattern: Pattern, text: Text, from: int, to: int) {
    forall i, j | from <= i < to :: !TagAt(pattern, text, i, j)
  }

  ghost predicate IsLeftmost(pattern: Pattern, text: Text, from: int, m: Match) {
    && from <= m.start
    && TagAt(pattern, text, m.start, m.end)
    && NoTagStarts(pattern, text, from, m.start)
    && forall j :: TagAt(pattern, text, m.start, j) ==> j == m.end
  }

  /** What is found is the leftmost match, as pattern.exec finds it: nothing matches to its left, and nothing else
      matches from the same start. Nothing is found only if nothing matches. */
  lemma FindPatternMeaning(pattern: Pattern, text: Text)
    ensures match FindPattern(pattern, text)
            case None => NoTagStarts(pattern, text, 0, |text|)
            case Some(m) => IsLeftmost(pattern, text, 0, m)
  {
    FindFromMeaning(pattern, text, 0);
  }

  lemma {:induction false} FindFromMeaning(pattern: Pattern, text: Text, from: nat)
    requires from <= |text|
    ensures match FindFrom(pattern, text, from)
            case None => NoTagStarts(pattern, text, from, |text|)
            case Some(m) => IsLeftmost(pattern, text, from, m)
    decreases |text| - from
  {
    hide IndexOf, TagAt;
    if from < |text| {
      var end := IndexOf(text, GREATER_THAN, from);
      EndOfTag(pattern, text, from, end);
      if !(end < |text| && TagAt(pattern, text, from, end + 1)) {
        assert NoTagStarts(pattern, text, from, from + 1);
        FindFromMeaning(pattern, text, from + 1);
      }
    }
  }

  /** A tag that starts at a given place ends at the first ">" behind it. */
  lemma EndOfTag(pattern: Pattern, text: Text, start: nat, end: nat)
    requires start <= |text| && end == IndexOf(text, GREATER_THAN, start)
    ensures forall j :: TagAt(pattern, text, start, j) ==> end < |text| && j == end + 1
  {
    forall j | TagAt(pattern, text, start, j)
      ensures end < |text| && j == end + 1
    {
      TagAtShape(pattern, text, start, j);
    }
  }

  // ----- matches in a longer or a shorter text

  lemma TagAtExtend(pattern: Pattern, text: Text, more: Text, i: int, j: int)
    requires j <= |text|
    ensures TagAt(pattern, text + more, i, j) == TagAt(pattern, text, i, j)
  {
    if 0 <= i < j {
      assert (text + more)[i..j] == text[i..j];
    }
  }

  lemma TagAtDrop(pattern: Pattern, text: Text, n: nat, i: int, j: int)
    requires n <= |text| && 0 <= i
    ensures TagAt(pattern, text[n..], i, j) == TagAt(pattern, text, i + n, j + n)
  {
    if i < j && j + n <= |text| {
      assert text[n..][i..j] == text[i + n..j + n];
    }
  }

  /** A leftmost match determines what FindPattern returns. */
  lemma FindPatternIs(pattern: Pattern, text: Text, m: Match)
    requires TagAt(pattern, text, m.start, m.end) && NoTagStarts(pattern, text, 0, m.start)
    ensures FindPattern(pattern, text) == Some(m)
  {
    FindPatternMeaning(pattern, text);
    var found := FindPattern(pattern, text).value;
    assert found.start == m.start && found.end == m.end;
  }

  lemma FindPatternIsNone(pattern: Pattern, text: Text)
    requires NoTagStarts(pattern, text, 0, |text|)
    ensures FindPattern(pattern, text) == None
  {
    FindPatternMeaning(pattern, text);
  }

  /** No later match can reach back over a match that is already complete. */
  lemma NoOverlap(pattern: Pattern, text: Text, i: int, j: int, start: int)
    requires TagAt(pattern, text, i, j) && i < start < |text| && text[start] == LESS_THAN
    ensures j <= start
  {
    TagAtShape(pattern, text, i, j);
  }

  /** A match found in the buffer stays the leftmost one whatever text arrives later. */
  lemma FindPatternStable(pattern: Pattern, text: Text, more: Text)
    requires FindPattern(pattern, text).Some?
    ensures FindPattern(pattern, text + more) == FindPattern(pattern, text)
  {
    FindPatternMeaning(pattern, text);
    var m := FindPattern(pattern, text).value;
    TagAtExtend(pattern, text, more, m.start, m.end);
    TagAtShape(pattern, text, m.start, m.end);
    forall i, j | 0 <= i < m.start
      ensures !TagAt(pattern, text + more, i, j)
    {
      if TagAt(pattern, text + more, i, j) {
        NoOverlap(pattern, text + more, i, j, m.start);
        TagAtExtend(pattern, text, more, i, j);
      }
    }
    FindPatternIs(pattern, text + more, m);
  }

  /** Dropping text in front of the leftmost match only shifts it. */
  lemma FindPatternDrop(pattern: Pattern, text: Text, n: nat)
    requires n <= |text|
    requires FindPattern(pattern, text).Some? ==> n <= FindPattern(pattern, text).value.start
    ensures FindPattern(pattern, text[n..]) ==
            match FindPattern(pattern, text)
            case None => None
            case Some(m) => Some(Match(m.start - n, m.end - n))
  {
    FindPatternMeaning(pattern, text);
    var to := match FindPattern(pattern, text) case None => |text| case Some(m) => m.start;
    forall i, j | 0 <= i < to - n
      ensures !TagAt(pattern, text[n..], i, j)
    {
      TagAtDrop(pattern, text, n, i, j);
    }
    match FindPattern(pattern, text) {
      case None =>
        FindPatternIsNone(pattern, text[n..]);
      case Some(m) =>
        TagAtDrop(pattern, text, n, m.start - n, m.end - n);
        FindPatternIs(pattern, text[n..], Match(m.start - n, m.end - n));
    }
  }
}
