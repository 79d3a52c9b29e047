/** The open and close tags of the internal tool protocol. */
module ToolProtocolTags {
  import opened Wrappers
  import opened Characters
  import opened TagSearch

  const SLASH: CodeUnit := 0x2F
  const VERTICAL_BAR: CodeUnit := 0x7C
  const FULLWIDTH_BAR: CodeUnit := 0xFF5C

  /** The white space that a regular expression's \s accepts. */
  predicate IsSpace(u: CodeUnit) {
    IsSpaceCode(u as int)
  }

  predicate IsBar(u: CodeUnit) {
    u == VERTICAL_BAR || u == FULLWIDTH_BAR
  }

  /** ASCII letters match in either case; no other code unit folds onto an ASCII letter. */
  predicate EqualsIgnoringCase(u: CodeUnit, letter: char) {
    || u as int == letter as int
    || ('a' <= letter <= 'z' && u as int == letter as int - 32)
    || ('A' <= letter <= 'Z' && u as int == letter as int + 32)
  }

  function SkipSpaces(text: Text): Text {
    if text != [] && IsSpace(text[0]) then SkipSpaces(text[1..]) else text
  }

  /** What is left after one bar and the white space behind it. */
  function AfterBar(text: Option<Text>): Option<Text> {
    if text.Some? && text.value != [] && IsBar(text.value[0])
    then Some(SkipSpaces(text.value[1..]))
    else None
  }

  /** What is left after a keyword and the white space behind it. */
  function AfterKeyword(text: Option<Text>, keyword: string): Option<Text> {
    if && text.Some?
       && |keyword| <= |text.value|
       && forall k | 0 <= k < |keyword| :: EqualsIgnoringCase(text.value[k], keyword[k])
    then Some(SkipSpaces(text.value[|keyword|..]))
    else None
  }

  /** tool_calls, optionally behind the marker || DSML ||, with white space allowed after every piece. */
  predicate IsTagName(text: Text) {
    || AfterKeyword(Some(text), "tool_calls") == Some([])
    || AfterKeyword(AfterBar(AfterBar(AfterKeyword(AfterBar(AfterBar(Some(text))), "DSML"))), "tool_calls") == Some([])
  }

  /** The part of a tag between its brackets. */
  predicate IsOpenBody(text: Text) {
    IsTagName(SkipSpaces(text))
  }

  predicate IsCloseBody(text: Text) {
    var body := SkipSpaces(text);
    body != [] && body[0] == SLASH && IsTagName(SkipSpaces(body[1..]))
  }

  predicate IsOpenTag(text: Text) {
    2 <= |text| && text[0] == LESS_THAN && text[|text| - 1] == GREATER_THAN && IsOpenBody(text[1..|text| - 1])
  }

  predicate IsCloseTag(text: Text) {
    2 <= |text| && text[0] == LESS_THAN && text[|text| - 1] == GREATER_THAN && IsCloseBody(text[1..|text| - 1])
  }

  lemma {:induction false} SkipSpacesWithoutBrackets(text: Text)
    requires WithoutBrackets(SkipSpaces(text))
    ensures WithoutBrackets(text)
  {
    if text != [] && IsSpace(text[0]) {
      SkipSpacesWithoutBrackets(text[1..]);
      assert text == [text[0]] + text[1..];
    }
  }

  lemma AfterBarWithoutBrackets(text: Option<Text>)
    requires AfterBar(text).Some? && WithoutBrackets(AfterBar(text).value)
    ensures text.Some? && WithoutBrackets(text.value)
  {
    SkipSpacesWithoutBrackets(text.value[1..]);
    assert text.value == [text.value[0]] + text.value[1..];
  }

  /** Letters and the underscore, which are no angle brackets. */
  predicate IsWord(keyword: string) {
    forall k | 0 <= k < |keyword| :: 'A' <= keyword[k] <= 'z'
  }

  lemma KeywordsAreWords()
    ensures IsWord("tool_calls") && IsWord("DSML")
  {
  }

  lemma AfterKeywordWithoutBrackets(text: Option<Text>, keyword: string)
    requires IsWord(keyword)
    requires AfterKeyword(text, keyword).Some? && WithoutBrackets(AfterKeyword(text, keyword).value)
    ensures text.Some? && WithoutBrackets(text.value)
  {
    var n := |keyword|;
    SkipSpacesWithoutBrackets(text.value[n..]);
    forall k | 0 <= k < |text.value|
      ensures text.value[k] != LESS_THAN && text.value[k] != GREATER_THAN
    {
      if k < n {
        assert EqualsIgnoringCase(text.value[k], keyword[k]);
      } else {
        assert text.value[n..][k - n] == text.value[k];
      }
    }
  }

  lemma TagNameWithoutBrackets(text: Text)
    requires IsTagName(text)
    ensures WithoutBrackets(text)
  {
    hide IsWord, AfterKeyword, AfterBar;
    KeywordsAreWords();
    if AfterKeyword(Some(text), "tool_calls") == Some([]) {
      AfterKeywordWithoutBrackets(Some(text), "tool_calls");
    } else {
      var bars := AfterBar(AfterBar(Some(text)));
      var marked := AfterKeyword(bars, "DSML");
      var closed := AfterBar(AfterBar(marked));
      AfterKeywordWithoutBrackets(closed, "tool_calls");
      AfterBarWithoutBrackets(AfterBar(marked));
      AfterBarWithoutBrackets(marked);
      AfterKeywordWithoutBrackets(bars, "DSML");
      AfterBarWithoutBrackets(AfterBar(Some(text)));
      AfterBarWithoutBrackets(Some(text));
    }
  }

  lemma OpenBodyWithoutBrackets(text: Text)
    requires IsOpenBody(text)
    ensures WithoutBrackets(text)
  {
    TagNameWithoutBrackets(SkipSpaces(text));
    SkipSpacesWithoutBrackets(text);
  }

  lemma CloseBodyWithoutBrackets(text: Text)
    requires IsCloseBody(text)
    ensures WithoutBrackets(text)
  {
    var body := SkipSpaces(text);
    TagNameWithoutBrackets(SkipSpaces(body[1..]));
    SkipSpacesWithoutBrackets(body[1..]);
    assert body == [body[0]] + body[1..];
    SkipSpacesWithoutBrackets(text);
  }

  /** Every open and every close tag has the shape that makes a leftmost match stable, and no text is both. */
  lemma TagShapes(text: Text)
    ensures IsOpenTag(text) ==> HasTagShape(text)
    ensures IsCloseTag(text) ==> HasTagShape(text)
    ensures !(IsOpenTag(text) && IsCloseTag(text))
  {
    if IsOpenTag(text) {
      OpenBodyWithoutBrackets(text[1..|text| - 1]);
      NoBodyOfBothKinds(text[1..|text| - 1]);
    }
    if IsCloseTag(text) {
      CloseBodyWithoutBrackets(text[1..|text| - 1]);
    }
  }

  lemma NoBodyOfBothKinds(text: Text)
    requires IsOpenBody(text)
    ensures !IsCloseBody(text)
  {
    var body := SkipSpaces(text);
    if AfterKeyword(Some(body), "tool_calls").Some? {
      assert EqualsIgnoringCase(body[0], "tool_calls"[0]);
    } else {
      assert AfterBar(Some(body)).Some?;
    }
  }

  /** The two patterns of the protocol. */
  datatype TagPair = TagPair(open: Pattern, close: Pattern)

  type Tags = t: TagPair | forall text :: !(t.open(text) && t.close(text))
    witness TagPair((text: Text) => false, (text: Text) => false)

  const TOOL_CALL_TAGS: Tags :=
    assert forall text ::
        (IsOpenTag(text) || IsCloseTag(text) ==> HasTagShape(text)) && !(IsOpenTag(text) && IsCloseTag(text)) by {
      forall text: Text {
        TagShapes(text);
      }
    }
    TagPair((text: Text) => IsOpenTag(text), (text: Text) => IsCloseTag(text))
}
