/** The tags of the tool protocol spelled out piece by piece, as the two regular expressions of the source do, and tags
    longer than any bound. */
module ToolProtocolGrammar {
  import opened Wrappers
  import opened TagSearch
  import opened ToolProtocolTags

  const BLANK: CodeUnit := 0x20

  /** One code unit out of some, or a word in any case. */
  datatype Piece = One(units: set<CodeUnit>) | Word(word: string)

  const BAR := One({VERTICAL_BAR, FULLWIDTH_BAR})
  const PLAIN: seq<Piece> := [Word("tool_calls")]
  const MARKED: seq<Piece> := [BAR, BAR, Word("DSML"), BAR, BAR, Word("tool_calls")]
  const OPEN: seq<Piece> := [One({LESS_THAN})]
  const CLOSE: seq<Piece> := [One({LESS_THAN}), One({SLASH})]

  predicate IsPiece(piece: Piece, text: Text) {
    match piece
    case One(units) => |text| == 1 && text[0] in units
    case Word(word) => |text| == |word| && forall k | 0 <= k < |word| :: EqualsIgnoringCase(text[k], word[k])
  }

  predicate AllSpace(text: Text) {
    forall k | 0 <= k < |text| :: IsSpace(text[k])
  }

  /** The text consists of the pieces with any white space behind each of them. */
  ghost predicate Spells(pieces: seq<Piece>, text: Text) {
    if pieces == [] then text == []
    else exists i, j | 0 <= i <= j <= |text| ::
           IsPiece(pieces[0], text[..i]) && AllSpace(text[i..j]) && Spells(pieces[1..], text[j..])
  }

  /** A tag: the head, the name of the protocol with or without its marker, and the closing bracket. */
  ghost predicate IsTag(head: seq<Piece>, text: Text) {
    && text != [] && text[|text| - 1] == GREATER_THAN
    && (Spells(head + PLAIN, text[..|text| - 1]) || Spells(head + MARKED, text[..|text| - 1]))
  }

  // ----- skipping white space greedily finds every spelling

  lemma {:induction false} SkipSpacesIs(text: Text, n: nat)
    requires n <= |text| && AllSpace(text[..n]) && (n < |text| ==> !IsSpace(text[n]))
    ensures SkipSpaces(text) == text[n..]
  {
    if n > 0 {
      assert IsSpace(text[..n][0]);
      assert text[1..][..n - 1] == text[..n][1..] && text[1..][n - 1..] == text[n..];
      SkipSpacesIs(text[1..], n - 1);
    }
  }

  lemma {:induction false} SkippedSpaces(text: Text) returns (n: nat)
    ensures n <= |text| && AllSpace(text[..n]) && SkipSpaces(text) == text[n..]
  {
    n := 0;
    if text != [] && IsSpace(text[0]) {
      var m := SkippedSpaces(text[1..]);
      n := m + 1;
      assert text[..n] == [text[0]] + text[1..][..m] && text[1..][m..] == text[n..];
    }
  }

  predicate Solid(piece: Piece) {
    match piece
    case One(units) => forall u | u in units :: !IsSpace(u)
    case Word(word) => word != [] && 'A' <= word[0] <= 'z'
  }

  function After(piece: Piece, text: Option<Text>): Option<Text> {
    match piece
    case One(units) =>
      if text.Some? && text.value != [] && text.value[0] in units then Some(SkipSpaces(text.value[1..])) else None
    case Word(word) => AfterKeyword(text, word)
  }

  function AfterAll(pieces: seq<Piece>, text: Option<Text>): Option<Text> {
    if pieces == [] then text else AfterAll(pieces[1..], After(pieces[0], text))
  }

  lemma {:induction false} AfterNothing(pieces: seq<Piece>)
    ensures AfterAll(pieces, None) == None
  {
    if pieces != [] {
      AfterNothing(pieces[1..]);
    }
  }

  lemma AfterPiece(piece: Piece, text: Text, i: nat)
    requires i <= |text| && IsPiece(piece, text[..i])
    ensures After(piece, Some(text)) == Some(SkipSpaces(text[i..]))
    ensures Solid(piece) ==> text != [] && !IsSpace(text[0])
  {
    match piece
    case One(units) => assert text[..i][0] == text[0];
    case Word(word) =>
      assert forall k | 0 <= k < i :: text[..i][k] == text[k];
      if Solid(piece) {
        assert EqualsIgnoringCase(text[0], word[0]);
      }
  }

  lemma PieceBefore(piece: Piece, text: Text) returns (i: nat)
    requires After(piece, Some(text)).Some?
    ensures i <= |text| && IsPiece(piece, text[..i]) && After(piece, Some(text)) == Some(SkipSpaces(text[i..]))
  {
    i := match piece case One(_) => 1 case Word(word) => |word|;
  }

  lemma SolidStart(pieces: seq<Piece>, text: Text)
    requires (forall piece | piece in pieces :: Solid(piece)) && Spells(pieces, text)
    ensures text != [] ==> !IsSpace(text[0])
  {
    if pieces != [] {
      var i, j :| 0 <= i <= j <= |text| && IsPiece(pieces[0], text[..i]) && AllSpace(text[i..j])
                  && Spells(pieces[1..], text[j..]);
      AfterPiece(pieces[0], text, i);
    }
  }

  lemma {:induction false} SpelledIsSkipped(pieces: seq<Piece>, text: Text)
    requires (forall piece | piece in pieces :: Solid(piece)) && Spells(pieces, text)
    ensures AfterAll(pieces, Some(text)) == Some([])
    decreases |pieces|
  {
    hide SkipSpaces, IsPiece, After, Solid;
    if pieces != [] {
      var i, j :| 0 <= i <= j <= |text| && IsPiece(pieces[0], text[..i]) && AllSpace(text[i..j])
                  && Spells(pieces[1..], text[j..]);
      AfterPiece(pieces[0], text, i);
      SolidStart(pieces[1..], text[j..]);
      assert text[i..][..j - i] == text[i..j] && text[i..][j - i..] == text[j..];
      SkipSpacesIs(text[i..], j - i);
      SpelledIsSkipped(pieces[1..], text[j..]);
    }
  }

  lemma {:induction false} SkippedIsSpelled(pieces: seq<Piece>, text: Text)
    requires AfterAll(pieces, Some(text)) == Some([])
    ensures Spells(pieces, text)
    decreases |pieces|
  {
    hide SkipSpaces, IsPiece, After;
    if pieces != [] {
      AfterNothing(pieces[1..]);
      var i := PieceBefore(pieces[0], text);
      var n := SkippedSpaces(text[i..]);
      var j := i + n;
      assert text[i..][..n] == text[i..j] && text[i..][n..] == text[j..];
      SkippedIsSpelled(pieces[1..], text[j..]);
      assert Spells(pieces[1..], text[j..]) && IsPiece(pieces[0], text[..i]);
    }
  }

  lemma SpellsExactly(pieces: seq<Piece>, text: Text)
    requires forall piece | piece in pieces :: Solid(piece)
    ensures Spells(pieces, text) <==> AfterAll(pieces, Some(text)) == Some([])
  {
    hide Spells, AfterAll;
    if Spells(pieces, text) {
      SpelledIsSkipped(pieces, text);
    } else if AfterAll(pieces, Some(text)) == Some([]) {
      SkippedIsSpelled(pieces, text);
    }
  }

  // ----- the tag predicates accept exactly what the pieces spell

  lemma NameIsSpelled(text: Text)
    ensures IsTagName(text) <==> AfterAll(PLAIN, Some(text)) == Some([]) || AfterAll(MARKED, Some(text)) == Some([])
  {
    hide SkipSpaces;
    var bars := AfterBar(AfterBar(Some(text)));
    assert After(BAR, After(BAR, Some(text))) == bars;
    var marked := AfterKeyword(bars, "DSML");
    assert After(BAR, After(BAR, marked)) == AfterBar(AfterBar(marked));
    AfterSix(BAR, BAR, Word("DSML"), BAR, BAR, Word("tool_calls"), Some(text));
    assert AfterAll(PLAIN, Some(text)) == AfterAll([], AfterKeyword(Some(text), "tool_calls"));
  }

  lemma AfterSix(a: Piece, b: Piece, c: Piece, d: Piece, e: Piece, f: Piece, text: Option<Text>)
    ensures AfterAll([a, b, c, d, e, f], text) == After(f, After(e, After(d, After(c, After(b, After(a, text))))))
  {
    hide After;
    assert [a, b, c, d, e, f] == [a] + [b, c, d, e, f] && [b, c, d, e, f] == [b] + [c, d, e, f];
    assert [c, d, e, f] == [c] + [d, e, f] && [d, e, f] == [d] + [e, f] && [e, f] == [e] + [f];
    AfterHead(a, [b, c, d, e, f], text);
    AfterHead(b, [c, d, e, f], After(a, text));
    AfterHead(c, [d, e, f], After(b, After(a, text)));
    AfterHead(d, [e, f], After(c, After(b, After(a, text))));
    AfterHead(e, [f], After(d, After(c, After(b, After(a, text)))));
  }

  lemma AfterHead(first: Piece, rest: seq<Piece>, text: Option<Text>)
    ensures AfterAll([first] + rest, text) == AfterAll(rest, After(first, text))
  {
    assert ([first] + rest)[1..] == rest;
  }

  /** The two tag predicates accept exactly the texts the regular expressions spell. */
  lemma TagsAreSpelled(text: Text)
    ensures IsOpenTag(text) <==> IsTag(OPEN, text)
    ensures IsCloseTag(text) <==> IsTag(CLOSE, text)
  {
    hide SkipSpaces, IsTagName, Spells, AfterAll;
    if text != [] {
      var front := text[..|text| - 1];
      forall name | name == PLAIN || name == MARKED
        ensures Spells(OPEN + name, front) <==> AfterAll(name, After(OPEN[0], Some(front))) == Some([])
        ensures Spells(CLOSE + name, front) <==>
                AfterAll(name, After(CLOSE[1], After(CLOSE[0], Some(front)))) == Some([])
      {
        SpellsExactly(OPEN + name, front);
        AfterHead(OPEN[0], name, Some(front));
        SpellsExactly(CLOSE + name, front);
        assert CLOSE + name == [CLOSE[0]] + ([CLOSE[1]] + name);
        AfterHead(CLOSE[0], [CLOSE[1]] + name, Some(front));
        AfterHead(CLOSE[1], name, After(CLOSE[0], Some(front)));
      }
      AfterNothing(PLAIN);
      AfterNothing(MARKED);
      if |text| >= 2 {
        assert front[1..] == text[1..|text| - 1];
        var body := SkipSpaces(front[1..]);
        NameIsSpelled(body);
        if body != [] {
          NameIsSpelled(SkipSpaces(body[1..]));
        }
      }
    }
  }

  // ----- tags of any length

  function Blanks(n: nat): (blanks: Text)
    ensures |blanks| == n && AllSpace(blanks)
  {
    seq(n, _ => BLANK)
  }

  /** tool_calls in code units. */
  const NAME: Text := [0x74, 0x6F, 0x6F, 0x6C, 0x5F, 0x63, 0x61, 0x6C, 0x6C, 0x73]

  lemma NameIsPiece()
    ensures IsPiece(Word("tool_calls"), NAME) && WithoutBrackets(NAME)
  {
  }

  /** A tag with n blanks behind its opening bracket. */
  function PaddedTag(n: nat): (tag: Text)
    ensures |tag| == n + 12
  {
    [LESS_THAN] + Blanks(n) + NAME + [GREATER_THAN]
  }

  lemma SpellsPiece(piece: Piece, rest: seq<Piece>, text: Text, i: nat, j: nat)
    requires i <= j <= |text| && IsPiece(piece, text[..i]) && AllSpace(text[i..j]) && Spells(rest, text[j..])
    ensures Spells([piece] + rest, text)
  {
    assert ([piece] + rest)[1..] == rest;
  }

  /** Whatever the number of blanks, it is an open tag, so there is one of every length from 12 code units on. */
  lemma PaddedTagIsOpenTag(n: nat)
    ensures IsOpenTag(PaddedTag(n))
  {
    var front := PaddedTag(n)[..n + 11];
    NameIsPiece();
    var name := front[n + 1..];
    assert name == NAME && name[..10] == NAME && name[10..] == [];
    SpellsPiece(Word("tool_calls"), [], name, 10, 10);
    assert [Word("tool_calls")] + [] == PLAIN;
    assert front[1..n + 1] == Blanks(n);
    SpellsPiece(OPEN[0], PLAIN, front, 1, n + 1);
    assert IsTag(OPEN, PaddedTag(n));
    TagsAreSpelled(PaddedTag(n));
  }

  /** Tags are accepted in upper and lower case, and the slash makes a close tag. */
  lemma SpellingsOfTheTag(text: Text)
    requires |text| == 10 && forall k | 0 <= k < 10 :: EqualsIgnoringCase(text[k], "tool_calls"[k])
    ensures IsOpenTag([LESS_THAN] + text + [GREATER_THAN]) && IsCloseTag([LESS_THAN, SLASH] + text + [GREATER_THAN])
  {
    var open, close := [LESS_THAN] + text, [LESS_THAN, SLASH] + text;
    assert IsPiece(Word("tool_calls"), text[..10]) && text[10..] == [];
    SpellsPiece(Word("tool_calls"), [], text, 10, 10);
    assert [Word("tool_calls")] + [] == PLAIN;
    assert open[1..] == text && close[1..] == [SLASH] + text && close[1..][1..] == text;
    SpellsPiece(OPEN[0], PLAIN, open, 1, 1);
    SpellsPiece(CLOSE[1], PLAIN, close[1..], 1, 1);
    SpellsPiece(CLOSE[0], [CLOSE[1]] + PLAIN, close, 1, 1);
    assert [CLOSE[0]] + ([CLOSE[1]] + PLAIN) == CLOSE + PLAIN;
    assert (open + [GREATER_THAN])[..11] == open && (close + [GREATER_THAN])[..12] == close;
    TagsAreSpelled(open + [GREATER_THAN]);
    TagsAreSpelled(close + [GREATER_THAN]);
  }
}
