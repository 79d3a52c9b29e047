/** What a sent document says: its text and tokens read off the tree, which ranges are sent with it, and which named
    inputs go along. */
module ComposerPayload {
  import opened Wrappers
  import opened TextSplit
  import opened Utf8
  import opened ComposerInput

  // ----- the document, read off the tree

  function Flat<T>(parts: seq<seq<T>>): seq<T> {
    if parts == [] then [] else Flat(parts[..|parts| - 1]) + parts[|parts| - 1]
  }

  /** The text of a document is that of its children with a line break between them; other nodes put nothing between
      their children. */
  function Says(node: Node): string
    decreases node
  {
    match node
    case TextNode(text) => text
    case HardBreak => "\n"
    case PromptToken(attrs) => TokenText(attrs)
    case Branch(isDoc, children) =>
      var parts := seq(|children|, i requires 0 <= i < |children| => Says(children[i]));
      if isDoc then Join(parts, '\n') else Flat(parts)
  }

  function TokensIn(node: Node): seq<TokenAttrs>
    decreases node
  {
    match node
    case TextNode(_) => []
    case HardBreak => []
    case PromptToken(attrs) => [attrs]
    case Branch(_, children) => Flat(seq(|children|, i requires 0 <= i < |children| => TokensIn(children[i])))
  }

  function Texts(children: seq<Node>): (parts: seq<string>)
    ensures |parts| == |children| && forall i | 0 <= i < |parts| :: parts[i] == Says(children[i])
  {
    seq(|children|, i requires 0 <= i < |children| => Says(children[i]))
  }

  function TokenLists(children: seq<Node>): (lists: seq<seq<TokenAttrs>>)
    ensures |lists| == |children| && forall i | 0 <= i < |lists| :: lists[i] == TokensIn(children[i])
  {
    seq(|children|, i requires 0 <= i < |children| => TokensIn(children[i]))
  }

  lemma FlatNext<T>(parts: seq<seq<T>>, n: nat)
    requires 0 < n <= |parts|
    ensures Flat(parts[..n]) == Flat(parts[..n - 1]) + parts[n - 1]
  {
    assert parts[..n][..n - 1] == parts[..n - 1];
  }

  lemma OnePiece(piece: Piece)
    ensures TextOf([piece]) == PieceText(piece) && TokensOf([piece]) == Own(piece)
  {
    assert [piece][..0] == [];
  }

  /** The pieces of a node say its text and name its tokens. */
  lemma {:induction false} PiecesSay(node: Node)
    ensures TextOf(Pieces(node)) == Says(node) && TokensOf(Pieces(node)) == TokensIn(node)
    decreases node, 1, 0
  {
    hide TextOf, TokensOf, TokenText;
    match node {
      case TextNode(text) => OnePiece(Plain(text));
      case HardBreak => OnePiece(Plain("\n"));
      case PromptToken(attrs) => OnePiece(Token(attrs));
      case Branch(isDoc, children) =>
        ChildrenSay(node, |children|);
        assert Texts(children)[..|children|] == Texts(children);
        assert TokenLists(children)[..|children|] == TokenLists(children);
    }
  }

  lemma {:induction false} ChildrenSay(node: Node, n: nat)
    requires node.Branch? && n <= |node.children|
    ensures var parts := Texts(node.children)[..n];
            TextOf(PiecesOfChildren(node, n)) ==
            if node.isDoc then Join(parts, '\n') + (if 0 < n < |node.children| then "\n" else "") else Flat(parts)
    ensures TokensOf(PiecesOfChildren(node, n)) == Flat(TokenLists(node.children)[..n])
    decreases node, 0, n
  {
    hide TextOf, TokensOf, Pieces, Join, Flat;
    if n == 0 {
      NoText();
      NoTokens();
      NothingJoined();
    } else {
      ChildrenSay(node, n - 1);
      PiecesSay(node.children[n - 1]);
      var before, own := PiecesOfChildren(node, n - 1), Pieces(node.children[n - 1]);
      TextOfConcat(before, own);
      TokensOfConcat(before, own);
      JoinNext(Texts(node.children), n, '\n');
      FlatNext(Texts(node.children), n);
      FlatNext(TokenLists(node.children), n);
      if node.isDoc && n < |node.children| {
        LineBreakText();
        TextOfConcat(before + own, [Plain("\n")]);
        TokensOfConcat(before + own, [Plain("\n")]);
      }
      NoMorePieces(before + own);
    }
  }

  lemma NothingJoined()
    ensures Join([], '\n') == "" && Flat<char>([]) == [] && Flat<TokenAttrs>([]) == []
  {
  }

  // ----- the ranges

  lemma {:induction false} TrimmedAre(elements: seq<TextElement>, leadingBytes: nat, trailingBytes: nat, e: TextElement)
    ensures e in TrimElements(elements, leadingBytes, trailingBytes) <==>
            exists i :: 0 <= i < |elements| && IsKept(elements[i], leadingBytes, trailingBytes)
              && e == Shift(elements[i], leadingBytes)
    decreases |elements|
  {
    hide IsKept, Shift;
    if elements != [] {
      var n := |elements| - 1;
      TrimmedAre(elements[..n], leadingBytes, trailingBytes, e);
      if IsKept(elements[n], leadingBytes, trailingBytes) && e == Shift(elements[n], leadingBytes) {
        assert e in TrimElements(elements, leadingBytes, trailingBytes);
      }
      if i :| 0 <= i < n && IsKept(elements[i], leadingBytes, trailingBytes) && e == Shift(elements[i], leadingBytes) {
        assert elements[..n][i] == elements[i];
      }
    }
  }

  lemma {:induction false} ElementsAre(pieces: seq<Piece>, n: nat, e: TextElement)
    requires n <= |pieces|
    ensures e in ElementsOf(pieces[..n]) <==>
            exists k :: 0 <= k < n && pieces[k].Token? && e == ElementAt(pieces, k)
  {
    hide ElementsOf, TextOf, ElementBehind;
    if n == 0 {
      NoElements();
    } else {
      ElementsAre(pieces, n - 1, e);
      assert pieces[..n] == pieces[..n - 1] + [pieces[n - 1]];
      PieceAdded(pieces[..n - 1], pieces[n - 1]);
    }
  }

  lemma KeptByItsStart(pieces: seq<Piece>, k: nat)
    requires k < |pieces| && pieces[k].Token?
    ensures var text, first := TextOf(pieces), |TextOf(pieces[..k])|;
            IsKept(ElementAt(pieces, k), LeadingBytes(text), TrailingBytes(text)) <==> TextAround(text, first, first)
  {
    hide TextOf, TokenText, TextAround, Encode, TrimStart, TrimEnd;
    var text, first := TextOf(pieces), |TextOf(pieces[..k])|;
    ElementIsPlace(pieces, k);
    AroundIsInside(text, first, first);
    BytesGrow(text, LeadingLength(text), first);
    BytesGrow(text, TrailingStart(text), first);
  }

  /** The ranges that are sent are those of the tokens that begin behind the leading and before the trailing spaces,
      counted from the first character that is sent. */
  lemma SentElementsExactly(pieces: seq<Piece>, e: TextElement)
    ensures e in ElementsLeft(pieces) <==>
            exists k :: 0 <= k < |pieces| && pieces[k].Token?
              && TextAround(TextOf(pieces), |TextOf(pieces[..k])|, |TextOf(pieces[..k])|)
              && e == Shift(ElementAt(pieces, k), LeadingBytes(TextOf(pieces)))
  {
    hide TextOf, TextAround, IsKept, Shift, ElementAt, LeadingBytes, TrailingBytes, ElementsOf, TrimElements;
    var text := TextOf(pieces);
    assert pieces[..|pieces|] == pieces;
    TrimmedAre(ElementsOf(pieces), LeadingBytes(text), TrailingBytes(text), e);
    if i :| 0 <= i < |ElementsOf(pieces)| && IsKept(ElementsOf(pieces)[i], LeadingBytes(text), TrailingBytes(text))
            && e == Shift(ElementsOf(pieces)[i], LeadingBytes(text)) {
      ElementsAre(pieces, |pieces|, ElementsOf(pieces)[i]);
      var k :| 0 <= k < |pieces| && pieces[k].Token? && ElementsOf(pieces)[i] == ElementAt(pieces, k);
      KeptByItsStart(pieces, k);
    }
    if k :| 0 <= k < |pieces| && pieces[k].Token? && TextAround(text, |TextOf(pieces[..k])|, |TextOf(pieces[..k])|)
            && e == Shift(ElementAt(pieces, k), LeadingBytes(text)) {
      KeptByItsStart(pieces, k);
      ElementsAre(pieces, |pieces|, ElementAt(pieces, k));
      var i :| 0 <= i < |ElementsOf(pieces)| && ElementsOf(pieces)[i] == ElementAt(pieces, k);
    }
  }

  // ----- the named inputs

  /** Skills and files with a path go along under their name. */
  predicate IsNamed(item: TokenAttrs) {
    (item.kind == Skill || item.kind == File) && item.path.Some?
  }

  predicate Names(input: Input, item: TokenAttrs) {
    && IsNamed(item)
    && if item.kind == Skill then input == SkillInput(item.value, item.path.value)
       else input == MentionInput(item.labelText, item.path.value)
  }

  /** The inputs name the items at these places, in their order, and no other item is to be named. */
  ghost predicate NameExactly(inputs: seq<Input>, items: seq<TokenAttrs>, places: seq<nat>) {
    && |places| == |inputs|
    && (forall i, j | 0 <= i < j < |places| :: places[i] < places[j])
    && (forall i | 0 <= i < |places| :: places[i] < |items| && Names(inputs[i], items[places[i]]))
    && (forall k | 0 <= k < |items| && IsNamed(items[k]) :: k in places)
  }

  lemma OneNamed(item: TokenAttrs)
    ensures NamedInput(item) == if IsNamed(item) then [NamedInput(item)[0]] else []
    ensures IsNamed(item) ==> Names(NamedInput(item)[0], item)
  {
  }

  lemma NamedAppends(inputs: seq<Input>, items: seq<TokenAttrs>, places: seq<nat>, item: TokenAttrs, input: Input)
    requires NameExactly(inputs, items, places) && Names(input, item)
    ensures NameExactly(inputs + [input], items + [item], places + [|items|])
  {
    hide Names, IsNamed;
    var longer, more := items + [item], places + [|items|];
    assert forall k | 0 <= k < |items| :: longer[k] == items[k];
    assert longer[|items|] == item && more[|places|] == |items|;
    assert forall k | k in places :: k in more;
  }

  lemma UnnamedAppends(inputs: seq<Input>, items: seq<TokenAttrs>, places: seq<nat>, item: TokenAttrs)
    requires NameExactly(inputs, items, places) && !IsNamed(item)
    ensures NameExactly(inputs, items + [item], places)
  {
    hide Names, IsNamed;
    var longer := items + [item];
    assert forall k | 0 <= k < |items| :: longer[k] == items[k];
  }

  lemma NothingIsNamed()
    ensures NameExactly([], [], [])
  {
  }

  /** Each skill and each file with a path is named once, in the order of the tokens, and nothing else is. */
  lemma {:induction false} NamedInputsExactly(items: seq<TokenAttrs>) returns (places: seq<nat>)
    ensures NameExactly(NamedInputs(items), items, places)
    decreases |items|
  {
    hide NameExactly, Names, NamedInput, IsNamed;
    if items == [] {
      places := [];
      NothingIsNamed();
    } else {
      var n := |items| - 1;
      places := NamedInputsExactly(items[..n]);
      assert items == items[..n] + [items[n]];
      OneNamed(items[n]);
      if IsNamed(items[n]) {
        NamedAppends(NamedInputs(items[..n]), items[..n], places, items[n], NamedInput(items[n])[0]);
        places := places + [n];
      } else {
        UnnamedAppends(NamedInputs(items[..n]), items[..n], places, items[n]);
        assert NamedInputs(items[..n]) + [] == NamedInputs(items[..n]);
      }
    }
  }

  // ----- the payload

  /** A document is sent as its trimmed text, its tokens as context, the text with its ranges unless it is blank, and
      the named inputs of its tokens. */
  lemma PayloadSays(node: Node)
    ensures var payload, blank := PayloadOf(Pieces(node)), Trim(Says(node)) == "";
            && payload.content == Trim(Says(node))
            && payload.contextItems == TokensIn(node)
            && payload.inputs ==
               (if blank then [] else [TextInput(Trim(Says(node)), ElementsLeft(Pieces(node)))])
               + NamedInputs(TokensIn(node))
  {
    hide Pieces, TextOf, TokensOf, Trim, Says, TokensIn, ElementsLeft, NamedInputs;
    PiecesSay(node);
  }

  /** How a token reads. */
  lemma TokenReads(attrs: TokenAttrs)
    ensures var shown := if attrs.labelText == "" then attrs.value else attrs.labelText;
            var text := TokenText(attrs);
            if attrs.kind == SlashCommand then text == attrs.value
            else |text| == 1 + |shown| && text[0] == (if attrs.kind == Skill then '$' else '@') && text[1..] == shown
  {
  }
}
