/** How the composer's document becomes the text that is sent, with the byte ranges of its prompt tokens. Texts are
    sequences of Unicode scalar values. */
module ComposerInput {
  import opened Wrappers
  import opened Characters
  import opened TextSplit
  import opened Utf8

  datatype TokenKind = Skill | Plugin | File | SlashCommand

  datatype TokenAttrs = TokenAttrs(kind: TokenKind, labelText: string, path: Option<string>, value: string)

  /** A node of the document. A branch is the document itself, a paragraph or any other node with children. */
  datatype Node =
    | TextNode(text: string)
    | HardBreak
    | PromptToken(attrs: TokenAttrs)
    | Branch(isDoc: bool, children: seq<Node>)

  datatype TextElement = TextElement(start: int, end: int, placeholder: string)

  /** Entries of the sent inputs. */
  datatype Input =
    | TextInput(text: string, textElements: seq<TextElement>)
    | SkillInput(name: string, path: string)
    | MentionInput(name: string, path: string)

  datatype Payload = Payload(content: string, contextItems: seq<TokenAttrs>, inputs: seq<Input>)

  /** What the document says, piece by piece. */
  datatype Piece = Plain(text: string) | Token(attrs: TokenAttrs)

  function TokenText(attrs: TokenAttrs): string {
    var name := if attrs.labelText != "" then attrs.labelText else attrs.value;
    match attrs.kind
    case Skill => "$" + name
    case SlashCommand => attrs.value
    case Plugin => "@" + name
    case File => "@" + name
  }

  function PieceText(piece: Piece): string {
    match piece
    case Plain(text) => text
    case Token(attrs) => TokenText(attrs)
  }

  function Own(piece: Piece): seq<TokenAttrs> {
    if piece.Token? then [piece.attrs] else []
  }

  // ----- the document

  /** The pieces of a node's first n children; a document puts a line break between its children. */
  function PiecesOfChildren(node: Node, n: nat): seq<Piece>
    requires node.Branch? && n <= |node.children|
    decreases node, n
  {
    if n == 0 then []
    else
      PiecesOfChildren(node, n - 1) + Pieces(node.children[n - 1])
      + if node.isDoc && n < |node.children| then [Plain("\n")] else []
  }

  function Pieces(node: Node): seq<Piece>
    decreases node, if node.Branch? then |node.children| + 1 else 0
  {
    match node
    case TextNode(text) => [Plain(text)]
    case HardBreak => [Plain("\n")]
    case PromptToken(attrs) => [Token(attrs)]
    case Branch(_, children) => PiecesOfChildren(node, |children|)
  }

  function TextOf(pieces: seq<Piece>): string {
    if pieces == [] then "" else TextOf(pieces[..|pieces| - 1]) + PieceText(pieces[|pieces| - 1])
  }

  /** The element of a token that stands behind a text. */
  function ElementBehind(text: string, attrs: TokenAttrs): TextElement {
    TextElement(ByteLength(text), ByteLength(text + TokenText(attrs)), TokenText(attrs))
  }

  function ElementsOf(pieces: seq<Piece>): seq<TextElement> {
    if pieces == [] then []
    else
      var n := |pieces| - 1;
      ElementsOf(pieces[..n]) +
      if pieces[n].Token? then [ElementBehind(TextOf(pieces[..n]), pieces[n].attrs)] else []
  }

  function TokensOf(pieces: seq<Piece>): seq<TokenAttrs> {
    if pieces == [] then [] else TokensOf(pieces[..|pieces| - 1]) + Own(pieces[|pieces| - 1])
  }

  // ----- trimming

  /** White space and line terminators, as String.prototype.trim knows them. */
  predicate IsSpace(c: char) {
    IsSpaceCode(c as int)
  }

  function TrimStart(text: string): (rest: string)
    ensures |rest| <= |text| && rest == text[|text| - |rest|..]
    ensures rest == [] || !IsSpace(rest[0])
    ensures forall i | 0 <= i < |text| - |rest| :: IsSpace(text[i])
  {
    if text != [] && IsSpace(text[0]) then TrimStart(text[1..]) else text
  }

  function TrimEnd(text: string): (rest: string)
    ensures |rest| <= |text| && rest == text[..|rest|]
    ensures rest == [] || !IsSpace(rest[|rest| - 1])
    ensures forall i | |rest| <= i < |text| :: IsSpace(text[i])
  {
    if text != [] && IsSpace(text[|text| - 1]) then TrimEnd(text[..|text| - 1]) else text
  }

  function Trim(text: string): string {
    TrimEnd(TrimStart(text))
  }

  function Shift(element: TextElement, leadingBytes: nat): TextElement {
    element.(start := element.start - leadingBytes, end := element.end - leadingBytes)
  }

  predicate IsKept(element: TextElement, leadingBytes: nat, trailingBytes: nat) {
    leadingBytes <= element.start < trailingBytes
  }

  function TrimElements(elements: seq<TextElement>, leadingBytes: nat, trailingBytes: nat): seq<TextElement> {
    if elements == [] then []
    else
      var n := |elements| - 1;
      TrimElements(elements[..n], leadingBytes, trailingBytes)
      + if IsKept(elements[n], leadingBytes, trailingBytes) then [Shift(elements[n], leadingBytes)] else []
  }

  function LeadingLength(text: string): (n: nat)
    ensures n <= |text|
  {
    |text| - |TrimStart(text)|
  }

  function TrailingStart(text: string): (n: nat)
    ensures n <= |text|
  {
    |TrimEnd(text)|
  }

  function LeadingBytes(text: string): nat {
    ByteLength(text[..LeadingLength(text)])
  }

  function TrailingBytes(text: string): nat {
    ByteLength(text[..TrailingStart(text)])
  }

  /** trimSerializedText as a function: the elements that it leaves. */
  function ElementsLeft(pieces: seq<Piece>): seq<TextElement> {
    TrimElements(ElementsOf(pieces), LeadingBytes(TextOf(pieces)), TrailingBytes(TextOf(pieces)))
  }

  // ----- what trimming leaves

  ghost predicate OnlySpaces(text: string, low: nat, high: nat)
    requires low <= high <= |text|
  {
    forall i | low <= i < high :: IsSpace(text[i])
  }

  lemma EndIsUnique(text: string, a: nat, b: nat)
    requires a <= |text| && b <= |text| && OnlySpaces(text, a, |text|) && OnlySpaces(text, b, |text|)
    requires (a > 0 ==> !IsSpace(text[a - 1])) && (b > 0 ==> !IsSpace(text[b - 1]))
    ensures a == b
  {
    hide IsSpace;
  }

  lemma TrimBothEnds(text: string)
    requires exists i :: 0 <= i < |text| && !IsSpace(text[i])
    ensures LeadingLength(text) + |TrimEnd(TrimStart(text))| == TrailingStart(text)
    ensures TrimEnd(TrimStart(text)) != []
  {
    hide TrimStart, TrimEnd, IsSpace;
    var leading, rest := LeadingLength(text), TrimStart(text);
    var both := TrimEnd(rest);
    assert rest == text[leading..];
    assert forall i | 0 <= i < |rest| :: rest[i] == text[leading + i];
    assert both != [] by {
      assert rest != [] && !IsSpace(rest[0]);
    }
    assert OnlySpaces(text, leading + |both|, |text|) by {
      forall i | leading + |both| <= i < |text|
        ensures IsSpace(text[i])
      {
        assert text[i] == rest[i - leading];
      }
    }
    assert !IsSpace(text[leading + |both| - 1]);
    EndIsUnique(text, leading + |both|, TrailingStart(text));
  }

  /** The trimmed text is what lies between the first and the last character that is no space. */
  lemma TrimIsSlice(text: string)
    ensures var leading, trailing := LeadingLength(text), TrailingStart(text);
            if forall i | 0 <= i < |text| :: IsSpace(text[i]) then
              leading == |text| && trailing == 0 && Trim(text) == ""
            else
              && leading < trailing && Trim(text) == text[leading..trailing]
              && !IsSpace(text[leading]) && !IsSpace(text[trailing - 1])
  {
    hide TrimStart, TrimEnd, IsSpace;
    if i :| 0 <= i < |text| && !IsSpace(text[i]) {
      TrimBothEnds(text);
      DropThenTake(text, LeadingLength(text), TrailingStart(text));
    } else {
      BlankIsTrimmed(text);
    }
  }

  lemma DropThenTake(text: string, low: nat, high: nat)
    requires low <= high <= |text|
    ensures text[low..][..high - low] == text[low..high]
  {
  }

  lemma {:induction false} BlankIsTrimmed(text: string)
    requires forall i | 0 <= i < |text| :: IsSpace(text[i])
    ensures TrimStart(text) == "" && TrimEnd(text) == "" && Trim(text) == ""
  {
    hide IsSpace;
    if text != [] {
      BlankIsTrimmed(text[1..]);
      BlankIsTrimmed(text[..|text| - 1]);
    }
  }

  /** Before and behind some place of the text stands a character that is no space. */
  predicate TextAround(text: string, first: nat, last: nat) {
    && (exists i :: 0 <= i <= first && i < |text| && !IsSpace(text[i]))
    && (exists j :: last <= j < |text| && !IsSpace(text[j]))
  }

  lemma AroundIsInside(text: string, first: nat, last: nat)
    requires first <= |text|
    ensures TextAround(text, first, last) <==> LeadingLength(text) <= first && last < TrailingStart(text)
  {
    TrimIsSlice(text);
    var leading, trailing := LeadingLength(text), TrailingStart(text);
    if leading <= first && last < trailing {
      assert !IsSpace(text[leading]) && !IsSpace(text[trailing - 1]);
    }
  }

  // ----- bytes and places

  lemma BytesOfPrefix(text: string, n: nat)
    requires n <= |text|
    ensures Encode(text) == Encode(text[..n]) + Encode(text[n..])
  {
    hide Encode;
    EncodeConcat(text[..n], text[n..]);
    assert text[..n] + text[n..] == text;
  }

  lemma BytesGrow(text: string, m: nat, n: nat)
    requires m <= |text| && n <= |text|
    ensures ByteLength(text[..m]) <= ByteLength(text[..n]) <==> m <= n
  {
    var low, high := if m <= n then m else n, if m <= n then n else m;
    BytesOfPrefix(text[..high], low);
    assert text[..high][..low] == text[..low];
    ByteLengthAtLeast(text[..high][low..]);
  }

  lemma BytesOfSlice(text: string, low: nat, first: nat, behind: nat, high: nat)
    requires low <= first <= behind <= high <= |text|
    ensures var a := ByteLength(text[..first]) - ByteLength(text[..low]);
            var b := ByteLength(text[..behind]) - ByteLength(text[..low]);
            && 0 <= a <= b <= ByteLength(text[low..high])
            && Encode(text[low..high])[a..b] == Encode(text[first..behind])
  {
    hide Encode;
    PrefixBytes(text, low, first);
    PrefixBytes(text, first, behind);
    var slice := text[low..high];
    BytesOfPrefix(slice, behind - low);
    BytesOfPrefix(slice[..behind - low], first - low);
    SliceOfSlice(text, low, first, behind, high);
  }

  lemma SliceOfSlice(text: string, low: nat, first: nat, behind: nat, high: nat)
    requires low <= first <= behind <= high <= |text|
    ensures var slice := text[low..high];
            && slice[..behind - low][..first - low] == text[low..first]
            && slice[..behind - low][first - low..] == text[first..behind]
  {
    assert text[low..high][..behind - low] == text[low..behind];
    assert text[low..behind][..first - low] == text[low..first];
    assert text[low..behind][first - low..] == text[first..behind];
  }

  lemma PrefixBytes(text: string, low: nat, high: nat)
    requires low <= high <= |text|
    ensures ByteLength(text[..high]) == ByteLength(text[..low]) + ByteLength(text[low..high])
  {
    BytesOfPrefix(text[..high], low);
    assert text[..high][..low] == text[..low] && text[..high][low..] == text[low..high];
  }

  // ----- where a token stands

  lemma TextOfStep(pieces: seq<Piece>)
    requires pieces != []
    ensures TextOf(pieces) == TextOf(pieces[..|pieces| - 1]) + PieceText(pieces[|pieces| - 1])
  {
  }

  lemma {:induction false} PieceStands(pieces: seq<Piece>, k: nat)
    requires k < |pieces|
    ensures var before, own := TextOf(pieces[..k]), PieceText(pieces[k]);
            exists behind :: TextOf(pieces) == before + own + behind
    decreases |pieces|
  {
    hide TextOf, PieceText;
    var n := |pieces| - 1;
    TextOfStep(pieces);
    if k == n {
      assert pieces[..n] == pieces[..k];
      assert TextOf(pieces) == TextOf(pieces[..k]) + PieceText(pieces[k]) + "";
    } else {
      PieceStands(pieces[..n], k);
      assert pieces[..n][..k] == pieces[..k];
      var behind :| TextOf(pieces[..n]) == TextOf(pieces[..k]) + PieceText(pieces[k]) + behind;
      assert TextOf(pieces) == TextOf(pieces[..k]) + PieceText(pieces[k]) + (behind + PieceText(pieces[n]));
    }
  }

  /** The element of a token piece, as it is before trimming. */
  function ElementAt(pieces: seq<Piece>, k: nat): TextElement
    requires k < |pieces| && pieces[k].Token?
  {
    ElementBehind(TextOf(pieces[..k]), pieces[k].attrs)
  }

  /** The bytes of the sent text in the range of the element are those of its placeholder. */
  predicate SlicesExactly(text: string, element: TextElement) {
    && 0 <= element.start <= element.end <= ByteLength(text)
    && Encode(text)[element.start..element.end] == Encode(element.placeholder)
  }

  /** Trimming the text keeps the element, with an exact range. */
  predicate ExactIn(text: string, element: TextElement) {
    && IsKept(element, LeadingBytes(text), TrailingBytes(text))
    && SlicesExactly(Trim(text), Shift(element, LeadingBytes(text)))
  }

  /** A token's element survives trimming with an exact range exactly when the text has something other than spaces at
      or before its first character, and at or behind its last one. */
  lemma KeptExactly(pieces: seq<Piece>, k: nat)
    requires k < |pieces| && pieces[k].Token?
    ensures var text := TextOf(pieces);
            var element := ElementAt(pieces, k);
            var first := |TextOf(pieces[..k])|;
            var length := |TokenText(pieces[k].attrs)|;
            ExactIn(text, element)
            <==> TextAround(text, first, if length == 0 then first else first + length - 1)
  {
    hide TrimStart, TrimEnd, IsSpace, EncodeChar, Encode, TextOf, TextAround, Trim, IsKept, SlicesExactly, ElementAt,
         Shift, TokenText, LeadingBytes, TrailingBytes, LeadingLength, TrailingStart;
    var text := TextOf(pieces);
    var first := |TextOf(pieces[..k])|;
    var behind := first + |TokenText(pieces[k].attrs)|;
    ElementIsPlace(pieces, k);
    AroundIsInside(text, first, if first == behind then first else behind - 1);
    PlaceKept(text, first, behind);
  }

  /** A token whose placeholder ends with a space does not survive exactly when it is the last piece. */
  lemma PaddedTokenIsCut(pieces: seq<Piece>)
    requires pieces != [] && pieces[|pieces| - 1].Token?
    requires var own := TokenText(pieces[|pieces| - 1].attrs); own != "" && IsSpace(own[|own| - 1])
    ensures !ExactIn(TextOf(pieces), ElementAt(pieces, |pieces| - 1))
  {
    hide IsSpace, TokenText, ExactIn, ElementAt;
    KeptExactly(pieces, |pieces| - 1);
  }

  /** Such a token: a mention of a file whose label ends with a space. */
  lemma PaddedMention(path: string)
    ensures var pieces := [Token(TokenAttrs(File, "notes ", Some(path), ""))];
            !ExactIn(TextOf(pieces), ElementAt(pieces, 0))
  {
    var own := TokenText(TokenAttrs(File, "notes ", Some(path), ""));
    assert own == "@notes " && IsSpace(own[6]);
    PaddedTokenIsCut([Token(TokenAttrs(File, "notes ", Some(path), ""))]);
  }

  lemma ElementIsPlace(pieces: seq<Piece>, k: nat)
    requires k < |pieces| && pieces[k].Token?
    ensures var text, element := TextOf(pieces), ElementAt(pieces, k);
            var first := |TextOf(pieces[..k])|;
            var behind := first + |TokenText(pieces[k].attrs)|;
            && behind <= |text|
            && element == TextElement(ByteLength(text[..first]), ByteLength(text[..behind]), text[first..behind])
  {
    hide Encode, TextOf, TokenText;
    PieceStands(pieces, k);
    var text, before, own := TextOf(pieces), TextOf(pieces[..k]), TokenText(pieces[k].attrs);
    var rest :| text == before + own + rest;
    assert text[..|before|] == before && text[..|before| + |own|] == before + own;
    assert text[|before|..|before| + |own|] == own;
  }

  lemma PlaceKept(text: string, first: nat, behind: nat)
    requires first <= behind <= |text|
    ensures var element := TextElement(ByteLength(text[..first]), ByteLength(text[..behind]), text[first..behind]);
            ExactIn(text, element)
            <==> LeadingLength(text) <= first && (if first == behind then first else behind - 1) < TrailingStart(text)
  {
    hide TrimStart, TrimEnd, IsSpace, EncodeChar, Encode, Trim;
    var leading, trailing := LeadingLength(text), TrailingStart(text);
    TrimIsSlice(text);
    BytesGrow(text, leading, first);
    BytesGrow(text, trailing, first);
    BytesGrow(text, behind, trailing);
    if leading <= first < trailing {
      PrefixBytes(text, leading, trailing);
      if behind <= trailing {
        BytesOfSlice(text, leading, first, behind, trailing);
      }
    }
  }

  // ----- whole documents

  ghost predicate InOrder(elements: seq<TextElement>) {
    && (forall i | 0 <= i < |elements| :: elements[i].start <= elements[i].end)
    && (forall i, j | 0 <= i < j < |elements| :: elements[i].end <= elements[j].start)
  }

  lemma {:induction false} ElementsInOrder(pieces: seq<Piece>)
    ensures InOrder(ElementsOf(pieces))
    ensures forall i | 0 <= i < |ElementsOf(pieces)| :: ElementsOf(pieces)[i].end <= ByteLength(TextOf(pieces))
    decreases |pieces|
  {
    hide Encode, TokenText;
    if pieces != [] {
      var n := |pieces| - 1;
      ElementsInOrder(pieces[..n]);
      EncodeConcat(TextOf(pieces[..n]), PieceText(pieces[n]));
    }
  }

  lemma {:induction false} TrimmedStaysBelow(elements: seq<TextElement>, leadingBytes: nat, trailingBytes: nat,
                                             bound: int)
    requires forall i | 0 <= i < |elements| :: elements[i].end <= bound
    ensures var left := TrimElements(elements, leadingBytes, trailingBytes);
            forall i | 0 <= i < |left| :: left[i].end <= bound - leadingBytes
    decreases |elements|
  {
    hide IsKept;
    if elements != [] {
      TrimmedStaysBelow(elements[..|elements| - 1], leadingBytes, trailingBytes, bound);
      TrimElementsStep(elements, leadingBytes, trailingBytes);
    }
  }

  lemma TrimElementsStep(elements: seq<TextElement>, leadingBytes: nat, trailingBytes: nat)
    requires elements != []
    ensures var n := |elements| - 1;
            var before := TrimElements(elements[..n], leadingBytes, trailingBytes);
            var left := TrimElements(elements, leadingBytes, trailingBytes);
            left == before || left == before + [Shift(elements[n], leadingBytes)]
  {
  }

  lemma {:induction false} TrimmingKeepsOrder(elements: seq<TextElement>, leadingBytes: nat, trailingBytes: nat)
    requires InOrder(elements)
    ensures InOrder(TrimElements(elements, leadingBytes, trailingBytes))
    decreases |elements|
  {
    if elements != [] {
      var n := |elements| - 1;
      TrimmingKeepsOrder(elements[..n], leadingBytes, trailingBytes);
      TrimmedStaysBelow(elements[..n], leadingBytes, trailingBytes, elements[n].start);
      TrimElementsStep(elements, leadingBytes, trailingBytes);
    }
  }

  /** Whatever the document holds, the byte ranges sent with its text are increasing and disjoint. */
  lemma RangesAreDisjoint(pieces: seq<Piece>)
    ensures InOrder(ElementsLeft(pieces))
  {
    hide TextOf, ElementsOf, InOrder, TrimElements;
    ElementsInOrder(pieces);
    TrimmingKeepsOrder(ElementsOf(pieces), LeadingBytes(TextOf(pieces)), TrailingBytes(TextOf(pieces)));
  }

  /** The placeholder has characters, and neither begins nor ends with a space. */
  predicate IsTight(placeholder: string) {
    placeholder != "" && !IsSpace(placeholder[0]) && !IsSpace(placeholder[|placeholder| - 1])
  }

  predicate TightTokens(pieces: seq<Piece>) {
    forall k | 0 <= k < |pieces| && pieces[k].Token? :: IsTight(TokenText(pieces[k].attrs))
  }

  lemma TightIsKept(pieces: seq<Piece>, k: nat)
    requires k < |pieces| && pieces[k].Token? && IsTight(TokenText(pieces[k].attrs))
    ensures var text, element := TextOf(pieces), ElementAt(pieces, k);
            ExactIn(text, element)
  {
    hide TrimStart, TrimEnd, IsSpace, Encode, TextOf, TokenText, IsKept, SlicesExactly, ElementAt, Shift, LeadingBytes,
         TrailingBytes;
    KeptExactly(pieces, k);
    PieceStands(pieces, k);
    var text, before, own := TextOf(pieces), TextOf(pieces[..k]), TokenText(pieces[k].attrs);
    var rest :| text == before + own + rest;
    var first, last := |before|, |before| + |own| - 1;
    assert text[first] == own[0] && text[last] == own[|own| - 1];
    assert TextAround(text, first, last);
  }

  lemma {:induction false} TightElements(pieces: seq<Piece>, n: nat)
    requires TightTokens(pieces) && n <= |pieces|
    ensures var elements, tokens := ElementsOf(pieces[..n]), TokensOf(pieces[..n]);
            && |elements| == |tokens|
            && forall i | 0 <= i < |elements| ::
                 ExactIn(TextOf(pieces), elements[i]) && elements[i].placeholder == TokenText(tokens[i])
  {
    hide TextOf, TokenText, ExactIn, IsTight, ElementsOf, TokensOf;
    if n == 0 {
      NoElements();
    } else {
      TightElements(pieces, n - 1);
      assert pieces[..n] == pieces[..n - 1] + [pieces[n - 1]];
      PieceAdded(pieces[..n - 1], pieces[n - 1]);
      if pieces[n - 1].Token? {
        LastTokenExact(pieces, n - 1);
      }
    }
  }

  lemma NoElements()
    ensures ElementsOf([]) == [] && TokensOf([]) == []
  {
  }

  lemma LastTokenExact(pieces: seq<Piece>, k: nat)
    requires k < |pieces| && pieces[k].Token? && IsTight(TokenText(pieces[k].attrs))
    ensures ExactIn(TextOf(pieces), ElementBehind(TextOf(pieces[..k]), pieces[k].attrs))
  {
    hide TextOf, TokenText, IsTight, IsKept, SlicesExactly, Shift, Trim, LeadingBytes, TrailingBytes;
    TightIsKept(pieces, k);
  }

  lemma {:induction false} AllAreKept(elements: seq<TextElement>, text: string)
    requires forall i | 0 <= i < |elements| :: ExactIn(text, elements[i])
    ensures var left := TrimElements(elements, LeadingBytes(text), TrailingBytes(text));
            && |left| == |elements|
            && forall i | 0 <= i < |left| :: left[i] == Shift(elements[i], LeadingBytes(text))
    decreases |elements|
  {
    hide IsKept, SlicesExactly, Shift, Trim, LeadingBytes, TrailingBytes;
    if elements != [] {
      AllAreKept(elements[..|elements| - 1], text);
    }
  }

  /** When no placeholder is empty or padded with spaces, no token is lost: the elements sent are those of all tokens in
      their order, each slicing exactly its placeholder out of the bytes of the sent text. */
  lemma NoTokenIsLost(pieces: seq<Piece>)
    requires TightTokens(pieces)
    ensures var left, tokens := ElementsLeft(pieces), TokensOf(pieces);
            && |left| == |tokens|
            && forall i | 0 <= i < |left| ::
                 left[i].placeholder == TokenText(tokens[i]) && SlicesExactly(Trim(TextOf(pieces)), left[i])
  {
    hide TextOf, TokenText, TightTokens, Trim, LeadingBytes, TrailingBytes, SlicesExactly, TrimElements, ElementsOf,
         TokensOf;
    assert pieces[..|pieces|] == pieces;
    TightElements(pieces, |pieces|);
    AllAreKept(ElementsOf(pieces), TextOf(pieces));
    forall i | 0 <= i < |ElementsLeft(pieces)|
      ensures ElementsLeft(pieces)[i].placeholder == TokenText(TokensOf(pieces)[i])
      ensures SlicesExactly(Trim(TextOf(pieces)), ElementsLeft(pieces)[i])
    {
      assert ExactIn(TextOf(pieces), ElementsOf(pieces)[i]);
    }
  }

  // ----- plain text there and back

  function ParagraphOf(line: string): Node {
    Branch(false, if line == "" then [] else [TextNode(line)])
  }

  /** createDesktopComposerContentFromText. */
  function FromText(text: string): Node {
    var lines := Split(text, '\n');
    Branch(true, seq(|lines|, i requires 0 <= i < |lines| => ParagraphOf(lines[i])))
  }

  lemma {:induction false} TextOfConcat(first: seq<Piece>, second: seq<Piece>)
    ensures TextOf(first + second) == TextOf(first) + TextOf(second)
    decreases |second|
  {
    hide TextOf, PieceText;
    if second == [] {
      assert first + second == first;
      NoText();
    } else {
      var n := |second| - 1;
      assert (first + second)[..|first| + n] == first + second[..n];
      TextOfStep(first + second);
      TextOfStep(second);
      TextOfConcat(first, second[..n]);
    }
  }

  lemma NoText()
    ensures TextOf([]) == ""
  {
  }

  lemma ParagraphText(line: string)
    ensures TextOf(Pieces(ParagraphOf(line))) == line
    ensures TokensOf(Pieces(ParagraphOf(line))) == []
  {
    if line != "" {
      var node := ParagraphOf(line);
      assert PiecesOfChildren(node, 0) == [];
      assert Pieces(node.children[0]) == [Plain(line)];
      assert PiecesOfChildren(node, 1) == [Plain(line)];
      assert [Plain(line)][..0] == [];
    }
  }

  lemma {:induction false} TokensOfConcat(first: seq<Piece>, second: seq<Piece>)
    ensures TokensOf(first + second) == TokensOf(first) + TokensOf(second)
    decreases |second|
  {
    hide Own;
    if second == [] {
      assert first + second == first;
    } else {
      var n := |second| - 1;
      assert (first + second)[..|first| + n] == first + second[..n];
      TokensOfConcat(first, second[..n]);
    }
  }

  lemma LineBreakText()
    ensures TextOf([Plain("\n")]) == "\n" && TokensOf([Plain("\n")]) == []
  {
    assert [Plain("\n")][..0] == [];
  }

  /** The first n paragraphs of the document of a text say its first n lines. */
  lemma {:induction false} ParagraphsSayLines(lines: seq<string>, node: Node, n: nat)
    requires node.Branch? && node.isDoc && |node.children| == |lines| && n <= |lines|
    requires forall i | 0 <= i < |lines| :: node.children[i] == ParagraphOf(lines[i])
    ensures TextOf(PiecesOfChildren(node, n)) == Join(lines[..n], '\n') + (if 0 < n < |lines| then "\n" else "")
    ensures TokensOf(PiecesOfChildren(node, n)) == []
  {
    hide ParagraphOf, Pieces, TextOf, TokensOf;
    if n == 0 {
      NoText();
      NoTokens();
    } else {
      ParagraphsSayLines(lines, node, n - 1);
      ParagraphText(lines[n - 1]);
      var before, own := PiecesOfChildren(node, n - 1), Pieces(node.children[n - 1]);
      TextOfConcat(before, own);
      TokensOfConcat(before, own);
      if n < |lines| {
        LineBreakText();
        TextOfConcat(before + own, [Plain("\n")]);
        TokensOfConcat(before + own, [Plain("\n")]);
      }
      JoinNext(lines, n, '\n');
      NoMorePieces(before + own);
    }
  }

  lemma NoMorePieces(pieces: seq<Piece>)
    ensures pieces + [] == pieces
  {
  }

  lemma NoTokens()
    ensures TokensOf([]) == []
  {
  }

  /** The document made from a plain text says that text, and has no tokens. */
  lemma TextThereAndBack(text: string)
    ensures TextOf(Pieces(FromText(text))) == text
    ensures TokensOf(Pieces(FromText(text))) == []
  {
    hide ParagraphOf, Split, PiecesOfChildren, TextOf, TokensOf, Join;
    var lines := Split(text, '\n');
    ParagraphsSayLines(lines, FromText(text), |lines|);
    assert lines[..|lines|] == lines;
    JoinOfSplit(text, '\n');
  }

  // ----- the payload

  function NamedInput(item: TokenAttrs): seq<Input> {
    if item.kind == Skill && item.path.Some? then [SkillInput(item.value, item.path.value)]
    else if item.kind == File && item.path.Some? then [MentionInput(item.labelText, item.path.value)]
    else []
  }

  function NamedInputs(items: seq<TokenAttrs>): seq<Input> {
    if items == [] then [] else NamedInputs(items[..|items| - 1]) + NamedInput(items[|items| - 1])
  }

  function TextInputs(pieces: seq<Piece>): seq<Input> {
    var text := Trim(TextOf(pieces));
    if text == "" then [] else [TextInput(text, ElementsLeft(pieces))]
  }

  /** serializeDesktopComposerContent as a function of what the document says. */
  function PayloadOf(pieces: seq<Piece>): Payload {
    Payload(Trim(TextOf(pieces)), TokensOf(pieces), TextInputs(pieces) + NamedInputs(TokensOf(pieces)))
  }

  /** Sending plain text sends the trimmed text and nothing else. */
  lemma PlainTextIsSentTrimmed(text: string)
    ensures PayloadOf(Pieces(FromText(text))) ==
            Payload(Trim(text), [], if Trim(text) == "" then [] else [TextInput(Trim(text), [])])
  {
    hide Trim, TextOf, TokensOf, Pieces, FromText;
    var pieces := Pieces(FromText(text));
    TextThereAndBack(text);
    NoTokensNoElements(pieces);
  }

  lemma {:induction false} NoTokensNoElements(pieces: seq<Piece>)
    requires TokensOf(pieces) == []
    ensures ElementsOf(pieces) == [] && ElementsLeft(pieces) == []
    decreases |pieces|
  {
    hide TextOf, LeadingBytes, TrailingBytes;
    if pieces != [] {
      NoTokensNoElements(pieces[..|pieces| - 1]);
    }
  }

  // ----- the object

  lemma PieceAdded(pieces: seq<Piece>, piece: Piece)
    ensures TextOf(pieces + [piece]) == TextOf(pieces) + PieceText(piece)
    ensures TokensOf(pieces + [piece]) == TokensOf(pieces) + Own(piece)
    ensures ElementsOf(pieces + [piece]) ==
            ElementsOf(pieces) + if piece.Token? then [ElementBehind(TextOf(pieces), piece.attrs)] else []
  {
  }

  lemma NamedAdded(items: seq<TokenAttrs>, item: TokenAttrs)
    ensures NamedInputs(items + [item]) == NamedInputs(items) + NamedInput(item)
    ensures item.kind != Skill && item.kind != File ==> NamedInput(item) == []
    ensures NamedInputs(items) + [] == NamedInputs(items)
  {
  }

  class SerializeState {
    var text: string
    var textElements: seq<TextElement>
    var contextItems: seq<TokenAttrs>
    var inputContextItems: seq<TokenAttrs>
    ghost var pieces: seq<Piece>

    ghost predicate Valid()
      reads this
    {
      && text == TextOf(pieces)
      && textElements == ElementsOf(pieces)
      && contextItems == TokensOf(pieces)
      && NamedInputs(inputContextItems) == NamedInputs(TokensOf(pieces))
    }

    constructor ()
      ensures Valid() && pieces == []
    {
      text, textElements, contextItems, inputContextItems, pieces := "", [], [], [], [];
    }

    method AppendText(more: string)
      requires Valid()
      modifies this
      ensures Valid() && pieces == old(pieces) + [Plain(more)]
    {
      text := text + more;
      pieces := pieces + [Plain(more)];
    }

    method AppendPromptToken(attrs: TokenAttrs)
      requires Valid()
      modifies this
      ensures Valid() && pieces == old(pieces) + [Token(attrs)]
    {
      hide TokenText, Encode, TextOf, ElementsOf, TokensOf, NamedInputs, NamedInput;
      PieceAdded(pieces, Token(attrs));
      NamedAdded(TokensOf(pieces), attrs);
      NamedAdded(inputContextItems, attrs);
      var placeholder := TokenText(attrs);
      var start := ByteLength(text);
      text := text + placeholder;
      textElements := textElements + [TextElement(start, ByteLength(text), placeholder)];
      contextItems := contextItems + [attrs];
      if attrs.kind == Skill || attrs.kind == File {
        inputContextItems := inputContextItems + [attrs];
      }
      pieces := pieces + [Token(attrs)];
    }

    method SerializeNode(node: Node)
      requires Valid()
      modifies this
      ensures Valid() && pieces == old(pieces) + Pieces(node)
      decreases node
    {
      hide Valid;
      match node {
        case TextNode(nodeText) => AppendText(nodeText);
        case HardBreak => AppendText("\n");
        case PromptToken(attrs) => AppendPromptToken(attrs);
        case Branch(isDoc, children) =>
          for index := 0 to |children|
            invariant Valid() && pieces == old(pieces) + PiecesOfChildren(node, index)
          {
            SerializeNode(children[index]);
            if isDoc && index < |children| - 1 {
              AppendText("\n");
            }
          }
      }
    }
  }

  method TrimSerializedText(text: string, textElements: seq<TextElement>)
    returns (trimmed: string, left: seq<TextElement>)
    ensures trimmed == Trim(text)
    ensures left == TrimElements(textElements, LeadingBytes(text), TrailingBytes(text))
  {
    hide Trim, LeadingBytes, TrailingBytes;
    var leadingBytes, trailingBytes := LeadingBytes(text), TrailingBytes(text);
    left := [];
    for i := 0 to |textElements|
      invariant left == TrimElements(textElements[..i], leadingBytes, trailingBytes)
    {
      assert textElements[..i + 1][..i] == textElements[..i];
      var shifted := Shift(textElements[i], leadingBytes);
      var originalStart := shifted.start + leadingBytes;
      if originalStart >= leadingBytes && originalStart < trailingBytes {
        left := left + [shifted];
      }
    }
    assert textElements[..|textElements|] == textElements;
    trimmed := Trim(text);
  }

  method SerializeDesktopComposerContent(content: Node) returns (payload: Payload)
    ensures payload == PayloadOf(Pieces(content))
  {
    hide Trim, LeadingBytes, TrailingBytes, TextOf, TokensOf, ElementsOf, TrimElements, Pieces;
    var state := new SerializeState();
    state.SerializeNode(content);
    assert state.pieces == Pieces(content) by { NoMorePieces(Pieces(content)); }
    var trimmed, left := TrimSerializedText(state.text, state.textElements);
    var inputs := if trimmed == "" then [] else [TextInput(trimmed, left)];
    inputs := AppendNamedInputs(inputs, state.inputContextItems);
    payload := Payload(trimmed, state.contextItems, inputs);
  }

  /** The loop over the collected context items. */
  method AppendNamedInputs(before: seq<Input>, items: seq<TokenAttrs>) returns (inputs: seq<Input>)
    ensures inputs == before + NamedInputs(items)
  {
    inputs := before;
    for i := 0 to |items|
      invariant inputs == before + NamedInputs(items[..i])
    {
      assert items[..i + 1][..i] == items[..i];
      if items[i].kind == Skill && items[i].path.Some? {
        inputs := inputs + [SkillInput(items[i].value, items[i].path.value)];
      } else if items[i].kind == File && items[i].path.Some? {
        inputs := inputs + [MentionInput(items[i].labelText, items[i].path.value)];
      }
    }
    assert items[..|items|] == items;
  }
}
