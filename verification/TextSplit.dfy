/** Cutting a text at a character and joining the parts again, as split and join do. */
module TextSplit {
  function Split(text: string, separator: char): (parts: seq<string>)
    ensures parts != []
  {
    if text == "" then [""]
    else
      var n := |text| - 1;
      var before := Split(text[..n], separator);
      if text[n] == separator then before + [""] else before[..|before| - 1] + [before[|before| - 1] + [text[n]]]
  }

  function Join(parts: seq<string>, separator: char): string {
    if parts == [] then ""
    else if |parts| == 1 then parts[0]
    else Join(parts[..|parts| - 1], separator) + [separator] + parts[|parts| - 1]
  }

  lemma {:induction false} JoinOfSplit(text: string, separator: char)
    ensures Join(Split(text, separator), separator) == text
  {
    if text != "" {
      var n := |text| - 1;
      JoinOfSplit(text[..n], separator);
      var before := Split(text[..n], separator);
      assert text == text[..n] + [text[n]];
      if text[n] == separator {
        JoinBehind(before, "", separator);
      } else {
        LastPartGrows(before, [text[n]], separator);
      }
    }
  }

  lemma LastPartGrows(parts: seq<string>, more: string, separator: char)
    requires parts != []
    ensures var last := |parts| - 1;
            Join(parts[..last] + [parts[last] + more], separator) == Join(parts, separator) + more
  {
    hide Join;
    var n := |parts|;
    var front, last := parts[..n - 1], parts[n - 1];
    JoinBehind(front, last, separator);
    JoinBehind(front, last + more, separator);
    assert front + [last] == parts;
    ConcatThree(Join(front, separator) + (if front == [] then "" else [separator]), last, more);
  }

  lemma JoinBehind(front: seq<string>, last: string, separator: char)
    ensures Join(front + [last], separator) == Join(front, separator) + (if front == [] then "" else [separator]) + last
  {
  }

  lemma ConcatThree(a: string, b: string, c: string)
    ensures a + (b + c) == a + b + c
  {
  }

  lemma JoinNext(parts: seq<string>, n: nat, separator: char)
    requires 0 < n <= |parts|
    ensures Join(parts[..n], separator) ==
            Join(parts[..n - 1], separator) + (if n > 1 then [separator] else "") + parts[n - 1]
  {
    assert parts[..n][..n - 1] == parts[..n - 1];
  }

  lemma {:induction false} PartsHaveNoSeparator(text: string, separator: char)
    ensures forall i | 0 <= i < |Split(text, separator)| :: separator !in Split(text, separator)[i]
  {
    if text != "" {
      PartsHaveNoSeparator(text[..|text| - 1], separator);
    }
  }

  /** The last part grows. */
  function Extend(parts: seq<string>, more: string): seq<string>
    requires parts != []
  {
    parts[..|parts| - 1] + [parts[|parts| - 1] + more]
  }

  lemma SplitChar(text: string, c: char, separator: char)
    ensures Split(text + [c], separator) ==
            if c == separator then Split(text, separator) + [""] else Extend(Split(text, separator), [c])
  {
    assert (text + [c])[..|text|] == text;
  }

  lemma ExtendTwice(parts: seq<string>, first: string, second: string)
    requires parts != []
    ensures Extend(Extend(parts, first), second) == Extend(parts, first + second)
    ensures Extend(parts, "") == parts
  {
    var n := |parts| - 1;
    ConcatThree(parts[n], first, second);
    assert Extend(parts, first)[..n] == parts[..n];
    assert parts[n] + "" == parts[n];
  }

  lemma ExtendEmpty(parts: seq<string>, more: string)
    ensures Extend(parts + [""], more) == parts + [more]
  {
    assert (parts + [""])[..|parts|] == parts && "" + more == more;
  }

  lemma {:induction false} SplitOfConcat(text: string, part: string, separator: char)
    requires separator !in part
    ensures Split(text + part, separator) == Extend(Split(text, separator), part)
    decreases |part|
  {
    hide Split, Extend;
    if part == "" {
      assert text + part == text;
      ExtendTwice(Split(text, separator), "", "");
    } else {
      var n := |part| - 1;
      assert part == part[..n] + [part[n]];
      assert text + part == (text + part[..n]) + [part[n]];
      SplitOfConcat(text, part[..n], separator);
      SplitChar(text + part[..n], part[n], separator);
      ExtendTwice(Split(text, separator), part[..n], [part[n]]);
    }
  }

  /** Cutting what was joined gives the parts back, if none of them holds the separator. */
  lemma {:induction false} SplitOfJoin(parts: seq<string>, separator: char)
    requires parts != [] && forall i | 0 <= i < |parts| :: separator !in parts[i]
    ensures Split(Join(parts, separator), separator) == parts
    decreases |parts|
  {
    hide Split, Extend;
    var n := |parts| - 1;
    assert parts == parts[..n] + [parts[n]];
    JoinBehind(parts[..n], parts[n], separator);
    if n == 0 {
      SplitNothing(separator);
      NothingJoined(separator);
      SplitOfConcat("", parts[0], separator);
      ExtendEmpty([], parts[0]);
      assert "" + "" + parts[0] == "" + parts[0];
    } else {
      SplitOfJoin(parts[..n], separator);
      SplitChar(Join(parts[..n], separator), separator, separator);
      SplitOfConcat(Join(parts[..n], separator) + [separator], parts[n], separator);
      ExtendEmpty(parts[..n], parts[n]);
    }
  }

  lemma SplitNothing(separator: char)
    ensures Split("", separator) == [""] == [] + [""]
  {
  }

  lemma NothingJoined(separator: char)
    ensures Join([], separator) == ""
  {
  }
}
