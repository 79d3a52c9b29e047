/** The UTF-8 encoding of Unicode scalar values (section 3 of RFC 3629). */
module Utf8 {
  import opened Characters

  function EncodeChar(c: char): (bytes: seq<Byte>)
    ensures 1 <= |bytes| <= 4
  {
    var n := c as int;
    if n < 0x80 then
      [n as Byte]
    else if n < 0x800 then
      [(0xC0 + n / 64) as Byte, (0x80 + n % 64) as Byte]
    else if n < 0x10000 then
      [(0xE0 + n / 64 / 64) as Byte, (0x80 + n / 64 % 64) as Byte, (0x80 + n % 64) as Byte]
    else
      [(0xF0 + n / 64 / 64 / 64) as Byte, (0x80 + n / 64 / 64 % 64) as Byte, (0x80 + n / 64 % 64) as Byte,
       (0x80 + n % 64) as Byte]
  }

  function Encode(text: string): seq<Byte> {
    if text == [] then [] else EncodeChar(text[0]) + Encode(text[1..])
  }

  function ByteLength(text: string): nat {
    |Encode(text)|
  }

  lemma {:induction false} EncodeConcat(first: string, second: string)
    ensures Encode(first + second) == Encode(first) + Encode(second)
  {
    if first == [] {
      assert first + second == second;
    } else {
      hide EncodeChar;
      assert (first + second)[1..] == first[1..] + second;
      EncodeConcat(first[1..], second);
    }
  }

  lemma {:induction false} ByteLengthAtLeast(text: string)
    ensures ByteLength(text) >= |text|
  {
    if text != [] {
      ByteLengthAtLeast(text[1..]);
    }
  }

  /** How many bytes a character takes shows in its first byte. */
  function SizeFromLead(lead: Byte): nat {
    if lead < 0x80 then 1 else if lead < 0xE0 then 2 else if lead < 0xF0 then 3 else 4
  }

  lemma LeadShowsSize(c: char)
    ensures |EncodeChar(c)| == SizeFromLead(EncodeChar(c)[0])
  {
  }

  function CharValue(bytes: seq<Byte>): int
    requires 1 <= |bytes| <= 4
  {
    match |bytes|
    case 1 => bytes[0] as int
    case 2 => (bytes[0] as int - 0xC0) * 64 + (bytes[1] as int - 0x80)
    case 3 => (bytes[0] as int - 0xE0) * 4096 + (bytes[1] as int - 0x80) * 64 + (bytes[2] as int - 0x80)
    case 4 => (bytes[0] as int - 0xF0) * 262144 + (bytes[1] as int - 0x80) * 4096 + (bytes[2] as int - 0x80) * 64
                + (bytes[3] as int - 0x80)
  }

  lemma CharValueIs(c: char)
    ensures CharValue(EncodeChar(c)) == c as int
  {
    var n := c as int;
    var high, higher := n / 64, n / 64 / 64;
    assert n == high * 64 + n % 64;
    assert high == higher * 64 + high % 64;
    assert higher == higher / 64 * 64 + higher % 64;
  }

  /** Different texts have different encodings. */
  lemma {:induction false} EncodeIsInjective(left: string, right: string)
    requires Encode(left) == Encode(right)
    ensures left == right
  {
    hide EncodeChar, CharValue;
    if left == [] || right == [] {
      assert |Encode(left)| == 0;
      ByteLengthAtLeast(left);
      ByteLengthAtLeast(right);
    } else {
      var l, r := EncodeChar(left[0]), EncodeChar(right[0]);
      assert l[0] == Encode(left)[0] == r[0];
      LeadShowsSize(left[0]);
      LeadShowsSize(right[0]);
      assert l == Encode(left)[..|l|] && r == Encode(right)[..|l|];
      CharValueIs(left[0]);
      CharValueIs(right[0]);
      assert Encode(left)[|l|..] == Encode(left[1..]) && Encode(right)[|l|..] == Encode(right[1..]);
      EncodeIsInjective(left[1..], right[1..]);
      assert left == [left[0]] + left[1..] && right == [right[0]] + right[1..];
    }
  }
}
