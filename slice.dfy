/**
 * `first_word` of chapt4: scan the bytes of a string and return the part
 * before the first space. A string is modelled by its UTF-8 bytes; a space
 * byte (0x20) is always a whole character, so slicing there is valid.
 */
module Slice {
  import opened Ints

  const Space: byte := 0x20

  /** `first_word`. */
  method FirstWord(s: seq<byte>) returns (word: seq<byte>)
    ensures |word| <= |s| && word == s[..|word|]
    ensures Space !in word
    ensures |word| < |s| ==> s[|word|] == Space
    ensures Space !in s ==> word == s
    ensures (s == [] || s[0] == Space) ==> word == []
  {
    for i := 0 to |s|
      invariant Space !in s[..i]
    {
      if s[i] == Space {
        return s[..i];
      }
      assert s[..i + 1] == s[..i] + [s[i]];
    }
    assert s[..|s|] == s;
    return s;
  }

  /** The bytes of an ASCII string. */
  function Ascii(text: string): (r: seq<byte>)
    requires forall k :: 0 <= k < |text| ==> text[k] as int < 0x80
    ensures |r| == |text|
    ensures forall k :: 0 <= k < |text| ==> r[k] as int == text[k] as int
  {
    seq(|text|, k requires 0 <= k < |text| => text[k] as int as byte)
  }

  /** The example of `main`: the first word of "tom goes to school" is "tom". */
  method MainExample() returns (word: seq<byte>)
    ensures word == Ascii("tom")
  {
    var example := Ascii("tom goes to school");
    word := FirstWord(example);
    assert example[3] == Space;
    assert example[0] != Space && example[1] != Space && example[2] != Space;
    assert word == example[..3];
  }
}
