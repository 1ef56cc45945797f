/**
 * `last_char_of_first_line` of chapt9: `text.lines().next()?.chars().last()`,
 * the last character of the first line, or `None` when there is no first
 * line or it is empty.
 */
module Panic {
  import opened Wrappers
  import opened RustStr

  /** `last_char_of_first_line`. */
  function LastCharOfFirstLine(text: string): (r: Option<char>)
    ensures r.None? <==> text == [] || text[0] == '\n' || (|text| >= 2 && text[0] == '\r' && text[1] == '\n')
    ensures r.Some? ==> r.value != '\n' && r.value in text[..NewlineIndex(text)]
  {
    var lines := Lines(text);
    if lines == [] then None
    else
      FirstLine(text);
      var first := lines[0];
      if first == [] then None else Some(first[|first| - 1])
  }

  /** Whatever follows the first line ending has no effect. */
  lemma FirstLineOnly(line: string, rest: string)
    requires '\n' !in line
    ensures LastCharOfFirstLine(line + "\n" + rest) == LastCharOfFirstLine(line + "\n")
  {
    LinesCons(line, rest);
    LinesCons(line, "");
    assert Lines(line + "\n" + rest)[0] == Lines(line + "\n")[0];
  }

  /**
   * With a line ending, the answer is the line's last character, where a
   * '\r' just before the '\n' does not count as part of the line.
   */
  lemma EndedLine(line: string, rest: string)
    requires '\n' !in line
    ensures var l := StripCr(line);
      LastCharOfFirstLine(line + "\n" + rest) == if l == [] then None else Some(l[|l| - 1])
  {
    LinesCons(line, rest);
  }

  /** Without a line ending, the whole text is the line, a final '\r' included. */
  lemma UnendedLine(line: string)
    requires '\n' !in line
    ensures LastCharOfFirstLine(line) == if line == [] then None else Some(line[|line| - 1])
  {
    if line != [] {
      LinesOfOneLine(line);
    }
  }

  /** The example of `main`: "asd\nhi" gives 'd'. */
  lemma MainExample()
    ensures LastCharOfFirstLine("asd\nhi") == Some('d')
  {
    EndedLine("asd", "hi");
    assert "asd" + "\n" + "hi" == "asd\nhi";
  }
}
