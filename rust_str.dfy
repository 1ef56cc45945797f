/**
 * The parts of Rust's `str` API that the exercises lean on: `lines`,
 * `contains` and `to_lowercase` (ASCII letters only).
 *
 * `lines` splits at every '\n'; a '\r' directly before that '\n' belongs to
 * the line ending and is dropped. A string that ends with a line ending has
 * no empty last line, and the empty string has no lines at all.
 */
module RustStr {

  /** The index of the first '\n' in `s`, or `|s|` when there is none. */
  function NewlineIndex(s: string): (i: nat)
    ensures i <= |s|
    ensures forall j :: 0 <= j < i ==> s[j] != '\n'
    ensures i < |s| ==> s[i] == '\n'
    decreases |s|
  {
    if s == [] || s[0] == '\n' then 0 else 1 + NewlineIndex(s[1..])
  }

  /** Drops the '\r' of a "\r\n" line ending. */
  function StripCr(line: string): (r: string)
    ensures r == line || (line == r + ['\r'])
    ensures |line| > 0 && line[|line| - 1] == '\r' ==> |r| == |line| - 1
  {
    if |line| > 0 && line[|line| - 1] == '\r' then line[..|line| - 1] else line
  }

  /** `str::lines`. */
  function Lines(s: string): (r: seq<string>)
    ensures r == [] <==> s == []
    decreases |s|
  {
    if s == [] then []
    else
      var i := NewlineIndex(s);
      if i == |s| then [s] else [StripCr(s[..i])] + Lines(s[i + 1..])
  }

  /** No line holds a '\n'. */
  lemma {:induction false} LinesHaveNoNewline(s: string)
    ensures forall k :: 0 <= k < |Lines(s)| ==> '\n' !in Lines(s)[k]
    decreases |s|
  {
    if s != [] {
      var i := NewlineIndex(s);
      if i < |s| {
        LinesHaveNoNewline(s[i + 1..]);
        assert '\n' !in s[..i];
      }
    }
  }

  /** The first line is everything before the first '\n', without a "\r\n" ending's '\r'. */
  lemma FirstLine(s: string)
    requires s != []
    ensures var i := NewlineIndex(s);
      Lines(s)[0] == if i < |s| then StripCr(s[..i]) else s
  {
  }

  /** A line ended by '\n' is split off the front. */
  lemma {:induction false} LinesCons(line: string, rest: string)
    requires '\n' !in line
    ensures Lines(line + "\n" + rest) == [StripCr(line)] + Lines(rest)
  {
    var s := line + "\n" + rest;
    NewlineIndexOf(line, rest);
    assert s[..|line|] == line;
    assert s[|line| + 1..] == rest;
  }

  lemma {:induction false} NewlineIndexOf(line: string, rest: string)
    requires '\n' !in line
    ensures NewlineIndex(line + "\n" + rest) == |line|
    decreases |line|
  {
    if line != [] {
      NewlineIndexOf(line[1..], rest);
      assert (line + "\n" + rest)[1..] == line[1..] + "\n" + rest;
    }
  }

  /** A last line with no '\n' is one line, kept as it is. */
  lemma LinesOfOneLine(line: string)
    requires line != [] && '\n' !in line
    ensures Lines(line) == [line]
  {
    assert NewlineIndex(line) == |line|;
  }

  /**
   * A final line ending is optional: adding a '\n' after a text that does not
   * already end a line gives the same lines.
   */
  lemma {:induction false} FinalLineEndingOptional(s: string)
    requires s != [] && s[|s| - 1] != '\n' && s[|s| - 1] != '\r'
    ensures Lines(s + "\n") == Lines(s)
    decreases |s|
  {
    var i := NewlineIndex(s);
    if i == |s| {
      NewlineIndexOf(s, "");
      assert (s + "\n")[..|s|] == s;
      assert (s + "\n")[|s| + 1..] == [];
    } else {
      var line, rest := s[..i], s[i + 1..];
      assert s == line + "\n" + rest;
      assert s + "\n" == line + "\n" + (rest + "\n");
      FinalLineEndingOptional(rest);
      LinesCons(line, rest);
      LinesCons(line, rest + "\n");
    }
  }

  /**
   * The same holds for a final "\r\n": it only ends the last line. Here the
   * text may end in '\r', since only the '\r' right before the '\n' is dropped.
   */
  lemma {:induction false} FinalCrLfOptional(s: string)
    requires s != [] && s[|s| - 1] != '\n'
    ensures Lines(s + "\r\n") == Lines(s)
    decreases |s|
  {
    var i := NewlineIndex(s);
    if i == |s| {
      assert s + "\r\n" == (s + "\r") + "\n" + "";
      LinesCons(s + "\r", "");
      assert StripCr(s + "\r") == s;
      LinesOfOneLine(s);
    } else {
      var line, rest := s[..i], s[i + 1..];
      assert s == line + "\n" + rest;
      assert s + "\r\n" == line + "\n" + (rest + "\r\n");
      assert rest[|rest| - 1] == s[|s| - 1];
      FinalCrLfOptional(rest);
      LinesCons(line, rest);
      LinesCons(line, rest + "\r\n");
    }
  }

  /** Joins lines, ending each with '\n'. */
  function Unlines(ls: seq<string>): (s: string)
  {
    if ls == [] then [] else ls[0] + "\n" + Unlines(ls[1..])
  }

  /**
   * `lines` undoes `Unlines` for lines that hold no '\n' and do not end in
   * '\r' (such a '\r' would be read as part of the line ending).
   */
  lemma {:induction false} LinesUnlines(ls: seq<string>)
    requires forall k :: 0 <= k < |ls| ==> '\n' !in ls[k]
    requires forall k :: 0 <= k < |ls| ==> ls[k] == [] || ls[k][|ls[k]| - 1] != '\r'
    ensures Lines(Unlines(ls)) == ls
    decreases |ls|
  {
    if ls != [] {
      LinesUnlines(ls[1..]);
      LinesCons(ls[0], Unlines(ls[1..]));
    }
  }

  /** `pat` occurs in `text` starting at index `i`. */
  predicate OccursAt(text: string, pat: string, i: int)
  {
    0 <= i && i + |pat| <= |text| && text[i..i + |pat|] == pat
  }

  /** `str::contains` with a string pattern: some position of `text` starts a copy of `pat`. */
  predicate Contains(text: string, pat: string)
  {
    exists i | 0 <= i <= |text| - |pat| :: OccursAt(text, pat, i)
  }

  /** A pattern holding a character the text lacks does not occur in it. */
  lemma MissingChar(text: string, pat: string, c: char)
    requires c in pat && c !in text
    ensures !Contains(text, pat)
  {
  }

  /** `char::to_lowercase` on ASCII letters; every other character is kept. */
  function ToLowerChar(c: char): char
  {
    if 'A' <= c <= 'Z' then (c as int + ('a' as int - 'A' as int)) as char else c
  }

  /** `str::to_lowercase`, character by character. */
  function ToLowercase(s: string): (r: string)
    ensures |r| == |s|
    ensures forall k :: 0 <= k < |s| ==> r[k] == ToLowerChar(s[k])
  {
    seq(|s|, k requires 0 <= k < |s| => ToLowerChar(s[k]))
  }

  /** Lowercasing twice is lowercasing once. */
  lemma LowercaseIdempotent(s: string)
    ensures ToLowercase(ToLowercase(s)) == ToLowercase(s)
  {
  }

  /** Lowercasing keeps every occurrence of a pattern. */
  lemma ContainsLowercase(text: string, pat: string)
    requires Contains(text, pat)
    ensures Contains(ToLowercase(text), ToLowercase(pat))
  {
    var i :| 0 <= i <= |text| - |pat| && OccursAt(text, pat, i);
    var lt, lp := ToLowercase(text), ToLowercase(pat);
    assert lt[i..i + |pat|] == lp by {
      forall k | 0 <= k < |pat| ensures lt[i..i + |pat|][k] == lp[k] {
        assert text[i..i + |pat|][k] == pat[k];
      }
    }
    assert OccursAt(lt, lp, i);
  }
}
