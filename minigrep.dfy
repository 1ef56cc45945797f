/**
 * chapt12/minigrep: a small `grep`. `Config::new` reads the query, the file
 * name and an optional case flag from the command line; `search` and
 * `search_case_insensitive` keep the lines of a text that contain the query.
 */
module Minigrep {
  import opened Wrappers
  import opened RustStr

  datatype Config = Config(query: string, filename: string, caseSensitive: bool)

  const NoQuery: string := "Didn't get a query string"
  const NoFilename: string := "Didn't get a filename"
  const InsensitiveFlag: string := "--insensitive"

  /**
   * `Config::new`. `args` is the whole command line, program name first.
   * `caseInsensitiveVar` says whether `env::var("CASE_INSENSITIVE")`
   * succeeds (the variable is set); the environment is read only when no
   * third argument is given.
   */
  function NewConfig(args: seq<string>, caseInsensitiveVar: bool): (r: Result<Config, string>)
    ensures r == Err(NoQuery) <==> |args| < 2
    ensures r == Err(NoFilename) <==> |args| == 2
    ensures r.Ok? <==> |args| >= 3
    ensures r.Ok? ==> r.value.query == args[1] && r.value.filename == args[2]
    ensures r.Ok? && |args| >= 4 ==> (r.value.caseSensitive <==> args[3] != InsensitiveFlag)
    ensures r.Ok? && |args| == 3 ==> (r.value.caseSensitive <==> !caseInsensitiveVar)
  {
    // the first `args.next()` skips the program name
    var rest := if args == [] then [] else args[1..];
    if |rest| == 0 then Err(NoQuery)
    else if |rest| == 1 then Err(NoFilename)
    else
      var caseSensitive := if |rest| >= 3 then rest[2] != InsensitiveFlag else !caseInsensitiveVar;
      Ok(Config(rest[0], rest[1], caseSensitive))
  }

  /** Arguments after the case flag are never looked at. */
  lemma ExtraArgumentsIgnored(args: seq<string>, extra: seq<string>, caseInsensitiveVar: bool)
    requires |args| >= 4
    ensures NewConfig(args + extra, caseInsensitiveVar) == NewConfig(args, caseInsensitiveVar)
  {
    assert (args + extra)[1..4] == args[1..4];
  }

  /** A command line that asks for `c`, with the environment variable unset. */
  function CommandLine(program: string, c: Config): seq<string>
  {
    [program, c.query, c.filename] + if c.caseSensitive then [] else [InsensitiveFlag]
  }

  /** Parsing the command line built for a configuration gives that configuration back. */
  lemma ParseCommandLine(program: string, c: Config)
    ensures NewConfig(CommandLine(program, c), false) == Ok(c)
  {
  }

  /** `lines().filter(keep).collect()`. */
  function Filter(lines: seq<string>, keep: string -> bool): seq<string>
    decreases |lines|
  {
    if lines == [] then []
    else if keep(lines[0]) then [lines[0]] + Filter(lines[1..], keep)
    else Filter(lines[1..], keep)
  }

  /**
   * Filtering keeps exactly the lines that pass, each as often as it occurs,
   * in their original order.
   */
  lemma {:induction false} FilterCharacterised(lines: seq<string>, keep: string -> bool)
    ensures SubsequenceOf(Filter(lines, keep), lines)
    ensures forall l :: multiset(Filter(lines, keep))[l] == if keep(l) then multiset(lines)[l] else 0
    decreases |lines|
  {
    if lines != [] {
      FilterCharacterised(lines[1..], keep);
      assert lines == [lines[0]] + lines[1..];
    }
  }

  /** `a` is `b` with some elements left out, the rest in their order. */
  ghost predicate SubsequenceOf<T>(a: seq<T>, b: seq<T>)
    decreases |b|
  {
    a == [] || (b != [] && (SubsequenceOf(a, b[1..]) || (a[0] == b[0] && SubsequenceOf(a[1..], b[1..]))))
  }

  /** `search`: the lines of `contents` that contain `query`, in their order. */
  function Search(query: string, contents: string): (r: seq<string>)
    ensures SubsequenceOf(r, Lines(contents))
    ensures forall l :: multiset(r)[l] == if Contains(l, query) then multiset(Lines(contents))[l] else 0
  {
    FilterCharacterised(Lines(contents), l => Contains(l, query));
    Filter(Lines(contents), l => Contains(l, query))
  }

  /** `search_case_insensitive`: the lines whose lowercase form contains the lowercase query. */
  function SearchCaseInsensitive(query: string, contents: string): (r: seq<string>)
    ensures SubsequenceOf(r, Lines(contents))
    ensures forall l :: multiset(r)[l]
                        == if Contains(ToLowercase(l), ToLowercase(query)) then multiset(Lines(contents))[l] else 0
  {
    FilterCharacterised(Lines(contents), l => Contains(ToLowercase(l), ToLowercase(query)));
    Filter(Lines(contents), l => Contains(ToLowercase(l), ToLowercase(query)))
  }

  /** Keeping more never loses a line: a stricter filter gives a subsequence of a looser one. */
  lemma {:induction false} FilterWeaker(lines: seq<string>, strict: string -> bool, loose: string -> bool)
    requires forall l :: strict(l) ==> loose(l)
    ensures SubsequenceOf(Filter(lines, strict), Filter(lines, loose))
    decreases |lines|
  {
    if lines != [] {
      FilterWeaker(lines[1..], strict, loose);
      var a, b := Filter(lines[1..], strict), Filter(lines[1..], loose);
      if strict(lines[0]) {
        assert Filter(lines, strict) == [lines[0]] + a;
        assert Filter(lines, loose) == [lines[0]] + b;
      } else if loose(lines[0]) {
        assert Filter(lines, loose) == [lines[0]] + b;
        assert ([lines[0]] + b)[1..] == b;
      }
    }
  }

  /** Every line the case-sensitive search finds, the case-insensitive one finds too, in the same order. */
  lemma SensitiveWithinInsensitive(query: string, contents: string)
    ensures SubsequenceOf(Search(query, contents), SearchCaseInsensitive(query, contents))
  {
    forall l | Contains(l, query) ensures Contains(ToLowercase(l), ToLowercase(query)) {
      ContainsLowercase(l, query);
    }
    FilterWeaker(Lines(contents), l => Contains(l, query), l => Contains(ToLowercase(l), ToLowercase(query)));
  }

  /** The case-insensitive search does not depend on the case of the query. */
  lemma QueryCaseIrrelevant(query: string, contents: string)
    ensures SearchCaseInsensitive(ToLowercase(query), contents) == SearchCaseInsensitive(query, contents)
  {
    LowercaseIdempotent(query);
  }

  /** The text of the two tests, one line at a time (the tests write it as one literal). */
  const Line1: string := "Rust:"
  const Line2: string := "safe, fast, productive."
  const Line3: string := "Pick three."

  function TestContents(last: string): string
  {
    Line1 + "\n" + (Line2 + "\n" + (Line3 + "\n" + last))
  }

  lemma TestContentsLines(last: string)
    requires last != [] && '\n' !in last
    ensures Lines(TestContents(last)) == [Line1, Line2, Line3, last]
  {
    assert '\n' !in Line1 && Line1[|Line1| - 1] != '\r';
    assert '\n' !in Line2 && Line2[|Line2| - 1] != '\r';
    assert '\n' !in Line3 && Line3[|Line3| - 1] != '\r';
    LinesOfFour(Line1, Line2, Line3, last);
  }

  lemma LinesOfFour(a: string, b: string, c: string, d: string)
    requires '\n' !in a && '\n' !in b && '\n' !in c && '\n' !in d && d != []
    requires StripCr(a) == a && StripCr(b) == b && StripCr(c) == c
    ensures Lines(a + "\n" + (b + "\n" + (c + "\n" + d))) == [a, b, c, d]
  {
    var cd := c + "\n" + d;
    var bcd := b + "\n" + cd;
    LinesOfOneLine(d);
    LinesCons(c, d);
    assert Lines(cd) == [c, d];
    LinesCons(b, cd);
    assert Lines(bcd) == [b, c, d];
    LinesCons(a, bcd);
  }

  lemma FilterFour(a: string, b: string, c: string, d: string, keep: string -> bool)
    ensures Filter([a, b, c, d], keep)
            == (if keep(a) then [a] else []) + (if keep(b) then [b] else [])
               + (if keep(c) then [c] else []) + (if keep(d) then [d] else [])
  {
    assert Filter([d], keep) == (if keep(d) then [d] else []) by {
      assert [d][1..] == [];
    }
    assert Filter([c, d], keep) == (if keep(c) then [c] else []) + Filter([d], keep) by {
      assert [c, d][1..] == [d];
    }
    assert Filter([b, c, d], keep) == (if keep(b) then [b] else []) + Filter([c, d], keep) by {
      assert [b, c, d][1..] == [c, d];
    }
    assert Filter([a, b, c, d], keep) == (if keep(a) then [a] else []) + Filter([b, c, d], keep) by {
      assert [a, b, c, d][1..] == [b, c, d];
    }
  }

  /** The test `case_sensitive`: "duct" finds only the line with "productive". */
  lemma CaseSensitiveExample()
    ensures Search("duct", TestContents("Duct tape.")) == ["safe, fast, productive."]
  {
    TestContentsLines("Duct tape.");
    MissingChar(Line1, "duct", 'd');
    DuctInLine2();
    MissingChar(Line3, "duct", 'd');
    MissingChar("Duct tape.", "duct", 'd');
    var keep := l => Contains(l, "duct");
    FilterFour(Line1, Line2, Line3, "Duct tape.", keep);
  }

  lemma DuctInLine2()
    ensures Contains(Line2, "duct")
  {
    assert Line2[15..19] == "duct";
    assert OccursAt(Line2, "duct", 15);
  }

  /** The test `case_insensitive`: "rUsT" finds "Rust:" and "Trust me.". */
  lemma CaseInsensitiveExample()
    ensures SearchCaseInsensitive("rUsT", TestContents("Trust me.")) == ["Rust:", "Trust me."]
  {
    TestContentsLines("Trust me.");
    InsensitiveFilterExample();
  }

  lemma InsensitiveFilterExample()
    ensures Filter([Line1, Line2, Line3, "Trust me."], l => Contains(ToLowercase(l), ToLowercase("rUsT")))
            == ["Rust:", "Trust me."]
  {
    RustInLine1();
    RustNotInLine2();
    RustNotInLine3();
    RustInTrustMe();
    FilterFour(Line1, Line2, Line3, "Trust me.", l => Contains(ToLowercase(l), ToLowercase("rUsT")));
  }

  lemma RustInLine1()
    ensures Contains(ToLowercase(Line1), ToLowercase("rUsT"))
  {
    assert ToLowercase("rUsT") == "rust";
    assert ToLowercase(Line1) == "rust:";
    assert OccursAt("rust:", "rust", 0);
  }

  lemma RustNotInLine2()
    ensures !Contains(ToLowercase(Line2), ToLowercase("rUsT"))
  {
    assert ToLowercase("rUsT") == "rust";
    NoRust(ToLowercase(Line2));
  }

  lemma RustNotInLine3()
    ensures !Contains(ToLowercase(Line3), ToLowercase("rUsT"))
  {
    assert ToLowercase("rUsT") == "rust";
    assert ToLowercase(Line3) == "pick three.";
    MissingChar("pick three.", "rust", 'u');
  }

  lemma RustInTrustMe()
    ensures Contains(ToLowercase("Trust me."), ToLowercase("rUsT"))
  {
    assert ToLowercase("rUsT") == "rust";
    assert ToLowercase("Trust me.") == "trust me.";
    assert "trust me."[1..5] == "rust";
    assert OccursAt("trust me.", "rust", 1);
  }

  /** "rust" is not in the second line: its only 'r' is followed by 'o'. */
  lemma NoRust(text: string)
    requires text == ToLowercase(Line2)
    ensures !Contains(text, "rust")
  {
    assert text == Line2;
    forall i ensures !OccursAt(text, "rust", i) {
      if 0 <= i && i + 4 <= |text| {
        assert text[i..i + 4][0] == text[i] && text[i..i + 4][1] == text[i + 1];
      }
    }
  }
}
