/**
 * `formatBlogContent` of the single-post page: a chain of regular-expression
 * replacements that turns a post's text into HTML, then wraps each line of
 * the result in a paragraph.
 *
 * Each global replacement is modelled by a function that scans the string
 * from left to right the way JavaScript's `String.prototype.replace` with
 * a `/g` regular expression does: try to match at the current position, and
 * on success emit the replacement and continue after the match, otherwise
 * keep one character and move on. Regex `.` matches anything but a line
 * terminator.
 */
module BlogFormat {
  import opened Optional
  import opened JsString

  predicate NoLineTerminator(s: string) {
    forall i :: 0 <= i < |s| ==> !IsLineTerminator(s[i])
  }

  /** `s.replace(/pat/g, rep)` for a pattern without metacharacters. */
  function ReplaceAll(s: string, pat: string, rep: string): (r: string)
    requires pat != []
    ensures |pat| == 1 && pat[0] !in rep ==> pat[0] !in r
    decreases |s|
  {
    if pat <= s then rep + ReplaceAll(s[|pat|..], pat, rep)
    else if s == [] then []
    else [s[0]] + ReplaceAll(s[1..], pat, rep)
  }

  /** `ReplaceAll` brings in no character that is in neither `s` nor `rep`. */
  lemma {:induction false} ReplaceAllAddsOnly(s: string, pat: string, rep: string, c: char)
    requires pat != [] && c !in s && c !in rep
    ensures c !in ReplaceAll(s, pat, rep)
    decreases |s|
  {
    if pat <= s {
      ReplaceAllAddsOnly(s[|pat|..], pat, rep, c);
    } else if s != [] {
      ReplaceAllAddsOnly(s[1..], pat, rep, c);
    }
  }

  /** A pattern whose first character does not occur leaves the string as it is. */
  lemma {:induction false} ReplaceAllAbsent(s: string, pat: string, rep: string)
    requires pat != [] && pat[0] !in s
    ensures ReplaceAll(s, pat, rep) == s
    decreases |s|
  {
    if s != [] {
      assert !(pat <= s);
      ReplaceAllAbsent(s[1..], pat, rep);
      assert [s[0]] + s[1..] == s;
    }
  }

  /**
   * Whether `marker(.*?)(\n|$)` can match once `marker` has matched and `rest`
   * follows it: the lazy `.*?` runs up to the first line terminator, which
   * must be a `\n`, or to the end of the input.
   */
  predicate HeadingCloses(rest: string) {
    var e := LineEnd(rest);
    e == |rest| || rest[e] == '\n'
  }

  /**
   * Whether `marker(.*?)(\n|$)` matches at the start of `s`: the length of
   * the heading text, which runs from the marker to the end of the line.
   */
  function HeadingMatch(s: string, marker: string): (r: Option<nat>)
    ensures r.Some? ==> marker <= s && |marker| + r.value <= |s|
  {
    if marker <= s && HeadingCloses(s[|marker|..]) then Some(LineEnd(s[|marker|..])) else None
  }

  /** `s.replace(/marker(.*?)(\n|$)/g, open + '$1' + close)`: the heading rules. */
  function HeadingRule(s: string, marker: string, open: string, close: string): (r: string)
    requires marker != []
    decreases |s|
  {
    if s == [] then []
    else match HeadingMatch(s, marker)
      case Some(e) =>
        var end := |marker| + e;
        open + s[|marker|..end] + close + (if end == |s| then [] else HeadingRule(s[end + 1..], marker, open, close))
      case None => [s[0]] + HeadingRule(s[1..], marker, open, close)
  }

  /**
   * Whether `d(.*?)d` matches at the start of `s`: the length of the text
   * between the two delimiters, which the lazy `.*?` keeps as short as it
   * can and on one line.
   */
  function DelimMatch(s: string, d: string): (r: Option<nat>)
    requires d != []
    ensures r.Some? ==> d <= s && |d| + r.value + |d| <= |s|
  {
    if d <= s then
      var rest := s[|d|..];
      Find(rest[..LineEnd(rest)], d)
    else None
  }

  /** `s.replace(/d(.*?)d/g, open + '$1' + close)` for a delimiter `d` without line terminators: bold, italics, code. */
  function DelimRule(s: string, d: string, open: string, close: string): (r: string)
    requires d != []
    decreases |s|
  {
    if s == [] then []
    else match DelimMatch(s, d)
      case Some(j) => open + s[|d|..|d| + j] + close + DelimRule(s[|d| + j + |d|..], d, open, close)
      case None => [s[0]] + DelimRule(s[1..], d, open, close)
  }

  /** The first two replacements: blank lines become paragraph breaks, single newlines `<br>`. */
  function LineBreaks(content: string): (r: string)
    ensures '\n' !in r
  {
    ReplaceAll(ReplaceAll(content, "\n\n", "</p><p>"), "\n", "<br>")
  }

  /** The three heading rules, in the order the source applies them. */
  function Headings(s: string): string {
    HeadingRule(HeadingRule(HeadingRule(s, "# ", "<h1>", "</h1>"), "## ", "<h2>", "</h2>"), "### ", "<h3>", "</h3>")
  }

  /** The bold, italic and code rules, in the order the source applies them. */
  function Inline(s: string): string {
    DelimRule(DelimRule(DelimRule(s, "**", "<strong>", "</strong>"), "*", "<em>", "</em>"), "`", "<code>", "</code>")
  }

  /** The text after every replacement, before it is cut into lines. */
  function Marked(content: string): string {
    Inline(Headings(LineBreaks(content)))
  }

  /** One line of the result: wrapped in a paragraph, or dropped when it is blank. */
  function Paragraph(line: string): (r: string)
    ensures r == "" <==> AllSpace(line)
    ensures r != "" ==> r == "<p>" + line + "</p>"
  {
    TrimEmptyIffBlank(line);
    if Trim(line) != "" then "<p>" + line + "</p>" else ""
  }

  /** Every line as `Paragraph` renders it. */
  function Paragraphs(lines: seq<string>): (r: seq<string>)
    ensures |r| == |lines|
    ensures forall i :: 0 <= i < |lines| ==> r[i] == Paragraph(lines[i])
  {
    seq(|lines|, i requires 0 <= i < |lines| => Paragraph(lines[i]))
  }

  /** `formatBlogContent(content)`. */
  function FormatBlogContent(content: string): (html: string)
    ensures html == "" || (|html| >= 7 && html[..3] == "<p>" && html[|html| - 4..] == "</p>")
  {
    var html := Join(Paragraphs(Split(Marked(content), '\n')), "");
    FormatIsOneParagraph(content);
    ParagraphShape(Marked(content));
    html
  }

  /** A text wrapped in `<p>` and `</p>` starts and ends with them. */
  lemma ParagraphShape(text: string)
    ensures var w := "<p>" + text + "</p>"; |w| >= 7 && w[..3] == "<p>" && w[|w| - 4..] == "</p>"
  {
    var w := "<p>" + text + "</p>";
    assert w[..3] == "<p>";
    assert w[|w| - 4..] == "</p>";
  }

  /** The heading rule brings in no character that is in none of `s`, `open` and `close`. */
  lemma {:induction false} HeadingRuleAddsOnly(s: string, marker: string, open: string, close: string, c: char)
    requires marker != [] && c !in s && c !in open && c !in close
    ensures c !in HeadingRule(s, marker, open, close)
    decreases |s|, 1
  {
    if s != [] {
      if HeadingMatch(s, marker).Some? {
        HeadingAddsOnlyAtMarker(s, marker, open, close, c);
      } else {
        NotInParts(c, s, 1);
        HeadingRuleAddsOnly(s[1..], marker, open, close, c);
        assert HeadingRule(s, marker, open, close) == [s[0]] + HeadingRule(s[1..], marker, open, close);
      }
    }
  }

  /** The step of `HeadingRuleAddsOnly` where a heading opens at the start of `s`. */
  lemma {:induction false} HeadingAddsOnlyAtMarker(s: string, marker: string, open: string, close: string, c: char)
    requires marker != [] && c !in s && c !in open && c !in close
    requires HeadingMatch(s, marker).Some?
    ensures c !in HeadingRule(s, marker, open, close)
    decreases |s|, 0
  {
    var e := HeadingMatch(s, marker).value;
    var end := |marker| + e;
    NotInParts(c, s, end);
    NotInParts(c, s[..end], |marker|);
    var after: string := if end == |s| then [] else HeadingRule(s[end + 1..], marker, open, close);
    if end < |s| {
      NotInParts(c, s, end + 1);
      HeadingRuleAddsOnly(s[end + 1..], marker, open, close, c);
    }
    HeadingAt(s, marker, open, close, e);
    NotInConcat(c, open, s[|marker|..end], close, after);
  }

  /** One step of the heading rule where a heading of `e` characters opens at the start of `s`. */
  lemma {:induction false} HeadingAt(s: string, marker: string, open: string, close: string, e: nat)
    requires marker != [] && HeadingMatch(s, marker) == Some(e)
    ensures var end := |marker| + e;
      HeadingRule(s, marker, open, close)
        == open + s[|marker|..end] + close + (if end == |s| then [] else HeadingRule(s[end + 1..], marker, open, close))
  {
  }

  /** The delimiter rule brings in no character that is in none of `s`, `open` and `close`. */
  lemma {:induction false} DelimRuleAddsOnly(s: string, d: string, open: string, close: string, c: char)
    requires d != [] && c !in s && c !in open && c !in close
    ensures c !in DelimRule(s, d, open, close)
    decreases |s|
  {
    if s != [] {
      if DelimMatch(s, d).Some? {
        var j := DelimMatch(s, d).value;
        DelimRuleAddsOnly(s[|d| + j + |d|..], d, open, close, c);
        NotInParts(c, s[..|d| + j], |d|);
      } else {
        DelimRuleAddsOnly(s[1..], d, open, close, c);
      }
    }
  }

  /** A marker whose first character does not occur leaves the string as it is. */
  lemma {:induction false} HeadingRuleAbsent(s: string, marker: string, open: string, close: string)
    requires marker != [] && marker[0] !in s
    ensures HeadingRule(s, marker, open, close) == s
    decreases |s|
  {
    if s != [] {
      assert !(marker <= s);
      HeadingRuleAbsent(s[1..], marker, open, close);
      assert [s[0]] + s[1..] == s;
    }
  }

  /** A delimiter whose first character does not occur leaves the string as it is. */
  lemma {:induction false} DelimRuleAbsent(s: string, d: string, open: string, close: string)
    requires d != [] && d[0] !in s
    ensures DelimRule(s, d, open, close) == s
    decreases |s|
  {
    if s != [] {
      assert !(d <= s);
      DelimRuleAbsent(s[1..], d, open, close);
      assert [s[0]] + s[1..] == s;
    }
  }

  /** No replacement ever produces a newline once the first two have removed them all. */
  lemma NoNewlineAfterReplacements(content: string)
    ensures '\n' !in Marked(content)
  {
    var b := LineBreaks(content);
    var h1 := HeadingRule(b, "# ", "<h1>", "</h1>");
    HeadingRuleAddsOnly(b, "# ", "<h1>", "</h1>", '\n');
    var h2 := HeadingRule(h1, "## ", "<h2>", "</h2>");
    HeadingRuleAddsOnly(h1, "## ", "<h2>", "</h2>", '\n');
    HeadingRuleAddsOnly(h2, "### ", "<h3>", "</h3>", '\n');
    var i1 := DelimRule(Headings(b), "**", "<strong>", "</strong>");
    DelimRuleAddsOnly(Headings(b), "**", "<strong>", "</strong>", '\n');
    var i2 := DelimRule(i1, "*", "<em>", "</em>");
    DelimRuleAddsOnly(i1, "*", "<em>", "</em>", '\n');
    DelimRuleAddsOnly(i2, "`", "<code>", "</code>", '\n');
  }

  /**
   * Because every newline is gone before the text is cut into lines, the
   * whole post becomes one outer `<p>…</p>` wrapper, which may hold several
   * paragraphs separated by `</p><p>`: nothing when the text is blank,
   * otherwise the untrimmed text inside `<p>` and `</p>`.
   */
  lemma FormatIsOneParagraph(content: string)
    ensures var text := Marked(content);
      var lines := Split(text, '\n');
      Join(Paragraphs(lines), "")
        == if AllSpace(text) then "" else "<p>" + text + "</p>"
  {
    var text := Marked(content);
    NoNewlineAfterReplacements(content);
    SplitWithoutSeparator(text, '\n');
    TrimEmptyIffBlank(text);
  }

  /** `formatBlogContent` in closed form: see `FormatIsOneParagraph`. */
  lemma FormatBlogContentIs(content: string)
    ensures FormatBlogContent(content) == if AllSpace(Marked(content)) then "" else "<p>" + Marked(content) + "</p>"
  {
    FormatIsOneParagraph(content);
  }

  /** What a heading rule yields on one line: the first marker opens a heading that runs to the end. */
  function OneLineHeading(s: string, marker: string, open: string, close: string): string
    requires marker != []
  {
    match Find(s, marker)
    case None => s
    case Some(i) => Wrap(s, i, |marker|, open, close)
  }

  /** `s` with the `m` characters at `i` replaced by `open` and `close` put at the end. */
  function Wrap(s: string, i: nat, m: nat, open: string, close: string): string
    requires i + m <= |s|
  {
    s[..i] + open + s[i + m..] + close
  }

  /**
   * On text without line terminators the heading rule fires once at most:
   * the first occurrence of the marker opens the heading, which runs to the
   * end of the text.
   */
  lemma {:induction false} HeadingRuleOnOneLine(s: string, marker: string, open: string, close: string)
    requires marker != [] && NoLineTerminator(s)
    ensures HeadingRule(s, marker, open, close) == OneLineHeading(s, marker, open, close)
    decreases |s|
  {
    if s == [] {
    } else if marker <= s {
      HeadingAtMarker(s, marker, open, close);
      assert s[..0] + open + s[|marker|..] + close == open + s[|marker|..] + close;
    } else {
      var tail := s[1..];
      assert NoLineTerminator(tail) by {
        forall i | 0 <= i < |tail| ensures !IsLineTerminator(tail[i]) {
          assert tail[i] == s[i + 1];
        }
      }
      HeadingRuleOnOneLine(tail, marker, open, close);
      HeadingPastChar(s, marker, open, close);
      OneLineHeadingPastChar(s, marker, open, close);
    }
  }

  /** A marker at the start of a line makes the whole line a heading. */
  lemma HeadingAtMarker(s: string, marker: string, open: string, close: string)
    requires marker != [] && NoLineTerminator(s) && marker <= s
    ensures HeadingRule(s, marker, open, close) == open + s[|marker|..] + close
  {
    var rest := s[|marker|..];
    assert NoLineTerminator(rest) by {
      forall i | 0 <= i < |rest| ensures !IsLineTerminator(rest[i]) {
        assert rest[i] == s[|marker| + i];
      }
    }
    assert HeadingMatch(s, marker) == Some(|rest|);
    HeadingAt(s, marker, open, close, |rest|);
    assert s[|marker|..|marker| + |rest|] == rest;
  }

  lemma HeadingPastChar(s: string, marker: string, open: string, close: string)
    requires marker != [] && s != [] && !(marker <= s)
    ensures HeadingRule(s, marker, open, close) == [s[0]] + HeadingRule(s[1..], marker, open, close)
  {
  }

  lemma OneLineHeadingPastChar(s: string, marker: string, open: string, close: string)
    requires marker != [] && s != [] && !(marker <= s)
    ensures OneLineHeading(s, marker, open, close) == [s[0]] + OneLineHeading(s[1..], marker, open, close)
  {
    FindShift(s, marker);
    if Find(s[1..], marker).None? {
      assert [s[0]] + s[1..] == s;
    } else {
      OneLineHeadingFoundLater(s, marker, open, close, Find(s[1..], marker).value);
    }
  }

  lemma OneLineHeadingFoundLater(s: string, marker: string, open: string, close: string, k: nat)
    requires marker != [] && s != [] && Find(s, marker) == Some(k + 1) && Find(s[1..], marker) == Some(k)
    ensures OneLineHeading(s, marker, open, close) == [s[0]] + OneLineHeading(s[1..], marker, open, close)
  {
    ShiftedWrap(s, k, |marker|, open, close);
  }

  /** Cutting `s` around a window that starts at `k + 1` is cutting its tail around the window at `k`. */
  lemma ShiftedWrap(s: string, k: nat, m: nat, open: string, close: string)
    requires k + 1 + m <= |s|
    ensures Wrap(s, k + 1, m, open, close) == [s[0]] + Wrap(s[1..], k, m, open, close)
  {
    var tail := s[1..];
    assert s[..k + 1] == [s[0]] + tail[..k];
    assert s[k + 1 + m..] == tail[k + m..];
  }

  /** Where the pattern does not start the string, searching it is searching the rest. */
  lemma FindShift(s: string, pat: string)
    requires pat != [] && s != [] && !(pat <= s)
    ensures Find(s, pat) == match Find(s[1..], pat) case None => None case Some(k) => Some(k + 1)
  {
  }

  /**
   * The first heading rule on a post without carriage returns or Unicode
   * line separators: newlines are already gone, so only the first `"# "`
   * becomes a heading, and that heading runs to the end of the text.
   */
  lemma FirstHeadingRunsToEnd(content: string, i: nat)
    requires '\r' !in content && '\U{2028}' !in content && '\U{2029}' !in content
    requires Find(LineBreaks(content), "# ") == Some(i)
    ensures var b := LineBreaks(content);
      HeadingRule(b, "# ", "<h1>", "</h1>") == b[..i] + "<h1>" + b[i + 2..] + "</h1>"
  {
    var b1 := ReplaceAll(content, "\n\n", "</p><p>");
    var b := LineBreaks(content);
    ReplaceAllAddsOnly(content, "\n\n", "</p><p>", '\r');
    ReplaceAllAddsOnly(content, "\n\n", "</p><p>", '\U{2028}');
    ReplaceAllAddsOnly(content, "\n\n", "</p><p>", '\U{2029}');
    ReplaceAllAddsOnly(b1, "\n", "<br>", '\r');
    ReplaceAllAddsOnly(b1, "\n", "<br>", '\U{2028}');
    ReplaceAllAddsOnly(b1, "\n", "<br>", '\U{2029}');
    assert NoLineTerminator(b);
    HeadingRuleOnOneLine(b, "# ", "<h1>", "</h1>");
  }

  /** Text without newlines passes the first two replacements unchanged. */
  lemma LineBreaksWithoutNewline(s: string)
    requires '\n' !in s
    ensures LineBreaks(s) == s
  {
    ReplaceAllAbsent(s, "\n\n", "</p><p>");
    ReplaceAllAbsent(s, "\n", "<br>");
  }

  /** Text without `#` passes the heading rules unchanged. */
  lemma HeadingsWithoutHash(s: string)
    requires '#' !in s
    ensures Headings(s) == s
  {
    HeadingRuleAbsent(s, "# ", "<h1>", "</h1>");
    HeadingRuleAbsent(s, "## ", "<h2>", "</h2>");
    HeadingRuleAbsent(s, "### ", "<h3>", "</h3>");
  }

  /** Text without `*` passes the bold and italic rules unchanged. */
  lemma BoldItalicWithoutAsterisk(s: string)
    requires '*' !in s
    ensures DelimRule(DelimRule(s, "**", "<strong>", "</strong>"), "*", "<em>", "</em>") == s
  {
    DelimRuleAbsent(s, "**", "<strong>", "</strong>");
    DelimRuleAbsent(s, "*", "<em>", "</em>");
  }

  /** The heading and bold tags hold no asterisk and no backtick. */
  lemma TagsWithoutMarks()
    ensures '*' !in "<h1>" && '*' !in "</h1>" && '`' !in "<h1>" && '`' !in "</h1>"
    ensures '*' !in "<strong>" && '*' !in "</strong>" && '`' !in "<strong>" && '`' !in "</strong>"
  {
  }

  /** Text the formatter has no rule for: no line terminator and none of `#`, `*` and the backtick. */
  predicate Plain(x: string) {
    NoLineTerminator(x) && '#' !in x && '*' !in x && '`' !in x
  }

  /** A pattern is first found right after a stretch without its first character. */
  lemma {:induction false} FindAfter(x: string, pat: string, y: string)
    requires pat != [] && pat[0] !in x
    ensures Find(x + pat + y, pat) == Some(|x|)
    decreases |x|
  {
    var s := x + pat + y;
    if x == [] {
      assert s[..|pat|] == pat;
    } else {
      assert !(pat <= s) by { assert s[0] == x[0]; }
      assert s[1..] == x[1..] + pat + y;
      FindAfter(x[1..], pat, y);
    }
  }

  /** The first-level rule fires one character into `"## x"`. */
  lemma FirstRuleOnSecondLevel(x: string)
    requires Plain(x)
    ensures HeadingRule("## " + x, "# ", "<h1>", "</h1>") == "#" + ("<h1>" + x + "</h1>")
  {
    var s := "## " + x;
    assert !("# " <= s) by { assert s[1] == '#'; }
    HeadingPastChar(s, "# ", "<h1>", "</h1>");
    assert s[1..] == "# " + x;
    HeadingAtMarker(s[1..], "# ", "<h1>", "</h1>");
    assert s[1..][2..] == x;
  }

  /** The later heading rules find nothing in what the first one made of `"## x"`. */
  lemma LaterRulesOnHeading(x: string)
    requires Plain(x)
    ensures var h1 := "#" + ("<h1>" + x + "</h1>");
      HeadingRule(HeadingRule(h1, "## ", "<h2>", "</h2>"), "### ", "<h3>", "</h3>") == h1
  {
    var h := "<h1>" + x + "</h1>";
    var h1 := "#" + h;
    assert h1[1..] == h;
    assert '#' !in h;
    HeadingRuleAbsent(h, "## ", "<h2>", "</h2>");
    HeadingRuleAbsent(h, "### ", "<h3>", "</h3>");
    assert !("## " <= h1) by { assert h1[1] == '<'; }
    HeadingPastChar(h1, "## ", "<h2>", "</h2>");
    assert !("### " <= h1) by { assert h1[1] == '<'; }
    HeadingPastChar(h1, "### ", "<h3>", "</h3>");
  }

  /** Text without asterisks and backticks passes the bold, italic and code rules unchanged. */
  lemma InlineWithoutMarks(h: string)
    requires '*' !in h && '`' !in h
    ensures Inline(h) == h
  {
    BoldItalicWithoutAsterisk(h);
    DelimRuleAbsent(h, "`", "<code>", "</code>");
  }

  /** The replacements turn `"## x"` into `"#<h1>x</h1>"`. */
  lemma SecondLevelMarked(x: string)
    requires Plain(x)
    ensures Marked("## " + x) == "#" + ("<h1>" + x + "</h1>")
  {
    var s := "## " + x;
    var h1 := "#" + ("<h1>" + x + "</h1>");
    assert LineBreaks(s) == s by {
      assert '\n' !in s;
      LineBreaksWithoutNewline(s);
    }
    assert Headings(s) == h1 by {
      FirstRuleOnSecondLevel(x);
      LaterRulesOnHeading(x);
    }
    assert Inline(h1) == h1 by {
      TagsWithoutMarks();
      assert '*' !in h1 && '`' !in h1;
      InlineWithoutMarks(h1);
    }
  }

  /**
   * A second-level heading is caught by the first-level rule: `"## x"`
   * formats to `"<p>#<h1>x</h1></p>"`.
   */
  lemma SecondLevelHeadingBecomesFirstLevel(x: string)
    requires Plain(x)
    ensures FormatBlogContent("## " + x) == "<p>" + ("#" + ("<h1>" + x + "</h1>")) + "</p>"
  {
    var h1 := "#" + ("<h1>" + x + "</h1>");
    SecondLevelMarked(x);
    assert !AllSpace(h1) by { assert !IsSpace(h1[0]); }
    FormatBlogContentIs("## " + x);
  }

  /** A delimiter pair around text on one line that does not contain the delimiter's first character. */
  lemma DelimAround(x: string, d: string, open: string, close: string)
    requires d != [] && d[0] !in x && NoLineTerminator(x) && NoLineTerminator(d)
    ensures DelimRule(d + x + d, d, open, close) == open + x + close
  {
    var s := d + x + d;
    var rest := s[|d|..];
    assert rest == x + d;
    assert DelimMatch(s, d) == Some(|x|) by {
      assert LineEnd(rest) == |rest| by {
        NoLineTerminatorConcat(x, d);
      }
      FindAfter(x, d, []);
      assert x + d + [] == rest[..|rest|];
    }
    DelimRuleAtMatch(s, d, open, close, |x|);
    assert s[|d|..|d| + |x|] == x;
    assert s[|d| + |x| + |d|..] == [];
  }

  /** Where `d(.*?)d` matches at the start of `s`, the rule wraps the text between the delimiters. */
  lemma {:induction false} DelimRuleAtMatch(s: string, d: string, open: string, close: string, j: nat)
    requires d != [] && DelimMatch(s, d) == Some(j)
    ensures DelimRule(s, d, open, close) == open + s[|d|..|d| + j] + close + DelimRule(s[|d| + j + |d|..], d, open, close)
  {
  }

  /** Two strings without line terminators make one without. */
  lemma NoLineTerminatorConcat(a: string, b: string)
    requires NoLineTerminator(a) && NoLineTerminator(b)
    ensures NoLineTerminator(a + b)
  {
    forall i | 0 <= i < |a + b| ensures !IsLineTerminator((a + b)[i]) {
      if i >= |a| {
        assert (a + b)[i] == b[i - |a|];
      }
    }
  }

  /** The replacements turn `"**x**"` into `"<strong>x</strong>"`. */
  lemma BoldMarked(x: string)
    requires Plain(x)
    ensures Marked("**" + x + "**") == "<strong>" + x + "</strong>"
  {
    var s := "**" + x + "**";
    var b := "<strong>" + x + "</strong>";
    assert Headings(LineBreaks(s)) == s by {
      assert '\n' !in s && '#' !in s;
      LineBreaksWithoutNewline(s);
      HeadingsWithoutHash(s);
    }
    assert DelimRule(s, "**", "<strong>", "</strong>") == b by {
      assert NoLineTerminator("**");
      DelimAround(x, "**", "<strong>", "</strong>");
    }
    assert DelimRule(DelimRule(b, "*", "<em>", "</em>"), "`", "<code>", "</code>") == b by {
      TagsWithoutMarks();
      assert '*' !in b && '`' !in b;
      DelimRuleAbsent(b, "*", "<em>", "</em>");
      DelimRuleAbsent(b, "`", "<code>", "</code>");
    }
  }

  /** Double asterisks make bold text: `"**x**"` formats to `"<p><strong>x</strong></p>"`. */
  lemma BoldSpan(x: string)
    requires Plain(x)
    ensures FormatBlogContent("**" + x + "**") == "<p>" + ("<strong>" + x + "</strong>") + "</p>"
  {
    var b := "<strong>" + x + "</strong>";
    BoldMarked(x);
    assert !AllSpace(b) by { assert !IsSpace(b[0]); }
    FormatBlogContentIs("**" + x + "**");
  }

  /** The replacements turn ``"`x`"`` into `"<code>x</code>"`. */
  lemma CodeMarked(x: string)
    requires Plain(x)
    ensures Marked("`" + x + "`") == "<code>" + x + "</code>"
  {
    var s := "`" + x + "`";
    assert '\n' !in s && '#' !in s && '*' !in s;
    LineBreaksWithoutNewline(s);
    HeadingsWithoutHash(s);
    BoldItalicWithoutAsterisk(s);
    DelimAround(x, "`", "<code>", "</code>");
  }

  /** Backticks make code: ``"`x`"`` formats to `"<p><code>x</code></p>"`. */
  lemma CodeSpan(x: string)
    requires Plain(x)
    ensures FormatBlogContent("`" + x + "`") == "<p>" + ("<code>" + x + "</code>") + "</p>"
  {
    var b := "<code>" + x + "</code>";
    CodeMarked(x);
    assert !AllSpace(b) by { assert !IsSpace(b[0]); }
    FormatBlogContentIs("`" + x + "`");
  }
}
