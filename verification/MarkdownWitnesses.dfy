/** Concrete files that a rewrite does not reproduce. */
module MarkdownWitnesses {
  import opened Wrappers
  import opened MarkdownText
  import opened MarkdownFront
  import opened MarkdownSections
  import opened MarkdownDoc
  import opened MarkdownRewrite
  import opened MarkdownCodec

  // ---------------------------------------------------------------- what is lost

  /** A line with an empty key: its value is read, and gone from the printed file. */
  lemma EmptyKeyLoses()
    ensures var d := Doc([Entry("", "v", "", "")], []);
      Parse("---\n: v\n---\n") == Some(d) && Render(d) == "---\n\n---\n" && Parse(Render(d)) == Some(Doc([Raw("")], []))
  {
    hide *;
    var d := Doc([Entry("", "v", "", "")], []);
    EmptyKeyPrints(d);
    EmptyKeyLine(": v");
    BlankFront();
    OneLineFile(": v");
    OneLineFile("");
    NoSections();
  }

  /** A file of one frontmatter line. */
  lemma OneLineFile(line: string)
    requires Lines([line]) && NoRule([line]) && NoCr(line)
    ensures Parse("---\n" + line + "\n---\n") == var front := ParseEntries([line]);
        if front.None? then None else Some(Doc(front.value, ParseSections("")))
  {
    var text := "---\n" + line + "\n---\n";
    FrontText([line], "");
    OneLine(line);
    assert text == "---\n" + Terminated([line]) + "---\n" + "";
    NormalizeStays(text);
    hide ParseText, ParseEntries, Normalize, ParseSections;
  }

  lemma EmptyKeyPrints(d: Doc)
    requires d == Doc([Entry("", "v", "", "")], [])
    ensures Render(d) == "---\n\n---\n"
    ensures "---\n" + ": v" + "\n---\n" == "---\n: v\n---\n" && "---\n" + "" + "\n---\n" == "---\n\n---\n"
    ensures NoCr(": v") && NoCr("")
  {
    OneLine("");
    assert d.front[1..] == [];
    assert FrontLines(d.front) == [""];
    assert BodyText([]) == "";
    hide Terminated;
    assert "---\n" + "\n" + "---\n" + "" == "---\n\n---\n";
  }

  lemma BlankFront()
    ensures ParseEntries([""]) == Some([Raw("")]) && NoRule([""]) && Lines([""])
  {
    NothingToParse();
    assert Comment("");
    assert [""][1..] == [];
    CommentReads([""]);
    assert [Raw("")] + [] == [Raw("")];
  }

  lemma EmptyKeyLine(line: string)
    requires line == ": v"
    ensures ParseEntries([line]) == Some([Entry("", "v", "", "")]) && NoRule([line]) && Lines([line])
  {
    EmptyKeyParts(line);
    NothingToParse();
    KeySteps([line]);
    assert [line][1..1] == [] && [line][1..] == [] && Join([]) == "";
    hide *;
    var e := Entry("", "v", "", "");
    assert [e] + [] == [e];
  }

  lemma EmptyKeyParts(line: string)
    requires line == ": v"
    ensures KeyLine(line) && KeyOf(line) == "" && ValueOf(line) == "v" && BlockAfter([line]) == 0
    ensures NoRule([line]) && Lines([line])
  {
    IndexAt("", ':', " v");
    assert line == "" + ":" + " v";
    TrimmedStays(line);
    TrimmedStays("");
    TrimPadded(" ", "v");
    assert " " + "v" == " v" && line[..0] == "" && line[0 + 1..] == " v";
    assert line[0] == ':' && ":"[0] == ':' && line[0] != "#"[0];
    hide TrimSpace, BlockLen;
  }

  /** One pass over CRLF leaves a CRLF of CR CR LF, and so does rewriting a file that ends
      in CR; the next reading takes it. */
  lemma CarriageReturnLost()
    ensures var d := Doc([], [Section(0, "", "x\r\n")]);
      && Parse("x\r\r\n") == Some(d) && Parse("x\r") == Some(d)
      && Parse(Render(d)) == Some(Doc([], [Section(0, "", "x\n")]))
  {
    hide *;
    var d := Doc([], [Section(0, "", "x\r\n")]);
    assert "x\r" + "\r\n" == "x\r\r\n" && "x" + "\r\n" == "x\r\n" && "x\r" + "\n" == "x\r\n" && "x" + "\n" == "x\n";
    NormalizeAfter("x\r", "\r\n");
    NormalizeAfter("x", "\r\n");
    LoneReturn();
    PlainBody("x\r");
    PlainBody("x");
    PlainFile("x\r\r\n", "x\r\n");
    PlainFile("x\r\n", "x\n");
    PlainFile("x\r", "x\r");
    OneSection(d.sections[0]);
    RenderCases(d);
  }

  lemma LoneReturn()
    ensures Normalize("x\r") == "x\r" && ParseSections("x\r") == ParseSections("x\r" + "\n")
  {
    assert !Crlf("x\r");
    NormalizeSame("x\r");
    EmptyBody("x\r");
    EmptyBody("x\r" + "\n");
    SplitOne("x\r");
    OneLine("x\r");
    BodyOfLines(["x\r"]);
    hide ParseLines, Normalize, Crlf;
  }

  lemma PlainFile(raw: string, text: string)
    requires Normalize(raw) == text && text != "" && text[0] == 'x'
    ensures Parse(raw) == Some(Doc([], ParseSections(text)))
  {
    assert text[0] != "---\n"[0];
    hide Normalize, ParseSections;
  }

  lemma NormalizeAfter(head: string, tail: string)
    requires head in {"x", "x\r"} && tail == "\r\n"
    ensures Normalize(head + tail) == head + "\n"
  {
    assert Normalize(tail) == "\n" by { assert tail[2..] == ""; assert Normalize("") == ""; }
    if head == "x" {
      assert (head + tail)[1..] == tail;
      assert (head + tail)[0] != "\r\n"[0];
    } else {
      var rest := "\r" + tail;
      assert (head + tail)[1..] == rest && rest[1..] == tail && rest[1] != "\r\n"[1];
      assert Normalize(rest) == "\r" + Normalize(tail);
      assert (head + tail)[0] != "\r\n"[0];
    }
  }

  lemma PlainBody(line: string)
    requires line in {"x", "x\r"}
    ensures ParseSections(line + "\n") == [Section(0, "", line + "\n")]
  {
    var lines := [line];
    assert Lines(lines);
    OneLine(line);
    BodyOfLines(lines);
    EmptyBody(line + "\n");
    TrimKeepsHead(line);
    TrimKeepsHead(line + "\n");
    assert !Fence(line) by { assert TrimSpace(line)[0] != "```"[0]; }
    hide TrimSpace;
    ParseStep(lines, START, [], false);
    ParseStep([], START, [line], false);
    assert lines[1..] == [] && [] + [line] == lines;
  }

  lemma OneSection(s: Section)
    requires s == Section(0, "", "x\r\n")
    ensures BodyText([s]) == "x\r\n" && !OpensWithRule([s])
  {
    assert [s][1..] == [];
    assert HasSuffix(s.content, "\n");
    assert s.content[0] != "---"[0];
    assert TrimNewlines(s.content) == s.content;
  }

  /** A line `:` after a key without a value: printed as a blank line it becomes the
      block of that key, and is gone when the file is read again. */
  lemma BlockReopened()
    ensures var a, b := Entry("a", "", "", ""), Entry("", "", "", "");
      && Parse("---\na:\n:\n---\n") == Some(Doc([a, b], []))
      && Render(Doc([a, b], [])) == "---\na: \n\n---\n" && Parse("---\na: \n\n---\n") == Some(Doc([a], []))
  {
    hide *;
    var a, b := Entry("a", "", "", ""), Entry("", "", "", "");
    OpenKey(":");
    TwoLineFile("a:", ":");
    TwoLineFile("a: ", "");
    ColonLine();
    BlankBehind();
    PrintsTwo(a, b);
    assert [a] + [b] == [a, b];
    NoSections();
    TwoTexts();
  }

  lemma TwoTexts()
    ensures "---\n" + "a:" + "\n" + ":" + "\n---\n" == "---\na:\n:\n---\n"
    ensures "---\n" + "a: " + "\n" + "" + "\n---\n" == "---\na: \n\n---\n"
  {}

  /** A file of two frontmatter lines. */
  lemma TwoLineFile(first: string, second: string)
    requires first in {"a:", "a: "} && second in {":", ""}
    ensures Parse("---\n" + first + "\n" + second + "\n---\n")
         == var front := ParseEntries([first, second]);
             if front.None? then None else Some(Doc(front.value, ParseSections("")))
  {
    hide *;
    var lines, text := [first, second], "---\n" + first + "\n" + second + "\n---\n";
    TwoLines(first, second);
    FrontText(lines, "");
    NormalizeStays(text);
    ParseIsText(text);
  }

  lemma TwoLines(first: string, second: string)
    requires first in {"a:", "a: "} && second in {":", ""}
    ensures var lines, text := [first, second], "---\n" + first + "\n" + second + "\n---\n";
      Lines(lines) && NoRule(lines) && NoCr(text) && text == "---\n" + Terminated(lines) + "---\n" + ""
  {
    OneLine(second);
    assert [first, second][1..] == [second];
    hide Terminated;
    assert "---\n" + (first + "\n" + (second + "\n")) + "---\n" + "" == "---\n" + first + "\n" + second + "\n---\n";
    assert Terminated([first, second]) == first + "\n" + (second + "\n") by { TerminatedTwo(first, second); }
  }

  lemma TerminatedTwo(first: string, second: string)
    ensures Terminated([first, second]) == first + "\n" + (second + "\n")
  {
    OneLine(second);
    assert [first, second][1..] == [second];
  }

  /** What `a:` reads as in front of a line. */
  lemma OpenKey(next: string)
    requires next == ":"
    ensures ParseEntries(["a:", next]).Some? <==> ParseEntries([next]).Some?
    ensures ParseEntries([next]).Some? ==>
      ParseEntries(["a:", next]).value == [Entry("a", "", "", "")] + ParseEntries([next]).value
  {
    hide *;
    var lines := ["a:", next];
    OpenKeyParts(next);
    assert lines[1..] == [next] && lines[1..1] == [];
    BlockOf(lines);
    KeySteps(lines);
    JoinNothing();
  }

  lemma OpenKeyParts(next: string)
    requires next == ":"
    ensures KeyLine("a:") && KeyOf("a:") == "a" && ValueOf("a:") == "" && BlockLen([next]) == 0
  {
    KeyLineReads("a", ":", "");
    assert "a" + ":" + "" == "a:";
    TrimmedStays(next);
    assert !Indented(next) && !Blank(next);
    hide KeyLine, KeyOf, ValueOf, Indented, Blank;
  }

  lemma JoinNothing()
    ensures Join([]) == "" && Join([""]) == ""
  {}

  lemma BlockOf(lines: seq<string>)
    requires lines != [] && KeyLine(lines[0]) && ValueOf(lines[0]) == "" && BlockLen(lines[1..]) <= 1
    ensures BlockAfter(lines) == BlockLen(lines[1..]) <= |lines[1..]|
  {
    hide KeyLine, ValueOf;
  }

  lemma ColonLine()
    ensures ParseEntries([":"]) == Some([Entry("", "", "", "")])
  {
    var line := ":";
    IndexAt("", ':', "");
    assert line == "" + ":" + "";
    TrimmedStays(line);
    TrimmedStays("");
    assert line[..0] == "" && line[0 + 1..] == "";
    assert line[0] == ':' && line[0] != "#"[0];
    assert KeyLine(line) && KeyOf(line) == "" && ValueOf(line) == "";
    NothingToParse();
    KeySteps([line]);
    hide *;
    assert [line][1..1] == [] && [line][1..] == [];
    JoinNothing();
    NoBlock([line]);
    assert [Entry("", "", "", "")] + [] == [Entry("", "", "", "")];
  }

  lemma NoBlock(lines: seq<string>)
    requires |lines| == 1 && KeyLine(lines[0])
    ensures BlockAfter(lines) == 0
  {
    hide KeyLine, ValueOf;
  }

  lemma BlankBehind()
    ensures ParseEntries(["a: ", ""]) == Some([Entry("a", "", "", "")])
  {
    hide *;
    var lines := ["a: ", ""];
    BlankBehindParts();
    assert lines[1..] == [""] && lines[1..2] == [""] && lines[2..] == [];
    BlockOf(lines);
    KeySteps(lines);
    NothingToParse();
    JoinNothing();
    assert [Entry("a", "", "", "")] + [] == [Entry("a", "", "", "")];
  }

  lemma BlankBehindParts()
    ensures KeyLine("a: ") && KeyOf("a: ") == "a" && ValueOf("a: ") == "" && BlockLen([""]) == 1
  {
    KeyLineReads("a", ": ", "");
    assert "a" + ": " + "" == "a: ";
    hide KeyLine, KeyOf, ValueOf, Indented;
    assert Blank("") && [""][1..] == [];
    assert VisibleIsIndented([]) && VisibleIsIndented([""]);
  }

  lemma PrintsTwo(a: Entry, b: Entry)
    requires a == Entry("a", "", "", "") && b == Entry("", "", "", "")
    ensures Render(Doc([a, b], [])) == "---\na: \n\n---\n"
  {
    assert [a, b][1..] == [b] && [b][1..] == [];
    assert "a" + ": " + "" == "a: ";
    assert FrontLines([b]) == [""] + FrontLines([]);
    assert FrontLines([a, b]) == ["a: ", ""];
    OneLine("");
    assert ["a: ", ""][1..] == [""];
    assert Terminated(["a: ", ""]) == "a: " + "\n" + ("" + "\n");
    assert BodyText([]) == "";
    hide Terminated;
    assert "---\n" + ("a: " + "\n" + ("" + "\n")) + "---\n" + "" == "---\na: \n\n---\n";
  }

  /** A blank block under a key is dropped by the first rewrite already. */
  lemma BlankBlockDropped()
    ensures Parse("---\na: \n\n---\n").Some? && Render(Parse("---\na: \n\n---\n").value) == "---\na: \n---\n"
  {
    hide *;
    TwoLineFile("a: ", "");
    BlankBehind();
    NoSections();
    TwoTexts();
    PrintsOne(Entry("a", "", "", ""));
  }

  lemma PrintsOne(a: Entry)
    requires a == Entry("a", "", "", "")
    ensures Render(Doc([a], [])) == "---\na: \n---\n"
  {
    assert [a][1..] == [];
    assert "a" + ": " + "" == "a: ";
    assert FrontLines([a]) == ["a: "] + FrontLines([]);
    OneLine("a: ");
    assert BodyText([]) == "";
    hide Terminated;
    assert "---\n" + ("a: " + "\n") + "---\n" + "" == "---\na: \n---\n";
  }

  /** A body that opens with a rule under no frontmatter gains one blank entry. */
  lemma RuleGains()
    ensures var sections := [Section(0, "", "\n---\n")];
      Parse("\n---\n") == Some(Doc([], sections)) && Parse(Render(Doc([], sections))) == Some(Doc([Raw("")], sections))
  {
    hide *;
    var sections := [Section(0, "", "\n---\n")];
    RuleBody();
    RuleOpens(sections);
    RewriteKeeps("\n---\n");
    SameContents(sections);
    var again := Parse(Render(Doc([], sections))).value;
    DocOf([Raw("")], sections);
  }

  lemma RuleBody()
    ensures Parse("\n---\n") == Some(Doc([], [Section(0, "", "\n---\n")]))
  {
    var text := "\n---\n";
    assert NoCr(text);
    NormalizeStays(text);
    RuleLines();
    EmptyBody(text);
    RuleSections();
    PlainText(text);
    ParseIsText(text);
    assert text[0] != "---\n"[0];
    hide *;
  }

  lemma RuleLines()
    ensures BodyLines("\n---\n") == ["", "---"] && Terminated(["", "---"]) == "\n---\n"
  {
    var lines := ["", "---"];
    OneLine("---");
    assert lines[1..] == ["---"];
    assert Lines(lines);
    BodyOfLines(lines);
    hide BodyLines;
    assert "" + "\n" + ("---" + "\n") == "\n---\n";
  }

  lemma RuleSections()
    ensures ParseLines(["", "---"], START, [], false) == [Section(0, "", "\n---\n")]
  {
    hide *;
    var lines := ["", "---"];
    RuleLines();
    RuleIsText();
    ParseStep(lines, START, [], false);
    ParseStep(["---"], START, [""], false);
    ParseStep([], START, lines, false);
    assert lines[1..] == ["---"] && ["---"][1..] == [] && [] + [""] == [""] && [""] + ["---"] == lines;
    RuleFlush(lines);
  }

  lemma RuleFlush(lines: seq<string>)
    requires Terminated(lines) == "\n---\n" && !Blank("\n---\n")
    ensures Flush(START, lines) == [Section(0, "", "\n---\n")]
  {
    hide Blank, Terminated;
  }

  lemma RuleIsText()
    ensures !Fence("") && Heading("").None? && !Fence("---") && Heading("---").None? && !Blank("\n---\n")
  {
    TrimmedStays("---");
    BlankMeans("\n---\n");
    assert "\n---\n"[1] == '-';
    assert "---"[0] != "```"[0];
  }

  lemma RuleOpens(sections: seq<Section>)
    requires sections == [Section(0, "", "\n---\n")]
    ensures OpensWithRule(sections)
  {
    var c := "\n---\n";
    assert c[1..] == "---\n";
    assert TrimNewlines(c) == "---\n";
    assert "---" <= "---\n";
  }

  lemma SameContents(sections: seq<Section>)
    requires sections == [Section(0, "", "\n---\n")]
    ensures Normalized(sections) == sections
  {
    assert NoCr("\n---\n");
    NormalizeStays("\n---\n");
    assert sections[1..] == [];
    hide Normalize;
  }

  /** Empty frontmatter gains a blank line, and a blank line before a leading heading is
      dropped, by one rewrite. */
  lemma BlankLinesMoved()
    ensures Parse("---\n---\n").Some? && Render(Parse("---\n---\n").value) == "---\n\n---\n"
    ensures Parse("\n# T\n").Some? && Render(Parse("\n# T\n").value) == "# T\n"
  {
    hide *;
    EmptyFrontRead();
    BlankEntryPrints();
    HeadingBehindBlank();
    FileRewritten("\n# T\n");
  }

  lemma EmptyFrontRead()
    ensures Parse("---\n---\n") == Some(Doc([Raw("")], []))
  {
    var text := "---\n" + ("---\n" + "");
    assert text == "---\n---\n" && NoCr(text);
    NormalizeStays(text);
    RuleText("");
    NoSections();
    hide Normalize, ParseText, ParseSections;
  }

  lemma BlankEntryPrints()
    ensures Render(Doc([Raw("")], [])) == "---\n\n---\n"
  {
    OneLine("");
    assert [Raw("")][1..] == [];
    assert FrontLines([Raw("")]) == [""] + FrontLines([]);
    assert BodyText([]) == "";
    hide Terminated;
    assert "---\n" + "\n" + "---\n" + "" == "---\n\n---\n";
  }

  lemma HeadingBehindBlank()
    ensures Parse("\n# T\n").Some? && Terminated(RewrittenFile("\n# T\n")) == "# T\n"
    ensures Normalize("\n# T\n") == "\n# T\n" && !HasPrefix("\n# T\n", "---\n")
  {
    hide *;
    var text, lines := "\n# T\n", ["", "# T"];
    BlankHeadLines();
    OneHeading();
    PlainText(text);
    ParseIsText(text);
    TextCases(text);
    RewrittenIs(lines);
    LeadingOne();
    assert lines[1..] == ["# T"] && [] + ["# T"] == ["# T"];
    OneLine("# T");
    assert "# T" + "\n" == "# T\n";
  }

  lemma BlankHeadLines()
    ensures var text := "\n# T\n";
      Normalize(text) == text && !HasPrefix(text, "---\n") && BodyLines(text) == ["", "# T"]
  {
    var text, lines := "\n# T\n", ["", "# T"];
    assert NoCr(text);
    NormalizeStays(text);
    assert text[0] != "---\n"[0];
    OneLine("# T");
    assert lines[1..] == ["# T"];
    assert Lines(lines);
    BodyOfLines(lines);
    hide BodyLines, Normalize;
    assert Terminated(lines) == "" + "\n" + ("# T" + "\n");
    assert "" + "\n" + ("# T" + "\n") == text;
  }

  /** `# T` is a heading as it is printed, and no rule. */
  lemma OneHeading()
    ensures Heading("# T") == Some(Section(1, "T", "")) && Canon(["# T"], false) == ["# T"]
    ensures !OpensWithRule(ParseSections("\n# T\n")) && !Blank("# T")
  {
    var line, s := "# T", Section(1, "T", "");
    TrimmedStays("T");
    TrimmedStays(line);
    assert line[2..] == "T" && Hashes(line[1..]) == 0;
    assert Heading(line) == Some(s);
    assert seq(1, _ => '#') == "#";
    assert HeadText(s) == "#" + " " + "T" == line;
    hide Heading, HeadText, TrimSpace, Fence, OpensWithRule, ParseSections;
    HeadingFence(line);
    ParseStep([line], START, [], false);
    ParseStep([], START, [], false);
    assert [line][1..] == [] && [line] + [] == [line];
    HeadedSections();
  }

  lemma HeadedSections()
    ensures !OpensWithRule(ParseSections("\n# T\n"))
  {
    hide *;
    var lines, s := ["", "# T"], Section(1, "T", "");
    BlankHeadLines();
    EmptyBody("\n# T\n");
    HeadedLines();
    FirstHeaded(s);
  }

  lemma HeadedLines()
    ensures ParseLines(["", "# T"], START, [], false) == [Section(1, "T", "")]
  {
    var line, s := "# T", Section(1, "T", "");
    TrimmedStays("T");
    TrimmedStays(line);
    assert line[2..] == "T" && Hashes(line[1..]) == 0;
    assert Heading(line) == Some(s);
    assert Blank("");
    BlankIsText("");
    HeadingFence(line);
    assert Flush(START, [""]) == [] by {
      KeepsFlushes(START, [""]);
      assert !Keeps(START, [""]);
    }
    assert Flush(s, []) == [s] by { hide Blank; }
    hide Heading, Fence, Flush, Blank, TrimSpace;
    ParseStep(["", line], START, [], false);
    ParseStep([line], START, [""], false);
    ParseStep([], s, [], false);
    assert ["", line][1..] == [line] && [line][1..] == [] && [] + [""] == [""] && [] + [s] == [s];
  }

  lemma FirstHeaded(s: Section)
    requires s.level > 0
    ensures !OpensWithRule([s])
  {}

  lemma LeadingOne()
    ensures LeadingBlanks(["", "# T"]) == 1
  {
    TrimmedStays("# T");
    assert Blank("") && !Blank("# T");
    hide Blank;
    assert ["", "# T"][1..] == ["# T"];
  }

  /** An element that is empty is gone when the list is read back. */
  lemma EmptyElementLost()
    ensures ListOf(Clean(QuoteScalar(ListText(["", "a"])))) == Some(["a"])
  {
    ListRoundTrip(["", "a"]);
    hide ListOf, Clean, QuoteScalar, ListText;
    assert ["", "a"][1..] == ["a"] && ["a"][1..] == [];
    assert NonEmpty(["", "a"]) == ["a"] by { assert NonEmpty(["a"]) == ["a"] + NonEmpty([]); }
  }
}
