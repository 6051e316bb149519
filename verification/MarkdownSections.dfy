/** The body of a markdown file: ATX headings outside code fences and the content
    under them (parseSections and the second half of Render in
    internal/mdstore/mdstore.go). */
module MarkdownSections {
  import opened Wrappers
  import opened MarkdownText

  /** Level 0 with an empty title is the text before the first heading. */
  datatype Section = Section(level: nat, title: string, content: string)

  const START := Section(0, "", "")

  // ---------------------------------------------------------------- parsing

  function Hashes(line: string): (n: nat)
    ensures n <= |line|
    ensures forall i | 0 <= i < n :: line[i] == '#'
    ensures n < |line| ==> line[n] != '#'
  {
    if line != "" && line[0] == '#' then 1 + Hashes(line[1..]) else 0
  }

  /** heading: the section that a heading line starts. */
  function Heading(line: string): Option<Section> {
    var n := Hashes(line);
    if n == 0 || n > 6 || n >= |line| || line[n] != ' ' then None
    else Some(Section(n, TrimSpace(line[n + 1..]), ""))
  }

  predicate Fence(line: string) { HasPrefix(TrimSpace(line), "```") }

  /** flush: the current section with its content, unless it is the blank text
      before the first heading. */
  function Flush(cur: Section, buf: seq<string>): seq<Section> {
    var content := Terminated(buf);
    if cur.level != 0 || cur.title != "" || !Blank(content) then [cur.(content := content)] else []
  }

  /** The rest of the lines, read with a section begun and a fence open or not. */
  function ParseLines(lines: seq<string>, cur: Section, buf: seq<string>, fence: bool): seq<Section>
    decreases |lines|
  {
    if lines == [] then Flush(cur, buf)
    else
      var inFence := if Fence(lines[0]) then !fence else fence;
      if !inFence && Heading(lines[0]).Some?
          then Flush(cur, buf) + ParseLines(lines[1..], Heading(lines[0]).value, [], inFence)
      else ParseLines(lines[1..], cur, buf + [lines[0]], inFence)
  }

  /** The lines of a body; the empty piece after a final line feed is not one. */
  function BodyLines(body: string): seq<string> {
    var lines := Split(body);
    if lines[|lines| - 1] == "" then lines[..|lines| - 1] else lines
  }

  function ParseSections(body: string): seq<Section> {
    if body == "" then [] else ParseLines(BodyLines(body), START, [], false)
  }

  // ---------------------------------------------------------------- printing

  function HeadText(s: Section): string { seq(s.level, _ => '#') + " " + s.title }

  function SectionText(s: Section): string {
    (if s.level > 0 then HeadText(s) + "\n" else "") + s.content
    + if s.content != "" && !HasSuffix(s.content, "\n") then "\n" else ""
  }

  function BodyText(sections: seq<Section>): string {
    if sections == [] then "" else SectionText(sections[0]) + BodyText(sections[1..])
  }

  // ---------------------------------------------------------------- headings

  /** A section as parsing begins it. */
  predicate Begun(s: Section) {
    if s.level == 0 then s.title == "" else s.level <= 6 && Trimmed(s.title) && NoBreak(s.title)
  }

  lemma {:induction false} HashRun(n: nat, rest: string)
    requires rest == "" || rest[0] != '#'
    ensures Hashes(seq(n, _ => '#') + rest) == n
  {
    var s := seq(n, _ => '#') + rest;
    if n > 0 {
      assert s[1..] == seq(n - 1, _ => '#') + rest;
      HashRun(n - 1, rest);
    } else {
      assert s == rest;
    }
  }

  /** A printed heading reads as the section it was printed for. */
  lemma HeadReads(s: Section)
    requires Begun(s) && s.level > 0
    ensures Heading(HeadText(s)) == Some(s.(content := "")) && !Fence(HeadText(s)) && NoBreak(HeadText(s))
  {
    var line := HeadText(s);
    var rest := " " + s.title;
    assert line == seq(s.level, _ => '#') + rest;
    HashRun(s.level, rest);
    assert line[s.level + 1..] == s.title;
    TrimmedStays(s.title);
    assert line[0] == '#';
    TrimKeepsHead(line);
    assert TrimSpace(line)[0] != "```"[0];
    hide TrimSpace;
  }

  lemma HeadingBegun(line: string)
    requires NoBreak(line) && Heading(line).Some?
    ensures Begun(Heading(line).value) && Heading(line).value.level > 0
    ensures forall c | c in Heading(line).value.title :: c in line
  {
    var n := Hashes(line);
    var i := TrimFacts(line[n + 1..]);
    hide TrimSpace, Trimmed;
  }

  // ---------------------------------------------------------------- printed lines

  function HeadLines(s: Section): seq<string> { if s.level > 0 then [HeadText(s)] else [] }

  /** The lines of a printed section whose content is whole lines. */
  function SectionLines(s: Section): seq<string> { HeadLines(s) + BodyLines(s.content) }

  function AllLines(sections: seq<Section>): seq<string> {
    if sections == [] then [] else SectionLines(sections[0]) + AllLines(sections[1..])
  }

  /** A section as parsing leaves it. */
  predicate Parsed(s: Section) {
    && Begun(s) && Terminated(BodyLines(s.content)) == s.content && Lines(BodyLines(s.content))
    && (s.level == 0 ==> !Blank(s.content))
  }

  predicate AllParsed(sections: seq<Section>) { forall i | 0 <= i < |sections| :: Parsed(sections[i]) }

  lemma BodyOfLines(lines: seq<string>)
    requires Lines(lines)
    ensures BodyLines(Terminated(lines)) == lines
  {
    SplitTerminated(lines);
  }

  lemma BodyUnbroken(body: string)
    ensures Lines(BodyLines(body)) && forall i, c | 0 <= i < |BodyLines(body)| && c in BodyLines(body)[i] :: c in body
  {
    SplitLines(body);
    hide Split;
  }

  lemma FlushParsed(cur: Section, buf: seq<string>)
    requires Begun(cur) && Lines(buf)
    ensures AllParsed(Flush(cur, buf))
    ensures Flush(cur, buf) != [] ==> AllLines(Flush(cur, buf)) == HeadLines(cur) + buf
  {
    BodyOfLines(buf);
    hide Blank, BodyLines, Trimmed;
    if Flush(cur, buf) != [] {
      var s := cur.(content := Terminated(buf));
      assert Flush(cur, buf) == [s] && HeadText(s) == HeadText(cur);
      assert [s][1..] == [];
      assert AllLines([s]) == SectionLines(s) + AllLines([]);
    }
  }

  lemma {:induction false} AllLinesConcat(a: seq<Section>, b: seq<Section>)
    ensures AllLines(a + b) == AllLines(a) + AllLines(b)
  {
    if a == [] {
      assert a + b == b;
    } else {
      assert (a + b)[1..] == a[1..] + b;
      AllLinesConcat(a[1..], b);
    }
  }

  /** Printed sections are their lines. */
  lemma {:induction false} BodyTextLines(sections: seq<Section>)
    requires AllParsed(sections)
    ensures BodyText(sections) == Terminated(AllLines(sections)) && Lines(AllLines(sections))
  {
    if sections != [] {
      var s := sections[0];
      assert Parsed(s);
      BodyTextLines(sections[1..]);
      SectionTextLines(s);
      TerminatedConcat(SectionLines(s), AllLines(sections[1..]));
      hide SectionText, SectionLines, Parsed;
    }
  }

  lemma SectionTextLines(s: Section)
    requires Parsed(s)
    ensures SectionText(s) == Terminated(SectionLines(s)) && Lines(SectionLines(s))
  {
    if s.level > 0 { HeadReads(s); }
    var lines := BodyLines(s.content);
    if lines != [] {
      TerminatedIsJoin(lines);
      assert s.content == Join(lines) + "\n";
    }
    TerminatedConcat(HeadLines(s), lines);
    hide BodyLines, Join, Heading, HeadText, Begun, Fence;
    if s.level > 0 {
      assert [HeadText(s)][1..] == [];
      assert Terminated([HeadText(s)]) == HeadText(s) + "\n" + Terminated([]);
    }
  }

  // ---------------------------------------------------------------- the fixpoint

  /** The same lines with every heading written as it is printed. */
  function Canon(lines: seq<string>, fence: bool): seq<string>
    decreases |lines|
  {
    if lines == [] then []
    else
      var inFence := if Fence(lines[0]) then !fence else fence;
      [if !inFence && Heading(lines[0]).Some? then HeadText(Heading(lines[0]).value) else lines[0]]
          + Canon(lines[1..], inFence)
  }

  lemma {:induction false} CanonParses(lines: seq<string>, cur: Section, buf: seq<string>, fence: bool)
    requires Lines(lines)
    ensures ParseLines(Canon(lines, fence), cur, buf, fence) == ParseLines(lines, cur, buf, fence)
    decreases |lines|
  {
    if lines != [] {
      var inFence := if Fence(lines[0]) then !fence else fence;
      var rest := Canon(lines[1..], inFence);
      hide Fence, HeadText, Flush, Begun;
      if !inFence && Heading(lines[0]).Some? {
        var next := Heading(lines[0]).value;
        HeadingBegun(lines[0]);
        HeadReads(next);
        HeadingFence(lines[0]);
        hide Heading;
        CanonParses(lines[1..], next, [], inFence);
        assert Canon(lines, fence) == [HeadText(next)] + rest;
      } else {
        hide Heading;
        CanonParses(lines[1..], cur, buf + [lines[0]], inFence);
        assert Canon(lines, fence) == [lines[0]] + rest;
      }
    }
  }

  /** A heading line is not a fence. */
  lemma HeadingFence(line: string)
    requires Heading(line).Some?
    ensures !Fence(line)
  {
    assert line[0] == '#';
    TrimKeepsHead(line);
    assert TrimSpace(line)[0] != "```"[0];
    hide TrimSpace;
  }

  /** Something keeps the section from being dropped. */
  predicate Keeps(cur: Section, buf: seq<string>) { cur.level > 0 || exists i :: 0 <= i < |buf| && !Blank(buf[i]) }

  lemma {:induction false} BlankLines(lines: seq<string>)
    ensures Blank(Terminated(lines)) <==> forall i | 0 <= i < |lines| :: Blank(lines[i])
  {
    var text := Terminated(lines);
    BlankMeans(text);
    if lines != [] {
      var head, rest := lines[0], Terminated(lines[1..]);
      BlankMeans(head);
      BlankMeans(rest);
      BlankLines(lines[1..]);
      assert text == head + "\n" + rest;
      hide Blank, Terminated;
      Positions(head, rest);
      assert forall i | 0 < i < |lines| :: lines[i] == lines[1..][i - 1];
    }
  }

  lemma Positions(head: string, rest: string)
    ensures var text := head + "\n" + rest;
      (forall i | 0 <= i < |text| :: IsSpace(text[i]))
          <==> (forall i | 0 <= i < |head| :: IsSpace(head[i])) && (forall i | 0 <= i < |rest| :: IsSpace(rest[i]))
  {
    var text := head + "\n" + rest;
    assert forall i | 0 <= i < |head| :: text[i] == head[i];
    assert text[|head|] == '\n';
    assert forall i | 0 <= i < |rest| :: text[|head| + 1 + i] == rest[i];
    assert forall i | |head| < i < |text| :: text[i] == rest[i - |head| - 1];
  }

  lemma KeepsFlushes(cur: Section, buf: seq<string>)
    requires Begun(cur)
    ensures Keeps(cur, buf) <==> Flush(cur, buf) != []
  {
    BlankLines(buf);
    hide Blank, Trimmed;
  }

  /** What is printed of a section that is kept, and of all after it. */
  lemma {:induction false} PrintsCanon(lines: seq<string>, cur: Section, buf: seq<string>, fence: bool)
    requires Lines(lines) && Lines(buf) && Begun(cur) && Keeps(cur, buf)
    ensures AllLines(ParseLines(lines, cur, buf, fence)) == HeadLines(cur) + buf + Canon(lines, fence)
    ensures AllParsed(ParseLines(lines, cur, buf, fence))
    decreases |lines|
  {
    hide *;
    FlushParsed(cur, buf);
    KeepsFlushes(cur, buf);
    ParseStep(lines, cur, buf, fence);
    if lines == [] {
      assert HeadLines(cur) + buf + [] == HeadLines(cur) + buf;
    } else {
      LinesRest(lines, buf);
      var inFence := if Fence(lines[0]) then !fence else fence;
      if !inFence && Heading(lines[0]).Some? {
        var next := Heading(lines[0]).value;
        HeadingBegun(lines[0]);
        HeadLine(next);
        BegunKeeps(next);
        var rest := ParseLines(lines[1..], next, [], inFence);
        PrintsCanon(lines[1..], next, [], inFence);
        AllLinesConcat(Flush(cur, buf), rest);
        ParsedConcat(Flush(cur, buf), rest);
        Regroup(HeadLines(cur) + buf, [HeadText(next)], Canon(lines[1..], inFence));
      } else {
        KeepsMore(cur, buf, lines[0]);
        PrintsCanon(lines[1..], cur, buf + [lines[0]], inFence);
        Regroup3(HeadLines(cur), buf, [lines[0]], Canon(lines[1..], inFence));
      }
    }
  }

  lemma Regroup(a: seq<string>, b: seq<string>, c: seq<string>)
    ensures a + (b + c) == a + b + c
  {}

  lemma Regroup3(a: seq<string>, b: seq<string>, c: seq<string>, d: seq<string>)
    ensures a + (b + c) + d == a + b + (c + d)
  {}

  lemma LinesRest(lines: seq<string>, buf: seq<string>)
    requires Lines(lines) && Lines(buf) && lines != []
    ensures Lines(lines[1..]) && NoBreak(lines[0]) && Lines(buf + [lines[0]]) && Lines([])
  {}

  lemma BegunKeeps(s: Section)
    requires s.level > 0
    ensures Keeps(s, [])
  {}

  lemma KeepsMore(cur: Section, buf: seq<string>, line: string)
    ensures Keeps(cur, buf) || !Blank(line) ==> Keeps(cur, buf + [line])
  {
    hide Blank;
    var more := buf + [line];
    assert more[|buf|] == line && forall i | 0 <= i < |buf| :: more[i] == buf[i];
  }

  lemma ParsedConcat(a: seq<Section>, b: seq<Section>)
    requires AllParsed(a) && AllParsed(b)
    ensures AllParsed(a + b)
  {
    hide Parsed;
  }

  /** One line of parsing, and of printing what was parsed. */
  lemma ParseStep(lines: seq<string>, cur: Section, buf: seq<string>, fence: bool)
    ensures lines == [] ==> ParseLines(lines, cur, buf, fence) == Flush(cur, buf) && Canon(lines, fence) == []
    ensures lines != [] ==>
      var inFence := if Fence(lines[0]) then !fence else fence;
      var head := Heading(lines[0]);
      && ParseLines(lines, cur, buf, fence) == (
        if !inFence && head.Some? then Flush(cur, buf) + ParseLines(lines[1..], head.value, [], inFence)
        else ParseLines(lines[1..], cur, buf + [lines[0]], inFence))
      && Canon(lines, fence)
          == [if !inFence && head.Some? then HeadText(head.value) else lines[0]] + Canon(lines[1..], inFence)
  {
    hide Fence, Heading, HeadText, Flush;
  }

  lemma HeadLine(s: Section)
    requires s.level > 0
    ensures HeadLines(s) + [] == [HeadText(s)]
  {}

  /** Blank lines before anything else are only collected. */
  lemma {:induction false} BlankPrefix(blank: seq<string>, lines: seq<string>, buf: seq<string>)
    requires forall i | 0 <= i < |blank| :: Blank(blank[i])
    ensures ParseLines(blank + lines, START, buf, false) == ParseLines(lines, START, buf + blank, false)
    decreases |blank|
  {
    if blank == [] {
      assert blank + lines == lines && buf + blank == buf;
    } else {
      BlankIsText(blank[0]);
      assert (blank + lines)[1..] == blank[1..] + lines;
      hide Blank, Fence, Heading, Flush;
      BlankPrefix(blank[1..], lines, buf + [blank[0]]);
      assert buf + [blank[0]] + blank[1..] == buf + blank;
    }
  }

  lemma BlankIsText(line: string)
    requires Blank(line)
    ensures !Fence(line) && Heading(line).None?
  {
    BlankMeans(line);
    assert line != "" ==> line[0] != '#';
    hide TrimLeft, TrimRight;
  }

  /** The printed lines parse to the same sections, also when blank text before the
      first heading was dropped. */
  lemma {:induction false} SectionsFix(lines: seq<string>, buf: seq<string>)
    requires Lines(lines) && Lines(buf) && forall i | 0 <= i < |buf| :: Blank(buf[i])
    ensures var out := ParseLines(lines, START, buf, false);
      ParseLines(AllLines(out), START, [], false) == out && AllParsed(out)
    decreases |lines|
  {
    KeepsFlushes(START, buf);
    KeepsFlushes(START, []);
    var out := ParseLines(lines, START, buf, false);
    if lines == [] {
      assert out == [];
    } else if Blank(lines[0]) {
      BlankIsText(lines[0]);
      hide Blank, Fence, Heading, Flush;
      SectionsFix(lines[1..], buf + [lines[0]]);
    } else {
      FirstVisible(lines, buf);
    }
  }

  lemma FirstVisible(lines: seq<string>, buf: seq<string>)
    requires Lines(lines) && Lines(buf) && (forall i | 0 <= i < |buf| :: Blank(buf[i])) && lines != []
        && !Blank(lines[0])
    requires Flush(START, buf) == [] && Flush(START, []) == []
    ensures var out := ParseLines(lines, START, buf, false);
      ParseLines(AllLines(out), START, [], false) == out && AllParsed(out)
  {
    hide *;
    var inFence := Fence(lines[0]);
    var out := ParseLines(lines, START, buf, false);
    ParseStep(lines, START, buf, false);
    LinesRest(lines, buf);
    StartBegun();
    if !inFence && Heading(lines[0]).Some? {
      var next := Heading(lines[0]).value;
      HeadingBegun(lines[0]);
      HeadReads(next);
      HeadingBare(lines[0]);
      HeadLine(next);
      BegunKeeps(next);
      PrintsCanon(lines[1..], next, [], false);
      CanonParses(lines[1..], next, [], false);
      var printed := [HeadText(next)] + Canon(lines[1..], false);
      assert out == [] + ParseLines(lines[1..], next, [], false) == ParseLines(lines[1..], next, [], false);
      assert AllLines(out) == printed && printed[1..] == Canon(lines[1..], false);
      ParseStep(printed, START, [], false);
      assert [] + out == out;
    } else {
      KeepsMore(START, buf, lines[0]);
      PrintsCanon(lines[1..], START, buf + [lines[0]], inFence);
      CanonFirst(lines, buf);
    }
  }

  lemma StartBegun()
    ensures Begun(START)
  {}

  lemma HeadingBare(line: string)
    requires Heading(line).Some?
    ensures Heading(line).value.(content := "") == Heading(line).value
  {}

  /** Text comes first: nothing is dropped. */
  lemma CanonFirst(lines: seq<string>, buf: seq<string>)
    requires Lines(lines) && (forall i | 0 <= i < |buf| :: Blank(buf[i])) && lines != []
        && (Fence(lines[0]) || Heading(lines[0]).None?)
    requires AllLines(ParseLines(lines, START, buf, false))
        == HeadLines(START) + (buf + [lines[0]]) + Canon(lines[1..], Fence(lines[0]))
    ensures ParseLines(AllLines(ParseLines(lines, START, buf, false)), START, [], false)
        == ParseLines(lines, START, buf, false)
  {
    hide *;
    var canon := Canon(lines, false);
    ParseStep(lines, START, [], false);
    HeadingIsText(lines[0]);
    assert canon == [lines[0]] + Canon(lines[1..], Fence(lines[0]));
    NoHead();
    TextFirstLines(buf, lines[0], Canon(lines[1..], Fence(lines[0])));
    BlankPrefix(buf, canon, []);
    assert [] + buf == buf;
    CanonParses(lines, START, buf, false);
  }

  /** Of a fence and a heading a line is at most one. */
  lemma HeadingIsText(line: string)
    ensures Fence(line) ==> Heading(line).None?
  {
    if Heading(line).Some? { HeadingFence(line); }
  }

  /** The body survives printing and parsing exactly, code fences included, for any
      text at all. */
  lemma BodyFixpoint(body: string)
    ensures ParseSections(BodyText(ParseSections(body))) == ParseSections(body)
    ensures AllParsed(ParseSections(body))
  {
    var out := ParseSections(body);
    BodyUnbroken(body);
    EmptyBody(body);
    hide ParseLines, AllLines, Parsed, BodyLines, BodyText;
    SectionsFix(BodyLines(body), []);
    BodyTextLines(out);
    BodyOfLines(AllLines(out));
    EmptyBody(BodyText(out));
  }

  lemma EmptyBody(body: string)
    ensures ParseSections(body) == ParseLines(BodyLines(body), START, [], false)
  {
    assert Blank("");
    hide Blank, ParseLines;
    if body == "" {
      assert BodyLines(body) == [];
      NothingParsed();
    }
  }

  lemma NoSections()
    ensures ParseSections("") == []
  {}

  lemma NothingParsed()
    ensures ParseLines([], START, [], false) == []
  {
    assert Blank("");
  }

  // ---------------------------------------------------------------- what a rewrite does to the lines

  function LeadingBlanks(lines: seq<string>): (n: nat)
    ensures n <= |lines| && forall i | 0 <= i < n :: Blank(lines[i])
    ensures n < |lines| ==> !Blank(lines[n])
  {
    if lines == [] || !Blank(lines[0]) then 0 else 1 + LeadingBlanks(lines[1..])
  }

  /** The lines of a body after a rewrite: headings are written one way, and blank lines
      before a heading that comes first, or before nothing at all, are gone. */
  function RewrittenBody(lines: seq<string>): seq<string> {
    var n := LeadingBlanks(lines);
    if n == |lines| || Heading(lines[n]).Some? then Canon(lines[n..], false) else Canon(lines, false)
  }

  lemma BodyRewritten(lines: seq<string>)
    requires Lines(lines)
    ensures AllLines(ParseLines(lines, START, [], false)) == RewrittenBody(lines)
  {
    hide *;
    var n := LeadingBlanks(lines);
    var rest := lines[n..];
    assert lines == lines[..n] + rest;
    BlankPrefix(lines[..n], rest, []);
    assert [] + lines[..n] == lines[..n];
    RewrittenIs(lines);
    StartBegun();
    KeepsFlushes(START, lines[..n]);
    LinesFrom(lines, n);
    OnlyBlank(lines[..n]);
    if rest == [] {
      ParseStep(rest, START, lines[..n], false);
      NoLines();
    } else if Heading(rest[0]).Some? {
      HeadingFirst(rest, lines[..n]);
    } else {
      CanonBlank(lines[..n], rest);
      TextFirst(rest, lines[..n]);
    }
  }

  lemma HeadingFirst(lines: seq<string>, blank: seq<string>)
    requires Lines(lines) && lines != [] && Heading(lines[0]).Some? && Flush(START, blank) == []
    ensures AllLines(ParseLines(lines, START, blank, false)) == Canon(lines, false)
  {
    hide *;
    var next := Heading(lines[0]).value;
    ParseStep(lines, START, blank, false);
    NoLinesBroken();
    LinesRest(lines, []);
    HeadingBegun(lines[0]);
    HeadingFence(lines[0]);
    BegunKeeps(next);
    HeadLine(next);
    PrintsCanon(lines[1..], next, [], false);
    assert [] + ParseLines(lines[1..], next, [], false) == ParseLines(lines[1..], next, [], false);
  }

  lemma NoLinesBroken()
    ensures Lines([])
  {}

  lemma TextFirst(lines: seq<string>, blank: seq<string>)
    requires Lines(lines) && Lines(blank) && lines != [] && !Blank(lines[0]) && Heading(lines[0]).None?
    ensures AllLines(ParseLines(lines, START, blank, false)) == blank + Canon(lines, false)
  {
    hide *;
    var fence := Fence(lines[0]);
    ParseStep(lines, START, blank, false);
    StartBegun();
    LinesRest(lines, blank);
    KeepsMore(START, blank, lines[0]);
    PrintsCanon(lines[1..], START, blank + [lines[0]], fence);
    NoHead();
    TextFirstLines(blank, lines[0], Canon(lines[1..], fence));
  }

  lemma TextFirstLines(blank: seq<string>, line: string, rest: seq<string>)
    ensures [] + (blank + [line]) + rest == blank + ([line] + rest)
  {}

  lemma RewrittenIs(lines: seq<string>)
    ensures var n := LeadingBlanks(lines);
      && RewrittenBody(lines)
          == (if n == |lines| || Heading(lines[n]).Some? then Canon(lines[n..], false) else Canon(lines, false))
      && n <= |lines| && (forall i | 0 <= i < n :: Blank(lines[i])) && (n < |lines| ==> !Blank(lines[n]))
  {
    hide Canon, Heading, Blank;
  }

  lemma LinesFrom(lines: seq<string>, n: nat)
    requires Lines(lines) && n <= |lines|
    ensures Lines(lines[n..]) && Lines(lines[..n])
  {}

  lemma OnlyBlank(blank: seq<string>)
    requires forall i | 0 <= i < |blank| :: Blank(blank[i])
    ensures !Keeps(START, blank)
  {
    hide Blank;
  }

  lemma NoLines()
    ensures AllLines([]) == []
  {}

  lemma NoHead()
    ensures HeadLines(START) == []
  {}

  lemma {:induction false} CanonBlank(blank: seq<string>, lines: seq<string>)
    requires forall i | 0 <= i < |blank| :: Blank(blank[i])
    ensures Canon(blank + lines, false) == blank + Canon(lines, false)
  {
    if blank == [] {
      assert blank + lines == lines;
    } else {
      hide *;
      BlankIsText(blank[0]);
      var all := blank + lines;
      assert all[0] == blank[0] && all[1..] == blank[1..] + lines;
      ParseStep(all, START, [], false);
      CanonBlank(blank[1..], lines);
      assert [blank[0]] + (blank[1..] + Canon(lines, false)) == [blank[0]] + blank[1..] + Canon(lines, false);
      assert [blank[0]] + blank[1..] == blank;
    }
  }

  /** Every heading is written the way it is printed. */
  predicate TidyHeadings(lines: seq<string>, fence: bool) {
    if lines == [] then true
    else
      var inFence := if Fence(lines[0]) then !fence else fence;
      && (!inFence && Heading(lines[0]).Some? ==> lines[0] == HeadText(Heading(lines[0]).value))
      && TidyHeadings(lines[1..], inFence)
  }

  lemma {:induction false} TidyHeadingsStay(lines: seq<string>, fence: bool)
    ensures |Canon(lines, fence)| == |lines|
    ensures Canon(lines, fence) == lines <==> TidyHeadings(lines, fence)
  {
    if lines != [] {
      hide Fence, Heading, HeadText;
      var inFence := if Fence(lines[0]) then !fence else fence;
      TidyHeadingsStay(lines[1..], inFence);
      assert lines == [lines[0]] + lines[1..];
      assert Canon(lines, fence)[1..] == Canon(lines[1..], inFence);
    }
  }

  /** A rewrite leaves a body as it is, line by line, if and only if its headings are
      tidy and it does not start with blank lines before a heading or nothing. */
  lemma TidyBodyStays(lines: seq<string>)
    ensures RewrittenBody(lines) == lines <==>
      && TidyHeadings(lines, false)
      && var n := LeadingBlanks(lines); n > 0 ==> n < |lines| && Heading(lines[n]).None?
  {
    var n := LeadingBlanks(lines);
    TidyHeadingsStay(lines, false);
    TidyHeadingsStay(lines[n..], false);
    hide Canon, TidyHeadings, Heading;
    assert n == 0 ==> lines[n..] == lines;
  }

  // ---------------------------------------------------------------- carriage returns

  /** The sections with CRLF turned into LF in their contents. */
  function Normalized(sections: seq<Section>): seq<Section> {
    if sections == [] then [] else [sections[0].(content := Normalize(sections[0].content))] + Normalized(sections[1..])
  }

  lemma {:induction false} NormalizedConcat(a: seq<Section>, b: seq<Section>)
    ensures Normalized(a + b) == Normalized(a) + Normalized(b)
  {
    if a == [] {
      assert a + b == b;
    } else {
      assert (a + b)[1..] == a[1..] + b;
      NormalizedConcat(a[1..], b);
    }
  }

  /** A CR at its end makes a line neither a fence nor a heading, nor stops it being one. */
  lemma ChompedText(line: string)
    ensures Fence(Chomp(line)) == Fence(line) && Heading(Chomp(line)) == Heading(line)
        && Blank(Chomp(line)) == Blank(line)
  {
    ChompTrims(line);
    hide TrimSpace;
    if EndsCr(line) {
      var head := line[..|line| - 1];
      assert line == head + "\r";
      var n := Hashes(head);
      HashesPad(head);
      if n < |head| {
        assert line[n] == head[n] && line[n + 1..] == head[n + 1..] + "\r";
        TrimRightPad(head[n + 1..], "\r");
      }
    }
  }

  lemma {:induction false} HashesPad(head: string)
    ensures Hashes(head + "\r") == Hashes(head)
  {
    if head != "" {
      assert (head + "\r")[1..] == head[1..] + "\r";
      HashesPad(head[1..]);
    } else {
      assert ("" + "\r")[0] == '\r';
    }
  }

  /** Without the CRs at the ends of its lines a body has the same sections, except that
      the CRLFs in their contents are LFs. */
  lemma {:induction false} ChompedParses(lines: seq<string>, cur: Section, buf: seq<string>, fence: bool)
    requires Lines(lines) && Lines(buf) && (cur.content == "" || cur == START)
    ensures ParseLines(Chomped(lines), cur, Chomped(buf), fence) == Normalized(ParseLines(lines, cur, buf, fence))
    decreases |lines|
  {
    hide *;
    ChompedCases(lines);
    ChompedFlush(cur, buf);
    ParseStep(lines, cur, buf, fence);
    ParseStep(Chomped(lines), cur, Chomped(buf), fence);
    if lines != [] {
      LinesRest(lines, buf);
      ChompedText(lines[0]);
      var inFence := if Fence(lines[0]) then !fence else fence;
      if !inFence && Heading(lines[0]).Some? {
        var next := Heading(lines[0]).value;
        HeadingEmpty(lines[0]);
        ChompedCases([]);
        ChompedParses(lines[1..], next, [], inFence);
        NormalizedConcat(Flush(cur, buf), ParseLines(lines[1..], next, [], inFence));
      } else {
        ChompedConcat(buf, [lines[0]]);
        ChompedOne(lines[0]);
        ChompedParses(lines[1..], cur, buf + [lines[0]], inFence);
      }
    }
  }

  lemma ChompedCases(lines: seq<string>)
    ensures lines == [] ==> Chomped(lines) == []
    ensures lines != []
        ==> Chomped(lines) != [] && Chomped(lines)[0] == Chomp(lines[0]) && Chomped(lines)[1..] == Chomped(lines[1..])
  {
    hide Chomp;
  }

  lemma ChompedOne(line: string)
    ensures Chomped([line]) == [Chomp(line)]
  {
    assert [line][1..] == [];
    hide Chomp;
  }

  lemma HeadingEmpty(line: string)
    requires Heading(line).Some?
    ensures Heading(line).value.content == ""
  {}

  lemma ChompedFlush(cur: Section, buf: seq<string>)
    requires Lines(buf)
    ensures Flush(cur, Chomped(buf)) == Normalized(Flush(cur, buf))
  {
    NormalizeLines(buf);
    BlankLines(buf);
    BlankLines(Chomped(buf));
    ChompedBlank(buf);
    hide Blank, Chomped, Normalize, Terminated;
    var s := cur.(content := Terminated(buf));
    assert [s][1..] == [];
    assert Normalized([s]) == [s.(content := Normalize(s.content))] + Normalized([]);
  }

  lemma {:induction false} ChompedBlank(buf: seq<string>)
    ensures |Chomped(buf)| == |buf| && forall i | 0 <= i < |buf| :: Blank(Chomped(buf)[i]) <==> Blank(buf[i])
  {
    if buf != [] {
      ChompedText(buf[0]);
      ChompedBlank(buf[1..]);
      hide Blank, Chomp;
      var after := Chomped(buf);
      forall i | 0 <= i < |buf| ensures Blank(after[i]) <==> Blank(buf[i]) {
        if i > 0 { assert after[i] == Chomped(buf[1..])[i - 1] && buf[i] == buf[1..][i - 1]; }
      }
    }
  }

  /** A rewrite puts no CR at the end of a line that had none. */
  lemma {:induction false} CleanCanon(lines: seq<string>, fence: bool)
    requires Lines(lines) && NoEndCr(lines)
    ensures NoEndCr(Canon(lines, fence))
    decreases |lines|
  {
    hide *;
    ParseStep(lines, START, [], fence);
    CleanTail(lines);
    if lines != [] {
      var inFence := if Fence(lines[0]) then !fence else fence;
      CleanCanon(lines[1..], inFence);
      if Heading(lines[0]).Some? {
        HeadingBegun(lines[0]);
        HeadClean(Heading(lines[0]).value);
      }
      CleanCons(if !inFence && Heading(lines[0]).Some? then HeadText(Heading(lines[0]).value) else lines[0],
          Canon(lines[1..], inFence));
    }
  }

  lemma CleanTail(lines: seq<string>)
    requires Lines(lines) && NoEndCr(lines)
    ensures NoEndCr([])
    ensures lines != [] ==> NoBreak(lines[0]) && !EndsCr(lines[0]) && Lines(lines[1..]) && NoEndCr(lines[1..])
  {
    hide EndsCr;
  }

  lemma CleanCons(line: string, rest: seq<string>)
    requires !EndsCr(line) && NoEndCr(rest)
    ensures NoEndCr([line] + rest)
  {
    hide EndsCr;
  }

  lemma HeadClean(s: Section)
    requires Begun(s) && s.level > 0
    ensures !EndsCr(HeadText(s))
  {
    var line := HeadText(s);
    if s.title != "" { assert line[|line| - 1] == s.title[|s.title| - 1]; } else { assert line[|line| - 1] == ' '; }
  }

  lemma CleanBody(lines: seq<string>)
    requires Lines(lines) && NoEndCr(lines)
    ensures NoEndCr(RewrittenBody(lines))
  {
    var n := LeadingBlanks(lines);
    CleanCanon(lines, false);
    assert NoEndCr(lines[n..]) && Lines(lines[n..]) by { hide EndsCr; }
    CleanCanon(lines[n..], false);
    hide Canon, Heading, NoEndCr;
  }
}
