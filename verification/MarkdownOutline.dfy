/** What the body parser of internal/mdstore/mdstore.go reads, in characters: where code
    fences and headings are, and that a body is cut at its headings outside fences. */
module MarkdownOutline {
  import opened Wrappers
  import opened MarkdownText
  import opened MarkdownSections

  // ---------------------------------------------------------------- characters

  const WHITE := "\t\n\U{000B}\U{000C}\r "

  predicate White(s: string) { forall c | c in s :: c in WHITE }

  /** A text with visible characters at both ends. */
  predicate Visible(s: string) { s != "" && s[0] !in WHITE && s[|s| - 1] !in WHITE }

  /** Three backquotes are the first visible characters of the line. */
  predicate Ticks(line: string) {
    exists i :: 0 <= i && i + 3 <= |line| && White(line[..i]) && line[i..i + 3] == "```"
  }

  /** One to six hashes at the start of the line, and a space. */
  predicate HeadingLine(line: string) { exists n :: 1 <= n <= 6 && HeadedBy(line, n) }

  predicate HeadedBy(line: string, n: nat) {
    n < |line| && (forall i | 0 <= i < n :: line[i] == '#') && line[n] == ' '
  }

  lemma WhiteIs(c: char)
    ensures IsSpace(c) <==> c in WHITE
  {
    assert WHITE == ['\t', '\n', '\U{000B}', '\U{000C}', '\r', ' '];
    assert c in WHITE
        <==> c == WHITE[0] || c == WHITE[1] || c == WHITE[2] || c == WHITE[3] || c == WHITE[4] || c == WHITE[5];
    if IsSpace(c) && c != ' ' { CharOf(c); }
  }

  lemma CharOf(c: char)
    requires 9 <= c as int <= 13
    ensures c in ['\t', '\n', '\U{000B}', '\U{000C}', '\r']
  {
    assert c == (c as int) as char;
    if c as int == 9 { assert c == '\t'; }
    if c as int == 10 { assert c == '\n'; }
    if c as int == 11 { assert c == '\U{000B}'; }
    if c as int == 12 { assert c == '\U{000C}'; }
    if c as int == 13 { assert c == '\r'; }
  }

  /** White space in a text, position by position. */
  lemma WhiteAt(s: string)
    ensures White(s) <==> forall i | 0 <= i < |s| :: IsSpace(s[i])
  {
    forall i | 0 <= i < |s| ensures IsSpace(s[i]) <==> s[i] in WHITE { WhiteIs(s[i]); }
  }

  /** What TrimSpace takes off is the white space at both ends. */
  lemma Stripped(left: string, s: string, right: string)
    requires White(left) && White(right) && (s == "" || Visible(s))
    ensures TrimSpace(left + s + right) == s
  {
    forall c: char ensures IsSpace(c) <==> c in WHITE { WhiteIs(c); }
    hide IsSpace, WHITE, TrimSpace;
    TrimRightPad(left + s, right);
    assert Trimmed(s);
    TrimPadded(left, s);
  }

  lemma BlankIsWhite(line: string)
    ensures Blank(line) <==> White(line)
  {
    BlankMeans(line);
    WhiteAt(line);
  }

  // ---------------------------------------------------------------- one line

  lemma FenceMeans(line: string)
    ensures Fence(line) <==> Ticks(line)
  {
    var i := TrimFacts(line);
    var t := TrimSpace(line);
    forall k | 0 <= k < |line| ensures IsSpace(line[k]) <==> line[k] in WHITE { WhiteIs(line[k]); }
    hide IsSpace, WHITE, TrimSpace;
    if Fence(line) {
      assert t[..3] == "```" && line[i..i + 3] == t[..3];
      assert White(line[..i]);
    }
    if Ticks(line) {
      var j :| 0 <= j && j + 3 <= |line| && White(line[..j]) && line[j..j + 3] == "```";
      TickAt(line, j);
      SameStart(line, i, j, t);
    }
  }

  lemma TickAt(line: string, j: nat)
    requires j + 3 <= |line| && line[j..j + 3] == "```"
    ensures forall k | j <= k < j + 3 :: line[k] == '`' && line[k] !in WHITE
  {
    var three := line[j..j + 3];
    assert forall k | j <= k < j + 3 :: line[k] == three[k - j];
  }

  /** Two ways of finding the first visible character find the same. */
  lemma SameStart(line: string, i: nat, j: nat, t: string)
    requires i + |t| <= |line| && t == line[i..i + |t|] && Trimmed(t)
    requires forall k | 0 <= k < |line| :: IsSpace(line[k]) <==> line[k] in WHITE
    requires forall k | 0 <= k < i :: IsSpace(line[k])
    requires forall k | i + |t| <= k < |line| :: IsSpace(line[k])
    requires j + 3 <= |line| && line[j..j + 3] == "```" && White(line[..j])
    requires forall k | j <= k < j + 3 :: line[k] == '`' && line[k] !in WHITE
    ensures HasPrefix(t, "```")
  {
    hide IsSpace, WHITE;
    assert forall k | 0 <= k < j :: line[..j][k] == line[k];
    assert line[j] !in WHITE && !IsSpace(line[j]);
    assert i <= j < i + |t|;
    assert t[0] == line[i] && !IsSpace(line[i]);
    assert j <= i;
    assert !IsSpace(line[i + 1]) && !IsSpace(line[i + 2]);
    assert |t| >= 3;
    assert t[..3] == line[i..i + 3];
  }

  /** A heading line is hashes, a space and a title; the title is what is left without the
      white space around it. No other line is a heading. */
  lemma HeadingMeans(line: string)
    ensures Heading(line).Some? <==> HeadingLine(line)
    ensures forall n: nat, left, title, right
      | 1 <= n <= 6 && White(left) && White(right) && (title == "" || Visible(title))
        && line == Hashed(n) + " " + left + title + right ::
      Heading(line) == Some(Section(n, title, ""))
  {
    hide *;
    HeadingIs(line);
    forall n: nat, left, title, right
      | 1 <= n <= 6 && White(left) && White(right) && (title == "" || Visible(title))
        && line == Hashed(n) + " " + left + title + right
      ensures Heading(line) == Some(Section(n, title, ""))
    {
      TitleReads(n, left, title, right);
    }
  }

  lemma TitleReads(n: nat, left: string, title: string, right: string)
    requires 1 <= n <= 6 && White(left) && White(right) && (title == "" || Visible(title))
    ensures Heading(Hashed(n) + " " + left + title + right) == Some(Section(n, title, ""))
  {
    var rest := " " + left + title + right;
    var line := Hashed(n) + " " + left + title + right;
    assert line == Hashed(n) + rest;
    HashRun(n, rest);
    Stripped(left, title, right);
    hide White, Visible, TrimSpace, Hashes;
    assert line[n] == ' ' && line[n + 1..] == left + title + right;
  }

  function Hashed(n: nat): string { seq(n, _ => '#') }

  lemma HeadingIs(line: string)
    ensures Heading(line).Some? <==> HeadingLine(line)
  {
    hide TrimSpace;
    var n := Hashes(line);
    if Heading(line).Some? { assert HeadedBy(line, n); }
    if HeadingLine(line) {
      var k :| 1 <= k <= 6 && HeadedBy(line, k);
      OneCount(line, n, k);
    }
  }

  lemma OneCount(line: string, n: nat, k: nat)
    requires n <= |line| && (forall i | 0 <= i < n :: line[i] == '#') && (n < |line| ==> line[n] != '#')
    requires HeadedBy(line, k)
    ensures n == k
  {}

  // ---------------------------------------------------------------- the outline of a body

  /** How many of the first `i` lines are fences. */
  function FencesBefore(lines: seq<string>, i: nat): nat
    requires i <= |lines|
  {
    if i == 0 then 0 else FencesBefore(lines, i - 1) + if Ticks(lines[i - 1]) then 1 else 0
  }

  /** A section starts at a heading line with no fence open. */
  predicate StartsSection(lines: seq<string>, i: nat)
    requires i < |lines|
  {
    HeadingLine(lines[i]) && FencesBefore(lines, i) % 2 == 0
  }

  /** The first start of a section at or after `i`, or the end. */
  function NextStart(lines: seq<string>, i: nat): (j: nat)
    requires i <= |lines|
    ensures i <= j <= |lines| && (j < |lines| ==> StartsSection(lines, j))
    ensures forall k | i <= k < j :: !StartsSection(lines, k)
    decreases |lines| - i
  {
    if i == |lines| || StartsSection(lines, i) then i else NextStart(lines, i + 1)
  }

  /** The sections from the one that starts at `i`: each holds the lines up to the next. */
  function Outline(lines: seq<string>, i: nat): seq<Section>
    requires i <= |lines| && (i < |lines| ==> StartsSection(lines, i))
    decreases |lines| - i
  {
    if i == |lines| then []
    else
      HeadingIs(lines[i]);
      var j := NextStart(lines, i + 1);
      [Heading(lines[i]).value.(content := Terminated(lines[i + 1..j]))] + Outline(lines, j)
  }

  /** The text before the first heading is a section unless it is white space. */
  function Preamble(lines: seq<string>): seq<Section> {
    if White(Terminated(lines)) then [] else [Section(0, "", Terminated(lines))]
  }

  lemma FlushMeans(cur: Section, buf: seq<string>)
    ensures cur.level > 0 ==> Flush(cur, buf) == [cur.(content := Terminated(buf))]
    ensures Flush(START, buf) == Preamble(buf)
  {
    BlankIsWhite(Terminated(buf));
    hide Blank, White;
  }

  predicate FenceOpen(lines: seq<string>, i: nat)
    requires i <= |lines|
  {
    FencesBefore(lines, i) % 2 == 1
  }

  /** Line `i` in the middle of parsing, with the fence that the lines before it leave. */
  lemma LineParsed(lines: seq<string>, i: nat, cur: Section, buf: seq<string>)
    requires i < |lines|
    ensures var fence, next := FenceOpen(lines, i), FenceOpen(lines, i + 1);
      ParseLines(lines[i..], cur, buf, fence) ==
        if StartsSection(lines, i) && Heading(lines[i]).Some?
        then Flush(cur, buf) + ParseLines(lines[i + 1..], Heading(lines[i]).value, [], next)
        else ParseLines(lines[i + 1..], cur, buf + [lines[i]], next)
  {
    hide *;
    var rest := lines[i..];
    assert rest[0] == lines[i] && rest[1..] == lines[i + 1..];
    ParseStep(rest, cur, buf, FenceOpen(lines, i));
    FenceMeans(lines[i]);
    HeadingIs(lines[i]);
    FenceStep(lines, i);
    if Heading(lines[i]).Some? { HeadingFence(lines[i]); }
  }

  lemma FenceStep(lines: seq<string>, i: nat)
    requires i < |lines|
    ensures FenceOpen(lines, i + 1) <==> FenceOpen(lines, i) != Ticks(lines[i])
    ensures StartsSection(lines, i) <==> HeadingLine(lines[i]) && !FenceOpen(lines, i)
  {
    hide Ticks, HeadingLine;
  }

  lemma {:induction false} ParsedFrom(lines: seq<string>, i: nat, cur: Section, buf: seq<string>)
    requires i <= |lines|
    ensures var j := NextStart(lines, i);
      ParseLines(lines[i..], cur, buf, FenceOpen(lines, i)) == Flush(cur, buf + lines[i..j]) + Outline(lines, j)
    decreases |lines| - i
  {
    hide *;
    NextStep(lines, i);
    if i == |lines| {
      ParseStep([], cur, buf, FenceOpen(lines, i));
      OutlineEnds(lines);
      assert lines[i..] == [] && buf + lines[i..i] == buf;
      assert Flush(cur, buf) + [] == Flush(cur, buf);
    } else {
      LineParsed(lines, i, cur, buf);
      var j := NextStart(lines, i + 1);
      if StartsSection(lines, i) {
        var head := OutlineStep(lines, i);
        var next := Heading(lines[i]).value;
        ParsedFrom(lines, i + 1, next, []);
        assert [] + lines[i + 1..j] == lines[i + 1..j] && buf + lines[i..i] == buf;
        FlushMeans(next, lines[i + 1..j]);
        Regroup(Flush(cur, buf), [head], Outline(lines, j));
      } else {
        ParsedFrom(lines, i + 1, cur, buf + [lines[i]]);
        assert buf + [lines[i]] + lines[i + 1..j] == buf + lines[i..j];
      }
    }
  }

  lemma Regroup(a: seq<Section>, b: seq<Section>, c: seq<Section>)
    ensures a + (b + c) == a + b + c
  {}

  lemma NextStep(lines: seq<string>, i: nat)
    requires i <= |lines|
    ensures NextStart(lines, i) == if i == |lines| || StartsSection(lines, i) then i else NextStart(lines, i + 1)
  {
    hide StartsSection;
  }

  lemma HeadingLevel(line: string)
    requires Heading(line).Some?
    ensures 1 <= Heading(line).value.level <= 6
  {
    hide TrimSpace;
  }

  /** The body has these lines, the last one with or without a line feed. */
  predicate HasLines(body: string, lines: seq<string>) {
    Lines(lines) && (body == Terminated(lines) || (lines != [] && lines[|lines| - 1] != "" && body == Join(lines)))
  }

  lemma HasLinesParses(body: string, lines: seq<string>)
    requires HasLines(body, lines)
    ensures ParseSections(body) == ParseLines(lines, START, [], false)
  {
    if body == Terminated(lines) { BodyOfLines(lines); } else { SplitJoin(lines); }
    hide Terminated, Join, BodyLines, Split, ParseLines;
    if body == "" {
      EmptyBody(lines);
      FlushMeans(START, []);
      ParseStep([], START, [], false);
    } else {
      NamedLines(body, lines);
    }
  }

  lemma NamedLines(body: string, lines: seq<string>)
    requires HasLines(body, lines)
    ensures BodyLines(body) == lines
  {
    if body == Terminated(lines) { BodyOfLines(lines); } else { SplitJoin(lines); }
    hide Terminated, Join, Split;
  }

  lemma EmptyBody(lines: seq<string>)
    requires HasLines("", lines)
    ensures lines == [] && White(Terminated([]))
  {
    assert |lines| > 1 ==> |Join(lines)| >= 1;
  }

  /** A body is cut at its headings outside fences and nowhere else: every line between two
      of them is in the content of the first. */
  lemma BodyIsOutline(body: string, lines: seq<string>)
    requires HasLines(body, lines)
    ensures var first := NextStart(lines, 0);
      ParseSections(body) == Preamble(lines[..first]) + Outline(lines, first)
  {
    hide *;
    var first := NextStart(lines, 0);
    HasLinesParses(body, lines);
    ParsedFrom(lines, 0, START, []);
    FlushMeans(START, lines[..first]);
    NoFenceYet(lines);
    assert lines[0..] == lines && [] + lines[0..first] == lines[..first];
  }

  lemma NoFenceYet(lines: seq<string>)
    ensures !FenceOpen(lines, 0)
  {}

  // ---------------------------------------------------------------- a code block

  /** A line of ticks, lines without ticks, and a line of ticks, behind lines that leave no
      fence open: no section starts inside, whatever the lines say. */
  predicate CodeBlock(lines: seq<string>, a: nat, b: nat) {
    && a < b < |lines| && FencesBefore(lines, a) % 2 == 0 && Ticks(lines[a]) && Ticks(lines[b])
    && forall i | a < i < b :: !Ticks(lines[i])
  }

  lemma {:induction false} InsideOpen(lines: seq<string>, a: nat, b: nat, i: nat)
    requires CodeBlock(lines, a, b) && a < i <= b
    ensures FencesBefore(lines, i) == FencesBefore(lines, a) + 1
    decreases i
  {
    if i == a + 1 {
    } else {
      InsideOpen(lines, a, b, i - 1);
    }
    hide Ticks;
  }

  lemma TicksNoHeading(line: string)
    requires Ticks(line)
    ensures !HeadingLine(line)
  {
    FenceMeans(line);
    HeadingIs(line);
    if Heading(line).Some? { HeadingFence(line); }
    hide Ticks, HeadingLine, Heading, Fence;
  }

  lemma BlockStartsNothing(lines: seq<string>, a: nat, b: nat)
    requires CodeBlock(lines, a, b)
    ensures forall i | a <= i <= b :: !StartsSection(lines, i)
  {
    forall i | a <= i <= b ensures !StartsSection(lines, i) {
      if i == a { TicksNoHeading(lines[a]); } else { InsideOpen(lines, a, b, i); }
    }
    hide Ticks, HeadingLine;
  }

  predicate Holds(s: Section, x: seq<string>, block: seq<string>, y: seq<string>) {
    s.content == Terminated(x + block + y)
  }

  /** The lines are in the content of one of the sections. */
  ghost predicate InOne(sections: seq<Section>, block: seq<string>) {
    exists k, x, y :: 0 <= k < |sections| && Holds(sections[k], x, block, y)
  }

  lemma InRest(head: Section, rest: seq<Section>, block: seq<string>)
    requires InOne(rest, block)
    ensures InOne([head] + rest, block)
  {
    hide Holds;
    var k, x, y :| 0 <= k < |rest| && Holds(rest[k], x, block, y);
    assert Holds(([head] + rest)[k + 1], x, block, y);
  }

  lemma InFirst(s: Section, rest: seq<Section>, lines: seq<string>, i: nat, a: nat, b: nat, j: nat)
    requires i <= a < b < j <= |lines| && s.content == Terminated(lines[i..j])
    ensures InOne([s] + rest, lines[a..b + 1])
  {
    hide Terminated;
    assert lines[i..j] == lines[i..a] + lines[a..b + 1] + lines[b + 1..j];
    assert Holds(([s] + rest)[0], lines[i..a], lines[a..b + 1], lines[b + 1..j]);
  }

  lemma OutlineStep(lines: seq<string>, i: nat) returns (head: Section)
    requires i < |lines| && StartsSection(lines, i)
    ensures var j := NextStart(lines, i + 1);
      && Heading(lines[i]).Some? && Heading(lines[i]).value.level > 0
      && head == Heading(lines[i]).value.(content := Terminated(lines[i + 1..j]))
      && Outline(lines, i) == [head] + Outline(lines, j)
  {
    HeadingIs(lines[i]);
    HeadingLevel(lines[i]);
    hide Heading, HeadingLine, FencesBefore, Terminated, NextStart;
    head := Heading(lines[i]).value.(content := Terminated(lines[i + 1..NextStart(lines, i + 1)]));
  }

  lemma {:induction false} InOutline(lines: seq<string>, i: nat, a: nat, b: nat)
    requires i < |lines| && StartsSection(lines, i) && CodeBlock(lines, a, b) && i < a
    ensures InOne(Outline(lines, i), lines[a..b + 1])
    decreases |lines| - i
  {
    BlockStartsNothing(lines, a, b);
    BlockOrder(lines, a, b);
    hide *;
    var head := OutlineStep(lines, i);
    var j := NextStart(lines, i + 1);
    if j < a {
      InOutline(lines, j, a, b);
      InRest(head, Outline(lines, j), lines[a..b + 1]);
    } else {
      InFirst(head, Outline(lines, j), lines, i + 1, a, b, j);
    }
  }

  lemma BlockOrder(lines: seq<string>, a: nat, b: nat)
    requires CodeBlock(lines, a, b)
    ensures a < b < |lines| && Ticks(lines[a])
  {
    hide Ticks;
  }

  lemma TicksVisible(lines: seq<string>, a: nat)
    requires a < |lines| && Ticks(lines[a])
    ensures !White(Terminated(lines))
  {
    var line := lines[a];
    var i :| 0 <= i && i + 3 <= |line| && White(line[..i]) && line[i..i + 3] == "```";
    assert line[i] == line[i..i + 3][0] == '`';
    assert line[i] in line && line[i] !in WHITE;
    BlankIsWhite(line);
    BlankLines(lines);
    BlankIsWhite(Terminated(lines));
  }

  /** A code block is in the content of one section, whole and as it is written, whatever
      comes before it and after it. */
  lemma CodeInOneSection(body: string, lines: seq<string>, a: nat, b: nat)
    requires HasLines(body, lines) && CodeBlock(lines, a, b)
    ensures InOne(ParseSections(body), lines[a..b + 1])
  {
    BlockStartsNothing(lines, a, b);
    BlockOrder(lines, a, b);
    hide *;
    BodyIsOutline(body, lines);
    var first := NextStart(lines, 0);
    if first < a {
      InOutline(lines, first, a, b);
      if Preamble(lines[..first]) != [] {
        PreambleIs(lines[..first]);
        InRest(Preamble(lines[..first])[0], Outline(lines, first), lines[a..b + 1]);
        assert Preamble(lines[..first]) == [Preamble(lines[..first])[0]];
      } else {
        assert [] + Outline(lines, first) == Outline(lines, first);
      }
    } else {
      assert lines[..first][a] == lines[a];
      TicksVisible(lines[..first], a);
      PreambleIs(lines[..first]);
      assert lines[..first] == lines[0..first];
      InFirst(Section(0, "", Terminated(lines[..first])), Outline(lines, first), lines, 0, a, b, first);
    }
  }

  lemma PreambleIs(lines: seq<string>)
    ensures Preamble(lines) == if White(Terminated(lines)) then [] else [Section(0, "", Terminated(lines))]
  {}

  /** A body that is one code block is one section, with everything in it. */
  lemma OnlyCode(body: string, lines: seq<string>)
    requires HasLines(body, lines) && |lines| >= 2 && CodeBlock(lines, 0, |lines| - 1)
    ensures ParseSections(body) == [Section(0, "", Terminated(lines))]
  {
    NothingStarts(lines);
    BlockOrder(lines, 0, |lines| - 1);
    TicksVisible(lines, 0);
    NoSection(body, lines);
  }

  /** A visible body without headings outside fences is one section. */
  lemma NoSection(body: string, lines: seq<string>)
    requires HasLines(body, lines) && NextStart(lines, 0) == |lines| && !White(Terminated(lines))
    ensures ParseSections(body) == [Section(0, "", Terminated(lines))]
  {
    hide *;
    BodyIsOutline(body, lines);
    OutlineEnds(lines);
    PreambleIs(lines);
    assert lines[..|lines|] == lines;
    assert Preamble(lines) + [] == Preamble(lines);
  }

  lemma NothingStarts(lines: seq<string>)
    requires |lines| >= 2 && CodeBlock(lines, 0, |lines| - 1)
    ensures NextStart(lines, 0) == |lines|
  {
    BlockStartsNothing(lines, 0, |lines| - 1);
    hide StartsSection, CodeBlock;
  }

  lemma OutlineEnds(lines: seq<string>)
    ensures Outline(lines, |lines|) == []
  {}
}
