/** What a file and its frontmatter read as, line by line and in characters (Parse and
    parseFront in internal/mdstore/mdstore.go). */
module MarkdownHead {
  import opened Wrappers
  import opened MarkdownText
  import opened MarkdownFront
  import opened MarkdownSections
  import opened MarkdownDoc
  import opened MarkdownOutline
  import opened MarkdownCodec

  // ---------------------------------------------------------------- one line

  /** The line is white space or its first visible character is a hash. */
  ghost predicate Remark(line: string) {
    White(line) || exists i :: 0 <= i < |line| && White(line[..i]) && line[i] == '#'
  }

  predicate Margin(line: string) { line != "" && line[0] != ' ' && line[0] != '\t' }

  lemma RemarkIs(line: string)
    ensures Comment(line) <==> Remark(line)
  {
    BlankIsWhite(line);
    var i := TrimFacts(line);
    var t := TrimSpace(line);
    forall k | 0 <= k < |line| ensures IsSpace(line[k]) <==> line[k] in WHITE { WhiteIs(line[k]); }
    WhiteIs('#');
    hide TrimSpace, WHITE, IsSpace;
    if !White(line) {
      if HasPrefix(t, "#") {
        assert t[0] == "#"[0] && line[i] == t[0];
        assert White(line[..i]);
      }
      if j :| 0 <= j < |line| && White(line[..j]) && line[j] == '#' {
        FirstAt(line, i, j, t);
        PrefixChar(t, '#');
      }
    }
  }

  lemma FirstAt(line: string, i: nat, j: nat, t: string)
    requires i + |t| <= |line| && t == line[i..i + |t|] && Trimmed(t)
    requires forall k | 0 <= k < |line| :: IsSpace(line[k]) <==> line[k] in WHITE
    requires forall k | 0 <= k < i :: IsSpace(line[k])
    requires forall k | i + |t| <= k < |line| :: IsSpace(line[k])
    requires j < |line| && White(line[..j]) && !IsSpace(line[j])
    ensures i == j && t != "" && t[0] == line[j]
  {
    hide IsSpace, WHITE;
    assert forall k | 0 <= k < j :: line[..j][k] == line[k];
    assert i <= j < i + |t|;
    assert t[0] == line[i] && !IsSpace(line[i]);
  }

  lemma IndentedIs(line: string)
    requires line != ""
    ensures Indented(line) <==> !Margin(line)
  {
    assert line[..1] == [line[0]];
  }

  // ---------------------------------------------------------------- blocks

  /** A value after which indented lines are a block: nothing, a block mark or a remark. */
  predicate OpensBlock(value: string) { value in ["", "|", "|-", ">", ">-"] || (value != "" && value[0] == '#') }

  lemma OpensIs(value: string)
    ensures Opens(value) <==> OpensBlock(value)
  {
    var marks := ["", "|", "|-", ">", ">-"];
    assert marks[0] in marks && marks[1] in marks && marks[2] in marks && marks[3] in marks && marks[4] in marks;
    assert value != "" ==> value[..1] == [value[0]];
  }

  /** The block is the first `n` lines: indented and white lines, not ending in white ones
      unless nothing follows, and what follows is, behind white lines, a line at the
      margin. */
  ghost predicate BlockEnds(lines: seq<string>, n: nat) {
    && n <= |lines| && (forall i | 0 <= i < n :: White(lines[i]) || !Margin(lines[i]))
    && (n < |lines| ==>
          && (n > 0 ==> !White(lines[n - 1]))
          && exists j :: n <= j < |lines| && MarginAt(lines, n, j))
  }

  /** Line `j` is visible and at the margin, and only white lines are in front of it. */
  predicate MarginAt(lines: seq<string>, n: nat, j: nat)
    requires n <= j < |lines|
  {
    !White(lines[j]) && Margin(lines[j]) && forall i | n <= i < j :: White(lines[i])
  }

  lemma LineIs(line: string)
    ensures Blank(line) <==> White(line)
    ensures !White(line) ==> (Indented(line) <==> !Margin(line))
  {
    BlankIsWhite(line);
    if line != "" { IndentedIs(line); }
  }

  lemma {:induction false} FlushIs(lines: seq<string>)
    ensures NextFlush(lines) <==> exists j :: 0 <= j < |lines| && MarginAt(lines, 0, j)
  {
    hide Blank, Indented, White, Margin;
    if lines != [] {
      LineIs(lines[0]);
      if Blank(lines[0]) {
        FlushIs(lines[1..]);
        if j :| 0 <= j < |lines[1..]| && MarginAt(lines[1..], 0, j) {
          assert forall i | 0 < i <= j :: lines[i] == lines[1..][i - 1];
          assert MarginAt(lines, 0, j + 1);
        }
        if j :| 0 <= j < |lines| && MarginAt(lines, 0, j) {
          assert j > 0;
          assert forall i | 0 <= i < j - 1 :: lines[1..][i] == lines[i + 1];
          assert MarginAt(lines[1..], 0, j - 1);
        }
      } else {
        if !Indented(lines[0]) { assert MarginAt(lines, 0, 0); }
        if j :| 0 <= j < |lines| && MarginAt(lines, 0, j) { assert j == 0; }
      }
    }
  }

  /** Where the block ends is the only place where it can. */
  lemma {:induction false} BlockMeans(lines: seq<string>)
    ensures BlockEnds(lines, BlockLen(lines))
  {
    var n := BlockLen(lines);
    BlockLines(lines);
    forall i | 0 <= i < n ensures White(lines[i]) || !Margin(lines[i]) { LineIs(lines[i]); }
    if n < |lines| {
      assert lines[n..] != [];
      FlushIs(lines[n..]);
      var j :| 0 <= j < |lines[n..]| && MarginAt(lines[n..], 0, j);
      AfterAt(lines, n, j);
      if n > 0 { EndsVisible(lines); LineIs(lines[n - 1]); }
    }
    hide BlockLen, Blank, Indented, White, Margin, NextFlush;
  }

  lemma AfterAt(lines: seq<string>, n: nat, j: nat)
    requires n + j < |lines| && MarginAt(lines[n..], 0, j)
    ensures MarginAt(lines, n, n + j)
  {
    hide White, Margin;
    assert forall i | n <= i <= n + j :: lines[i] == lines[n..][i - n];
  }

  /** A block that something follows does not end in a blank line. */
  lemma {:induction false} EndsVisible(lines: seq<string>)
    requires 0 < BlockLen(lines) < |lines|
    ensures !Blank(lines[BlockLen(lines) - 1])
  {
    hide Blank, Indented;
    var n := BlockLen(lines);
    if n == 1 {
      StopsAtFlush(lines);
      BlockLines(lines[1..]);
      assert lines[1..][0..] == lines[1..];
      StopsAtFlush(lines[1..]);
    } else {
      EndsVisible(lines[1..]);
    }
  }

  /** And there is no other: the ends of a block agree. */
  lemma BlockUnique(lines: seq<string>, n: nat, m: nat)
    requires BlockEnds(lines, n) && BlockEnds(lines, m)
    ensures n == m
  {
    hide White, Margin;
  }

  // ---------------------------------------------------------------- the lines of the frontmatter

  /** A visible line that is no remark, at the margin, with a colon in it. */
  ghost predicate Assigns(line: string) { !Remark(line) && Margin(line) && ':' in line }

  lemma AssignsIs(line: string)
    ensures KeyLine(line) <==> Assigns(line)
  {
    RemarkIs(line);
    assert line == "" ==> White(line);
    if line != "" { IndentedIs(line); }
    hide Comment, Remark, Indented, Margin;
  }

  /** The name is what stands in front of the first colon, the value what stands behind it,
      both without the white space around them. */
  lemma NameAndValue(name: string, value: string, a: string, b: string, c: string)
    requires (name == "" || Visible(name)) && (value == "" || Visible(value)) && ':' !in name
    requires White(a) && White(b) && White(c)
    ensures var line := name + a + ":" + b + value + c;
      ':' in line && KeyOf(line) == name && ValueOf(line) == value
  {
    var head, tail := name + a, b + value + c;
    var line := name + a + ":" + b + value + c;
    assert line == head + ":" + tail;
    assert line[|head|] == ':';
    WhiteIs(':');
    assert ':' !in a && ':' !in head;
    IndexAt(head, ':', tail);
    assert line[..|head|] == head && line[|head| + 1..] == tail;
    assert "" + name + a == head;
    assert White("");
    hide TrimSpace, White, Visible;
    Stripped("", name, a);
    Stripped(b, value, c);
  }

  /** How the frontmatter is read from any line on: a remark is kept as it is; a name with a
      value takes the block behind it if its value opens one; any other line is an error. */
  lemma FrontReads(lines: seq<string>)
    requires lines != []
    ensures var line, rest := lines[0], lines[1..];
      && (Remark(line) ==>
            ParseEntries(lines) == Prefixed(Entry("", "", "", line), ParseEntries(rest)))
      && (!Remark(line) && !Assigns(line) ==> ParseEntries(lines) == None)
      && (Assigns(line) ==> forall n: nat | if OpensBlock(ValueOf(line)) then BlockEnds(rest, n) else n == 0 ::
            ParseEntries(lines)
                == Prefixed(Entry(KeyOf(line), ValueOf(line), Join(rest[..n]), ""), ParseEntries(rest[n..])))
  {
    hide *;
    var line, rest := lines[0], lines[1..];
    RemarkIs(line);
    AssignsIs(line);
    AssignsNoRemark(line);
    OtherSteps(lines);
    if Assigns(line) {
      OpensIs(ValueOf(line));
      BlockMeans(rest);
      BlockIs(lines);
      PrefixedIs(lines);
      forall n: nat | if OpensBlock(ValueOf(line)) then BlockEnds(rest, n) else n == 0
        ensures n <= |rest| && ParseEntries(lines)
          == Prefixed(Entry(KeyOf(line), ValueOf(line), Join(rest[..n]), ""), ParseEntries(rest[n..]))
      {
        if OpensBlock(ValueOf(line)) { BlockUnique(rest, n, BlockLen(rest)); }
        assert lines[1..1 + n] == rest[..n] && lines[1 + n..] == rest[n..];
      }
    }
  }

  lemma AssignsNoRemark(line: string)
    ensures Assigns(line) ==> !Remark(line) && ':' in line
  {
    hide Remark;
  }

  function Prefixed(e: Entry, rest: Option<seq<Entry>>): Option<seq<Entry>> {
    if rest.Some? then Some([e] + rest.value) else None
  }

  lemma OtherSteps(lines: seq<string>)
    requires lines != []
    ensures Comment(lines[0]) ==> ParseEntries(lines) == Prefixed(Entry("", "", "", lines[0]), ParseEntries(lines[1..]))
    ensures !Comment(lines[0]) && !KeyLine(lines[0]) ==> ParseEntries(lines) == None
  {
    hide Comment, KeyLine, BlockAfter, KeyOf, ValueOf, Join;
  }

  lemma BlockIs(lines: seq<string>)
    requires lines != [] && KeyLine(lines[0])
    ensures BlockAfter(lines) == if Opens(ValueOf(lines[0])) then BlockLen(lines[1..]) else 0
  {
    hide Opens, ValueOf, BlockLen, KeyLine;
  }

  lemma PrefixedIs(lines: seq<string>)
    requires lines != [] && KeyLine(lines[0])
    ensures var n := BlockAfter(lines);
      ParseEntries(lines) == Prefixed(Entry(KeyOf(lines[0]), ValueOf(lines[0]), Join(lines[1..1 + n]), ""),
                                      ParseEntries(lines[1 + n..]))
  {
    KeySteps(lines);
    hide BlockAfter, KeyOf, ValueOf, Join, ParseEntries, KeyLine;
  }

  // ---------------------------------------------------------------- the file

  lemma {:induction false} NoneWithout(s: string)
    requires NoBreak(s)
    ensures Index(s, CLOSE) == -1 && !("---\n" <= s) && !HasSuffix(s, "\n---")
  {
    var open, end := "---\n", "\n---";
    assert open[3] == '\n' && end[0] == '\n' && CLOSE[0] == '\n';
    assert |s| >= 4 ==> s[3] in s && s[|s| - 4] in s && s[|s| - 4..][0] == s[|s| - 4];
    if |s| >= |CLOSE| {
      assert s[0] in s;
      NoneWithout(s[1..]);
    }
  }

  /** Lines of which only the last may be a rule hold no closing rule with a line behind. */
  lemma {:induction false} NoClose(lines: seq<string>)
    requires lines != [] && Lines(lines) && forall i | 0 <= i < |lines| - 1 :: lines[i] != "---"
    ensures Index(Join(lines), CLOSE) == -1 && !("---\n" <= Join(lines))
    decreases |lines|
  {
    if |lines| == 1 {
      NoneWithout(lines[0]);
    } else {
      NoClose(lines[1..]);
      CloseAfterLine(lines[0], Join(lines[1..]));
      RuleLine(lines[0], Join(lines[1..]));
    }
    hide Index;
  }

  lemma {:induction false} EndsInRule(lines: seq<string>)
    requires lines != [] && Lines(lines)
    ensures HasSuffix(Join(lines), "\n---") <==> |lines| > 1 && lines[|lines| - 1] == "---"
    decreases |lines|
  {
    if |lines| == 1 {
      NoneWithout(lines[0]);
    } else {
      var text, rest := Join(lines), Join(lines[1..]);
      assert text == lines[0] + "\n" + rest;
      EndsInRule(lines[1..]);
      if |lines| == 2 {
        assert rest == lines[1];
        SuffixLine(lines[0], rest);
      } else {
        assert |rest| >= 1;
        SuffixRest(lines[0] + "\n", rest, lines);
      }
    }
  }

  lemma SuffixLine(head: string, line: string)
    requires NoBreak(line)
    ensures HasSuffix(head + "\n" + line, "\n---") <==> line == "---"
  {
    var text := head + "\n" + line;
    if |line| == 3 {
      assert text[|text| - 4..] == "\n" + line;
      assert "\n---" == "\n" + "---" && ("\n" + line)[1..] == line && ("\n" + "---")[1..] == "---";
    } else if |text| >= 4 {
      BreakPlace(head, line, text[|text| - 4..]);
    }
  }

  /** The line feed in front of a line is the last one. */
  lemma BreakPlace(head: string, line: string, last: string)
    requires NoBreak(line) && |line| != 3 && |last| == 4
    requires var text := head + "\n" + line; |text| >= 4 && last == text[|text| - 4..]
    ensures last != "\n---"
  {
    var text, end := head + "\n" + line, "\n---";
    assert end[0] == '\n' && end[1] == '-' && end[2] == '-' && end[3] == '-';
    if |line| > 3 {
      var k := |line| - 4;
      assert last[0] == text[|head| + 1 + k] == line[k] && line[k] in line;
    } else {
      assert last[3 - |line|] == text[|head|] == '\n';
    }
  }

  lemma {:induction false} JoinBreaks(lines: seq<string>)
    requires |lines| > 1
    ensures '\n' in Join(lines)
  {
    assert Join(lines)[|lines[0]|] == '\n';
  }

  lemma SuffixRest(head: string, rest: string, lines: seq<string>)
    requires |lines| > 2 && rest == Join(lines[1..])
    ensures HasSuffix(head + rest, "\n---") <==> HasSuffix(rest, "\n---")
  {
    JoinBreaks(lines[1..]);
    hide Join;
    SuffixOf(head, rest);
  }

  lemma SuffixOf(head: string, rest: string)
    requires '\n' in rest
    ensures HasSuffix(head + rest, "\n---") <==> HasSuffix(rest, "\n---")
  {
    var text, end := head + rest, "\n---";
    if |rest| >= 4 {
      assert text[|text| - 4..] == rest[|rest| - 4..];
    } else if |text| >= 4 {
      var i :| 0 <= i < |rest| && rest[i] == '\n';
      var last := text[|text| - 4..];
      assert last[4 - |rest| + i] == '\n' && 4 - |rest| + i > 0;
      assert end[1] == '-' && end[2] == '-' && end[3] == '-';
    }
  }

  lemma {:induction false} JoinSplit(a: seq<string>, b: seq<string>)
    requires b != []
    ensures Join(a + b) == Terminated(a) + Join(b)
  {
    if a == [] {
      assert a + b == b;
    } else {
      JoinSplit(a[1..], b);
      assert (a + b)[1..] == a[1..] + b;
      assert a[0] + "\n" + (Terminated(a[1..]) + Join(b)) == a[0] + "\n" + Terminated(a[1..]) + Join(b);
    }
  }

  /** The lines of a file are what is between its line feeds, so the last one may be empty.
      A file whose first line is not a rule, or is the only one, has no frontmatter. */
  lemma NoFrontReads(lines: seq<string>)
    requires lines != [] && Lines(lines) && (lines[0] != "---" || |lines| == 1)
    ensures ParseText(Join(lines)) == Some(Doc([], ParseSections(Join(lines))))
  {
    if |lines| == 1 {
      NoneWithout(lines[0]);
    } else {
      RuleLine(lines[0], Join(lines[1..]));
    }
    hide ParseSections, Cut;
  }

  /** A file that opens with a rule and has no other is an error. */
  lemma UnclosedReads(lines: seq<string>)
    requires |lines| > 1 && Lines(lines) && lines[0] == "---" && forall i | 1 <= i < |lines| :: lines[i] != "---"
    ensures ParseText(Join(lines)) == None
  {
    var rest := lines[1..];
    RuleLine(lines[0], Join(rest));
    NoClose(rest);
    EndsInRule(rest);
    hide ParseSections, Index, Join, ParseEntries;
    assert Join(lines)[4..] == Join(rest) by { RuleText(lines); }
    assert Join(rest) != "---" by { WholeRule(rest); }
  }

  lemma RuleText(lines: seq<string>)
    requires |lines| > 1 && lines[0] == "---"
    ensures Join(lines) == "---\n" + Join(lines[1..]) && Join(lines)[4..] == Join(lines[1..])
  {
    var rest := Join(lines[1..]);
    assert Join(lines) == "---" + "\n" + rest;
    hide Join;
    assert "---" + "\n" + rest == "---\n" + rest;
  }

  lemma WholeRule(lines: seq<string>)
    requires lines != [] && Lines(lines)
    ensures Join(lines) == "---" <==> lines == ["---"]
  {
    if |lines| > 1 { JoinBreaks(lines); assert '\n' !in "---"; }
  }

  /** Otherwise the second rule closes the frontmatter: the lines between the two are its
      lines, and what follows the second is the body. */
  lemma FrontAndBody(front: seq<string>, body: seq<string>)
    requires Lines(front) && Lines(body) && forall i | 0 <= i < |front| :: front[i] != "---"
    ensures ParseText(Join(["---"] + front + ["---"] + body)) ==
      var entries := ParseEntries(if front == [] then [""] else front);
      if entries.None? then None
      else Some(Doc(entries.value, ParseSections(if body == [] then "" else Join(body))))
  {
    hide *;
    var lines, rest := ["---"] + front + ["---"] + body, front + ["---"] + body;
    assert lines[1..] == rest && lines[0] == "---" && |lines| > 1;
    RuleText(lines);
    TextParts(Join(lines), Join(rest));
    if front == [] {
      SplitNothing();
      if body == [] {
        assert rest == ["---"];
        JoinOne("---");
      } else {
        assert rest == ["---"] + body && (["---"] + body)[1..] == body;
        RuleText(rest);
      }
      CutEmpty(if body == [] then "" else Join(body), Join(rest), body == []);
    } else {
      SplitJoin(front);
      if body == [] {
        assert rest == front + ["---"];
        LastRule(front);
      } else {
        assert front + ["---"] + body == front + (["---"] + body);
        JoinSplit(front, ["---"] + body);
        assert (["---"] + body)[1..] == body;
        RuleText(["---"] + body);
        assert Terminated(front) + ("---\n" + Join(body)) == Terminated(front) + "---\n" + Join(body);
        NoRuleIs(front);
        CutPrinted(front, Join(body));
      }
    }
  }

  lemma NoRuleIs(front: seq<string>)
    requires forall i | 0 <= i < |front| :: front[i] != "---"
    ensures NoRule(front)
  {}

  lemma JoinOne(line: string)
    ensures Join([line]) == line
  {}

  lemma SplitNothing()
    ensures Split("") == [""]
  {}

  lemma TextParts(text: string, rest: string)
    requires text == "---\n" + rest
    ensures ParseText(text) ==
      if Cut(rest).None? then None
      else
        var front := ParseEntries(Split(Cut(rest).value.front));
        if front.None? then None else Some(Doc(front.value, ParseSections(Cut(rest).value.body)))
  {
    assert text[4..] == rest && text[..4] == "---\n";
    hide Cut, ParseEntries, Split, ParseSections;
  }

  lemma CutEmpty(body: string, rest: string, last: bool)
    requires if last then rest == "---" && body == "" else rest == "---\n" + body
    ensures Cut(rest) == Some(Halves("", body))
  {
    if !last { assert rest[..4] == "---\n" && rest[4..] == body; }
  }

  /** The closing rule may be the last line, without a line feed. */
  lemma LastRule(front: seq<string>)
    requires front != [] && Lines(front) && forall i | 0 <= i < |front| :: front[i] != "---"
    ensures Cut(Join(front + ["---"])) == Some(Halves(Join(front), ""))
  {
    hide *;
    var all := front + ["---"];
    WithRule(front);
    NoClose(all);
    EndsInRule(all);
    WholeRule(all);
    JoinSplit(front, ["---"]);
    TerminatedIsJoin(front);
    JoinOne("---");
    assert Join(front) + "\n" + "---" == Join(front) + "\n---";
    CutAtEnd(Join(front), Join(all));
  }

  lemma WithRule(front: seq<string>)
    requires Lines(front) && front != []
    ensures var all := front + ["---"]; Lines(all) && all != ["---"] && all[|front|] == "---" && all[..|front|] == front
  {
    var all := front + ["---"];
    assert |all| > 1;
    forall i | 0 <= i < |all| ensures NoBreak(all[i]) { if i < |front| { assert all[i] == front[i]; } }
  }

  lemma CutAtEnd(head: string, rest: string)
    requires rest == head + "\n---" && Index(rest, CLOSE) == -1 && !("---\n" <= rest) && rest != "---"
    ensures Cut(rest) == Some(Halves(head, ""))
  {
    hide Index;
    assert rest[|rest| - 4..] == "\n---" && rest[..|rest| - 4] == head;
  }

  // ---------------------------------------------------------------- entries

  /** The first entry under the key. */
  predicate FirstUnder(es: seq<Entry>, k: string, i: nat) {
    i < |es| && es[i].key == k && forall j | 0 <= j < i :: es[j].key != k
  }

  predicate NoneUnder(es: seq<Entry>, k: string) { forall i | 0 <= i < |es| :: es[i].key != k }

  lemma UnderRest(es: seq<Entry>, k: string, i: nat)
    requires es != [] && es[0].key != k
    ensures FirstUnder(es, k, i) ==> 0 < i < |es| && FirstUnder(es[1..], k, i - 1)
    ensures NoneUnder(es, k) ==> NoneUnder(es[1..], k)
  {}

  /** Set changes the first entry under the key, in its place, and loses its block; without
      one it adds an entry behind all others. No other entry changes. */
  lemma {:induction false} SetInPlace(es: seq<Entry>, k: string, v: string, i: nat)
    ensures FirstUnder(es, k, i) ==> Set(es, k, v) == es[i := Entry(k, QuoteScalar(v), "", "")]
    ensures NoneUnder(es, k) ==> Set(es, k, v) == es + [Entry(k, QuoteScalar(v), "", "")]
    decreases |es|
  {
    hide QuoteScalar;
    if es != [] {
      assert es == [es[0]] + es[1..];
      if es[0].key != k {
        UnderRest(es, k, i);
        hide FirstUnder, NoneUnder;
        SetInPlace(es[1..], k, v, if i > 0 then i - 1 else 0);
      }
    }
  }

  /** Delete takes out the first entry under the key and nothing else. */
  lemma {:induction false} DeleteInPlace(es: seq<Entry>, k: string, i: nat)
    ensures FirstUnder(es, k, i) ==> Delete(es, k) == es[..i] + es[i + 1..]
    ensures NoneUnder(es, k) ==> Delete(es, k) == es
    decreases |es|
  {
    if es != [] {
      assert es == [es[0]] + es[1..];
      if es[0].key != k {
        UnderRest(es, k, i);
        hide FirstUnder, NoneUnder;
        DeleteInPlace(es[1..], k, if i > 0 then i - 1 else 0);
      }
    }
  }

  predicate Scalar(e: Entry, k: string) { e.key == k && e.block == "" }

  /** Get reads the first entry under the key that has no block, and says so if there is none. */
  lemma {:induction false} GetFirst(es: seq<Entry>, k: string, i: nat)
    ensures i < |es| && Scalar(es[i], k) && (forall j | 0 <= j < i :: !Scalar(es[j], k)) ==>
      Get(es, k) == Some(MarkdownCodec.Clean(es[i].value))
    ensures (forall j | 0 <= j < |es| :: !Scalar(es[j], k)) ==> Get(es, k) == None
    decreases |es|
  {
    if es != [] {
      GetFirst(es[1..], k, if i > 0 then i - 1 else 0);
      assert forall j | 0 < j < |es| :: es[j] == es[1..][j - 1];
    }
    hide MarkdownCodec.Clean;
  }

  // ---------------------------------------------------------------- what is written

  /** How an entry is written: a remark as it is; a name and its value with a colon and a
      blank; with a block, the name, the value if there is one, and the lines of the block. */
  lemma EntryWritten(raw: string, key: string, value: string, block: string)
    requires key != ""
    ensures EntryLines(Entry("", "", "", raw)) == [raw]
    ensures EntryLines(Entry(key, value, "", "")) == [key + ": " + value]
    ensures block != "" && value != ""
        ==> EntryLines(Entry(key, value, block, "")) == [key + ": " + value] + Split(block)
    ensures block != "" ==> EntryLines(Entry(key, "", block, "")) == [key + ":"] + Split(block)
  {
    assert key + ":" + (" " + value) == key + ": " + value;
    assert key + ":" + "" == key + ":";
  }

  /** How a section is written: a heading line unless it has no level, its content, and a
      line feed if the content does not end in one. */
  lemma SectionWritten(n: nat, title: string, content: string)
    ensures n > 0 ==> SectionText(Section(n, title, "")) == Hashed(n) + " " + title + "\n"
    ensures n > 0 ==>
      var head := Hashed(n) + " " + title + "\n";
      SectionText(Section(n, title, content)) == head + SectionText(Section(0, title, content))
    ensures SectionText(Section(0, title, "")) == ""
    ensures SectionText(Section(0, title, content + "\n")) == content + "\n"
    ensures content != "" && content[|content| - 1] != '\n' ==>
      SectionText(Section(0, title, content)) == content + "\n"
  {
    var whole := content + "\n";
    assert whole[|whole| - 1..] == "\n";
    assert content != "" && content[|content| - 1] != '\n' ==> content[|content| - 1..][0] != "\n"[0];
    assert "" + "" + "" == "";
    assert Hashed(n) == seq(n, _ => '#');
  }

  predicate Feeds(s: string) { forall c | c in s :: c == '\n' }

  /** The text before the first heading starts, behind line feeds, with three dashes:
      section `n` is the first that is not line feeds only. */
  ghost predicate RuleIn(sections: seq<Section>, n: nat) {
    && n < |sections| && (forall i | 0 <= i <= n :: sections[i].level == 0)
    && (forall i | 0 <= i < n :: Feeds(sections[i].content))
    && exists k :: DashesAt(sections[n].content, k)
  }

  /** Three dashes behind line feeds only. */
  predicate DashesAt(s: string, k: int) {
    0 <= k && k + 3 <= |s| && (forall i | 0 <= i < k :: s[i] == '\n') && s[k..k + 3] == "---"
  }

  lemma {:induction false} FeedsTrimmed(s: string)
    ensures TrimNewlines(s) == "" <==> Feeds(s)
    ensures HasPrefix(TrimNewlines(s), "---") <==> exists k :: DashesAt(s, k)
  {
    if s != "" && s[0] == '\n' {
      FeedsTrimmed(s[1..]);
      assert forall c :: c in s <==> c == s[0] || c in s[1..];
      DashesShift(s);
      hide DashesAt;
    } else {
      if s != "" { assert s[0] in s; }
      if HasPrefix(s, "---") { assert s[0..3] == "---" && DashesAt(s, 0); }
      if k :| DashesAt(s, k) { DashesFirst(s, k); }
    }
  }

  lemma DashesShift(s: string)
    requires s != "" && s[0] == '\n'
    ensures (exists k :: DashesAt(s, k)) <==> exists k :: DashesAt(s[1..], k)
  {
    var t := s[1..];
    if k :| DashesAt(s, k) {
      assert s[k] == s[k..k + 3][0];
      assert k > 0 && t[k - 1..k + 2] == s[k..k + 3];
      assert DashesAt(t, k - 1);
    }
    if k :| DashesAt(t, k) {
      assert s[k + 1..k + 4] == t[k..k + 3];
      assert DashesAt(s, k + 1);
    }
  }

  lemma DashesFirst(s: string, k: int)
    requires DashesAt(s, k) && s[0] != '\n'
    ensures HasPrefix(s, "---")
  {
    assert k == 0;
    assert s[0..3] == s[..3];
  }

  /** When a file without frontmatter is written with an empty one in front: exactly when
      its body would otherwise open with a rule. */
  lemma {:induction false} RuleMeans(sections: seq<Section>)
    ensures OpensWithRule(sections) <==> exists n :: RuleIn(sections, n)
    decreases |sections|
  {
    hide Feeds, DashesAt;
    if sections != [] {
      FeedsTrimmed(sections[0].content);
      hide TrimNewlines;
      var rest := sections[1..];
      RuleMeans(rest);
      if n: nat :| RuleIn(sections, n) {
        if n > 0 { RuleLater(sections, n); }
      }
      if sections[0].level == 0 && Feeds(sections[0].content) && exists n :: RuleIn(rest, n) {
        var n: nat :| RuleIn(rest, n);
        RuleEarlier(sections, n);
      }
      if OpensWithRule(sections) && !Feeds(sections[0].content) { assert RuleIn(sections, 0); }
    }
  }

  lemma RuleLater(sections: seq<Section>, n: nat)
    requires RuleIn(sections, n) && n > 0
    ensures RuleIn(sections[1..], n - 1) && sections[0].level == 0 && Feeds(sections[0].content)
  {
    hide Feeds;
    assert forall i | 0 <= i < |sections[1..]| :: sections[1..][i] == sections[i + 1];
  }

  lemma RuleEarlier(sections: seq<Section>, n: nat)
    requires sections != [] && RuleIn(sections[1..], n) && sections[0].level == 0 && Feeds(sections[0].content)
    ensures RuleIn(sections, n + 1)
  {
    hide Feeds;
    assert forall i | 0 < i < |sections| :: sections[i] == sections[1..][i - 1];
  }

  /** How a document is written: the lines of its entries between two rules, unless it has
      no entries and its body opens with no rule, and then its sections. */
  lemma DocWritten(d: Doc)
    ensures d.front != [] || (exists n :: RuleIn(d.sections, n)) ==>
      Render(d) == "---\n" + Terminated(FrontLines(d.front)) + "---\n" + BodyText(d.sections)
    ensures d.front == [] && !(exists n :: RuleIn(d.sections, n)) ==> Render(d) == BodyText(d.sections)
  {
    RuleMeans(d.sections);
    hide RuleIn, FrontLines, Terminated, BodyText, OpensWithRule;
    assert "" + BodyText(d.sections) == BodyText(d.sections);
  }
}
