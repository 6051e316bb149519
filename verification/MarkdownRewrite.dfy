/** What reading and rewriting a file does to it, line by line (Parse and Render of
    internal/mdstore/mdstore.go), and exactly when reading again gives the same. */
module MarkdownRewrite {
  import opened Wrappers
  import opened MarkdownText
  import opened MarkdownFront
  import opened MarkdownSections
  import opened MarkdownDoc

  // ---------------------------------------------------------------- what a rewrite does to the file

  /** The lines of a file after a rewrite. */
  function RewrittenFile(text: string): seq<string>
    requires HasPrefix(text, "---\n") ==> Cut(text[4..]).Some?
  {
    if HasPrefix(text, "---\n") then
      var halves := Cut(text[4..]).value;
      ["---"] + RewrittenFront(Split(halves.front)) + ["---"] + RewrittenBody(BodyLines(halves.body))
    else (if OpensWithRule(ParseSections(text)) then ["---", "---"] else []) + RewrittenBody(BodyLines(text))
  }

  /** What is written for a file that was read, line by line, in terms of the file alone. */
  lemma FileRewritten(raw: string)
    requires Parse(raw).Some?
    ensures var text := Normalize(raw);
      && (HasPrefix(text, "---\n") ==> Cut(text[4..]).Some?)
      && Render(Parse(raw).value) == Terminated(RewrittenFile(text)) && Lines(RewrittenFile(text))
      && (Crlf(Render(Parse(raw).value)) <==> !NoEndCr(RewrittenFile(text)))
  {
    hide *;
    ParseIsText(raw);
    TextRewritten(Normalize(raw));
    CrlfLines(RewrittenFile(Normalize(raw)));
  }

  lemma TextRewritten(text: string)
    requires ParseText(text).Some?
    ensures HasPrefix(text, "---\n") ==> Cut(text[4..]).Some?
    ensures Render(ParseText(text).value) == Terminated(RewrittenFile(text)) && Lines(RewrittenFile(text))
  {
    hide *;
    var d := ParseText(text).value;
    TextCases(text);
    TextParsed(text);
    WellformedParts(d);
    PrintedLines(d);
    if HasPrefix(text, "---\n") {
      var halves := Cut(text[4..]).value;
      SplitLines(halves.front);
      FrontParsed(halves.front);
      FrontRewritten(Split(halves.front));
      BodyPrints(halves.body);
    } else {
      BodyPrints(text);
    }
  }

  lemma TextCases(text: string)
    requires ParseText(text).Some?
    ensures HasPrefix(text, "---\n") ==>
      && |text| >= 4 && Cut(text[4..]).Some?
      && var halves := Cut(text[4..]).value;
      && ParseEntries(Split(halves.front)).Some?
      && ParseText(text) == Some(Doc(ParseEntries(Split(halves.front)).value, ParseSections(halves.body)))
      && RewrittenFile(text)
          == ["---"] + RewrittenFront(Split(halves.front)) + ["---"] + RewrittenBody(BodyLines(halves.body))
    ensures !HasPrefix(text, "---\n") ==>
      && ParseText(text) == Some(Doc([], ParseSections(text)))
      && RewrittenFile(text)
          == (if OpensWithRule(ParseSections(text)) then ["---", "---"] else []) + RewrittenBody(BodyLines(text))
  {
    hide Cut, ParseEntries, ParseSections, Split, RewrittenFront, RewrittenBody, BodyLines, OpensWithRule;
  }

  lemma BodyPrints(body: string)
    ensures AllLines(ParseSections(body)) == RewrittenBody(BodyLines(body))
  {
    BodyUnbroken(body);
    EmptyBody(body);
    BodyRewritten(BodyLines(body));
    hide ParseSections, ParseLines, BodyLines, AllLines, RewrittenBody;
  }

  /** The lines of a printed document. */
  function DocLines(d: Doc): seq<string> {
    (if d.front != [] || OpensWithRule(d.sections) then ["---"] + FrontLines(d.front) + ["---"] else [])
        + AllLines(d.sections)
  }

  lemma PrintedLines(d: Doc)
    requires AllPrintable(d.front) && AllParsed(d.sections)
    ensures Render(d) == Terminated(DocLines(d)) && Lines(DocLines(d))
    ensures d.front != [] ==> DocLines(d) == ["---"] + FrontLines(d.front) + ["---"] + AllLines(d.sections)
    ensures d.front == []
        ==> DocLines(d) == (if OpensWithRule(d.sections) then ["---", "---"] else []) + AllLines(d.sections)
  {
    hide *;
    var front, body := FrontLines(d.front), AllLines(d.sections);
    PrintedFront(d.front);
    BodyTextLines(d.sections);
    RenderCases(d);
    DocLinesAre(d);
    RuledText(front, body);
    NoText();
    if d.front == [] && !OpensWithRule(d.sections) { assert [] + body == body; }
  }

  lemma DocLinesAre(d: Doc)
    ensures d.front != [] ==> DocLines(d) == ["---"] + FrontLines(d.front) + ["---"] + AllLines(d.sections)
    ensures d.front == [] ==>
      && FrontLines(d.front) == [] && ["---"] + FrontLines(d.front) + ["---"] == ["---", "---"]
      && DocLines(d) == (if OpensWithRule(d.sections) then ["---", "---"] else []) + AllLines(d.sections)
  {
    hide OpensWithRule, AllLines, EntryLines;
  }

  lemma RuledText(front: seq<string>, body: seq<string>)
    ensures Terminated(["---"] + front + ["---"] + body) == "---\n" + Terminated(front) + "---\n" + Terminated(body)
    ensures Terminated(["---", "---"] + body) == "---\n" + ("---\n" + Terminated(body))
    ensures Lines(front) && Lines(body) ==> Lines(["---"] + front + ["---"] + body) && Lines(["---", "---"] + body)
  {
    OneLine("---");
    TerminatedConcat(["---"], front);
    TerminatedConcat(["---"] + front, ["---"]);
    TerminatedConcat(["---"] + front + ["---"], body);
    TerminatedConcat(["---"], ["---"]);
    TerminatedConcat(["---"] + ["---"], body);
    hide Terminated;
    assert ["---"] + ["---"] == ["---", "---"];
    assert NoBreak("---");
  }

  lemma NoText()
    ensures Terminated([]) == "" && Lines([])
  {}

  // ---------------------------------------------------------------- how many carriage returns are left

  function Crs(s: string): nat { multiset(s)['\r'] }

  /** A rewrite adds no CR. */
  lemma FewerCrs(text: string)
    requires ParseText(text).Some?
    ensures Crs(Render(ParseText(text).value)) <= Crs(text)
  {
    hide *;
    TextCases(text);
    TextRewritten(text);
    if HasPrefix(text, "---\n") {
      var halves := Cut(text[4..]).value;
      CutCrs(text);
      SplitLines(halves.front);
      SplitCrs(halves.front);
      FrontCrs(Split(halves.front));
      BodyCrs(halves.body);
      RulesCrs(["---"] + RewrittenFront(Split(halves.front)) + ["---"], RewrittenBody(BodyLines(halves.body)));
      RulesCrs(["---"] + RewrittenFront(Split(halves.front)), ["---"]);
      RulesCrs(["---"], RewrittenFront(Split(halves.front)));
    } else {
      BodyCrs(text);
      RulesCrs(if OpensWithRule(ParseSections(text)) then ["---", "---"] else [], RewrittenBody(BodyLines(text)));
    }
  }

  lemma RulesCrs(a: seq<string>, b: seq<string>)
    ensures Crs(Terminated(a + b)) == Crs(Terminated(a)) + Crs(Terminated(b))
    ensures Crs(Terminated(["---"])) == 0 && Crs(Terminated(["---", "---"])) == 0 && Crs(Terminated([])) == 0
  {
    TerminatedConcat(a, b);
    OneLine("---");
    TerminatedConcat(["---"], ["---"]);
    hide Terminated;
    assert ["---"] + ["---"] == ["---", "---"];
    assert '\r' !in "---\n" && '\r' !in "---\n" + "---\n";
    assert Terminated([]) == "" by { NoLinesText(); }
  }

  lemma NoLinesText()
    ensures Terminated([]) == ""
  {}

  lemma CutCrs(text: string)
    requires HasPrefix(text, "---\n") && Cut(text[4..]).Some?
    ensures var halves := Cut(text[4..]).value; Crs(halves.front) + Crs(halves.body) <= Crs(text)
  {
    hide *;
    PrefixLength(text);
    var i, j := CutCases(text[4..]);
    SliceCrs(text[4..], i, j);
    SliceCrs(text, 0, 4);
    assert text[..0] == "";
  }

  lemma SliceCrs(s: string, i: nat, j: nat)
    requires i <= j <= |s|
    ensures Crs(s[..i]) + Crs(s[j..]) <= Crs(s)
  {
    assert s == s[..i] + s[i..j] + s[j..];
  }

  lemma SplitCrs(s: string)
    ensures Crs(Terminated(Split(s))) == Crs(s)
  {
    SplitLines(s);
    TerminatedIsJoin(Split(s));
    hide Split, Terminated, Join;
    assert '\r' !in "\n";
  }

  lemma BodyCrs(body: string)
    ensures Crs(Terminated(RewrittenBody(BodyLines(body)))) <= Crs(body)
  {
    hide *;
    var lines := BodyLines(body);
    LinesCrs(body);
    RewrittenIs(lines);
    var n := LeadingBlanks(lines);
    assert lines == lines[..n] + lines[n..];
    RulesCrs(lines[..n], lines[n..]);
    CanonCrs(lines, false);
    CanonCrs(lines[n..], false);
  }

  lemma LinesCrs(body: string)
    ensures Crs(Terminated(BodyLines(body))) == Crs(body)
  {
    var all, lines := Split(body), BodyLines(body);
    SplitCrs(body);
    if all[|all| - 1] == "" {
      assert all == lines + [""];
      RulesCrs(lines, [""]);
      OneLine("");
      assert Crs("" + "\n") == 0;
    }
    hide Split, Terminated;
  }

  lemma TrimCrs(s: string)
    ensures Crs(TrimSpace(s)) <= Crs(s)
  {
    var i := TrimFacts(s);
    var t := TrimSpace(s);
    hide TrimSpace, Trimmed;
    assert s == s[..i] + t + s[i + |t|..];
  }

  lemma {:induction false} CanonCrs(lines: seq<string>, fence: bool)
    ensures Crs(Terminated(Canon(lines, fence))) <= Crs(Terminated(lines))
  {
    hide *;
    ParseStep(lines, START, [], fence);
    if lines != [] {
      var inFence := if Fence(lines[0]) then !fence else fence;
      CanonCrs(lines[1..], inFence);
      if Heading(lines[0]).Some? { HeadingCrs(lines[0]); }
      var line := if !inFence && Heading(lines[0]).Some? then HeadText(Heading(lines[0]).value) else lines[0];
      LineCrs(line, Canon(lines[1..], inFence));
      LineCrs(lines[0], lines[1..]);
      assert lines == [lines[0]] + lines[1..];
    }
  }

  lemma LineCrs(line: string, rest: seq<string>)
    ensures Crs(Terminated([line] + rest)) == Crs(line) + Crs(Terminated(rest))
  {
    var lines := [line] + rest;
    assert lines[0] == line && lines[1..] == rest;
    assert '\r' !in "\n";
  }

  lemma HeadingCrs(line: string)
    requires Heading(line).Some?
    ensures Crs(HeadText(Heading(line).value)) <= Crs(line)
  {
    var n := Hashes(line);
    TrimCrs(line[n + 1..]);
    assert line == line[..n + 1] + line[n + 1..];
    var marks := seq(n, _ => '#');
    assert '\r' !in marks && '\r' !in " ";
    assert HeadText(Heading(line).value) == marks + " " + TrimSpace(line[n + 1..]);
    hide TrimSpace;
  }

  lemma {:induction false} FrontCrs(lines: seq<string>)
    requires Lines(lines)
    ensures Crs(Terminated(RewrittenFront(lines))) <= Crs(Terminated(lines))
    decreases |lines|
  {
    hide *;
    RewrittenCases(lines);
    if lines != [] {
      if Comment(lines[0]) || !KeyLine(lines[0]) {
        LinesSplit(lines, 1);
        FrontCrs(lines[1..]);
        LineCrs(lines[0], RewrittenFront(lines[1..]));
        LineCrs(lines[0], lines[1..]);
        assert lines == [lines[0]] + lines[1..];
      } else {
        var n := BlockAfter(lines);
        var block, rest := lines[1..1 + n], lines[1 + n..];
        LinesSplit(lines, 1 + n);
        FrontCrs(rest);
        PrintedBlockIs(block);
        KeyColon(lines[0]);
        var head := KeyText(KeyOf(lines[0]), ValueOf(lines[0]), PrintedBlock(block) != []);
        KeyCrs(lines[0], PrintedBlock(block) != []);
        LineCrs(lines[0], block + rest);
        RulesCrs(block, rest);
        LineCrs("", RewrittenFront(rest));
        LineCrs(head, PrintedBlock(block) + RewrittenFront(rest));
        RulesCrs(PrintedBlock(block), RewrittenFront(rest));
        assert lines == [lines[0]] + (block + rest);
        assert [head] + PrintedBlock(block) + RewrittenFront(rest)
            == [head] + (PrintedBlock(block) + RewrittenFront(rest));
      }
    }
  }

  lemma KeyCrs(line: string, block: bool)
    requires ':' in line
    ensures Crs(KeyText(KeyOf(line), ValueOf(line), block)) <= Crs(line) && Crs("") == 0
  {
    IndexOf(line, ':');
    var k := Index(line, ":");
    TrimCrs(line[..k]);
    TrimCrs(line[k + 1..]);
    hide TrimSpace, Index;
    assert line == line[..k] + ":" + line[k + 1..];
    assert '\r' !in ":" && '\r' !in ": ";
  }

  /** Every CRLF that normalizing finds is one CR less. */
  lemma {:induction false} NormalizeCrs(s: string)
    ensures Crs(Normalize(s)) + |s| == Crs(s) + |Normalize(s)|
    ensures Crlf(s) ==> Crs(Normalize(s)) < Crs(s)
  {
    CrsDrop(s);
    NormalizeSame(s);
    hide Crlf, Normalize;
  }

  lemma {:induction false} CrsDrop(s: string)
    ensures Crs(Normalize(s)) + |s| == Crs(s) + |Normalize(s)|
  {
    NormalizeCases(s);
    hide Crs, Normalize;
    if s != "" {
      if "\r\n" <= s {
        CrsDrop(s[2..]);
        assert s == "\r\n" + s[2..];
        CrsJoin("\r\n", s[2..]);
        CrsJoin("\n", Normalize(s[2..]));
        LineEndCrs();
      } else {
        CrsDrop(s[1..]);
        assert s == [s[0]] + s[1..];
        CrsJoin([s[0]], s[1..]);
        CrsJoin([s[0]], Normalize(s[1..]));
      }
    }
  }

  lemma CrsJoin(a: string, b: string)
    ensures Crs(a + b) == Crs(a) + Crs(b)
  {}

  lemma LineEndCrs()
    ensures Crs("\r\n") == 1 && Crs("\n") == 0 && Crs("") == 0
  {
    assert "\r\n" == "\r" + "\n";
  }

  /** A file none of whose lines, the last one included, ends in CR once its line ends are
      normalized has no such line after a rewrite either. */
  lemma CleanFile(raw: string)
    requires Parse(raw).Some? && NoEndCr(Split(Normalize(raw)))
    ensures !Crlf(Render(Parse(raw).value))
  {
    hide *;
    var text := Normalize(raw);
    ParseIsText(raw);
    TextCases(text);
    TextRewritten(text);
    CrlfLines(RewrittenFile(text));
    if HasPrefix(text, "---\n") {
      var halves := Cut(text[4..]).value;
      CutClean(text);
      SplitLines(halves.front);
      CleanFront(Split(halves.front));
      BodyClean(halves.body);
      RuleClean(RewrittenFront(Split(halves.front)), RewrittenBody(BodyLines(halves.body)));
    } else {
      BodyClean(text);
      NothingEnds();
      RuleClean([], RewrittenBody(BodyLines(text)));
    }
  }

  lemma NothingEnds()
    ensures NoEndCr([])
  {}

  lemma RuleClean(front: seq<string>, body: seq<string>)
    requires NoEndCr(front) && NoEndCr(body)
    ensures NoEndCr(["---"] + front + ["---"] + body) && NoEndCr(["---", "---"] + body) && NoEndCr([] + body)
  {
    hide NoEndCr;
    CleanParts(["---"], front);
    CleanParts(["---"] + front, ["---"]);
    CleanParts(["---"] + front + ["---"], body);
    CleanParts(["---"], ["---"]);
    CleanParts(["---"] + ["---"], body);
    assert ["---"] + ["---"] == ["---", "---"] && [] + body == body;
  }

  lemma BodyClean(body: string)
    requires NoEndCr(Split(body))
    ensures NoEndCr(RewrittenBody(BodyLines(body)))
  {
    BodyUnbroken(body);
    assert NoEndCr(BodyLines(body)) by { hide EndsCr; }
    hide BodyLines, NoEndCr, RewrittenBody;
    CleanBody(BodyLines(body));
  }

  /** No line of a text ends in CR exactly when there is no CRLF and no CR at the end. */
  lemma {:induction false} CleanText(s: string)
    ensures NoEndCr(Split(s)) <==> !Crlf(s) && !EndsCr(s)
  {
    var lines := Split(s);
    SplitLines(s);
    TerminatedIsJoin(lines);
    CrlfLines(lines);
    hide Split, Terminated, Join, NoEndCr;
    var t := s + "\n";
    assert forall i | 0 <= i < |s| :: t[i] == s[i];
    if Crlf(t) {
      var i :| 0 <= i < |t| - 1 && t[i] == '\r' && t[i + 1] == '\n';
      if i + 1 < |s| { assert s[i] == '\r' && s[i + 1] == '\n'; }
    }
    if Crlf(s) {
      var i :| 0 <= i < |s| - 1 && s[i] == '\r' && s[i + 1] == '\n';
      assert t[i] == '\r' && t[i + 1] == '\n';
    }
    if EndsCr(s) { assert t[|s| - 1] == '\r' && t[|s|] == '\n'; }
  }

  lemma CutClean(text: string)
    requires HasPrefix(text, "---\n") && Cut(text[4..]).Some? && NoEndCr(Split(text))
    ensures var halves := Cut(text[4..]).value; NoEndCr(Split(halves.front)) && NoEndCr(Split(halves.body))
  {
    hide *;
    PrefixLength(text);
    var i, j := CutCases(text[4..]);
    var halves := Cut(text[4..]).value;
    CleanText(text);
    CleanText(halves.front);
    CleanText(halves.body);
    FrontPiece(text, i);
    BodyPiece(text, j);
  }

  lemma FrontPiece(text: string, i: nat)
    requires |text| >= 4 && i <= |text| - 4 && (i == 0 || (i < |text| - 4 && text[4 + i] == '\n'))
    ensures Crlf(text[4..][..i]) ==> Crlf(text)
    ensures EndsCr(text[4..][..i]) ==> EndsCr(text) || Crlf(text)
  {
    NoLineEmpty();
    if i > 0 { Piece(text, 4, 4 + i); }
    hide *;
    assert text[4..][..i] == text[4..4 + i];
    assert i == 0 ==> text[4..][..i] == "";
  }

  lemma BodyPiece(text: string, j: nat)
    requires |text| >= 4 && j <= |text| - 4
    ensures Crlf(text[4..][j..]) ==> Crlf(text)
    ensures EndsCr(text[4..][j..]) ==> EndsCr(text) || Crlf(text)
  {
    Piece(text, 4 + j, |text|);
    hide *;
    assert text[4..][j..] == text[4 + j..|text|];
  }

  lemma PrefixLength(text: string)
    requires HasPrefix(text, "---\n")
    ensures |text| >= 4
  {}

  /** Both halves are pieces of the text, and the first ends at a line end. */
  lemma CutCases(rest: string) returns (i: nat, j: nat)
    requires Cut(rest).Some?
    ensures var halves := Cut(rest).value;
      && i <= j <= |rest| && halves.front == rest[..i] && halves.body == rest[j..]
      && (i == 0 || (i < |rest| && rest[i] == '\n'))
  {
    var end := Index(rest, CLOSE);
    IndexFinds(rest, CLOSE);
    hide Index;
    if HasPrefix(rest, "---\n") {
      i, j := 0, 4;
    } else if rest == "---" {
      i, j := 0, 3;
    } else if end >= 0 {
      assert rest[end..end + 5][0] == rest[end];
      i, j := end, end + 5;
    } else {
      i, j := |rest| - 4, |rest|;
      assert rest[i..][0] == rest[i];
    }
  }

  lemma NoLineEmpty()
    ensures !Crlf("") && !EndsCr("")
  {}

  lemma Piece(text: string, i: nat, j: nat)
    requires i <= j <= |text| && (j < |text| ==> text[j] == '\n')
    ensures Crlf(text[i..j]) ==> Crlf(text)
    ensures EndsCr(text[i..j]) ==> EndsCr(text) || Crlf(text)
  {
    var part := text[i..j];
    assert forall k | 0 <= k < |part| :: part[k] == text[i + k];
    if Crlf(part) {
      var k :| 0 <= k < |part| - 1 && part[k] == '\r' && part[k + 1] == '\n';
      assert text[i + k] == '\r' && text[i + k + 1] == '\n';
    }
    if EndsCr(part) {
      var k := j - 1;
      assert text[k] == '\r' && (k + 1 < |text| ==> text[k + 1] == '\n');
    }
  }

  lemma {:induction false} IndexFinds(s: string, sub: string)
    ensures Index(s, sub) >= 0 ==> Index(s, sub) + |sub| <= |s| && s[Index(s, sub)..Index(s, sub) + |sub|] == sub
  {
    if |s| >= |sub| && !(sub <= s) && s != "" {
      IndexFinds(s[1..], sub);
      var k := Index(s[1..], sub);
      if k >= 0 { assert s[k + 1..k + 1 + |sub|] == s[1..][k..k + |sub|]; }
    }
  }

  /** CR CR LF somewhere in the text. */
  predicate Crcrlf(s: string) { exists i :: 0 <= i < |s| - 2 && s[i] == '\r' && s[i + 1] == '\r' && s[i + 2] == '\n' }

  /** In terms of the file as it is on disk: no line ends in CR after normalizing if and
      only if there is no CR CR LF and no CR at the very end. */
  lemma CleanRaw(raw: string)
    ensures NoEndCr(Split(Normalize(raw))) <==> !Crcrlf(raw) && !EndsCr(raw)
  {
    CleanText(Normalize(raw));
    NormalizedCrlf(raw);
    NormalizedEnd(raw);
    hide Split, Normalize, NoEndCr, Crcrlf, Crlf;
  }

  lemma {:induction false} NormalizedEnd(s: string)
    ensures Normalize(s) == "" <==> s == ""
    ensures EndsCr(Normalize(s)) <==> EndsCr(s)
  {
    NormalizeCases(s);
    hide Normalize;
    if s != "" {
      var rest := if "\r\n" <= s then s[2..] else s[1..];
      NormalizedEnd(rest);
      EndOf(if "\r\n" <= s then "\n" else [s[0]], Normalize(rest));
      EndOf(s[..|s| - |rest|], rest);
      assert s == s[..|s| - |rest|] + rest;
      assert "\r\n" <= s ==> s[..|s| - |rest|] == "\r\n";
    }
  }

  lemma EndOf(head: string, tail: string)
    ensures EndsCr(head + tail) <==> if tail == "" then EndsCr(head) else EndsCr(tail)
  {
    assert tail == "" ==> head + tail == head;
  }

  lemma {:induction false} NormalizedCrlf(s: string)
    ensures Crlf(Normalize(s)) <==> Crcrlf(s)
  {
    if s == "" {
    } else if "\r\n" <= s {
      NormalizedCrlf(s[2..]);
      PairCrcrlf(s);
      HeadCrlf('\n', Normalize(s[2..]));
    } else {
      NormalizedCrlf(s[1..]);
      HeadCrlf(s[0], Normalize(s[1..]));
      FirstNormal(s[1..]);
      HeadCrcrlf(s);
      hide Crlf, Crcrlf, Normalize;
    }
  }

  lemma HeadCrlf(c: char, rest: string)
    ensures Crlf([c] + rest) <==> (c == '\r' && rest != "" && rest[0] == '\n') || Crlf(rest)
  {
    var s := [c] + rest;
    assert forall i | 0 <= i < |rest| :: s[i + 1] == rest[i];
    if Crlf(rest) {
      var i :| 0 <= i < |rest| - 1 && rest[i] == '\r' && rest[i + 1] == '\n';
      assert s[i + 1] == '\r' && s[i + 2] == '\n';
    }
    if Crlf(s) && !(c == '\r' && rest != "" && rest[0] == '\n') {
      var i :| 0 <= i < |s| - 1 && s[i] == '\r' && s[i + 1] == '\n';
      assert i > 0 && rest[i - 1] == '\r' && rest[i] == '\n';
    }
    if c == '\r' && rest != "" && rest[0] == '\n' { assert s[0] == '\r' && s[0 + 1] == '\n'; }
  }

  /** What a normalized text starts with. */
  lemma FirstNormal(s: string)
    ensures Normalize(s) != "" && Normalize(s)[0] == '\n' <==> s != "" && (s[0] == '\n' || "\r\n" <= s)
  {}

  lemma HeadCrcrlf(s: string)
    requires s != "" && !("\r\n" <= s)
    ensures Crcrlf(s) <==> (s[0] == '\r' && s[1..] != "" && (s[1] == '\n' || "\r\n" <= s[1..])) || Crcrlf(s[1..])
  {
    var rest := s[1..];
    assert forall i | 0 <= i < |rest| :: rest[i] == s[i + 1];
    assert |s| >= 2 ==> s[..2] == [s[0], s[1]];
    assert "\r\n" <= rest <==> |s| >= 3 && s[1] == '\r' && s[2] == '\n'
        by { assert |s| >= 3 ==> rest[..2] == [s[1], s[2]]; }
    if Crcrlf(rest) {
      var i :| 0 <= i < |rest| - 2 && rest[i] == '\r' && rest[i + 1] == '\r' && rest[i + 2] == '\n';
      assert s[i + 1] == '\r' && s[i + 2] == '\r' && s[i + 3] == '\n';
    }
    if Crcrlf(s) && !(s[0] == '\r' && "\r\n" <= rest) {
      var i :| 0 <= i < |s| - 2 && s[i] == '\r' && s[i + 1] == '\r' && s[i + 2] == '\n';
      assert i > 0;
      assert rest[i - 1] == '\r' && rest[i] == '\r' && rest[i + 1] == '\n';
    }
    if s[0] == '\r' && "\r\n" <= rest { assert s[0] == '\r' && s[0 + 1] == '\r' && s[0 + 2] == '\n'; }
  }

  lemma PairCrcrlf(s: string)
    requires "\r\n" <= s
    ensures Crcrlf(s) <==> Crcrlf(s[2..])
  {
    var rest := s[2..];
    assert s[0] == '\r' && s[1] == '\n' && forall i | 0 <= i < |rest| :: rest[i] == s[i + 2];
    if Crcrlf(rest) {
      var i :| 0 <= i < |rest| - 2 && rest[i] == '\r' && rest[i + 1] == '\r' && rest[i + 2] == '\n';
      assert s[i + 2] == '\r' && s[i + 3] == '\r' && s[i + 4] == '\n';
    }
    if Crcrlf(s) {
      var i :| 0 <= i < |s| - 2 && s[i] == '\r' && s[i + 1] == '\r' && s[i + 2] == '\n';
      assert i >= 2;
      assert rest[i - 2] == '\r' && rest[i - 1] == '\r' && rest[i] == '\n';
    }
  }

  // ---------------------------------------------------------------- reading it again

  /** Reading a file, printing it and reading that gives the same document, with every
      comment, blank line, block and fence, if and only if no frontmatter line has an
      empty key with something behind it, no such line sits where it would reopen a
      block, a document without frontmatter does not begin with a rule, and no line
      that is printed ends in CR. */
  lemma RoundTrip(raw: string)
    requires Parse(raw).Some?
    ensures var d := Parse(raw).value;
      Parse(Render(d)) == Some(d) <==>
        && Kept(d.front) && !Reopens(d.front) && !(d.front == [] && OpensWithRule(d.sections))
        && !Crlf(Render(d))
  {
    hide *;
    var d := Parse(raw).value;
    ParseIsText(raw);
    TextParsed(Normalize(raw));
    WellformedParts(d);
    NoFront();
    if !Crlf(Render(d)) {
      ReadBack(d);
      ParseIsText(Render(d));
      NormalizeSame(Render(d));
      if d.front != [] { SameDoc(d, ParseEntries(FrontLines(d.front)).value); }
    } else if Parse(Render(d)) == Some(d) {
      ParseIsText(Render(d));
      FewerCrs(Normalize(Render(d)));
      NormalizeCrs(Render(d));
    }
  }

  /** So a file on disk without CR CR LF and without CR at its end is reproduced but for
      empty keys, reopened blocks and a leading rule. */
  lemma PlainRoundTrip(raw: string)
    requires Parse(raw).Some? && !Crcrlf(raw) && !EndsCr(raw)
    ensures var d := Parse(raw).value;
      Parse(Render(d)) == Some(d) <==>
        Kept(d.front) && !Reopens(d.front) && !(d.front == [] && OpensWithRule(d.sections))
  {
    hide *;
    CleanRaw(raw);
    CleanFile(raw);
    RoundTrip(raw);
  }

  // ---------------------------------------------------------------- files that are not touched

  predicate TidyBody(lines: seq<string>) {
    && TidyHeadings(lines, false)
    && var n := LeadingBlanks(lines); n > 0 ==> n < |lines| && Heading(lines[n]).None?
  }

  /** The file is written the way it is printed: key lines and headings in their one form,
      frontmatter that is not empty and has no empty keys or empty one-line blocks, no
      leading rule without frontmatter, and no blank lines before a leading heading. */
  predicate TidyFile(text: string) {
    if HasPrefix(text, "---\n") then
      var halves := Cut(text[4..]);
      && !HasPrefix(text[4..], "---\n") && halves.Some?
      && TidyFront(Split(halves.value.front)) && TidyBody(BodyLines(halves.value.body))
    else !OpensWithRule(ParseSections(text)) && TidyBody(BodyLines(text))
  }

  /** A rewrite leaves a file as it is, byte for byte, if and only if it is tidy, has no
      CRLF and ends in a line feed, if there is anything in it at all. */
  lemma FileStays(raw: string)
    requires Parse(raw).Some?
    ensures Render(Parse(raw).value) == raw <==> TidyFile(raw) && !Crlf(raw) && Whole(raw)
  {
    hide *;
    ParseIsText(raw);
    NormalizeSame(raw);
    TextRewritten(Normalize(raw));
    if Crlf(raw) {
      FewerCrs(Normalize(raw));
      NormalizeCrs(raw);
    } else {
      PrintedWhole(RewrittenFile(raw));
      if Whole(raw) {
        WholeLines(raw);
        BodyUnbroken(raw);
        SameTerminated(RewrittenFile(raw), BodyLines(raw));
        TextStays(raw);
      }
    }
  }

  /** Nothing, or lines that all end in a line feed. */
  predicate Whole(s: string) { s == "" || s[|s| - 1] == '\n' }

  lemma PrintedWhole(lines: seq<string>)
    ensures Whole(Terminated(lines))
  {
    EndsWithLine(lines);
    hide Terminated;
  }

  lemma WholeLines(s: string)
    requires Whole(s)
    ensures Terminated(BodyLines(s)) == s
  {
    var all, lines := Split(s), BodyLines(s);
    SplitLines(s);
    TerminatedIsJoin(all);
    WholeSplit(s);
    assert all == lines + [""];
    TerminatedConcat(lines, [""]);
    OneLine("");
    hide Split, Terminated, Join, BodyLines;
    var t := Terminated(lines);
    assert t + "\n" == s + "\n";
    assert t == (t + "\n")[..|t|] && s == (s + "\n")[..|s|];
  }

  lemma {:induction false} WholeSplit(s: string)
    requires Whole(s)
    ensures Split(s)[|Split(s)| - 1] == ""
  {
    if s != "" {
      WholeSplit(s[1..]);
      if s[0] != '\n' { SplitSingle(s[1..]); }
    }
  }

  lemma SplitSingle(s: string)
    ensures |Split(s)| == 1 ==> Split(s)[0] == s
  {
    SplitLines(s);
    hide Split;
  }

  lemma SameTerminated(a: seq<string>, b: seq<string>)
    requires Lines(a) && Lines(b)
    ensures Terminated(a) == Terminated(b) <==> a == b
  {
    SplitTerminated(a);
    SplitTerminated(b);
    hide Terminated, Split;
    if Terminated(a) == Terminated(b) {
      assert a + [""] == b + [""];
      assert a == (a + [""])[..|a|] && b == (b + [""])[..|b|];
    }
  }

  /** The lines of a whole text are those of the rewrite exactly when it is tidy. */
  lemma TextStays(text: string)
    requires ParseText(text).Some? && Whole(text)
    ensures RewrittenFile(text) == BodyLines(text) <==> TidyFile(text)
  {
    hide *;
    TextCases(text);
    TidyCases(text);
    if HasPrefix(text, "---\n") {
      if HasPrefix(text[4..], "---\n") {
        EmptyGains(text);
      } else {
        RuledStays(text);
      }
    } else {
      TidyBodyIs(BodyLines(text));
      RuleNever(BodyLines(text));
      assert [] + RewrittenBody(BodyLines(text)) == RewrittenBody(BodyLines(text));
    }
  }

  lemma TidyCases(text: string)
    ensures !HasPrefix(text, "---\n") ==>
      (TidyFile(text) <==> !OpensWithRule(ParseSections(text)) && TidyBody(BodyLines(text)))
    ensures HasPrefix(text, "---\n") ==>
      |text| >= 4 && (TidyFile(text) ==> !HasPrefix(text[4..], "---\n"))
    ensures HasPrefix(text, "---\n") && Cut(text[4..]).Some? && !HasPrefix(text[4..], "---\n") ==>
      var halves := Cut(text[4..]).value;
      TidyFile(text) <==> TidyFront(Split(halves.front)) && TidyBody(BodyLines(halves.body))
  {
    hide Cut, TidyFront, TidyBody, OpensWithRule, ParseSections, BodyLines, Split;
  }

  lemma TidyBodyIs(lines: seq<string>)
    ensures TidyBody(lines) <==> RewrittenBody(lines) == lines
  {
    TidyBodyStays(lines);
    hide TidyHeadings, LeadingBlanks, RewrittenBody, Heading;
  }

  lemma BodyShorter(lines: seq<string>)
    ensures |RewrittenBody(lines)| <= |lines|
  {
    var n := LeadingBlanks(lines);
    TidyHeadingsStay(lines, false);
    TidyHeadingsStay(lines[n..], false);
    hide Canon, Heading, TidyHeadings, LeadingBlanks;
  }

  /** Two more lines in front are never made up for by blank lines that are dropped. */
  lemma RuleNever(lines: seq<string>)
    ensures ["---", "---"] + RewrittenBody(lines) != lines
  {
    RuleIsNothing();
    RewrittenIs(lines);
    TidyHeadingsStay(lines, false);
    TidyHeadingsStay(lines[LeadingBlanks(lines)..], false);
    hide Canon, Heading, TidyHeadings, LeadingBlanks, RewrittenBody, Blank, KeyLine, Indented, Comment;
    var after := ["---", "---"] + RewrittenBody(lines);
    if LeadingBlanks(lines) > 0 {
      assert Blank(lines[0]) && after[0] == "---";
    } else {
      assert lines[0..] == lines;
      assert |after| == |lines| + 2;
    }
  }

  /** Empty frontmatter is read as one blank line. */
  lemma EmptyGains(text: string)
    requires HasPrefix(text, "---\n") && HasPrefix(text[4..], "---\n") && Cut(text[4..]).Some?
    ensures ["---"] + RewrittenFront(Split(Cut(text[4..]).value.front)) + ["---"]
        + RewrittenBody(BodyLines(Cut(text[4..]).value.body)) != BodyLines(text)
  {
    var body := text[8..];
    assert text[4..][4..] == body;
    assert text == "---" + "\n" + ("---" + "\n" + body) by {
      assert text == text[..4] + (text[4..][..4] + body);
    }
    assert NoBreak("---");
    SplitLine("---", "---" + "\n" + body);
    SplitLine("---", body);
    EmptyFront(body);
    BlankRewritten();
    EmptySplit();
    hide Split, Index, RewrittenFront, RewrittenBody;
    var all := Split(text);
    assert all == ["---"] + (["---"] + Split(body));
    assert BodyLines(text)[1] == "---";
  }

  lemma EmptySplit()
    ensures Split("") == [""]
  {}

  lemma BlankRewritten()
    ensures RewrittenFront([""]) == [""]
  {
    assert Comment("") && [""][1..] == [];
    RewrittenCases([""]);
    RewrittenCases([]);
    hide Comment, RewrittenFront;
    assert [""] + [] == [""];
  }

  lemma {:induction false} SplitBreak(a: string, b: string)
    ensures Split(a + "\n" + b) == Split(a) + Split(b)
  {
    var s := a + "\n" + b;
    SplitHead(s);
    SplitHead(a);
    hide Split;
    if a == "" {
      assert s[1..] == b;
    } else {
      assert s[1..] == a[1..] + "\n" + b && s[0] == a[0];
      SplitBreak(a[1..], b);
      var rest := Split(a[1..]);
      assert (rest + Split(b))[0] == rest[0] && (rest + Split(b))[1..] == rest[1..] + Split(b);
    }
  }

  lemma SplitHead(s: string)
    ensures s == "" ==> Split(s) == [""]
    ensures s != "" && s[0] == '\n' ==> Split(s) == [""] + Split(s[1..])
    ensures s != "" && s[0] != '\n' ==> Split(s) == [[s[0]] + Split(s[1..])[0]] + Split(s[1..])[1..]
  {}

  /** A whole text with frontmatter, cut at its rules. */
  lemma RuledParts(text: string)
    requires HasPrefix(text, "---\n") && !HasPrefix(text[4..], "---\n") && Cut(text[4..]).Some? && Whole(text)
    ensures var halves := Cut(text[4..]).value;
      text == "---" + "\n" + (halves.front + "\n" + ("---" + "\n" + halves.body))
  {
    var rest := text[4..];
    var end := Index(rest, CLOSE);
    IndexFinds(rest, CLOSE);
    hide Index;
    RuleAtEnd(rest);
    assert rest != "" ==> rest[|rest| - 1] == text[|text| - 1];
    assert end >= 0;
    CutPieces(text, rest, end);
  }

  lemma RuleAtEnd(rest: string)
    ensures rest == "---" || HasSuffix(rest, "\n---") ==> rest != "" && rest[|rest| - 1] == '-'
  {
    if HasSuffix(rest, "\n---") { assert rest[|rest| - 4..][3] == rest[|rest| - 1]; }
  }

  lemma CutPieces(text: string, rest: string, end: nat)
    requires |text| >= 4 && text[..4] == "---\n" && rest == text[4..] && end + 5 <= |rest|
        && rest[end..end + 5] == CLOSE
    ensures text == "---" + "\n" + (rest[..end] + "\n" + ("---" + "\n" + rest[end + 5..]))
  {
    var front, body := rest[..end], rest[end + 5..];
    assert rest == front + rest[end..end + 5] + body;
    assert CLOSE == "\n" + "---" + "\n";
    assert rest == front + "\n" + ("---" + "\n" + body);
    assert text == text[..4] + rest;
  }

  /** The lines of a whole text with frontmatter. */
  lemma RuledLines(text: string)
    requires HasPrefix(text, "---\n") && !HasPrefix(text[4..], "---\n") && Cut(text[4..]).Some? && Whole(text)
    ensures var halves := Cut(text[4..]).value;
      BodyLines(text) == ["---"] + Split(halves.front) + ["---"] + BodyLines(halves.body)
  {
    hide *;
    PrefixLength(text);
    RuledParts(text);
    var halves := Cut(text[4..]).value;
    var front, body := halves.front, halves.body;
    RuleUnbroken();
    SplitLine("---", front + "\n" + ("---" + "\n" + body));
    SplitBreak(front, "---" + "\n" + body);
    SplitLine("---", body);
    var head := ["---"] + Split(front) + ["---"];
    assert Split(text) == head + Split(body);
    LastDropped(head, Split(body));
    BodyLinesAre(text);
    BodyLinesAre(body);
    assert head + Split(body)[..] == head + Split(body);
  }

  lemma RuleUnbroken()
    ensures NoBreak("---")
  {}

  lemma BodyLinesAre(body: string)
    ensures var lines := Split(body);
      BodyLines(body) == if lines[|lines| - 1] == "" then lines[..|lines| - 1] else lines
  {
    hide Split;
  }

  lemma LastDropped(a: seq<string>, b: seq<string>)
    requires b != []
    ensures (a + b)[|a + b| - 1] == b[|b| - 1] && (a + b)[..|a + b| - 1] == a + b[..|b| - 1]
  {}

  lemma RuledStays(text: string)
    requires HasPrefix(text, "---\n") && !HasPrefix(text[4..], "---\n") && Cut(text[4..]).Some? && Whole(text)
    ensures var halves := Cut(text[4..]).value;
      ["---"] + RewrittenFront(Split(halves.front)) + ["---"] + RewrittenBody(BodyLines(halves.body)) == BodyLines(text)
      <==> TidyFront(Split(halves.front)) && TidyBody(BodyLines(halves.body))
  {
    hide *;
    PrefixLength(text);
    RuledLines(text);
    var halves := Cut(text[4..]).value;
    var front, body := Split(halves.front), BodyLines(halves.body);
    SplitLines(halves.front);
    TidyFrontStays(front);
    TidyBodyIs(body);
    BodyShorter(body);
    PiecesSame(RewrittenFront(front), RewrittenBody(body), front, body);
  }

  lemma PiecesSame(a: seq<string>, b: seq<string>, c: seq<string>, d: seq<string>)
    requires |a| <= |c| && |b| <= |d|
    ensures ["---"] + a + ["---"] + b == ["---"] + c + ["---"] + d <==> a == c && b == d
  {
    var x, y := ["---"] + a + ["---"] + b, ["---"] + c + ["---"] + d;
    if x == y {
      assert |a| == |c| && |b| == |d|;
      assert a == x[1..1 + |a|] && c == y[1..1 + |c|];
      assert b == x[2 + |a|..] && d == y[2 + |c|..];
    }
  }
}
