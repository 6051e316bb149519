/** Parse and Render of internal/mdstore/mdstore.go: what a file that was read and
    rewritten keeps. */
module MarkdownDoc {
  import opened Wrappers
  import opened MarkdownText
  import opened MarkdownCodec
  import opened MarkdownFront
  import opened MarkdownSections

  datatype Doc = Doc(front: seq<Entry>, sections: seq<Section>)

  const CLOSE := "\n---\n"

  // ---------------------------------------------------------------- parsing

  datatype Halves = Halves(front: string, body: string)

  /** The frontmatter and body behind an opening rule; None is an error. */
  function Cut(rest: string): Option<Halves> {
    var end := Index(rest, CLOSE);
    if HasPrefix(rest, "---\n") then Some(Halves("", rest[4..]))
    else if rest == "---" then Some(Halves("", ""))
    else if end >= 0 then Some(Halves(rest[..end], rest[end + 5..]))
    else if HasSuffix(rest, "\n---") then Some(Halves(rest[..|rest| - 4], ""))
    else None
  }

  function ParseText(text: string): Option<Doc> {
    if !HasPrefix(text, "---\n") then Some(Doc([], ParseSections(text)))
    else
      var halves := Cut(text[4..]);
      if halves.None? then None
      else
        var front := ParseEntries(Split(halves.value.front));
        if front.None? then None else Some(Doc(front.value, ParseSections(halves.value.body)))
  }

  function Parse(raw: string): Option<Doc> { ParseText(Normalize(raw)) }

  // ---------------------------------------------------------------- printing

  function TrimNewlines(s: string): string {
    if s != "" && s[0] == '\n' then TrimNewlines(s[1..]) else s
  }

  /** bodyOpensWithRule. */
  predicate OpensWithRule(sections: seq<Section>) {
    if sections == [] || sections[0].level > 0 then false
    else
      var c := TrimNewlines(sections[0].content);
      if c != "" then HasPrefix(c, "---") else OpensWithRule(sections[1..])
  }

  function Render(d: Doc): string {
    (if d.front != [] || OpensWithRule(d.sections) then "---\n" + Terminated(FrontLines(d.front)) + "---\n" else "")
    + BodyText(d.sections)
  }

  // ---------------------------------------------------------------- finding the closing rule

  /** A text starts with a rule exactly when its first line is one. */
  lemma RuleLine(line: string, rest: string)
    requires NoBreak(line)
    ensures "---\n" <= line + "\n" + rest <==> line == "---"
  {
    var text := line + "\n" + rest;
    assert forall i | 0 <= i < |line| :: text[i] == line[i] && line[i] in line;
    assert text[|line|] == '\n';
    if "---\n" <= text {
      assert text[0] == '-' && text[1] == '-' && text[2] == '-' && text[3] == '\n';
      assert |line| == 3;
    }
  }

  lemma {:induction false} CloseAfterLine(line: string, rest: string)
    requires NoBreak(line)
    ensures Index(line + "\n" + rest, CLOSE) ==
      if "---\n" <= rest then |line| else if Index(rest, CLOSE) < 0 then -1 else |line| + 1 + Index(rest, CLOSE)
  {
    var text := line + "\n" + rest;
    if line == "" {
      assert text == "\n" + rest && text[1..] == rest;
      assert CLOSE <= text <==> "---\n" <= rest by { RulePrefix(rest); }
    } else {
      assert text[1..] == line[1..] + "\n" + rest;
      CloseAfterLine(line[1..], rest);
      assert text[0] == line[0] && line[0] in line;
      assert CLOSE[0] == '\n';
    }
  }

  lemma RulePrefix(rest: string)
    ensures CLOSE <= "\n" + rest <==> "---\n" <= rest
  {
    var text := "\n" + rest;
    assert CLOSE == "\n" + "---\n";
    assert text[1..] == rest;
    if CLOSE <= text { assert text[..5][1..] == rest[..4]; }
    if "---\n" <= rest { assert text[..5] == "\n" + rest[..4]; }
  }

  predicate NoRule(lines: seq<string>) { forall i | 0 <= i < |lines| :: lines[i] != "---" }

  lemma {:induction false} CloseAfterLines(lines: seq<string>, body: string)
    requires lines != [] && Lines(lines) && NoRule(lines)
    ensures var rest := Terminated(lines) + "---\n" + body;
      Index(rest, CLOSE) == |Terminated(lines)| - 1 && !("---\n" <= rest)
  {
    var after := Terminated(lines[1..]) + "---\n" + body;
    assert Terminated(lines) + "---\n" + body == lines[0] + "\n" + after;
    CloseAfterLine(lines[0], after);
    RuleLine(lines[0], after);
    if |lines| == 1 {
      assert Terminated(lines[1..]) == "";
      assert after == "---\n" + body && after[..4] == "---\n";
    } else {
      hide Index;
      CloseAfterLines(lines[1..], body);
    }
  }

  /** What is printed between two rules is what is read between them. */
  lemma CutPrinted(lines: seq<string>, body: string)
    requires lines != [] && Lines(lines) && NoRule(lines)
    ensures Cut(Terminated(lines) + "---\n" + body) == Some(Halves(Join(lines), body))
  {
    var text := Terminated(lines);
    var rest := text + "---\n" + body;
    CloseAfterLines(lines, body);
    TerminatedIsJoin(lines);
    hide Index, Terminated, Join;
    assert rest[|text|..] == "---\n" + body;
    assert rest[|text| + 4..] == body;
    assert rest[..|text| - 1] == text[..|text| - 1] == Join(lines);
    assert rest != "---" by { assert |rest| >= 4; }
  }

  lemma EmptyFront(body: string)
    ensures Cut("---\n" + body) == Some(Halves("", body))
    ensures ParseEntries(Split("")) == Some([Raw("")])
  {
    var rest := "---\n" + body;
    assert rest[..4] == "---\n" && rest[4..] == body;
    hide Index;
    assert Comment("");
    var one := [""];
    assert one[1..] == [];
    NothingToParse();
    CommentReads(one);
    assert [Raw("")] + [] == [Raw("")];
    assert Split("") == one;
  }

  lemma FrontText(lines: seq<string>, body: string)
    requires lines != [] && Lines(lines) && NoRule(lines)
    ensures var text := "---\n" + Terminated(lines) + "---\n" + body;
      ParseText(text) == var front := ParseEntries(lines);
          if front.None? then None else Some(Doc(front.value, ParseSections(body)))
  {
    var rest := Terminated(lines) + "---\n" + body;
    var text := "---\n" + Terminated(lines) + "---\n" + body;
    assert text == "---\n" + rest && text[..4] == "---\n" && text[4..] == rest;
    CutPrinted(lines, body);
    SplitJoin(lines);
    hide Cut, ParseEntries, ParseSections, Split, Join, Terminated;
  }

  // ---------------------------------------------------------------- printed documents

  lemma {:induction false} ParsableNoRule(lines: seq<string>, open: bool)
    requires Parsable(lines, open)
    ensures NoRule(lines)
  {
    if lines != [] {
      RuleIsNothing();
      var next := if Blank(lines[0]) || Indented(lines[0]) then open else if Comment(lines[0]) then false
          else Opens(ValueOf(lines[0]));
      hide Blank, Indented, Comment, KeyLine, KeyOf, ValueOf, Opens;
      ParsableNoRule(lines[1..], next);
      assert forall i | 0 < i < |lines| :: lines[i] == lines[1..][i - 1];
    }
  }

  lemma RuleIsNothing()
    ensures !Blank("---") && !Indented("---") && !Comment("---") && !KeyLine("---")
  {
    TrimmedStays("---");
    assert "---"[0] != '#' && "---"[0] != ' ' && "---"[0] != '\t';
  }

  lemma PrintedFront(es: seq<Entry>)
    requires AllPrintable(es)
    ensures Lines(FrontLines(es)) && NoRule(FrontLines(es)) && (es != [] ==> FrontLines(es) != [])
  {
    hide *;
    PrintedParsable(es);
    PrintedKeysNamed(es);
    ParsableNoRule(FrontLines(es), false);
    if es != [] { PrintsHead(es); }
  }

  /** A printed body does not start with a rule unless the document is seen to. */
  lemma BodyRule(sections: seq<Section>)
    requires AllParsed(sections) && HasPrefix(BodyText(sections), "---")
    ensures OpensWithRule(sections)
  {
    if sections != [] {
      var s := sections[0];
      var text := BodyText(sections);
      assert Parsed(s);
      assert text[0] == '-' && text[1] == '-' && text[2] == '-';
      HeadFirst(sections);
      if s.level == 0 {
        ContentEnds(s);
        assert text == s.content + BodyText(sections[1..]);
        hide Blank, BodyLines, BodyText, Terminated, Parsed, HeadText;
        assert forall i | 0 <= i < |s.content| :: s.content[i] == text[i];
        assert s.content[|s.content| - 1] == '\n';
        assert s.content[..3] == "---";
      }
    }
  }

  lemma HeadFirst(sections: seq<Section>)
    requires sections != []
    ensures sections[0].level > 0 ==> BodyText(sections) != "" && BodyText(sections)[0] == '#'
  {
    assert sections[0].level > 0 ==> HeadText(sections[0])[0] == '#';
  }

  lemma ContentEnds(s: Section)
    requires Parsed(s) && s.level == 0
    ensures s.content != "" && s.content[|s.content| - 1] == '\n' && SectionText(s) == s.content
  {
    var lines := BodyLines(s.content);
    assert Blank("");
    if lines != [] { TerminatedIsJoin(lines); }
    hide BodyLines, Blank, Join;
    assert HasSuffix(s.content, "\n");
  }

  /** What is read back from a printed document. */
  lemma ReadBack(d: Doc)
    requires AllPrintable(d.front) && AllParsed(d.sections) && ParseSections(BodyText(d.sections)) == d.sections
    ensures d.front != [] ==>
      && ParseEntries(FrontLines(d.front)).Some?
      && ParseText(Render(d)) == Some(Doc(ParseEntries(FrontLines(d.front)).value, d.sections))
    ensures d.front == []
        ==> ParseText(Render(d)) == Some(Doc(if OpensWithRule(d.sections) then [Raw("")] else [], d.sections))
  {
    hide *;
    var body := BodyText(d.sections);
    PrintedFront(d.front);
    PrintedParses(d.front);
    RenderCases(d);
    if d.front != [] {
      FrontText(FrontLines(d.front), body);
    } else if OpensWithRule(d.sections) {
      RuleText(body);
    } else {
      BareText(d.sections);
    }
  }

  lemma RenderCases(d: Doc)
    ensures d.front != [] ==> Render(d) == "---\n" + Terminated(FrontLines(d.front)) + "---\n" + BodyText(d.sections)
    ensures d.front == [] && OpensWithRule(d.sections) ==> Render(d) == "---\n" + ("---\n" + BodyText(d.sections))
    ensures d.front == [] && !OpensWithRule(d.sections) ==> Render(d) == BodyText(d.sections)
  {
    hide OpensWithRule, BodyText, EntryLines;
  }

  lemma RuleText(body: string)
    ensures ParseText("---\n" + ("---\n" + body)) == Some(Doc([Raw("")], ParseSections(body)))
  {
    var text := "---\n" + ("---\n" + body);
    assert text[..4] == "---\n" && text[4..] == "---\n" + body;
    EmptyFront(body);
    hide Cut, ParseEntries, ParseSections, Split;
  }

  lemma BareText(sections: seq<Section>)
    requires AllParsed(sections) && !OpensWithRule(sections)
    ensures ParseText(BodyText(sections)) == Some(Doc([], ParseSections(BodyText(sections))))
  {
    if HasPrefix(BodyText(sections), "---\n") { BodyRule(sections); }
    hide ParseSections, BodyText, OpensWithRule;
  }

  // ---------------------------------------------------------------- reading with carriage returns

  /** A printed body is read with the CRLFs in its contents as LFs, and with nothing
      else changed. */
  lemma BodyRead(sections: seq<Section>)
    requires AllParsed(sections) && ParseSections(BodyText(sections)) == sections
    ensures ParseSections(Normalize(BodyText(sections))) == Normalized(sections)
  {
    hide *;
    var lines := AllLines(sections);
    BodyTextLines(sections);
    NormalizeLines(lines);
    BodyOfLines(lines);
    BodyOfLines(Chomped(lines));
    EmptyBody(Terminated(lines));
    EmptyBody(Terminated(Chomped(lines)));
    NothingBroken();
    ChompedParses(lines, START, [], false);
  }

  lemma NothingBroken()
    ensures Lines([]) && Chomped([]) == []
  {}

  /** A printed document with frontmatter, whatever its body, is read as its frontmatter
      without the CRs at the ends of lines, and its body with LF for CRLF. */
  lemma FrontRead(front: seq<Entry>, sections: seq<Section>)
    requires AllPrintable(front) && front != []
    ensures var again, lines := Parse(Render(Doc(front, sections))), Chomped(FrontLines(front));
      && Lines(lines) && NoEmptyKey(lines) && ParseEntries(lines).Some?
      && again == Some(Doc(ParseEntries(lines).value, ParseSections(Normalize(BodyText(sections)))))
      && AllPrintable(again.value.front) && Keyed(again.value.front) == Keyed(front)
  {
    hide *;
    var d, body, lines := Doc(front, sections), BodyText(sections), FrontLines(front);
    PrintedFront(front);
    PrintedParsable(front);
    PrintedKeysNamed(front);
    RenderCases(d);
    ParseIsText(Render(d));
    NormalizeLines(lines);
    ChompedParsable(lines, false);
    ChompedNamed(lines);
    ParsableNoRule(Chomped(lines), false);
    ParsableParses(Chomped(lines));
    ParsedSound(Chomped(lines));
    HeadNormal(lines, body);
    FrontText(Chomped(lines), Normalize(body));
  }

  lemma RuleNormal(rest: string)
    ensures Normalize("---\n" + rest) == "---\n" + Normalize(rest)
  {
    var rule := "---";
    assert !EndsCr(rule) && NoBreak(rule) && rule + "\n" == "---\n";
    hide Normalize;
    NormalizeLine(rule, rest);
  }

  lemma HeadNormal(lines: seq<string>, body: string)
    requires Lines(lines)
    ensures Normalize("---\n" + Terminated(lines) + "---\n" + body)
         == "---\n" + Terminated(Chomped(lines)) + "---\n" + Normalize(body)
  {
    hide *;
    var text := Terminated(lines);
    RuleNormal(text + ("---\n" + body));
    RuleNormal(body);
    NormalizeLines(lines);
    EndsWithLine(lines);
    NormalizeConcat(text, "---\n" + body);
    assert "---\n" + text + "---\n" + body == "---\n" + (text + ("---\n" + body));
    Regroup("---\n", Terminated(Chomped(lines)), "---\n", Normalize(body));
  }

  lemma Regroup(a: string, b: string, c: string, d: string)
    ensures a + (b + (c + d)) == a + b + c + d
  {}

  lemma EndsWithLine(lines: seq<string>)
    ensures Terminated(lines) == "" || Terminated(lines)[|Terminated(lines)| - 1] == '\n'
  {
    if lines != [] { TerminatedIsJoin(lines); }
  }

  /** And one without frontmatter. */
  lemma BareRead(sections: seq<Section>)
    requires AllParsed(sections) && ParseSections(BodyText(sections)) == sections
    ensures Parse(Render(Doc([], sections)))
         == Some(Doc(if OpensWithRule(sections) then [Raw("")] else [], Normalized(sections)))
  {
    hide *;
    var body := BodyText(sections);
    BodyRead(sections);
    RenderCases(Doc([], sections));
    ParseIsText(Render(Doc([], sections)));
    if OpensWithRule(sections) {
      RulesNormal(body);
      RuleText(Normalize(body));
    } else {
      NoRuleAhead(sections);
      PlainText(Normalize(body));
    }
  }

  lemma RulesNormal(body: string)
    ensures Normalize("---\n" + ("---\n" + body)) == "---\n" + ("---\n" + Normalize(body))
  {
    RuleNormal("---\n" + body);
    RuleNormal(body);
    hide Normalize;
  }

  lemma NoRuleAhead(sections: seq<Section>)
    requires AllParsed(sections) && !OpensWithRule(sections)
    ensures !HasPrefix(Normalize(BodyText(sections)), "---\n")
  {
    hide *;
    var lines := AllLines(sections);
    BodyTextLines(sections);
    NormalizeLines(lines);
    ChompedRule(lines);
    if HasPrefix(Normalize(BodyText(sections)), "---\n") { BodyRule(sections); }
  }

  lemma ChompedRule(lines: seq<string>)
    requires Lines(lines) && Lines(Chomped(lines))
    ensures HasPrefix(Terminated(Chomped(lines)), "---\n") ==> HasPrefix(Terminated(lines), "---")
  {
    if HasPrefix(Terminated(Chomped(lines)), "---\n") {
      assert lines != [];
      var line := lines[0];
      assert Chomped(lines)[0] == Chomp(line);
      RuleLine(Chomp(line), Terminated(Chomped(lines)[1..]));
      assert Chomp(line) == "---";
      assert line[..3] == "---";
      assert Terminated(lines)[..3] == line[..3];
    }
  }

  lemma PlainText(text: string)
    requires !HasPrefix(text, "---\n")
    ensures ParseText(text) == Some(Doc([], ParseSections(text)))
  {
    hide ParseSections;
  }

  // ---------------------------------------------------------------- parsed documents

  /** What holds of every document that parsing produces. */
  predicate Wellformed(d: Doc) {
    AllPrintable(d.front) && AllParsed(d.sections) && ParseSections(BodyText(d.sections)) == d.sections
  }

  lemma FrontParsed(fm: string)
    requires ParseEntries(Split(fm)).Some?
    ensures var es := ParseEntries(Split(fm)).value;
      && es != [] && AllPrintable(es)
      && (ParseEntries(FrontLines(es)) == Some(es) <==> Kept(es) && !Reopens(es))
  {
    SplitLines(fm);
    hide Split;
    ParsedSound(Split(fm));
    FrontFixpoint(Split(fm));
    FirstCase(Split(fm));
  }

  /** The halves of a text and what they parse to. */
  lemma TextParsed(text: string)
    requires ParseText(text).Some?
    ensures var d := ParseText(text).value;
      && Wellformed(d)
      && (d.front != []
          ==> (ParseEntries(FrontLines(d.front)) == Some(d.front) <==> Kept(d.front) && !Reopens(d.front)))
  {
    hide ParseEntries, ParseSections, Split, Cut, Kept, Reopens, AllPrintable, AllParsed, FrontLines;
    if HasPrefix(text, "---\n") {
      BodyFixpoint(Cut(text[4..]).value.body);
      FrontParsed(Cut(text[4..]).value.front);
    } else {
      BodyFixpoint(text);
      NoFront();
    }
  }

  lemma NoFront()
    ensures AllPrintable([]) && Kept([]) && !Reopens([])
  {}

  lemma ParseIsText(raw: string)
    ensures Parse(raw) == ParseText(Normalize(raw))
  {
    hide ParseText, Normalize;
  }

  lemma WellformedParts(d: Doc)
    requires Wellformed(d)
    ensures AllPrintable(d.front) && AllParsed(d.sections) && ParseSections(BodyText(d.sections)) == d.sections
  {
    hide AllPrintable, AllParsed, ParseSections, BodyText;
  }

  lemma SameDoc(d: Doc, es: seq<Entry>)
    ensures Doc(es, d.sections) == d <==> es == d.front
  {}

  // ---------------------------------------------------------------- what a rewrite does to the document

  /** For any file a rewrite can be read, with the keys and values in order and the same
      sections, except that a CRLF in a section's content, which only CR CR LF or a CR
      at the end of the file leaves there, is an LF. */
  lemma RewriteKeeps(raw: string)
    requires Parse(raw).Some?
    ensures var d, again := Parse(raw).value, Parse(Render(Parse(raw).value));
      && again.Some? && again.value.sections == Normalized(d.sections) && Keyed(again.value.front) == Keyed(d.front)
      && (d.front == [] ==> again.value.front == if OpensWithRule(d.sections) then [Raw("")] else [])
  {
    hide *;
    var d := Parse(raw).value;
    ParseIsText(raw);
    TextParsed(Normalize(raw));
    WellformedParts(d);
    PrintedReads(d);
    if d.front == [] { BareRead(d.sections); DocOf([], d.sections); }
  }

  lemma DocOf(front: seq<Entry>, sections: seq<Section>)
    ensures forall d: Doc | d.front == front && d.sections == sections :: d == Doc(front, sections)
  {}

  lemma NoKeys()
    ensures Keyed([]) == [] && Keyed([Raw("")]) == []
  {}

  /** A well-formed document, however it came about, prints to a text that reads back
      with its keys, values and sections. */
  lemma PrintedReads(d: Doc)
    requires AllPrintable(d.front) && AllParsed(d.sections) && ParseSections(BodyText(d.sections)) == d.sections
    ensures var again := Parse(Render(d));
      && again.Some? && AllPrintable(again.value.front) && Keyed(again.value.front) == Keyed(d.front)
      && again.value.sections == Normalized(d.sections)
  {
    hide *;
    DocOf(d.front, d.sections);
    NoKeys();
    NoFront();
    RawPrintable();
    if d.front != [] {
      FrontRead(d.front, d.sections);
      BodyRead(d.sections);
    } else {
      BareRead(d.sections);
    }
  }

  lemma RawPrintable()
    ensures AllPrintable([Raw("")])
  {
    assert Comment("");
    hide Blank;
  }

  // ---------------------------------------------------------------- fields

  /** Front.Set with the value already quoted. */
  function SetEntry(es: seq<Entry>, k: string, value: string): seq<Entry> {
    if es == [] then [Entry(k, value, "", "")]
    else if es[0].key == k then [Entry(k, value, "", "")] + es[1..]
    else [es[0]] + SetEntry(es[1..], k, value)
  }

  function Set(es: seq<Entry>, k: string, v: string): seq<Entry> { SetEntry(es, k, QuoteScalar(v)) }

  function SetList(es: seq<Entry>, k: string, items: seq<string>): seq<Entry> { Set(es, k, ListText(items)) }

  function Get(es: seq<Entry>, k: string): Option<string> {
    if es == [] then None else if es[0].key == k && es[0].block == "" then Some(Clean(es[0].value)) else Get(es[1..], k)
  }

  function GetList(es: seq<Entry>, k: string): Option<seq<string>> {
    var v := Get(es, k);
    if v.None? then None else ListOf(v.value)
  }

  function Delete(es: seq<Entry>, k: string): seq<Entry> {
    if es == [] then [] else if es[0].key == k then es[1..] else [es[0]] + Delete(es[1..], k)
  }

  /** The value of the first pair with this key. */
  function FirstValue(pairs: seq<(string, string)>, k: string): Option<string> {
    if pairs == [] then None else if pairs[0].0 == k then Some(pairs[0].1) else FirstValue(pairs[1..], k)
  }

  lemma {:induction false} GetSet(es: seq<Entry>, k: string, v: string)
    ensures Get(Set(es, k, v), k) == Some(v)
    ensures forall j | j != k :: Get(Set(es, k, v), j) == Get(es, j)
  {
    CleanQuoteScalar(v);
    hide QuoteScalar, Clean;
    if es != [] && es[0].key != k {
      GetSet(es[1..], k, v);
      assert Set(es, k, v)[1..] == Set(es[1..], k, v);
    } else if es != [] {
      assert Set(es, k, v)[1..] == es[1..];
    } else {
      assert Set(es, k, v)[1..] == [];
    }
  }

  /** The next field of the same name, if any, shows when one is deleted. */
  lemma {:induction false} GetDelete(es: seq<Entry>, k: string)
    ensures forall j | j != k :: Get(Delete(es, k), j) == Get(es, j)
    ensures |Delete(es, k)| == if exists i :: 0 <= i < |es| && es[i].key == k then |es| - 1 else |es|
  {
    hide Clean;
    if es != [] && es[0].key != k {
      GetDelete(es[1..], k);
      assert Delete(es, k)[1..] == Delete(es[1..], k);
      assert forall i | 0 < i < |es| :: es[i] == es[1..][i - 1];
      assert forall i | 0 <= i < |es[1..]| :: es[1..][i] == es[i + 1];
    }
  }

  /** A quoted scalar is a value that stays on its line and opens no block. */
  lemma QuotedIsSafe(v: string)
    ensures Trimmed(QuoteScalar(v)) && NoBreak(QuoteScalar(v)) && !Opens(QuoteScalar(v))
  {
    if ScalarNeedsQuotes(v) {
      EscapedSafe(v);
      hide TrimSpace, ContainsAny;
      assert QuoteScalar(v)[0] == '"';
    } else {
      TrimSpaceTrimmed(v);
      PlainOf(v, "\r\n\t\"'#");
      var special := "\r\n\t\"'#";
      assert special[0] in special && special[1] in special && special[5] in special;
      hide TrimSpace, ContainsAny;
      assert v[0] in v;
    }
  }

  lemma {:induction false} EscapedSafe(v: string)
    ensures NoBreak(Escape(v, true)) && NoCr(Escape(v, true))
  {
    if v != "" {
      EscapedSafe(v[1..]);
      EscapeCharSafe(v[0]);
      hide EscapeChar;
    }
  }

  lemma EscapeCharSafe(c: char)
    ensures NoBreak(EscapeChar(c, true)) && NoCr(EscapeChar(c, true))
  {}

  lemma {:induction false} SetKeeps(es: seq<Entry>, k: string, value: string)
    requires AllPrintable(es) && GoodKey(k) && Trimmed(value) && NoBreak(value)
    ensures AllPrintable(SetEntry(es, k, value))
    ensures FirstValue(Keyed(SetEntry(es, k, value)), k) == Some(value)
  {
    var e := Entry(k, value, "", "");
    assert Printable(e);
    if es != [] {
      assert Printable(es[0]);
      hide Printable, GoodKey, Trimmed;
      if es[0].key != k { SetKeeps(es[1..], k, value); }
      var after := SetEntry(es, k, value);
      assert after[1..] == if es[0].key == k then es[1..] else SetEntry(es[1..], k, value);
      assert Keyed(after)[..] == if after[0].key == "" then Keyed(after[1..])
          else [(after[0].key, after[0].value)] + Keyed(after[1..]);
    } else {
      hide Printable, GoodKey, Trimmed;
      assert SetEntry(es, k, value) == [e] && [e][1..] == [];
      assert Keyed([e]) == [(k, value)] + Keyed([]);
    }
  }

  lemma {:induction false} FirstGets(es: seq<Entry>, k: string, value: string)
    requires AllPrintable(es) && FirstValue(Keyed(es), k) == Some(value) && k != "" && !Opens(value)
    ensures Get(es, k) == Some(Clean(value))
  {
    hide Clean, Opens;
    if es != [] {
      assert Printable(es[0]);
      if es[0].key == "" {
        FirstGets(es[1..], k, value);
      } else {
        assert Keyed(es)[1..] == Keyed(es[1..]);
        if es[0].key != k { FirstGets(es[1..], k, value); }
      }
    }
  }

  /** Set, print, read, Get: any value comes back under any well-formed key, from any
      file, and every other key keeps its value and place. */
  lemma SetSurvives(raw: string, k: string, v: string)
    requires Parse(raw).Some? && GoodKey(k)
    ensures var d := Parse(raw).value;
      var again := Parse(Render(d.(front := Set(d.front, k, v))));
      && again.Some? && Get(again.value.front, k) == Some(v)
      && Keyed(again.value.front) == Keyed(Set(d.front, k, v)) && again.value.sections == Normalized(d.sections)
  {
    hide *;
    var d := Parse(raw).value;
    ParseIsText(raw);
    TextParsed(Normalize(raw));
    WellformedParts(d);
    QuotedIsSafe(v);
    CleanQuoteScalar(v);
    SetIs(d.front, k, v);
    SetKeeps(d.front, k, QuoteScalar(v));
    GoodKeyNonempty(k);
    var changed := d.(front := Set(d.front, k, v));
    PrintedReads(changed);
    FirstGets(Parse(Render(changed)).value.front, k, QuoteScalar(v));
  }

  lemma SetIs(es: seq<Entry>, k: string, v: string)
    ensures Set(es, k, v) == SetEntry(es, k, QuoteScalar(v))
  {
    hide SetEntry, QuoteScalar;
  }

  lemma GoodKeyNonempty(k: string)
    requires GoodKey(k)
    ensures k != ""
  {}

  /** SetList, print, read, GetList: the list comes back without its empty elements. */
  lemma ListSurvives(raw: string, k: string, items: seq<string>)
    requires Parse(raw).Some? && GoodKey(k)
    ensures var d := Parse(raw).value;
      var again := Parse(Render(d.(front := SetList(d.front, k, items))));
      && again.Some? && GetList(again.value.front, k) == Some(NonEmpty(items))
      && (GetList(again.value.front, k) == Some(items) <==> forall i | 0 <= i < |items| :: items[i] != "")
  {
    SetSurvives(raw, k, ListText(items));
    ListRoundTrip(items);
    ListReturnsExactly(items);
    CleanQuoteScalar(ListText(items));
    hide *;
    var d := Parse(raw).value;
    SetListIs(d.front, k, items);
    GetListIs(Parse(Render(d.(front := Set(d.front, k, ListText(items))))).value.front, k);
  }

  lemma SetListIs(es: seq<Entry>, k: string, items: seq<string>)
    ensures SetList(es, k, items) == Set(es, k, ListText(items))
  {
    hide Set, ListText;
  }

  lemma GetListIs(es: seq<Entry>, k: string)
    ensures GetList(es, k) == if Get(es, k).None? then None else ListOf(Get(es, k).value)
  {
    hide Get, ListOf;
  }
}
