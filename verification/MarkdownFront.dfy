/** Frontmatter lines and the entries they stand for (parseFront and the first half
    of Render in internal/mdstore/mdstore.go). */
module MarkdownFront {
  import opened Wrappers
  import opened MarkdownText

  /** Key == "" is a comment or blank line, kept in `raw`. */
  datatype Entry = Entry(key: string, value: string, block: string, raw: string)

  function Raw(line: string): Entry { Entry("", "", "", line) }

  // ---------------------------------------------------------------- parsing

  predicate Comment(line: string) { Blank(line) || HasPrefix(TrimSpace(line), "#") }

  predicate Indented(line: string) { HasPrefix(line, " ") || HasPrefix(line, "\t") }

  /** A value after which indented lines are a block. */
  predicate Opens(value: string) {
    value == "" || value == "|" || value == "|-" || value == ">" || value == ">-" || HasPrefix(value, "#")
  }

  /** allBlank: the first visible line, if there is one, is indented. */
  predicate VisibleIsIndented(lines: seq<string>) {
    if lines == [] then true else if Blank(lines[0]) then VisibleIsIndented(lines[1..]) else Indented(lines[0])
  }

  /** How many of the lines belong to the block that the line before them opened. */
  function BlockLen(lines: seq<string>): (n: nat)
    ensures n <= |lines|
  {
    if lines == [] || (!Indented(lines[0]) && !Blank(lines[0])) || (Blank(lines[0]) && !VisibleIsIndented(lines)) then 0
    else 1 + BlockLen(lines[1..])
  }

  function KeyOf(line: string): string
    requires ':' in line
  {
    IndexOf(line, ':');
    TrimSpace(line[..Index(line, ":")])
  }

  function ValueOf(line: string): string
    requires ':' in line
  {
    IndexOf(line, ':');
    TrimSpace(line[Index(line, ":") + 1..])
  }

  predicate KeyLine(line: string) { !Comment(line) && !Indented(line) && ':' in line }

  function BlockAfter(lines: seq<string>): (n: nat)
    requires lines != [] && KeyLine(lines[0])
    ensures n < |lines|
  {
    if Opens(ValueOf(lines[0])) then BlockLen(lines[1..]) else 0
  }

  /** parseFront on the lines that are left; None is an error. */
  function ParseEntries(lines: seq<string>): Option<seq<Entry>>
    decreases |lines|
  {
    if lines == [] then Some([])
    else if Comment(lines[0]) then
      var rest := ParseEntries(lines[1..]);
      if rest.Some? then Some([Raw(lines[0])] + rest.value) else None
    else if !KeyLine(lines[0]) then None
    else
      var n := BlockAfter(lines);
      var rest := ParseEntries(lines[1 + n..]);
      if rest.Some? then Some([Entry(KeyOf(lines[0]), ValueOf(lines[0]), Join(lines[1..1 + n]), "")] + rest.value)
          else None
  }

  // ---------------------------------------------------------------- printing

  function EntryLines(e: Entry): (r: seq<string>)
    ensures r != []
  {
    if e.key == "" then [e.raw]
    else if e.block != "" then [e.key + ":" + if e.value != "" then " " + e.value else ""] + Split(e.block)
    else [e.key + ": " + e.value]
  }

  function FrontLines(entries: seq<Entry>): seq<string> {
    if entries == [] then [] else EntryLines(entries[0]) + FrontLines(entries[1..])
  }

  // ---------------------------------------------------------------- what parsed entries look like

  predicate GoodKey(k: string) { k != "" && Trimmed(k) && ':' !in k && NoBreak(k) && k[0] != '#' }

  predicate BlockLine(line: string) { Indented(line) || Blank(line) }

  /** An entry that is printed the way it was read. */
  predicate Sound(e: Entry) {
    if e.key == "" then e.value == "" && e.block == "" && NoBreak(e.raw) && Comment(e.raw)
    else
      && GoodKey(e.key) && Trimmed(e.value) && NoBreak(e.value) && e.raw == ""
      && (e.block != "" ==> Opens(e.value) && forall i | 0 <= i < |Split(e.block)| :: BlockLine(Split(e.block)[i]))
  }

  /** A line `: v` reads as an entry without a key whose value or block is never
      printed again. */
  predicate Lossy(e: Entry) { e.key == "" && (e.value != "" || e.block != "") }

  /** What parseFront produces: sound, or lossy with an empty raw line. */
  predicate Printable(e: Entry) { Sound(e) || (Lossy(e) && e.raw == "") }

  predicate Kept(entries: seq<Entry>) { forall i | 0 <= i < |entries| :: !Lossy(entries[i]) }

  predicate AllPrintable(entries: seq<Entry>) { forall i | 0 <= i < |entries| :: Printable(entries[i]) }

  /** What a key line reads as. */
  lemma KeyLineParts(line: string)
    requires KeyLine(line) && NoBreak(line)
    ensures Trimmed(KeyOf(line)) && ':' !in KeyOf(line) && NoBreak(KeyOf(line))
    ensures Trimmed(ValueOf(line)) && NoBreak(ValueOf(line))
    ensures KeyOf(line) != "" ==> GoodKey(KeyOf(line))
  {
    IndexOf(line, ':');
    var k := Index(line, ":");
    var head := line[..k];
    var i := TrimFacts(head);
    var j := TrimFacts(line[k + 1..]);
    if KeyOf(line) != "" {
      assert KeyOf(line)[0] == head[i] == line[i];
      assert !IsSpace(line[i]);
      TrimHead(line, i);
      assert TrimSpace(line)[0] == line[i];
      assert line[i] != '#' by { if line[i] == '#' { PrefixChar(TrimSpace(line), '#'); } }
    }
    hide TrimSpace;
  }

  lemma PrefixChar(s: string, c: char)
    requires s != "" && s[0] == c
    ensures HasPrefix(s, [c])
  {}

  /** A printed key line reads as the key and value it was printed from. */
  lemma KeyLineReads(key: string, sep: string, value: string)
    requires GoodKey(key) && Trimmed(value) && (sep == ": " || (sep == ":" && value == ""))
    ensures var line := key + sep + value; KeyLine(line) && KeyOf(line) == key && ValueOf(line) == value
  {
    var line, rest := key + sep + value, sep[1..] + value;
    assert line[0] == key[0] && !IsSpace(line[0]);
    TrimKeepsHead(line);
    assert !HasPrefix(TrimSpace(line), "#") by { assert TrimSpace(line)[0] != "#"[0]; }
    assert !Indented(line) by { assert line[0] != " "[0] && line[0] != "\t"[0]; }
    assert line == key + ":" + rest;
    assert line[|key|] == ':';
    IndexAt(key, ':', rest);
    assert line[..|key|] == key && line[|key| + 1..] == rest;
    TrimmedStays(key);
    TrimPadded(sep[1..], value);
    hide TrimSpace;
  }

  lemma EntryLineReads(e: Entry)
    requires Sound(e) && e.key != ""
    ensures var line := EntryLines(e)[0];
        KeyLine(line) && KeyOf(line) == e.key && ValueOf(line) == e.value && !Blank(line)
  {
    if e.block != "" && e.value == "" {
      assert e.key + ":" + "" == e.key + ":";
      KeyLineReads(e.key, ":", "");
    } else {
      assert e.key + ":" + (" " + e.value) == e.key + ": " + e.value;
      KeyLineReads(e.key, ": ", e.value);
    }
    hide KeyOf, ValueOf, TrimSpace, Split;
  }

  /** Nothing of a parsed entry changes when it is printed, unless it is lossy. */
  lemma {:induction false} ParsedSound(lines: seq<string>)
    requires Lines(lines) && ParseEntries(lines).Some?
    ensures AllPrintable(ParseEntries(lines).value)
    decreases |lines|
  {
    hide Printable, Comment, KeyOf, ValueOf, BlockAfter, KeyLine;
    if lines != [] {
      if Comment(lines[0]) {
        ParsedSound(lines[1..]);
        RawSound(lines[0]);
      } else {
        var n := BlockAfter(lines);
        ParsedSound(lines[1 + n..]);
        KeyLineParts(lines[0]);
        KeyedSound(lines, n);
      }
    }
  }

  lemma RawSound(line: string)
    requires Comment(line) && NoBreak(line)
    ensures Sound(Raw(line)) && Printable(Raw(line))
  {}

  lemma KeyedSound(lines: seq<string>, n: nat)
    requires Lines(lines) && lines != [] && KeyLine(lines[0]) && n == BlockAfter(lines)
    requires KeyOf(lines[0]) != ""
        ==> GoodKey(KeyOf(lines[0])) && Trimmed(ValueOf(lines[0])) && NoBreak(ValueOf(lines[0]))
    ensures var e := Entry(KeyOf(lines[0]), ValueOf(lines[0]), Join(lines[1..1 + n]), "");
      Printable(e)
  {
    assert Blank("");
    BlockLines(lines[1..]);
    hide KeyOf, ValueOf, Blank;
    var block := lines[1..1 + n];
    if n > 0 {
      assert Lines(block);
      SplitJoin(block);
      assert block == lines[1..][..n];
    }
    hide Split, Trimmed;
  }

  lemma {:induction false} BlockLines(lines: seq<string>)
    ensures forall i | 0 <= i < BlockLen(lines) :: BlockLine(lines[i])
    ensures lines[BlockLen(lines)..] == [] || NextFlush(lines[BlockLen(lines)..])
  {
    hide Blank, Indented;
    if BlockLen(lines) > 0 {
      BlockLines(lines[1..]);
      forall i | 0 <= i < BlockLen(lines) ensures BlockLine(lines[i]) {
        assert i > 0 ==> lines[i] == lines[1..][i - 1];
      }
      assert lines[BlockLen(lines)..] == lines[1..][BlockLen(lines[1..])..];
    } else if lines != [] {
      StopsAtFlush(lines);
      assert lines[0..] == lines;
    }
  }

  /** The first visible line exists and is not indented. */
  predicate NextFlush(lines: seq<string>) {
    lines != [] && if Blank(lines[0]) then NextFlush(lines[1..]) else !Indented(lines[0])
  }

  lemma {:induction false} StopsAtFlush(lines: seq<string>)
    ensures !VisibleIsIndented(lines) <==> NextFlush(lines)
  {
    hide Blank, Indented;
    if lines != [] { StopsAtFlush(lines[1..]); }
  }

  lemma NoBlockAtFlush(lines: seq<string>)
    requires lines == [] || NextFlush(lines)
    ensures BlockLen(lines) == 0
  {
    StopsAtFlush(lines);
  }

  // ---------------------------------------------------------------- printing and parsing again

  predicate BlankRaws(entries: seq<Entry>) {
    forall i | 0 <= i < |entries| :: entries[i].key == "" && Blank(entries[i].raw)
  }

  /** Some key that opens a block is followed by blank entries to the end: printed,
      they would be read as its block. Only lines `:` can leave entries like that. */
  predicate Reopens(entries: seq<Entry>) {
    entries != []
    && ((entries[0].key != "" && Opens(entries[0].value) && entries[1..] != [] && BlankRaws(entries[1..]))
        || Reopens(entries[1..]))
  }

  lemma {:induction false} BlockLenKept(lines: seq<string>, after: seq<string>)
    requires after == [] || NextFlush(after)
    requires lines[BlockLen(lines)..] == [] ==> after == []
    ensures var n := BlockLen(lines);
      BlockLen(lines[..n] + after) == n && (VisibleIsIndented(lines) ==> VisibleIsIndented(lines[..n] + after))
  {
    hide Blank, Indented;
    var n := BlockLen(lines);
    if n == 0 {
      assert lines[..0] + after == after;
      NoBlockAtFlush(after);
      assert VisibleIsIndented(lines) ==> lines == [];
    } else {
      assert lines[n..] == lines[1..][n - 1..];
      BlockLenKept(lines[1..], after);
      assert (lines[..n] + after)[1..] == lines[1..][..n - 1] + after;
    }
  }

  /** A block of one empty line, which prints as no block, is the last line. */
  lemma BlankBlockLast(lines: seq<string>)
    requires BlockLen(lines) == 1 && lines[0] == ""
    ensures lines[1..] == []
  {
    StopsAtFlush(lines);
    BlockLines(lines[1..]);
    assert Blank(lines[0]);
    assert lines[1..][0..] == lines[1..];
  }

  /** Visible text after the block is still there when it is printed, unless nothing
      visible is printed at all. */
  lemma {:induction false} FlushKept(lines: seq<string>)
    requires Lines(lines) && NextFlush(lines) && ParseEntries(lines).Some? && Kept(ParseEntries(lines).value)
    ensures var es := ParseEntries(lines).value; es != [] && (NextFlush(FrontLines(es)) || BlankRaws(es))
    decreases |lines|
  {
    var es := ParseEntries(lines).value;
    ParsedSound(lines);
    if Comment(lines[0]) {
      RestKept(es);
      PrintsRaw(es);
      hide Comment, Indented, Sound, Kept, BlankRaws, ParseEntries, AllPrintable;
      if Blank(lines[0]) {
        CommentSteps(lines);
        FlushKept(lines[1..]);
        BlankRawsGrow(es);
      }
    } else {
      hide Comment, Indented, Sound;
      var n := BlockAfter(lines);
      PrintsHead(es);
      if es[0].key != "" {
        FirstPrinted(es);
      } else {
        RestKept(es);
        BlockLines(lines[1..]);
        assert lines[1 + n..] == lines[1..][n..];
        LossFreeHead(es);
        if lines[1 + n..] != [] {
          FlushKept(lines[1 + n..]);
          assert FrontLines(es)[1..] == FrontLines(es[1..]);
        }
        BlankRawsGrow(es);
      }
    }
  }

  lemma RestKept(es: seq<Entry>)
    requires es != [] && Kept(es)
    ensures Kept(es[1..])
  {}

  lemma PrintsRaw(es: seq<Entry>)
    requires es != [] && es[0].key == ""
    ensures FrontLines(es) != [] && FrontLines(es)[0] == es[0].raw && FrontLines(es)[1..] == FrontLines(es[1..])
  {}

  lemma PrintsHead(es: seq<Entry>)
    requires es != []
    ensures FrontLines(es) != [] && FrontLines(es)[0] == EntryLines(es[0])[0]
    ensures es[0].key == "" ==> FrontLines(es)[0] == es[0].raw && FrontLines(es)[1..] == FrontLines(es[1..])
  {
    hide Split;
  }

  lemma FirstPrinted(es: seq<Entry>)
    requires es != [] && es[0].key != "" && AllPrintable(es)
    ensures NextFlush(FrontLines(es))
  {
    assert Printable(es[0]);
    EntryLineReads(es[0]);
    PrintsHead(es);
    hide Blank, Indented, Split, KeyOf, ValueOf, Sound;
  }

  lemma LossFreeHead(es: seq<Entry>)
    requires es != [] && es[0].key == "" && Kept(es) && es[0].raw == ""
    ensures es[0] == Raw("") && Blank(es[0].raw)
  {
    assert !Lossy(es[0]);
  }

  lemma BlankRawsGrow(es: seq<Entry>)
    requires es != [] && es[0].key == "" && Blank(es[0].raw)
    ensures BlankRaws(es) <==> BlankRaws(es[1..])
  {
    hide Blank;
    assert forall i | 0 < i < |es| :: es[i] == es[1..][i - 1];
  }

  lemma CommentSteps(lines: seq<string>)
    requires lines != [] && Comment(lines[0]) && ParseEntries(lines).Some?
    ensures ParseEntries(lines[1..]).Some?
        && ParseEntries(lines).value == [Raw(lines[0])] + ParseEntries(lines[1..]).value
    ensures ParseEntries(lines).value[1..] == ParseEntries(lines[1..]).value
  {
    hide Comment, BlockAfter, KeyOf, ValueOf;
  }

  lemma KeySteps(lines: seq<string>)
    requires lines != [] && KeyLine(lines[0])
    ensures var n := BlockAfter(lines); var rest := ParseEntries(lines[1 + n..]);
      && (ParseEntries(lines).Some? <==> rest.Some?)
      && (rest.Some? ==>
          && ParseEntries(lines).value
              == [Entry(KeyOf(lines[0]), ValueOf(lines[0]), Join(lines[1..1 + n]), "")] + rest.value
          && ParseEntries(lines).value[1..] == rest.value)
  {
    hide BlockAfter, KeyOf, ValueOf, Join, Blank;
  }

  /** The lines of the block of the first key, as they are printed again. */
  function PrintedBlock(block: seq<string>): seq<string> {
    if Join(block) == "" then [] else block
  }

  lemma BlockPrints(block: seq<string>)
    requires Lines(block)
    ensures Join(PrintedBlock(block)) == Join(block)
    ensures Join(block) != "" ==> Split(Join(block)) == block
    ensures Join(block) == "" ==> block == [] || block == [""]
  {
    if block != [] { SplitJoin(block); }
    if |block| > 1 { assert Join(block) == block[0] + "\n" + Join(block[1..]); }
    hide Split;
  }

  lemma PrintsKeyed(es: seq<Entry>, block: seq<string>)
    requires es != [] && es[0].key != "" && Lines(block) && es[0].block == Join(block)
    ensures FrontLines(es) == [EntryLines(es[0])[0]] + PrintedBlock(block) + FrontLines(es[1..])
  {
    BlockPrints(block);
    hide Join, Split;
  }

  /** The printed block is as long as it was read. */
  lemma SameBlockLen(lines: seq<string>, after: seq<string>)
    requires Lines(lines) && (after == [] || NextFlush(after)) && (lines[BlockLen(lines)..] == [] ==> after == [])
    ensures BlockLen(PrintedBlock(lines[..BlockLen(lines)]) + after) == |PrintedBlock(lines[..BlockLen(lines)])|
  {
    var block := lines[..BlockLen(lines)];
    BlockPrints(block);
    BlockLenKept(lines, after);
    NoBlockAtFlush(after);
    hide BlockLen, Join, Split;
    if block == [""] {
      assert lines[0] == block[0];
      BlankBlockLast(lines);
      assert lines[1..] == lines[BlockLen(lines)..];
    }
    if PrintedBlock(block) == [] { assert [] + after == after; }
  }

  /** One key and its block, printed in front of what else is printed. */
  lemma KeyedFix(lines: seq<string>, es: seq<Entry>)
    requires Lines(lines) && lines != [] && KeyLine(lines[0]) && ParseEntries(lines) == Some(es) && es != []
        && Printable(es[0]) && es[0].key != ""
    requires ParseEntries(FrontLines(es[1..])) == Some(es[1..])
    requires var n, after := BlockAfter(lines), FrontLines(es[1..]);
      && es[0] == Entry(KeyOf(lines[0]), ValueOf(lines[0]), Join(lines[1..1 + n]), "")
      && (Opens(ValueOf(lines[0])) ==> (after == [] || NextFlush(after)) && (lines[1 + n..] == [] ==> after == []))
    ensures ParseEntries(FrontLines(es)) == Some(es)
  {
    hide *;
    var n, after := BlockAfter(lines), FrontLines(es[1..]);
    var block, printed := lines[1..1 + n], FrontLines(es);
    TakenLines(lines, block);
    BlockPrints(block);
    PrintsKeyed(es, block);
    PrintableKeyed(es[0]);
    EntryLineReads(es[0]);
    var m := |PrintedBlock(block)|;
    var head := EntryLines(es[0])[0];
    assert printed == [head] + (PrintedBlock(block) + after);
    assert BlockAfter(printed) == m by {
      if Opens(es[0].value) { SameBlockLen(lines[1..], after); }
      OpenedLen(printed, block, after);
    }
    assert printed[1..1 + m] == PrintedBlock(block) && printed[1 + m..] == after;
    KeySteps(printed);
    assert [es[0]] + es[1..] == es;
  }

  lemma TakenLines(lines: seq<string>, block: seq<string>)
    requires Lines(lines) && lines != [] && KeyLine(lines[0]) && block == lines[1..1 + BlockAfter(lines)]
    ensures Lines(lines[1..]) && Lines(block)
    ensures Opens(ValueOf(lines[0])) ==>
      && block == lines[1..][..BlockLen(lines[1..])]
      && lines[1 + BlockAfter(lines)..] == lines[1..][BlockLen(lines[1..])..]
    ensures !Opens(ValueOf(lines[0])) ==> PrintedBlock(block) == []
  {
    hide KeyOf, ValueOf, BlockLen, Opens, KeyLine;
  }

  lemma PrintableKeyed(e: Entry)
    requires Printable(e) && e.key != ""
    ensures Sound(e)
  {
    hide Sound;
  }

  lemma OpenedLen(printed: seq<string>, block: seq<string>, after: seq<string>)
    requires printed != [] && KeyLine(printed[0]) && printed == [printed[0]] + (PrintedBlock(block) + after)
    requires if Opens(ValueOf(printed[0])) then BlockLen(PrintedBlock(block) + after) == |PrintedBlock(block)|
        else PrintedBlock(block) == []
    ensures BlockAfter(printed) == |PrintedBlock(block)|
  {
    hide KeyOf, ValueOf, BlockLen, Opens, KeyLine, PrintedBlock;
    assert printed[1..] == PrintedBlock(block) + after;
  }

  lemma ReopensStep(es: seq<Entry>)
    requires es != [] && !Reopens(es)
    ensures !Reopens(es[1..])
    ensures es[0].key != "" && Opens(es[0].value) && es[1..] != [] ==> !BlankRaws(es[1..])
  {}

  /** Whatever was parsed is parsed again from what is printed of it. */
  lemma {:induction false} FrontFix(lines: seq<string>)
    requires Lines(lines) && ParseEntries(lines).Some?
    requires Kept(ParseEntries(lines).value) && !Reopens(ParseEntries(lines).value)
    ensures ParseEntries(FrontLines(ParseEntries(lines).value)) == ParseEntries(lines)
    decreases |lines|
  {
    hide *;
    var es := ParseEntries(lines).value;
    if lines == [] {
      NothingToParse();
    } else {
      ParsedSound(lines);
      FirstCase(lines);
      RestKept(es);
      ReopensStep(es);
      if Comment(lines[0]) {
        CommentSteps(lines);
        FrontFix(lines[1..]);
        CommentFix(lines, es);
      } else {
        KeySteps(lines);
        FrontFix(lines[1 + BlockAfter(lines)..]);
        if es[0].key == "" {
          EmptyKeyFix(lines, es);
        } else {
          AfterBlock(lines, es);
          KeyedFix(lines, es);
        }
      }
    }
  }

  lemma NothingToParse()
    ensures ParseEntries([]) == Some([]) && FrontLines([]) == []
  {}

  lemma FirstCase(lines: seq<string>)
    requires Lines(lines) && lines != [] && ParseEntries(lines).Some? && AllPrintable(ParseEntries(lines).value)
    ensures Lines(lines[1..]) && ParseEntries(lines).value != [] && Printable(ParseEntries(lines).value[0])
    ensures !Comment(lines[0]) ==> KeyLine(lines[0]) && Lines(lines[1 + BlockAfter(lines)..])
  {
    hide KeyOf, ValueOf, BlockLen, Opens, Printable, Join, Indented;
  }

  lemma CommentFix(lines: seq<string>, es: seq<Entry>)
    requires lines != [] && Comment(lines[0]) && es != [] && es == [Raw(lines[0])] + es[1..]
    requires ParseEntries(FrontLines(es[1..])) == Some(es[1..])
    ensures ParseEntries(FrontLines(es)) == Some(es)
  {
    hide ParseEntries, Comment;
    PrintsRaw(es);
    assert FrontLines(es) == [lines[0]] + FrontLines(es[1..]);
    CommentReads(FrontLines(es));
  }

  lemma CommentReads(lines: seq<string>)
    requires lines != [] && Comment(lines[0])
    ensures ParseEntries(lines[1..]).Some?
        ==> ParseEntries(lines) == Some([Raw(lines[0])] + ParseEntries(lines[1..]).value)
  {
    hide Comment, BlockAfter, KeyOf, ValueOf;
  }

  /** A line `:` prints as a blank line. */
  lemma EmptyKeyFix(lines: seq<string>, es: seq<Entry>)
    requires es != [] && es[0].key == "" && es[0].raw == "" && Kept(es)
        && ParseEntries(FrontLines(es[1..])) == Some(es[1..])
    ensures ParseEntries(FrontLines(es)) == Some(es)
  {
    LossFreeHead(es);
    PrintsRaw(es);
    assert Comment("");
    hide ParseEntries, Kept, Comment, Blank;
    CommentReads(FrontLines(es));
    assert [es[0]] + es[1..] == es;
  }

  /** What is printed after an opened block starts flush again. */
  lemma AfterBlock(lines: seq<string>, es: seq<Entry>)
    requires Lines(lines) && lines != [] && KeyLine(lines[0]) && es != [] && Kept(es) && !Reopens(es)
    requires es[0].key != "" && es[0].value == ValueOf(lines[0])
        && ParseEntries(lines[1 + BlockAfter(lines)..]) == Some(es[1..])
    ensures var n, after := BlockAfter(lines), FrontLines(es[1..]);
      Opens(ValueOf(lines[0])) ==> (after == [] || NextFlush(after)) && (lines[1 + n..] == [] ==> after == [])
  {
    if Opens(ValueOf(lines[0])) {
      var rest := lines[1 + BlockAfter(lines)..];
      BlockLines(lines[1..]);
      assert rest == lines[1..][BlockLen(lines[1..])..];
      ReopensStep(es);
      RestKept(es);
      hide BlockLen, KeyOf, ValueOf, KeyLine, Kept, Reopens, BlockAfter, Opens;
      if rest != [] { FlushKept(rest); }
    }
  }

  // ---------------------------------------------------------------- when printing loses something

  /** Every key line has a key. */
  predicate NoEmptyKey(lines: seq<string>) {
    forall i | 0 <= i < |lines| :: KeyLine(lines[i]) ==> KeyOf(lines[i]) != ""
  }

  lemma {:induction false} VisibleEntry(lines: seq<string>)
    requires NextFlush(lines) && NoEmptyKey(lines) && ParseEntries(lines).Some?
    ensures ParseEntries(lines).value != [] && !BlankRaws(ParseEntries(lines).value)
  {
    var es := ParseEntries(lines).value;
    if Comment(lines[0]) {
      CommentSteps(lines);
      hide ParseEntries, Comment, KeyOf, Indented, Blank;
      if Blank(lines[0]) {
        VisibleEntry(lines[1..]);
        BlankRawsGrow(es);
      } else {
        assert es[0].raw == lines[0];
      }
    } else {
      KeySteps(lines);
      hide ParseEntries, KeyOf, ValueOf, Blank;
      assert es[0].key != "";
    }
  }

  /** Lines whose keys are all named parse to entries that print without loss. */
  lemma {:induction false} NamedKeysKept(lines: seq<string>)
    requires NoEmptyKey(lines) && ParseEntries(lines).Some?
    ensures Kept(ParseEntries(lines).value) && !Reopens(ParseEntries(lines).value)
    decreases |lines|
  {
    if lines != [] {
      var es := ParseEntries(lines).value;
      if Comment(lines[0]) {
        CommentSteps(lines);
        hide ParseEntries, Comment, KeyOf, Blank;
        NamedKeysKept(lines[1..]);
        KeptGrows(es);
      } else {
        var n := BlockAfter(lines);
        KeySteps(lines);
        BlockLines(lines[1..]);
        assert lines[1 + n..] == lines[1..][n..];
        hide ParseEntries, KeyOf, ValueOf, Blank, BlockLen, Indented;
        NamedKeysKept(lines[1 + n..]);
        KeptGrows(es);
        if Opens(ValueOf(lines[0])) && lines[1 + n..] != [] { VisibleEntry(lines[1 + n..]); }
        if lines[1 + n..] == [] { NothingToParse(); }
      }
    }
  }

  lemma KeptGrows(es: seq<Entry>)
    requires es != [] && Kept(es[1..]) && !Lossy(es[0])
    ensures Kept(es)
  {
    assert forall i | 0 < i < |es| :: es[i] == es[1..][i - 1];
  }

  lemma {:induction false} PrintedKeysNamed(es: seq<Entry>)
    requires AllPrintable(es)
    ensures NoEmptyKey(FrontLines(es)) && Lines(FrontLines(es))
  {
    if es != [] {
      assert Printable(es[0]);
      PrintedKeysNamed(es[1..]);
      EntryKeysNamed(es[0]);
      hide EntryLines, KeyOf, KeyLine, Printable;
    }
  }

  /** After its key line a keyed entry prints block lines, if it opens any. */
  lemma EntryTail(e: Entry)
    requires Sound(e) && e.key != ""
    ensures var tail := EntryLines(e)[1..];
      && (forall i | 0 <= i < |tail| :: BlockLine(tail[i]) && NoBreak(tail[i]))
      && (tail != [] ==> Opens(e.value))
      && EntryLines(e) == [EntryLines(e)[0]] + tail
  {
    SplitLines(e.block);
    hide Blank, Indented, Split, Opens, Trimmed, GoodKey;
    assert e.block != "" ==> EntryLines(e)[1..] == Split(e.block);
  }

  lemma EntryKeysNamed(e: Entry)
    requires Printable(e)
    ensures NoEmptyKey(EntryLines(e)) && Lines(EntryLines(e))
  {
    if e.key == "" {
      assert Comment("");
      hide KeyOf, Blank;
    } else {
      EntryLineReads(e);
      EntryTail(e);
      FirstLineUnbroken(e);
      hide KeyOf, ValueOf, EntryLines, Blank, Sound;
      var lines, tail := EntryLines(e), EntryLines(e)[1..];
      assert forall i | 0 < i < |lines| :: lines[i] == tail[i - 1];
      assert forall i | 0 <= i < |tail| :: BlockLine(tail[i]);
    }
  }

  lemma FirstLineUnbroken(e: Entry)
    requires Sound(e) && e.key != ""
    ensures NoBreak(EntryLines(e)[0])
  {
    hide Blank, Split, Trimmed, Opens;
  }

  /** Frontmatter survives printing and parsing exactly, comments, blocks and blank
      lines included, if and only if no entry lost its key and no block is reopened. */
  lemma FrontFixpoint(lines: seq<string>)
    requires Lines(lines) && ParseEntries(lines).Some?
    ensures var es := ParseEntries(lines).value;
      ParseEntries(FrontLines(es)) == Some(es) <==> Kept(es) && !Reopens(es)
  {
    hide *;
    var es := ParseEntries(lines).value;
    ParsedSound(lines);
    PrintedKeysNamed(es);
    if Kept(es) && !Reopens(es) { FrontFix(lines); }
    if ParseEntries(FrontLines(es)) == Some(es) { NamedKeysKept(FrontLines(es)); }
  }

  // ---------------------------------------------------------------- what always survives

  /** The keys and their scalar values, in order. */
  function Keyed(es: seq<Entry>): seq<(string, string)> {
    if es == [] then []
    else if es[0].key == "" then Keyed(es[1..])
    else [(es[0].key, es[0].value)] + Keyed(es[1..])
  }

  function KeyedLines(lines: seq<string>): seq<(string, string)> {
    if lines == [] then []
    else if !KeyLine(lines[0]) then KeyedLines(lines[1..])
    else [(KeyOf(lines[0]), ValueOf(lines[0]))] + KeyedLines(lines[1..])
  }

  /** Lines that parse: an indented line is a comment or follows a key that opens. */
  predicate Parsable(lines: seq<string>, open: bool) {
    lines == []
    || (if Blank(lines[0]) then Parsable(lines[1..], open)
        else if Indented(lines[0]) then (open || Comment(lines[0])) && Parsable(lines[1..], open)
        else if Comment(lines[0]) then Parsable(lines[1..], false)
        else KeyLine(lines[0]) && KeyOf(lines[0]) != "" && Parsable(lines[1..], Opens(ValueOf(lines[0]))))
  }

  lemma {:induction false} ParsableOpen(lines: seq<string>)
    requires Parsable(lines, false)
    ensures Parsable(lines, true)
  {
    if lines != [] && (Blank(lines[0]) || Indented(lines[0])) {
      hide Blank, Comment, Indented, KeyLine, KeyOf, ValueOf, Opens;
      ParsableOpen(lines[1..]);
    }
  }

  lemma {:induction false} ParsableFlush(lines: seq<string>, open: bool)
    requires Parsable(lines, open) && (lines == [] || NextFlush(lines))
    ensures Parsable(lines, false)
  {
    if lines != [] && Blank(lines[0]) {
      hide Blank, Comment, Indented, KeyLine, KeyOf, ValueOf, Opens;
      ParsableFlush(lines[1..], open);
    }
  }

  /** Reading a block leaves lines that parse, with the same keys. */
  lemma {:induction false} ParsableAfter(lines: seq<string>)
    requires Parsable(lines, true)
    ensures var rest := lines[BlockLen(lines)..]; Parsable(rest, false) && KeyedLines(rest) == KeyedLines(lines)
  {
    BlockLines(lines);
    var n := BlockLen(lines);
    if n == 0 {
      assert lines[0..] == lines;
      ParsableFlush(lines, true);
    } else {
      assert BlockLine(lines[0]);
      assert !KeyLine(lines[0]);
      ParsableTail(lines);
      hide Blank, Comment, Indented, KeyLine, KeyOf, ValueOf, Parsable, Opens;
      ParsableAfter(lines[1..]);
      assert lines[n..] == lines[1..][n - 1..];
    }
  }

  lemma ParsableTail(lines: seq<string>)
    requires Parsable(lines, true) && lines != [] && BlockLine(lines[0])
    ensures Parsable(lines[1..], true)
  {
    hide Blank, Comment, Indented, KeyLine, KeyOf, ValueOf, Opens;
  }

  lemma {:induction false} ParsableParses(lines: seq<string>)
    requires Parsable(lines, false)
    ensures ParseEntries(lines).Some? && Keyed(ParseEntries(lines).value) == KeyedLines(lines)
    decreases |lines|
  {
    if lines != [] {
      if Comment(lines[0]) {
        assert !KeyLine(lines[0]);
        ParsableRest(lines);
        hide Blank, Comment, Indented, KeyLine, KeyOf, ValueOf, Opens, Parsable, BlockAfter;
        ParsableParses(lines[1..]);
        CommentReads(lines);
        CommentSteps(lines);
      } else {
        var n := BlockAfter(lines);
        hide Blank, Comment, Indented, KeyOf, ValueOf, Opens, ParseEntries, BlockLen;
        if Opens(ValueOf(lines[0])) {
          ParsableAfter(lines[1..]);
          assert lines[1 + n..] == lines[1..][n..];
        }
        ParsableParses(lines[1 + n..]);
        KeySteps(lines);
      }
    }
  }

  lemma ParsableRest(lines: seq<string>)
    requires Parsable(lines, false) && lines != [] && Comment(lines[0])
    ensures Parsable(lines[1..], false)
  {
    hide Blank, KeyLine, KeyOf, ValueOf, Opens, Indented;
  }

  lemma {:induction false} PrintedParsable(es: seq<Entry>)
    requires AllPrintable(es)
    ensures Parsable(FrontLines(es), false) && KeyedLines(FrontLines(es)) == Keyed(es)
  {
    if es != [] {
      assert Printable(es[0]);
      var rest := FrontLines(es[1..]);
      PrintedParsable(es[1..]);
      if es[0].key == "" {
        assert Comment("");
        PrintsRaw(es);
        ParsableCons(FrontLines(es));
      } else {
        ParsableOpen(rest);
        EntryLineReads(es[0]);
        EntryParsable(es[0], rest);
      }
    }
  }

  lemma ParsableCons(lines: seq<string>)
    requires lines != [] && Comment(lines[0]) && Parsable(lines[1..], false)
    ensures Parsable(lines, false) && KeyedLines(lines) == KeyedLines(lines[1..])
  {
    hide Blank, KeyOf, ValueOf, Opens, Indented;
  }

  lemma EntryParsable(e: Entry, rest: seq<string>)
    requires Printable(e) && e.key != "" && Parsable(rest, false) && Parsable(rest, true)
    ensures Parsable(EntryLines(e) + rest, false)
        && KeyedLines(EntryLines(e) + rest) == [(e.key, e.value)] + KeyedLines(rest)
  {
    hide *;
    NamedSound(e);
    EntryLineReads(e);
    EntryTail(e);
    GoodKeyNamed(e);
    var head, block := EntryLines(e)[0], EntryLines(e)[1..];
    var lines := EntryLines(e) + rest;
    assert lines == [head] + (block + rest);
    assert lines[1..] == block + rest;
    BlockParsable(block, rest);
    assert block == [] ==> block + rest == rest;
    KeyFirst(lines, Opens(e.value));
  }

  lemma NamedSound(e: Entry)
    requires Printable(e) && e.key != ""
    ensures Sound(e) && EntryLines(e) != []
  {}

  lemma GoodKeyNamed(e: Entry)
    requires Sound(e) && e.key != ""
    ensures !Blank(EntryLines(e)[0]) && KeyOf(EntryLines(e)[0]) != ""
  {
    EntryLineReads(e);
    hide EntryLines, KeyOf, ValueOf, Blank;
  }

  lemma KeyFirst(lines: seq<string>, open: bool)
    requires lines != [] && KeyLine(lines[0]) && KeyOf(lines[0]) != "" && !Blank(lines[0])
        && open == Opens(ValueOf(lines[0]))
    requires Parsable(lines[1..], open)
    ensures Parsable(lines, false)
        && KeyedLines(lines) == [(KeyOf(lines[0]), ValueOf(lines[0]))] + KeyedLines(lines[1..])
  {
    hide Blank, KeyOf, ValueOf, Opens, Indented;
  }

  lemma {:induction false} BlockParsable(block: seq<string>, rest: seq<string>)
    requires Parsable(rest, true) && forall i | 0 <= i < |block| :: BlockLine(block[i])
    ensures Parsable(block + rest, true) && KeyedLines(block + rest) == KeyedLines(rest)
  {
    if block == [] {
      assert block + rest == rest;
    } else {
      var lines := block + rest;
      assert lines[1..] == block[1..] + rest;
      BlockParsable(block[1..], rest);
      assert BlockLine(block[0]);
      BlockFirst(lines);
    }
  }

  lemma BlockFirst(lines: seq<string>)
    requires lines != [] && BlockLine(lines[0]) && Parsable(lines[1..], true)
    ensures Parsable(lines, true) && KeyedLines(lines) == KeyedLines(lines[1..])
  {
    hide Blank, KeyOf, ValueOf, Opens, Indented;
    assert Blank(lines[0]) ==> Comment(lines[0]);
  }

  /** Printed frontmatter always parses, and every key keeps its value and its place,
      whatever happens to comments and blocks. */
  lemma PrintedParses(es: seq<Entry>)
    requires AllPrintable(es)
    ensures ParseEntries(FrontLines(es)).Some? && Keyed(ParseEntries(FrontLines(es)).value) == Keyed(es)
  {
    hide *;
    PrintedParsable(es);
    ParsableParses(FrontLines(es));
  }

  // ---------------------------------------------------------------- what a rewrite does to the lines

  /** A key line as it is printed. */
  function KeyText(key: string, value: string, block: bool): string {
    if block && value == "" then key + ":" else key + ": " + value
  }

  /** The lines of a file's frontmatter after a rewrite: comments, blank lines and blocks
      stay as they are, key lines are written one way, a line with an empty key is
      blanked together with its block, and of a block that is one empty line
      nothing is left. */
  function RewrittenFront(lines: seq<string>): seq<string>
    decreases |lines|
  {
    if lines == [] then []
    else if Comment(lines[0]) || !KeyLine(lines[0]) then [lines[0]] + RewrittenFront(lines[1..])
    else
      var n := BlockAfter(lines);
      var block := PrintedBlock(lines[1..1 + n]);
      (if KeyOf(lines[0]) == "" then [""] else [KeyText(KeyOf(lines[0]), ValueOf(lines[0]), block != [])] + block)
      + RewrittenFront(lines[1 + n..])
  }

  lemma {:induction false} FrontRewritten(lines: seq<string>)
    requires Lines(lines) && ParseEntries(lines).Some?
    ensures FrontLines(ParseEntries(lines).value) == RewrittenFront(lines)
    decreases |lines|
  {
    hide *;
    RewrittenCases(lines);
    if lines == [] {
      NothingToParse();
    } else {
      ParsedSound(lines);
      FirstCase(lines);
      var es := ParseEntries(lines).value;
      if Comment(lines[0]) {
        CommentSteps(lines);
        FrontRewritten(lines[1..]);
        RawParts(lines[0]);
        PrintsRaw(es);
        assert FrontLines(es) == [lines[0]] + FrontLines(es[1..]);
      } else {
        var n := BlockAfter(lines);
        KeySteps(lines);
        FrontRewritten(lines[1 + n..]);
        TakenLines(lines, lines[1..1 + n]);
        if es[0].key == "" {
          PrintsRaw(es);
          assert FrontLines(es) == [""] + FrontLines(es[1..]);
        } else {
          PrintsKeyed(es, lines[1..1 + n]);
          HeadPrints(es[0], lines[1..1 + n]);
        }
      }
    }
  }

  lemma RawParts(line: string)
    ensures Raw(line).key == "" && Raw(line).raw == line
  {}

  lemma RewrittenCases(lines: seq<string>)
    ensures lines == [] ==> RewrittenFront(lines) == []
    ensures lines != [] && (Comment(lines[0]) || !KeyLine(lines[0]))
        ==> RewrittenFront(lines) == [lines[0]] + RewrittenFront(lines[1..])
    ensures lines != [] && KeyLine(lines[0]) ==>
      var n := BlockAfter(lines);
      var block := PrintedBlock(lines[1..1 + n]);
      RewrittenFront(lines)
      == (if KeyOf(lines[0]) == "" then [""] else [KeyText(KeyOf(lines[0]), ValueOf(lines[0]), block != [])] + block)
         + RewrittenFront(lines[1 + n..])
  {
    hide KeyOf, ValueOf, BlockAfter, PrintedBlock, KeyText, Indented, Blank;
    assert lines != [] && KeyLine(lines[0]) ==> !Comment(lines[0]);
  }

  lemma HeadPrints(e: Entry, block: seq<string>)
    requires e.key != "" && Lines(block) && e.block == Join(block)
    ensures EntryLines(e)[0] == KeyText(e.key, e.value, PrintedBlock(block) != [])
  {
    hide Join, Split, PrintedBlock;
    PrintedBlockSome(block);
    assert e.key + ":" + (" " + e.value) == e.key + ": " + e.value;
    assert e.key + ":" + "" == e.key + ":";
  }

  lemma PrintedBlockSome(block: seq<string>)
    ensures PrintedBlock(block) != [] <==> Join(block) != ""
  {}

  /** Frontmatter that is written the way it is printed. */
  predicate TidyFront(lines: seq<string>)
    decreases |lines|
  {
    if lines == [] then true
    else if Comment(lines[0]) || !KeyLine(lines[0]) then TidyFront(lines[1..])
    else
      var n := BlockAfter(lines);
      && KeyOf(lines[0]) != "" && lines[0] == KeyText(KeyOf(lines[0]), ValueOf(lines[0]), n > 0)
      && lines[1..1 + n] != [""] && TidyFront(lines[1 + n..])
  }

  /** A rewrite leaves frontmatter as it is, byte for byte, if and only if it is tidy. */
  lemma {:induction false} TidyFrontStays(lines: seq<string>)
    requires Lines(lines)
    ensures |RewrittenFront(lines)| <= |lines|
    ensures RewrittenFront(lines) == lines <==> TidyFront(lines)
    decreases |lines|
  {
    hide *;
    RewrittenCases(lines);
    TidyCases(lines);
    if lines != [] {
      if Comment(lines[0]) || !KeyLine(lines[0]) {
        LinesSplit(lines, 1);
        TidyFrontStays(lines[1..]);
        assert lines == [lines[0]] + lines[1..];
      } else {
        var n := BlockAfter(lines);
        LinesSplit(lines, 1 + n);
        BlockPrints(lines[1..1 + n]);
        TidyFrontStays(lines[1 + n..]);
        TidyHead(lines, lines[1..1 + n], lines[1 + n..]);
      }
    }
  }

  lemma TidyCases(lines: seq<string>)
    ensures lines == [] ==> TidyFront(lines)
    ensures lines != [] && (Comment(lines[0]) || !KeyLine(lines[0])) ==> (TidyFront(lines) <==> TidyFront(lines[1..]))
  {
    hide KeyOf, ValueOf, BlockAfter, KeyText, Indented, Blank;
  }

  lemma LinesSplit(lines: seq<string>, n: nat)
    requires Lines(lines) && 0 < n <= |lines|
    ensures Lines(lines[1..n]) && Lines(lines[n..]) && NoBreak(lines[0])
  {}

  lemma TidyHead(lines: seq<string>, block: seq<string>, rest: seq<string>)
    requires lines != [] && KeyLine(lines[0]) && block == lines[1..1 + BlockAfter(lines)]
        && rest == lines[1 + BlockAfter(lines)..]
    requires |RewrittenFront(rest)| <= |rest| && (RewrittenFront(rest) == rest <==> TidyFront(rest))
    requires Join(block) == "" ==> block == [] || block == [""]
    ensures |RewrittenFront(lines)| <= |lines|
    ensures RewrittenFront(lines) == lines <==> TidyFront(lines)
  {
    hide *;
    RewrittenCases(lines);
    KeyColon(lines[0]);
    TidyKey(lines, block, rest);
    PrintedBlockIs(block);
    PrintedBlockNone(block);
    KeyVisible(lines[0]);
    assert lines == [lines[0]] + block + rest;
    if KeyOf(lines[0]) == "" {
      assert RewrittenFront(lines) == [""] + RewrittenFront(rest);
      assert RewrittenFront(lines)[0] == "";
    } else {
      var printed := PrintedBlock(block);
      var head := KeyText(KeyOf(lines[0]), ValueOf(lines[0]), printed != []);
      HeadedSame(head, printed, RewrittenFront(rest), lines[0], block, rest);
    }
  }

  lemma TidyKey(lines: seq<string>, block: seq<string>, rest: seq<string>)
    requires lines != [] && KeyLine(lines[0]) && block == lines[1..1 + BlockAfter(lines)]
        && rest == lines[1 + BlockAfter(lines)..]
    ensures TidyFront(lines) <==>
      && KeyOf(lines[0]) != "" && lines[0] == KeyText(KeyOf(lines[0]), ValueOf(lines[0]), block != [])
      && block != [""] && TidyFront(rest)
  {
    hide KeyOf, ValueOf, BlockAfter, KeyText, Indented, Blank;
    assert |block| == BlockAfter(lines);
    assert !Comment(lines[0]);
  }

  lemma PrintedBlockNone(block: seq<string>)
    ensures PrintedBlock([""]) == []
    ensures PrintedBlock(block) == [] ==> Join(block) == ""
  {}

  lemma KeyVisible(line: string)
    requires KeyLine(line)
    ensures line != ""
  {}

  lemma HeadedSame(head: string, printed: seq<string>, after: seq<string>, line: string, block: seq<string>,
      rest: seq<string>)
    requires (printed == [] || printed == block) && |after| <= |rest|
    ensures |[head] + printed + after| <= |[line] + block + rest|
    ensures [head] + printed + after == [line] + block + rest <==> head == line && printed == block && after == rest
  {
    var x, y := [head] + printed + after, [line] + block + rest;
    if x == y {
      assert |printed| == |block|;
      assert x[0] == head && y[0] == line;
      assert x[1 + |block|..] == after && y[1 + |block|..] == rest;
    }
  }

  // ---------------------------------------------------------------- carriage returns

  lemma {:induction false} CleanFront(lines: seq<string>)
    requires Lines(lines) && NoEndCr(lines) && ParseEntries(lines).Some?
    ensures NoEndCr(RewrittenFront(lines))
    decreases |lines|
  {
    hide *;
    RewrittenCases(lines);
    if lines == [] {
      CleanParts([], []);
    } else {
      ParsedSound(lines);
      FirstCase(lines);
      if Comment(lines[0]) {
        CommentSteps(lines);
        CleanSplit(lines, 1);
        CleanFront(lines[1..]);
        CleanParts([lines[0]], RewrittenFront(lines[1..]));
      } else {
        var n := BlockAfter(lines);
        KeySteps(lines);
        LinesSplit(lines, 1 + n);
        CleanSplit(lines, 1 + n);
        CleanFront(lines[1 + n..]);
        var block := PrintedBlock(lines[1..1 + n]);
        PrintedBlockIs(lines[1..1 + n]);
        KeyColon(lines[0]);
        var head := KeyText(KeyOf(lines[0]), ValueOf(lines[0]), block != []);
        KeyLineParts(lines[0]);
        CleanKey(KeyOf(lines[0]), ValueOf(lines[0]), block != []);
        CleanParts([head], block);
        CleanParts([""], RewrittenFront(lines[1 + n..]));
        CleanParts([head] + block, RewrittenFront(lines[1 + n..]));
      }
    }
  }

  lemma KeyColon(line: string)
    requires KeyLine(line)
    ensures ':' in line
  {}

  lemma PrintedBlockIs(block: seq<string>)
    ensures PrintedBlock(block) == [] || PrintedBlock(block) == block
  {
    hide Join;
  }

  lemma CleanParts(a: seq<string>, b: seq<string>)
    ensures NoEndCr([])
    ensures NoEndCr(a + b) <==> NoEndCr(a) && NoEndCr(b)
    ensures |a| == 1 ==> (NoEndCr(a) <==> !EndsCr(a[0]))
  {
    hide EndsCr;
    var all := a + b;
    assert forall i | 0 <= i < |a| :: all[i] == a[i];
    assert forall i | 0 <= i < |b| :: all[|a| + i] == b[i];
    assert forall i | |a| <= i < |all| :: all[i] == b[i - |a|];
  }

  lemma CleanSplit(lines: seq<string>, n: nat)
    requires NoEndCr(lines) && 0 < n <= |lines|
    ensures NoEndCr(lines[1..n]) && NoEndCr(lines[n..]) && !EndsCr(lines[0])
  {
    hide EndsCr;
  }

  lemma CleanKey(key: string, value: string, block: bool)
    requires Trimmed(value)
    ensures !EndsCr(KeyText(key, value, block)) && !EndsCr("")
  {}

  /** A CR at its end does not change what a line is. */
  lemma ChompedLine(line: string)
    ensures Blank(Chomp(line)) == Blank(line) && Comment(Chomp(line)) == Comment(line)
    ensures Indented(Chomp(line)) == Indented(line) && KeyLine(Chomp(line)) == KeyLine(line)
    ensures KeyLine(line) ==> KeyOf(Chomp(line)) == KeyOf(line) && ValueOf(Chomp(line)) == ValueOf(line)
  {
    ChompTrims(line);
    hide TrimSpace;
    if EndsCr(line) {
      var head := line[..|line| - 1];
      assert line == head + "\r";
      assert ':' in line <==> ':' in head;
      assert head == "" ==> !Indented(line);
      if ':' in line { ChompedKey(head); }
    }
  }

  lemma ChompedKey(head: string)
    requires ':' in head
    ensures ':' in head + "\r" && KeyOf(head + "\r") == KeyOf(head) && ValueOf(head + "\r") == ValueOf(head)
  {
    IndexOf(head, ':');
    var k := Index(head, ":");
    var line := head + "\r";
    assert head == head[..k] + ":" + head[k + 1..];
    assert line == head[..k] + ":" + (head[k + 1..] + "\r");
    IndexAt(head[..k], ':', head[k + 1..] + "\r");
    assert line[..k] == head[..k] && line[k + 1..] == head[k + 1..] + "\r";
    TrimRightPad(head[k + 1..], "\r");
    hide TrimSpace, Index;
  }

  /** Frontmatter that parses does so with the CRs gone, and with the same keys. */
  lemma {:induction false} ChompedParsable(lines: seq<string>, open: bool)
    requires Parsable(lines, open)
    ensures Parsable(Chomped(lines), open) && KeyedLines(Chomped(lines)) == KeyedLines(lines)
  {
    if lines != [] {
      ChompedLine(lines[0]);
      ParsableNext(lines, open);
      assert Chomped(lines)[1..] == Chomped(lines[1..]) && Chomped(lines)[0] == Chomp(lines[0]);
      hide Blank, Comment, Indented, KeyLine, KeyOf, ValueOf, Opens, Chomp;
      ChompedParsable(lines[1..], NextOpen(lines[0], open));
    }
  }

  /** Whether an indented line may follow. */
  predicate NextOpen(line: string, open: bool) {
    if Blank(line) || Indented(line) then open
    else if Comment(line) then false
    else KeyLine(line) && Opens(ValueOf(line))
  }

  lemma ParsableNext(lines: seq<string>, open: bool)
    requires Parsable(lines, open) && lines != []
    ensures Parsable(lines[1..], NextOpen(lines[0], open))
  {
    hide Blank, Indented, KeyOf, ValueOf, Opens;
  }

  lemma {:induction false} ChompedNamed(lines: seq<string>)
    requires NoEmptyKey(lines)
    ensures NoEmptyKey(Chomped(lines))
  {
    if lines != [] {
      ChompedLine(lines[0]);
      hide KeyOf, KeyLine, Chomp;
      assert forall i | 0 <= i < |lines[1..]| :: lines[1..][i] == lines[i + 1];
      ChompedNamed(lines[1..]);
      var after := Chomped(lines);
      assert forall i | 0 < i < |after| :: after[i] == Chomped(lines[1..])[i - 1];
    }
  }
}
