/** internal/mdstore/mdstore.go as it is written, in loops and with entries changed
    in place, proved to compute the functions of the other Markdown modules. */
module MarkdownCode {
  import opened Wrappers
  import opened MarkdownText
  import opened MarkdownCodec
  import opened MarkdownFront
  import opened MarkdownSections
  import opened MarkdownDoc

  // ---------------------------------------------------------------- values

  lemma Regroup<T>(a: seq<T>, b: seq<T>, c: seq<T>)
    ensures a + (b + c) == a + b + c
  {}

  lemma EscapeAt(s: string, i: nat, breaks: bool)
    requires i < |s|
    ensures Escape(s[i..], breaks) == EscapeChar(s[i], breaks) + Escape(s[i + 1..], breaks)
  {
    assert s[i..][0] == s[i] && s[i..][1..] == s[i + 1..];
  }

  method EscapeText(s: string, breaks: bool) returns (out: string)
    ensures out == Escape(s, breaks)
  {
    out := "";
    assert s[0..] == s && s[|s|..] == "" && Escape("", breaks) == "";
    hide EscapeChar, Escape;
    for i := 0 to |s|
      invariant Escape(s, breaks) == out + Escape(s[i..], breaks)
    {
      EscapeAt(s, i, breaks);
      Regroup(out, EscapeChar(s[i], breaks), Escape(s[i + 1..], breaks));
      out := out + EscapeChar(s[i], breaks);
    }
  }

  /** quoteScalar. */
  method QuoteScalarText(s: string) returns (r: string)
    ensures r == QuoteScalar(s)
  {
    hide Escape, ScalarNeedsQuotes;
    if !ScalarNeedsQuotes(s) { return s; }
    var body := EscapeText(s, true);
    return "\"" + body + "\"";
  }

  /** quoteListElem. */
  method QuoteElemText(s: string) returns (r: string)
    ensures r == QuoteListElem(s)
  {
    hide Escape, ElemNeedsQuotes;
    if !ElemNeedsQuotes(s) { return s; }
    var body := EscapeText(s, false);
    return "\"" + body + "\"";
  }

  /** unescapeDouble. */
  method UnescapeText(s: string) returns (out: string)
    ensures out == UnescapeDouble(s)
  {
    out := "";
    var i := 0;
    assert s[0..] == s && s[|s|..] == "" && UnescapeDouble("") == "";
    hide UnescapeDouble;
    while i < |s|
      invariant i <= |s| && UnescapeDouble(s) == out + UnescapeDouble(s[i..])
    {
      UnescapeAt(s, i);
      var c := s[i];
      var piece, width := [c], 1;
      if c == '\\' && i + 1 < |s| {
        if s[i + 1] == '"' || s[i + 1] == '\\' {
          piece, width := [s[i + 1]], 2;
        } else if s[i + 1] == 'n' {
          piece, width := "\n", 2;
        } else if s[i + 1] == 'r' {
          piece, width := "\r", 2;
        } else if s[i + 1] == 't' {
          piece, width := "\t", 2;
        }
      }
      assert Unescaped(s, i) == (piece, width);
      hide Unescaped;
      Regroup(out, piece, UnescapeDouble(s[i + width..]));
      out, i := out + piece, i + width;
    }
  }

  /** What stands at `i`, unescaped, and how long it is. */
  function Unescaped(s: string, i: nat): (r: (string, nat))
    requires i < |s|
    ensures i + r.1 <= |s|
  {
    if s[i] == '\\' && i + 1 < |s| && (s[i + 1] == '"' || s[i + 1] == '\\') then ([s[i + 1]], 2)
    else if s[i] == '\\' && i + 1 < |s| && s[i + 1] == 'n' then ("\n", 2)
    else if s[i] == '\\' && i + 1 < |s| && s[i + 1] == 'r' then ("\r", 2)
    else if s[i] == '\\' && i + 1 < |s| && s[i + 1] == 't' then ("\t", 2)
    else ([s[i]], 1)
  }

  lemma UnescapeAt(s: string, i: nat)
    requires i < |s|
    ensures var (piece, width) := Unescaped(s, i); UnescapeDouble(s[i..]) == piece + UnescapeDouble(s[i + width..])
  {
    var t := s[i..];
    assert t[0] == s[i] && t[1..] == s[i + 1..];
    if i + 1 < |s| { assert t[1] == s[i + 1] && t[2..] == s[i + 2..]; }
  }

  /** clean: the loop that strips a trailing comment, then the quotes. */
  method CleanText(v: string) returns (r: string)
    ensures r == Clean(v)
  {
    hide TrimSpace, UnescapeDouble;
    var t := TrimSpace(v);
    var u := t;
    var q: Option<char> := None;
    var i := 0;
    while i < |t|
      invariant i <= |t| && u == t && CommentCut(t, 0, None) == CommentCut(t, i, q)
    {
      var c := t[i];
      if q == Some('"') && c == '\\' && i + 1 < |t| {
        i := i + 1;
      } else if q.Some? {
        if c == q.value { q := None; }
      } else if c == '"' || c == '\'' {
        q := Some(c);
      } else if c == '#' && i > 0 && (t[i - 1] == ' ' || t[i - 1] == '\t') {
        u := TrimSpace(t[..i]);
        break;
      }
      i := i + 1;
    }
    assert u == if CommentCut(t, 0, None) < |t| then TrimSpace(t[..CommentCut(t, 0, None)]) else t;
    if |u| >= 2 && ((u[0] == '"' && u[|u| - 1] == '"') || (u[0] == '\'' && u[|u| - 1] == '\'')) {
      var inner := u[1..|u| - 1];
      if u[0] == '"' {
        r := UnescapeText(inner);
      } else {
        r := inner;
      }
    } else {
      r := u;
    }
  }

  method PieceText(p: string) returns (r: seq<string>)
    ensures r == Piece(p)
  {
    hide TrimSpace, Clean;
    var t := TrimSpace(p);
    if t == "" { return []; }
    var c := CleanText(t);
    return [c];
  }

  /** splitTop: the loop over nesting depth, quotes and commas. */
  method SplitTopText(s: string) returns (out: seq<string>)
    ensures out == SplitTop(s, 0, 0, 0, None)
  {
    hide Piece;
    out := [];
    var depth := 0;
    var q: Option<char> := None;
    var start, i := 0, 0;
    while i < |s|
      invariant start <= i <= |s| && SplitTop(s, 0, 0, 0, None) == out + SplitTop(s, i, start, depth, q)
    {
      var c := s[i];
      if q == Some('"') && c == '\\' && i + 1 < |s| {
        i := i + 1;
      } else if q.Some? {
        if c == q.value { q := None; }
      } else if c == '"' || c == '\'' {
        q := Some(c);
      } else if c == '[' || c == '{' {
        depth := depth + 1;
      } else if c == ']' || c == '}' {
        depth := depth - 1;
      } else if c == ',' && depth == 0 {
        var piece := PieceText(s[start..i]);
        assert out + (piece + SplitTop(s, i + 1, i + 1, depth, q)) == out + piece + SplitTop(s, i + 1, i + 1, depth, q);
        out := out + piece;
        start := i + 1;
      }
      i := i + 1;
    }
    var last := PieceText(s[start..]);
    out := out + last;
  }

  // ---------------------------------------------------------------- the frontmatter of a document

  /** strings.Join with ", ". */
  method JoinText(items: seq<string>) returns (r: string)
    ensures r == JoinList(items)
  {
    r := "";
    if items == [] { return; }
    r := items[|items| - 1];
    var i := |items| - 1;
    assert items[i..] == [items[i]];
    while i > 0
      invariant i < |items| && r == JoinList(items[i..])
    {
      i := i - 1;
      assert items[i..][0] == items[i] && items[i..][1..] == items[i + 1..];
      r := items[i] + ", " + r;
    }
    assert items[0..] == items;
  }

  class Front {
    var entries: seq<Entry>

    constructor (entries: seq<Entry>)
      ensures this.entries == entries
    {
      this.entries := entries;
    }

    method Get(k: string) returns (v: Option<string>)
      ensures v == MarkdownDoc.Get(entries, k)
    {
      hide Clean;
      assert entries[0..] == entries;
      for i := 0 to |entries|
        invariant MarkdownDoc.Get(entries, k) == MarkdownDoc.Get(entries[i..], k)
      {
        assert entries[i..][0] == entries[i] && entries[i..][1..] == entries[i + 1..];
        if entries[i].key == k && entries[i].block == "" {
          var c := CleanText(entries[i].value);
          return Some(c);
        }
      }
      assert entries[|entries|..] == [];
      return None;
    }

    method Set(k: string, v: string)
      modifies this
      ensures entries == MarkdownDoc.Set(old(entries), k, v)
    {
      hide QuoteScalar;
      var rv := QuoteScalarText(v);
      for i := 0 to |entries|
        invariant entries == old(entries) && forall j | 0 <= j < i :: entries[j].key != k
      {
        if entries[i].key == k {
          SetAt(entries, k, rv, i);
          entries := entries[i := Entry(k, rv, "", "")];
          return;
        }
      }
      SetAt(entries, k, rv, |entries|);
      entries := entries + [Entry(k, rv, "", "")];
    }

    method Delete(k: string)
      modifies this
      ensures entries == MarkdownDoc.Delete(old(entries), k)
    {
      for i := 0 to |entries|
        invariant entries == old(entries) && forall j | 0 <= j < i :: entries[j].key != k
      {
        if entries[i].key == k {
          DeleteAt(entries, k, i);
          entries := entries[..i] + entries[i + 1..];
          return;
        }
      }
      DeleteAt(entries, k, |entries|);
    }

    method SetList(k: string, items: seq<string>)
      modifies this
      ensures entries == MarkdownDoc.SetList(old(entries), k, items)
    {
      hide QuoteListElem, MarkdownDoc.Set;
      var quoted: seq<string> := [];
      for i := 0 to |items|
        invariant entries == old(entries) && |quoted| == i && forall j | 0 <= j < i ::
            quoted[j] == QuoteListElem(items[j])
      {
        var elem := QuoteElemText(items[i]);
        quoted := quoted + [elem];
      }
      assert quoted == QuoteAll(items);
      var text := JoinText(quoted);
      Set(k, "[" + text + "]");
    }

    method GetList(k: string) returns (items: Option<seq<string>>)
      ensures items == MarkdownDoc.GetList(entries, k)
    {
      hide SplitTop, MarkdownDoc.Get;
      var v := Get(k);
      if v.None? { return None; }
      if !HasPrefix(v.value, "[") || !HasSuffix(v.value, "]") { return None; }
      if |v.value| < 2 { return None; }
      var parts := SplitTopText(v.value[1..|v.value| - 1]);
      return Some(parts);
    }
  }

  lemma {:induction false} SetAt(es: seq<Entry>, k: string, value: string, i: nat)
    requires i <= |es| && (forall j | 0 <= j < i :: es[j].key != k) && (i < |es| ==> es[i].key == k)
    ensures SetEntry(es, k, value) == if i < |es| then es[i := Entry(k, value, "", "")]
        else es + [Entry(k, value, "", "")]
  {
    if i > 0 { SetAt(es[1..], k, value, i - 1); }
  }

  lemma {:induction false} DeleteAt(es: seq<Entry>, k: string, i: nat)
    requires i <= |es| && (forall j | 0 <= j < i :: es[j].key != k) && (i < |es| ==> es[i].key == k)
    ensures MarkdownDoc.Delete(es, k) == if i < |es| then es[..i] + es[i + 1..] else es
  {
    if i > 0 { DeleteAt(es[1..], k, i - 1); }
  }

  // ---------------------------------------------------------------- parsing

  /** The entries of the lines read so far in front of those of the rest. */
  function Onto(out: seq<Entry>, rest: Option<seq<Entry>>): Option<seq<Entry>> {
    if rest.Some? then Some(out + rest.value) else None
  }

  lemma OntoStep(out: seq<Entry>, e: Entry, rest: Option<seq<Entry>>)
    ensures Onto(out, if rest.Some? then Some([e] + rest.value) else None) == Onto(out + [e], rest)
  {
    if rest.Some? { assert out + ([e] + rest.value) == out + [e] + rest.value; }
  }

  /** The look-ahead over blank lines: does the first visible line belong to the block? */
  method AllBlank(lines: seq<string>, from: nat) returns (ok: bool)
    requires from <= |lines|
    ensures ok <==> VisibleIsIndented(lines[from..])
  {
    hide Blank, Indented;
    for j := from to |lines|
      invariant VisibleIsIndented(lines[from..]) <==> VisibleIsIndented(lines[j..])
    {
      assert lines[j..][0] == lines[j] && lines[j..][1..] == lines[j + 1..];
      if !Blank(lines[j]) { return Indented(lines[j]); }
    }
    assert lines[|lines|..] == [];
    return true;
  }

  /** The loop that takes the lines of a block. */
  method TakeBlock(lines: seq<string>, from: nat) returns (block: seq<string>)
    requires from <= |lines|
    ensures block == lines[from..from + BlockLen(lines[from..])]
  {
    hide Blank, Indented, VisibleIsIndented;
    block := [];
    var i := from;
    while i < |lines| && (Indented(lines[i]) || Blank(lines[i]))
      invariant from <= i <= |lines| && block == lines[from..i]
          && BlockLen(lines[from..]) == i - from + BlockLen(lines[i..])
    {
      assert lines[i..][0] == lines[i] && lines[i..][1..] == lines[i + 1..];
      if Blank(lines[i]) {
        var all := AllBlank(lines, i);
        if !all { break; }
      }
      block := block + [lines[i]];
      i := i + 1;
    }
    assert BlockLen(lines[i..]) == 0 by { assert i < |lines| ==> lines[i..][0] == lines[i]; }
  }

  /** parseFront: None is an error. */
  method ParseFront(fm: string) returns (es: Option<seq<Entry>>)
    ensures es == ParseEntries(Split(fm))
  {
    hide Blank, Comment, Indented, KeyOf, ValueOf, BlockLen, Opens, Split, Join, ParseEntries;
    var lines := Split(fm);
    var out: seq<Entry> := [];
    var i := 0;
    assert lines[0..] == lines;
    OntoNothing(ParseEntries(lines));
    while i < |lines|
      invariant i <= |lines| && ParseEntries(lines) == Onto(out, ParseEntries(lines[i..]))
    {
      var line := lines[i];
      var left := lines[i..];
      assert left[0] == line && left[1..] == lines[i + 1..];
      LineCases(left);
      if Comment(line) {
        OntoStep(out, Raw(line), ParseEntries(lines[i + 1..]));
        out := out + [Raw(line)];
        i := i + 1;
        continue;
      }
      if Indented(line) || ':' !in line { return None; }
      var key, val := KeyOf(line), ValueOf(line);
      var block: seq<string> := [];
      if Opens(val) { block := TakeBlock(lines, i + 1); }
      BlockTaken(lines, i, block);
      OntoStep(out, Entry(key, val, Join(block), ""), ParseEntries(lines[i + 1 + |block|..]));
      out := out + [Entry(key, val, Join(block), "")];
      i := i + 1 + |block|;
    }
    assert lines[|lines|..] == [];
    NothingToParse();
    assert out + [] == out;
    return Some(out);
  }

  lemma BlockTaken(lines: seq<string>, i: nat, block: seq<string>)
    requires i < |lines| && KeyLine(lines[i])
    requires block == if Opens(ValueOf(lines[i])) then lines[i + 1..i + 1 + BlockLen(lines[i + 1..])] else []
    ensures var left := lines[i..];
      block == left[1..1 + BlockAfter(left)] && i + 1 + |block| <= |lines|
          && left[1 + BlockAfter(left)..] == lines[i + 1 + |block|..]
  {
    hide BlockLen, Opens, KeyOf, ValueOf, KeyLine;
    var left := lines[i..];
    assert left[0] == lines[i] && left[1..] == lines[i + 1..];
    assert BlockAfter(left) == |block|;
  }

  lemma OntoNothing(es: Option<seq<Entry>>)
    ensures Onto([], es) == es
  {
    if es.Some? { assert [] + es.value == es.value; }
  }

  lemma LineCases(lines: seq<string>)
    requires lines != []
    ensures Comment(lines[0]) ==>
      ParseEntries(lines) == var rest := ParseEntries(lines[1..]);
          if rest.Some? then Some([Raw(lines[0])] + rest.value) else None
    ensures !Comment(lines[0]) && (Indented(lines[0]) || ':' !in lines[0]) ==> ParseEntries(lines) == None
    ensures !Comment(lines[0]) && !Indented(lines[0]) && ':' in lines[0] ==>
      var n := BlockAfter(lines); var rest := ParseEntries(lines[1 + n..]);
      ParseEntries(lines) == if rest.Some?
          then Some([Entry(KeyOf(lines[0]), ValueOf(lines[0]), Join(lines[1..1 + n]), "")] + rest.value) else None
  {
    hide Comment, Indented, KeyOf, ValueOf, BlockLen, Opens, Join, Blank;
  }

  /** heading. */
  method HeadingOf(line: string) returns (s: Option<Section>)
    ensures s == Heading(line)
  {
    hide TrimSpace;
    var i := 0;
    assert line[0..] == line;
    while i < |line| && line[i] == '#'
      invariant i <= |line| && Hashes(line) == i + Hashes(line[i..])
    {
      assert line[i..][1..] == line[i + 1..];
      i := i + 1;
    }
    assert Hashes(line[i..]) == 0;
    if i == 0 || i > 6 || i >= |line| || line[i] != ' ' { return None; }
    return Some(Section(i, TrimSpace(line[i + 1..]), ""));
  }

  /** flush. */
  method FlushSection(cur: Section, buf: seq<string>) returns (out: seq<Section>)
    ensures out == Flush(cur, buf)
  {
    hide Blank;
    var content := "";
    if |buf| > 0 {
      content := Join(buf) + "\n";
      TerminatedIsJoin(buf);
    }
    if cur.level != 0 || cur.title != "" || !Blank(content) { return [cur.(content := content)]; }
    return [];
  }

  /** parseSections. */
  method ParseSectionsText(body: string) returns (out: seq<Section>)
    ensures out == ParseSections(body)
  {
    if body == "" { return []; }
    var lines := Split(body);
    if lines[|lines| - 1] == "" { lines := lines[..|lines| - 1]; }
    assert ParseSections(body) == ParseLines(lines, START, [], false);
    hide *;
    out := [];
    var cur, buf, inFence := START, [], false;
    assert lines[0..] == lines;
    assert [] + ParseLines(lines, START, [], false) == ParseLines(lines, START, [], false);
    for i := 0 to |lines|
      invariant ParseLines(lines, START, [], false) == out + ParseLines(lines[i..], cur, buf, inFence)
    {
      var line, left := lines[i], lines[i..];
      assert left[0] == line && left[1..] == lines[i + 1..];
      ParseStep(left, cur, buf, inFence);
      if Fence(line) { inFence := !inFence; }
      var h := HeadingOf(line);
      if !inFence && h.Some? {
        var done := FlushSection(cur, buf);
        Regroup(out, done, ParseLines(lines[i + 1..], h.value, [], inFence));
        out := out + done;
        cur, buf := h.value, [];
      } else {
        buf := buf + [line];
      }
    }
    assert lines[|lines|..] == [];
    ParseStep([], cur, buf, inFence);
    var done := FlushSection(cur, buf);
    out := out + done;
  }

  /** Parse. */
  method ParseDoc(raw: string) returns (d: Option<Doc>)
    ensures d == Parse(raw)
  {
    hide Normalize, Index, ParseEntries, ParseSections, Split;
    var text := Normalize(raw);
    var front: seq<Entry> := [];
    var body := text;
    if HasPrefix(text, "---\n") {
      var rest := text[4..];
      var end := Index(rest, CLOSE);
      var fm := "";
      if HasPrefix(rest, "---\n") {
        fm, body := "", rest[4..];
      } else if rest == "---" {
        fm, body := "", "";
      } else if end >= 0 {
        fm, body := rest[..end], rest[end + 5..];
      } else if HasSuffix(rest, "\n---") {
        fm, body := rest[..|rest| - 4], "";
      } else {
        return None;
      }
      assert Cut(rest) == Some(Halves(fm, body));
      var es := ParseFront(fm);
      if es.None? { return None; }
      front := es.value;
    }
    var sections := ParseSectionsText(body);
    return Some(Doc(front, sections));
  }

  // ---------------------------------------------------------------- printing

  /** bodyOpensWithRule. */
  method BodyOpensWithRule(sections: seq<Section>) returns (r: bool)
    ensures r == OpensWithRule(sections)
  {
    hide TrimNewlines;
    assert sections[0..] == sections;
    for i := 0 to |sections|
      invariant OpensWithRule(sections) == OpensWithRule(sections[i..])
    {
      assert sections[i..][0] == sections[i] && sections[i..][1..] == sections[i + 1..];
      if sections[i].level > 0 { return false; }
      var c := TrimNewlines(sections[i].content);
      if c != "" { return HasPrefix(c, "---"); }
    }
    assert sections[|sections|..] == [];
    return false;
  }

  /** One entry of Render's loop. */
  method EntryText(e: Entry) returns (b: string)
    ensures b == Terminated(EntryLines(e))
  {
    EntryTextLines(e);
    hide Split, Terminated, EntryLines;
    if e.key == "" {
      b := e.raw + "\n";
    } else if e.block != "" {
      b := e.key + ":";
      if e.value != "" { b := b + " " + e.value; }
      b := b + "\n" + e.block + "\n";
    } else {
      b := e.key + ": " + e.value + "\n";
    }
  }

  lemma EntryTextLines(e: Entry)
    ensures Terminated(EntryLines(e)) ==
      if e.key == "" then e.raw + "\n"
      else if e.block != ""
          then (if e.value != "" then e.key + ":" + " " + e.value else e.key + ":") + "\n" + e.block + "\n"
      else e.key + ": " + e.value + "\n"
  {
    SplitLines(e.block);
    TerminatedIsJoin(Split(e.block));
    hide Split, Join;
    if e.key == "" {
      OneLine(e.raw);
    } else if e.block != "" {
      var head := e.key + ":" + if e.value != "" then " " + e.value else "";
      TerminatedConcat([head], Split(e.block));
      OneLine(head);
      assert head == if e.value != "" then e.key + ":" + " " + e.value else e.key + ":";
      assert head + "\n" + (e.block + "\n") == head + "\n" + e.block + "\n";
    } else {
      OneLine(e.key + ": " + e.value);
    }
  }

  /** One section of Render's loop. */
  method SectionPrinted(s: Section) returns (b: string)
    ensures b == SectionText(s)
  {
    b := "";
    if s.level > 0 { b := seq(s.level, _ => '#') + " " + s.title + "\n"; }
    b := b + s.content;
    if s.content != "" && !HasSuffix(s.content, "\n") { b := b + "\n"; }
    assert s.level > 0 ==> HeadText(s) + "\n" == seq(s.level, _ => '#') + " " + s.title + "\n";
  }

  /** The frontmatter loop of Render. */
  method FrontPrinted(front: seq<Entry>) returns (b: string)
    ensures b == "---\n" + Terminated(FrontLines(front)) + "---\n"
  {
    hide EntryLines, Terminated;
    b := "---\n";
    assert front[..0] == [] && FrontLines([]) == [];
    TerminatedNothing();
    for i := 0 to |front|
      invariant b == "---\n" + Terminated(FrontLines(front[..i]))
    {
      FrontSnoc(front, i);
      var text := EntryText(front[i]);
      b := b + text;
    }
    assert front[..|front|] == front;
    b := b + "---\n";
  }

  lemma TerminatedNothing()
    ensures Terminated([]) == ""
  {}

  /** Render. */
  method RenderDoc(d: Doc) returns (b: string)
    ensures b == Render(d)
  {
    hide FrontLines, Terminated, SectionText, OpensWithRule;
    b := "";
    var rule := BodyOpensWithRule(d.sections);
    var emptyFront := |d.front| == 0 && rule;
    if |d.front| > 0 || emptyFront { b := FrontPrinted(d.front); }
    ghost var front := b;
    assert d.sections[..0] == [];
    for i := 0 to |d.sections|
      invariant b == front + BodyText(d.sections[..i])
    {
      BodySnoc(d.sections, i);
      var text := SectionPrinted(d.sections[i]);
      b := b + text;
    }
    assert d.sections[..|d.sections|] == d.sections;
  }

  lemma FrontSnoc(es: seq<Entry>, i: nat)
    requires i < |es|
    ensures Terminated(FrontLines(es[..i + 1])) == Terminated(FrontLines(es[..i])) + Terminated(EntryLines(es[i]))
  {
    FrontConcat(es[..i], [es[i]]);
    assert es[..i + 1] == es[..i] + [es[i]];
    TerminatedConcat(FrontLines(es[..i]), EntryLines(es[i]));
    hide EntryLines;
    assert [es[i]][1..] == [] && EntryLines(es[i]) + [] == EntryLines(es[i]);
    assert FrontLines([es[i]]) == EntryLines(es[i]) + FrontLines([]);
  }

  lemma {:induction false} FrontConcat(a: seq<Entry>, b: seq<Entry>)
    ensures FrontLines(a + b) == FrontLines(a) + FrontLines(b)
  {
    hide EntryLines;
    if a == [] {
      assert a + b == b;
    } else {
      assert (a + b)[1..] == a[1..] + b;
      FrontConcat(a[1..], b);
    }
  }

  lemma {:induction false} BodyConcat(a: seq<Section>, b: seq<Section>)
    ensures BodyText(a + b) == BodyText(a) + BodyText(b)
  {
    hide SectionText;
    if a == [] {
      assert a + b == b;
    } else {
      assert (a + b)[1..] == a[1..] + b;
      BodyConcat(a[1..], b);
    }
  }

  lemma BodySnoc(sections: seq<Section>, i: nat)
    requires i < |sections|
    ensures BodyText(sections[..i + 1]) == BodyText(sections[..i]) + SectionText(sections[i])
  {
    BodyConcat(sections[..i], [sections[i]]);
    assert sections[..i + 1] == sections[..i] + [sections[i]];
    hide SectionText;
    assert [sections[i]][1..] == [];
    assert BodyText([sections[i]]) == SectionText(sections[i]) + BodyText([]);
  }
}
