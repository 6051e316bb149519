/** Event files: how one is written, read and checked (Append and parseEvent in
    internal/eventlog/eventlog.go, validDismissal in internal/eventdisp/eventdisp.go),
    on top of the Markdown store. */
module EventRecords {
  import opened Wrappers
  import opened MarkdownText
  import opened MarkdownCodec
  import opened MarkdownFront
  import opened MarkdownSections
  import opened MarkdownDoc

  /** What the checksum of an event covers. */
  datatype Payload = Payload(version: int, id: string, docKind: string, kind: string, created: string, actor: string,
                             about: string, origin: string, against: string, body: string)

  /** The library calls: the event checksum, SHA-256 of a file and strconv.Atoi.
      Only the laws below are ever assumed. */
  datatype Digest = Digest(checksum: Payload -> string, sum: string -> string, atoi: string -> Option<int>) {
    ghost predicate Lawful() {
      && (forall p, q :: checksum(p) == checksum(q) ==> p == q)
      && (forall p :: checksum(p) != "")
      && (forall s, t :: sum(s) == sum(t) ==> s == t)
      && atoi("1") == Some(1)
    }
  }

  const SCHEMA := 1
  const EVENT := "event"
  const DISMISSAL := "dismissal"

  /** IsJournal: kinds that are complete when written. */
  predicate IsJournal(kind: string) {
    kind == "commit" || kind == "run" || kind == "exit" || kind == DISMISSAL || kind == "review"
  }

  datatype Event = Event(version: int, checksum: string, id: string, docKind: string, kind: string, actor: string,
      about: string,
                         origin: string, against: string, applied: bool, pending: bool, body: string)

  // ---------------------------------------------------------------- reading

  function Field(d: Doc, k: string): string {
    var v := Get(d.front, k);
    if v.Some? then v.value else ""
  }

  function TrimPrefix(s: string, p: string): string { if p <= s then s[|p|..] else s }

  function TrimSuffix(s: string, p: string): string { if HasSuffix(s, p) then s[..|s| - |p|] else s }

  function AboutOf(d: Doc): string { TrimSuffix(TrimPrefix(Field(d, "about"), "[["), "]]") }

  function Contents(sections: seq<Section>): string {
    if sections == [] then "" else sections[0].content + Contents(sections[1..])
  }

  function PayloadOf(d: Doc, version: int): Payload {
    Payload(version, Field(d, "id"), Field(d, "kind"), Field(d, "event_kind"), Field(d, "created"),
        Field(d, "created_by"),
            AboutOf(d), Field(d, "origin"), Field(d, "against"), TrimSpace(Contents(d.sections)))
  }

  /** parseEvent; None is an error. */
  function ParseEvent(dg: Digest, d: Doc): Option<Event> {
    var version, checksum := Get(d.front, "schema_version"), Field(d, "checksum");
    var p := PayloadOf(d, 0);
    var e := Event(0, checksum, p.id, p.docKind, p.kind, p.actor, p.about, p.origin, p.against,
                   Field(d, "applied") == "true", Field(d, "applied") == "false", p.body);
    if version.None? && checksum == "" then Some(e)
    else if version.None? || checksum == "" then None
    else if dg.atoi(version.value) != Some(SCHEMA) then None
    else if checksum != dg.checksum(p.(version := SCHEMA)) then None
    else Some(e.(version := SCHEMA))
  }

  /** What ListReport asks of an event before it dismisses the one it names. */
  predicate Authorizes(e: Event) {
    e.version == SCHEMA && e.docKind == EVENT && e.kind == DISMISSAL && e.id != "" && e.applied && e.about != ""
  }

  /** validDismissal: the id dismissed, if the record is a valid dismissal. */
  function ValidDismissal(dg: Digest, d: Doc): Option<string> {
    var version := Get(d.front, "schema_version");
    if version.None? || dg.atoi(version.value) != Some(SCHEMA) then None
    else
      var p := PayloadOf(d, SCHEMA);
      var got := Field(d, "checksum");
      if p.docKind == EVENT && p.kind == DISMISSAL && Field(d, "applied") == "true" && p.id != "" && p.about != ""
         && got != "" && got == dg.checksum(p)
      then Some(p.about) else None
  }

  /** The two independent readings of a dismissal agree on every record. */
  lemma SameVerdict(dg: Digest, d: Doc)
    ensures ValidDismissal(dg, d) == var e := ParseEvent(dg, d);
        if e.Some? && Authorizes(e.value) then Some(e.value.about) else None
  {
    hide Get, TrimSpace, Contents, AboutOf;
  }

  /** The event in a file's bytes: None when the file cannot be parsed or verified. */
  function ReadEvent(dg: Digest, raw: string): Option<Event> {
    var d := Parse(raw);
    if d.None? then None else ParseEvent(dg, d.value)
  }

  // ---------------------------------------------------------------- writing

  /** Front.Set called once for each pair. */
  function SetAll(es: seq<Entry>, fields: seq<(string, string)>): seq<Entry>
    decreases |fields|
  {
    if fields == [] then es else SetAll(Set(es, fields[0].0, fields[0].1), fields[1..])
  }

  /** The frontmatter fields that AppendFinding sets, in its order. */
  function EventFields(p: Payload, applied: string, checksum: string): seq<(string, string)> {
    [("id", p.id), ("kind", EVENT), ("schema_version", "1"), ("event_kind", p.kind), ("created", p.created),
        ("created_by", p.actor)]
    + (if p.about != "" then [("about", "[[" + p.about + "]]")] else [])
    + [("origin", p.origin)]
    + (if p.against != "" then [("against", p.against)] else [])
    + [("applied", applied), ("checksum", checksum)]
  }

  /** AppendFinding: the document it writes. An empty origin has become "agent". */
  function AppendDoc(dg: Digest, id: string, kind: string, created: string, actor: string, about: string,
      origin: string,
                     against: string, body: string): Doc
  {
    var p := Payload(SCHEMA, id, EVENT, kind, created, actor, about, if origin == "" then "agent"
        else origin, against, TrimSpace(body));
    Doc(SetAll([], EventFields(p, if IsJournal(kind) then "true" else "false", dg.checksum(p))),
        if body != "" then [Section(0, "", body + "\n")] else [])
  }

  // ---------------------------------------------------------------- fields through a file

  lemma {:induction false} KeyedSet(es: seq<Entry>, k: string, value: string, j: string)
    requires k != ""
    ensures FirstValue(Keyed(SetEntry(es, k, value)), j) == if j == k then Some(value) else FirstValue(Keyed(es), j)
  {
    var after := SetEntry(es, k, value);
    if es == [] {
      assert after == [Entry(k, value, "", "")] && after[1..] == [];
      assert Keyed(after) == [(k, value)] + Keyed([]);
      assert Keyed(after)[1..] == [];
    } else {
      KeyedHead(es);
      KeyedHead(after);
      if es[0].key == k {
        assert after[1..] == es[1..];
        assert Keyed(after)[1..] == Keyed(es[1..]);
      } else {
        assert after[1..] == SetEntry(es[1..], k, value);
        KeyedSet(es[1..], k, value, j);
      }
    }
  }

  lemma KeyedHead(es: seq<Entry>)
    requires es != []
    ensures es[0].key == "" ==> Keyed(es) == Keyed(es[1..])
    ensures es[0].key != ""
        ==> Keyed(es) != [] && Keyed(es)[0] == (es[0].key, es[0].value) && Keyed(es)[1..] == Keyed(es[1..])
  {}

  /** The last value given to a key. */
  function LastGiven(fields: seq<(string, string)>, k: string): Option<string> {
    if fields == [] then None
    else
      var later := LastGiven(fields[1..], k);
      if later.Some? then later else if fields[0].0 == k then Some(fields[0].1) else None
  }

  /** The quoted value a key ends with, when it had `before`. */
  function Given(fields: seq<(string, string)>, k: string, before: Option<string>): Option<string> {
    var given := LastGiven(fields, k);
    if given.Some? then Some(QuoteScalar(given.value)) else before
  }

  predicate GoodFields(fields: seq<(string, string)>) {
    forall i | 0 <= i < |fields| :: GoodKey(fields[i].0)
  }

  lemma {:induction false} SetAllKeeps(es: seq<Entry>, fields: seq<(string, string)>)
    requires AllPrintable(es) && GoodFields(fields)
    ensures AllPrintable(SetAll(es, fields)) && (fields != [] || es != [] ==> SetAll(es, fields) != [])
    ensures forall k | k != "" :: FirstValue(Keyed(SetAll(es, fields)), k) == Given(fields, k, FirstValue(Keyed(es), k))
    decreases |fields|
  {
    hide QuoteScalar, GoodKey;
    if fields != [] {
      var k0, v0 := fields[0].0, fields[0].1;
      assert GoodKey(k0);
      QuotedIsSafe(v0);
      SetKeeps(es, k0, QuoteScalar(v0));
      GoodKeyNonempty(k0);
      var next := Set(es, k0, v0);
      assert next != [];
      hide AllPrintable, Trimmed, Opens;
      SetAllKeeps(next, fields[1..]);
      forall k | k != ""
          ensures FirstValue(Keyed(SetAll(es, fields)), k) == Given(fields, k, FirstValue(Keyed(es), k)) {
        KeyedSet(es, k0, QuoteScalar(v0), k);
      }
    }
  }

  lemma {:induction false} NoneGets(es: seq<Entry>, k: string)
    requires FirstValue(Keyed(es), k) == None && k != ""
    ensures Get(es, k) == None
  {
    hide Clean;
    if es != [] {
      KeyedHead(es);
      NoneGets(es[1..], k);
    }
  }

  /** Every field that was set, and no other, is read back from the file. */
  lemma FieldRead(es: seq<Entry>, fields: seq<(string, string)>, k: string)
    requires AllPrintable(es) && k != "" && GoodFields(fields)
    requires Keyed(es) == Keyed(SetAll([], fields))
    ensures Get(es, k) == LastGiven(fields, k)
  {
    NoFront();
    SetAllKeeps([], fields);
    hide *;
    NoKeys();
    NoFirst(k);
    var given := LastGiven(fields, k);
    assert Given(fields, k, None) == if given.Some? then Some(QuoteScalar(given.value)) else None
        by { GivenIs(fields, k); }
    if given.Some? {
      QuotedIsSafe(given.value);
      CleanQuoteScalar(given.value);
      FirstGets(es, k, QuoteScalar(given.value));
    } else {
      NoneGets(es, k);
    }
  }

  lemma GivenIs(fields: seq<(string, string)>, k: string)
    ensures var given := LastGiven(fields, k);
        Given(fields, k, None) == if given.Some? then Some(QuoteScalar(given.value)) else None
  {
    hide QuoteScalar;
  }

  lemma NoFirst(k: string)
    ensures FirstValue([], k) == None
  {}

  // ---------------------------------------------------------------- line ends

  lemma {:induction false} NormalizeSpaces(s: string)
    requires forall i | 0 <= i < |s| :: IsSpace(s[i])
    ensures forall i | 0 <= i < |Normalize(s)| :: IsSpace(Normalize(s)[i])
  {
    if s != "" {
      NormalizeSpaces(if "\r\n" <= s then s[2..] else s[1..]);
    }
  }

  lemma {:induction false} NormalizeEnds(s: string)
    requires s != "" && Trimmed(s)
    ensures Normalize(s) != "" && Trimmed(Normalize(s))
    ensures Visible(Normalize(s)) == Visible(s)
  {
    NormalizeVisible(s);
    var head, tail := [s[0]], s[1..];
    assert s == head + tail;
    NormalizeConcat(head, tail);
    assert Normalize(head) == head by { assert head[1..] == ""; }
    if tail != "" {
      var front, last := s[..|s| - 1], [s[|s| - 1]];
      assert s == front + last;
      NormalizeConcat(front, last);
      assert Normalize(last) == last by { assert last[1..] == ""; }
    } else {
      assert s == head;
    }
  }

  lemma {:induction false} NormalizeVisible(s: string)
    ensures Visible(Normalize(s)) == Visible(s)
  {
    if s != "" {
      var rest := if "\r\n" <= s then s[2..] else s[1..];
      NormalizeVisible(rest);
      if "\r\n" <= s {
        assert s[0] == '\r' && s[1] == '\n' && s[1..][1..] == s[2..];
      }
    }
  }

  /** Normalizing and trimming commute. */
  lemma NormalizeTrim(s: string)
    ensures TrimSpace(Normalize(s)) == Normalize(TrimSpace(s))
  {
    var i := TrimFacts(s);
    var t := TrimSpace(s);
    hide TrimSpace;
    var head, tail := s[..i], s[i + |t|..];
    NormalizeSpaces(head);
    NormalizeSpaces(tail);
    if t == "" {
      NormalizeSpaces(s);
      BlankMeans(Normalize(s));
      assert forall k | 0 <= k < |s| :: IsSpace(s[k]);
      assert Blank(Normalize(s));
    } else {
      assert s == head + (t + tail);
      NormalizeConcat(t, tail);
      NormalizeConcat(head, t + tail);
      NormalizeEnds(t);
      TrimAround(Normalize(head), Normalize(t), Normalize(tail));
    }
  }

  lemma TrimAround(head: string, t: string, tail: string)
    requires t != "" && Trimmed(t) && (forall i | 0 <= i < |head| :: IsSpace(head[i]))
        && (forall i | 0 <= i < |tail| :: IsSpace(tail[i]))
    ensures TrimSpace(head + (t + tail)) == t
  {
    TrimLeftAfter(head, t + tail);
    assert (t + tail)[0] == t[0];
    assert TrimLeft(t + tail) == t + tail;
    TrimRightBefore(t, tail);
  }

  lemma {:induction false} TrimRightBefore(t: string, tail: string)
    requires t != "" && Trimmed(t) && forall i | 0 <= i < |tail| :: IsSpace(tail[i])
    ensures TrimRight(t + tail) == t
    decreases |tail|
  {
    var s := t + tail;
    if tail == "" {
      assert s == t;
    } else {
      assert s[..|s| - 1] == t + tail[..|tail| - 1];
      TrimRightBefore(t, tail[..|tail| - 1]);
    }
  }

  // ---------------------------------------------------------------- body text through a file

  /** The lines that are not headings outside a code fence. */
  function TextLines(lines: seq<string>, fence: bool): seq<string>
    decreases |lines|
  {
    if lines == [] then []
    else
      var inFence := if Fence(lines[0]) then !fence else fence;
      (if !inFence && Heading(lines[0]).Some? then [] else [lines[0]]) + TextLines(lines[1..], inFence)
  }

  /** What a writer can check: no line of the body is a heading outside a fence. */
  predicate NoHeadings(lines: seq<string>, fence: bool)
    decreases |lines|
  {
    lines == []
    || (var inFence := if Fence(lines[0]) then !fence else fence;
        (inFence || Heading(lines[0]).None?) && NoHeadings(lines[1..], inFence))
  }

  lemma {:induction false} ContentsConcat(a: seq<Section>, b: seq<Section>)
    ensures Contents(a + b) == Contents(a) + Contents(b)
  {
    if a == [] {
      assert a + b == b;
    } else {
      assert (a + b)[1..] == a[1..] + b;
      ContentsConcat(a[1..], b);
      assert a[0].content + (Contents(a[1..]) + Contents(b)) == a[0].content + Contents(a[1..]) + Contents(b);
    }
  }

  lemma FlushContents(cur: Section, buf: seq<string>)
    ensures Flush(cur, buf) != [] ==> Contents(Flush(cur, buf)) == Terminated(buf)
    ensures Flush(cur, buf) == [] ==> Contents(Flush(cur, buf)) == ""
  {
    hide Blank, Terminated;
    if Flush(cur, buf) != [] {
      assert Flush(cur, buf)[1..] == [];
      assert Terminated(buf) + "" == Terminated(buf);
    }
  }

  lemma TextStep(lines: seq<string>, fence: bool)
    requires lines != []
    ensures var inFence := if Fence(lines[0]) then !fence else fence;
      TextLines(lines, fence)
          == (if !inFence && Heading(lines[0]).Some? then [] else [lines[0]]) + TextLines(lines[1..], inFence)
  {
    hide Fence, Heading;
  }

  lemma {:induction false} ContentsText(lines: seq<string>, cur: Section, buf: seq<string>, fence: bool)
    requires Lines(lines) && Begun(cur) && Keeps(cur, buf)
    ensures Contents(ParseLines(lines, cur, buf, fence)) == Terminated(buf + TextLines(lines, fence))
    decreases |lines|
  {
    hide *;
    KeepsFlushes(cur, buf);
    FlushContents(cur, buf);
    ParseStep(lines, cur, buf, fence);
    if lines == [] {
      NoText(fence);
      assert buf + [] == buf;
    } else {
      TextStep(lines, fence);
      LinesRest(lines, []);
      HeadingFresh(lines[0]);
      var inFence := if Fence(lines[0]) then !fence else fence;
      if !inFence && Heading(lines[0]).Some? {
        var next := Heading(lines[0]).value;
        BegunKeeps(next);
        ContentsText(lines[1..], next, [], inFence);
        ContentsConcat(Flush(cur, buf), ParseLines(lines[1..], next, [], inFence));
        TerminatedConcat(buf, TextLines(lines[1..], inFence));
        assert [] + TextLines(lines[1..], inFence) == TextLines(lines[1..], inFence);
      } else {
        KeepsMore(cur, buf, lines[0]);
        ContentsText(lines[1..], cur, buf + [lines[0]], inFence);
        assert buf + [lines[0]] + TextLines(lines[1..], inFence) == buf + ([lines[0]] + TextLines(lines[1..], inFence));
      }
    }
  }

  lemma NoText(fence: bool)
    ensures TextLines([], fence) == []
  {}

  lemma HeadingFresh(line: string)
    requires NoBreak(line)
    ensures Heading(line).Some? ==> Begun(Heading(line).value) && Heading(line).value.level > 0
  {
    if Heading(line).Some? { HeadingBegun(line); }
  }

  lemma TrimBlank(blank: string, rest: string)
    requires Blank(blank)
    ensures TrimSpace(blank + rest) == TrimSpace(rest)
  {
    BlankMeans(blank);
    assert forall c | c in blank :: IsSpace(c);
    TrimLeftAfter(blank, rest);
  }

  /** The text a reader puts together is the text without its headings, up to white
      space at the ends. */
  lemma {:induction false} BodyContents(lines: seq<string>, buf: seq<string>)
    requires Lines(lines) && forall i | 0 <= i < |buf| :: Blank(buf[i])
    ensures TrimSpace(Contents(ParseLines(lines, START, buf, false)))
        == TrimSpace(Terminated(buf + TextLines(lines, false)))
    decreases |lines|
  {
    hide *;
    StartBegun();
    KeepsFlushes(START, buf);
    KeepsNot(buf);
    FlushContents(START, buf);
    ParseStep(lines, START, buf, false);
    BlankLines(buf);
    if lines == [] {
      NoText(false);
      assert buf + [] == buf;
      TrimBlank(Terminated(buf), "");
      assert Terminated(buf) + "" == Terminated(buf);
    } else {
      TextStep(lines, false);
      LinesRest(lines, []);
      if Blank(lines[0]) {
        BlankIsText(lines[0]);
        BodyContents(lines[1..], buf + [lines[0]]);
        assert buf + [lines[0]] + TextLines(lines[1..], false) == buf + ([lines[0]] + TextLines(lines[1..], false));
      } else {
        VisibleFirst(lines, buf);
      }
    }
  }

  lemma VisibleFirst(lines: seq<string>, buf: seq<string>)
    requires Lines(lines) && (forall i | 0 <= i < |buf| :: Blank(buf[i])) && lines != [] && !Blank(lines[0])
    ensures TrimSpace(Contents(ParseLines(lines, START, buf, false)))
        == TrimSpace(Terminated(buf + TextLines(lines, false)))
  {
    hide *;
    StartBegun();
    KeepsFlushes(START, buf);
    KeepsNot(buf);
    FlushContents(START, buf);
    ParseStep(lines, START, buf, false);
    BlankLines(buf);
    TextStep(lines, false);
    LinesRest(lines, []);
    HeadingFresh(lines[0]);
    var inFence := if Fence(lines[0]) then !false else false;
    var text := TextLines(lines[1..], inFence);
    if !inFence && Heading(lines[0]).Some? {
      var next := Heading(lines[0]).value;
      BegunKeeps(next);
      ContentsText(lines[1..], next, [], inFence);
      ContentsConcat(Flush(START, buf), ParseLines(lines[1..], next, [], inFence));
      assert [] + text == text;
      assert "" + Terminated(text) == Terminated(text);
      TerminatedConcat(buf, text);
      TrimBlank(Terminated(buf), Terminated(text));
    } else {
      KeepsMore(START, buf, lines[0]);
      ContentsText(lines[1..], START, buf + [lines[0]], inFence);
      assert buf + [lines[0]] + text == buf + ([lines[0]] + text);
    }
  }

  lemma KeepsNot(buf: seq<string>)
    requires forall i | 0 <= i < |buf| :: Blank(buf[i])
    ensures !Keeps(START, buf)
  {
    hide Blank;
  }

  // ---------------------------------------------------------------- what is lost with a heading

  function Visible(s: string): nat {
    if s == "" then 0 else (if IsSpace(s[0]) then 0 else 1) + Visible(s[1..])
  }

  lemma {:induction false} VisibleConcat(a: string, b: string)
    ensures Visible(a + b) == Visible(a) + Visible(b)
  {
    if a == "" {
      assert a + b == b;
    } else {
      assert (a + b)[1..] == a[1..] + b;
      VisibleConcat(a[1..], b);
    }
  }

  lemma {:induction false} VisibleNone(s: string)
    requires forall i | 0 <= i < |s| :: IsSpace(s[i])
    ensures Visible(s) == 0
  {
    if s != "" { VisibleNone(s[1..]); }
  }

  lemma VisibleTrim(s: string)
    ensures Visible(TrimSpace(s)) == Visible(s)
  {
    var i := TrimFacts(s);
    hide TrimSpace;
    var t := TrimSpace(s);
    var head, tail := s[..i], s[i + |t|..];
    VisibleNone(head);
    VisibleNone(tail);
    assert s == head + (t + tail);
    VisibleConcat(head, t + tail);
    VisibleConcat(t, tail);
  }

  lemma {:induction false} HeadingsVisible(lines: seq<string>, fence: bool)
    ensures Visible(Terminated(TextLines(lines, fence))) <= Visible(Terminated(lines))
    ensures !NoHeadings(lines, fence) ==> Visible(Terminated(TextLines(lines, fence))) < Visible(Terminated(lines))
    ensures NoHeadings(lines, fence) ==> TextLines(lines, fence) == lines
    decreases |lines|
  {
    if lines != [] {
      var inFence := if Fence(lines[0]) then !fence else fence;
      HeadingSeen(lines[0]);
      hide Fence, Heading;
      var rest := TextLines(lines[1..], inFence);
      HeadingsVisible(lines[1..], inFence);
      LineVisible(lines[0], lines[1..]);
      if !inFence && Heading(lines[0]).Some? {
        assert [] + rest == rest;
      } else {
        assert ([lines[0]] + rest)[1..] == rest;
        LineVisible(lines[0], rest);
        assert [lines[0]] + lines[1..] == lines;
      }
    }
  }

  lemma LineVisible(line: string, rest: seq<string>)
    ensures Visible(Terminated([line] + rest)) == Visible(line) + Visible(Terminated(rest))
  {
    assert ([line] + rest)[1..] == rest;
    VisibleConcat(line + "\n", Terminated(rest));
    VisibleConcat(line, "\n");
    assert Visible("\n") == Visible("");
  }

  lemma HeadingSeen(line: string)
    ensures Heading(line).Some? ==> Visible(line) > 0
  {
    if Heading(line).Some? { assert line[0] == '#'; }
  }

  /** What a writer can check of a body: once its line ends are normalized no line is a
      heading outside a fence, and no line of it ends in CRLF, up to white space at
      the end. */
  predicate Storable(body: string) {
    NoHeadings(BodyLines(Normalize(body + "\n")), false) && !Crlf(TrimSpace(body))
  }

  /** The body a reader sees is the body that was written if and only if no line of it
      is a heading or ends in CRLF. */
  lemma BodyReads(body: string)
    ensures TrimSpace(Contents(ParseSections(Normalize(body + "\n")))) == TrimSpace(body) <==> Storable(body)
  {
    hide *;
    var file := Normalize(body + "\n");
    var lines := BodyLines(file);
    BodyUnbroken(file);
    EmptyBody(file);
    BodyContents(lines, []);
    var text := TextLines(lines, false);
    assert [] + text == text;
    HeadingsVisible(lines, false);
    VisibleTrim(Terminated(text));
    VisibleTrim(body);
    BreakInvisible(body);
    NormalizeVisible(body + "\n");
    FileLines(file);
    NormalizeTrim(body + "\n");
    NormalizeSame(TrimSpace(body));
    StorableMeans(body);
  }

  lemma StorableMeans(body: string)
    ensures Storable(body) <==> NoHeadings(BodyLines(Normalize(body + "\n")), false) && !Crlf(TrimSpace(body))
  {
    hide NoHeadings, BodyLines, Normalize, Crlf, TrimSpace;
  }

  /** The lines of a text, terminated, are the text up to a last line feed. */
  lemma FileLines(file: string)
    ensures Visible(Terminated(BodyLines(file))) == Visible(file)
    ensures TrimSpace(Terminated(BodyLines(file))) == TrimSpace(file)
  {
    var lines, all := BodyLines(file), Split(file);
    SplitLines(file);
    TerminatedIsJoin(all);
    if lines == all {
      BreakInvisible(file);
    } else {
      TerminatedConcat(lines, [""]);
      assert all == lines + [""];
      OneLine("");
      assert Terminated(lines) + "\n" == file + "\n";
      assert (Terminated(lines) + "\n")[..|Terminated(lines)|] == (file + "\n")[..|file|];
    }
    hide Split;
  }

  lemma BreakInvisible(body: string)
    ensures Visible(body + "\n") == Visible(body) && TrimSpace(body + "\n") == TrimSpace(body)
  {
    VisibleConcat(body, "\n");
    assert Visible("\n") == Visible("");
    TrimTail(body);
  }

  lemma {:induction false} TrimTail(body: string)
    ensures TrimSpace(body + "\n") == TrimSpace(body)
  {
    if body == "" {
      assert (body + "\n")[1..] == "";
    } else if IsSpace(body[0]) {
      TrimTail(body[1..]);
      assert (body + "\n")[1..] == body[1..] + "\n";
    } else {
      assert (body + "\n")[..|body|] == body;
      assert TrimLeft(body + "\n") == body + "\n" && TrimLeft(body) == body;
    }
  }

  // ---------------------------------------------------------------- an appended event is read back

  lemma {:induction false} GivenConcat(a: seq<(string, string)>, b: seq<(string, string)>, k: string)
    ensures LastGiven(a + b, k) == if LastGiven(b, k).Some? then LastGiven(b, k) else LastGiven(a, k)
  {
    if a == [] {
      assert a + b == b;
    } else {
      assert (a + b)[1..] == a[1..] + b;
      GivenConcat(a[1..], b, k);
    }
  }

  lemma GivenOne(name: string, value: string, k: string)
    ensures LastGiven([(name, value)], k) == if name == k then Some(value) else None
  {
    assert [(name, value)][1..] == [];
  }

  lemma HeadGiven(p: Payload, k: string)
    ensures LastGiven([("id", p.id), ("kind", EVENT), ("schema_version", "1"), ("event_kind", p.kind),
        ("created", p.created), ("created_by", p.actor)], k)
      == if k == "id" then Some(p.id) else if k == "kind" then Some(EVENT) else if k == "schema_version" then Some("1")
         else if k == "event_kind" then Some(p.kind) else if k == "created" then Some(p.created)
         else if k == "created_by" then Some(p.actor) else None
  {
    var a, b, c := [("id", p.id)], [("kind", EVENT)], [("schema_version", "1")];
    var d, e, f := [("event_kind", p.kind)], [("created", p.created)], [("created_by", p.actor)];
    assert [("id", p.id), ("kind", EVENT), ("schema_version", "1"), ("event_kind", p.kind), ("created", p.created),
        ("created_by", p.actor)]
      == a + b + c + d + e + f;
    GivenOne("id", p.id, k);
    GivenOne("kind", EVENT, k);
    GivenOne("schema_version", "1", k);
    GivenOne("event_kind", p.kind, k);
    GivenOne("created", p.created, k);
    GivenOne("created_by", p.actor, k);
    GivenConcat(a, b, k);
    GivenConcat(a + b, c, k);
    GivenConcat(a + b + c, d, k);
    GivenConcat(a + b + c + d, e, k);
    GivenConcat(a + b + c + d + e, f, k);
    hide LastGiven;
  }

  /** Every field the writer sets, by name. */
  lemma FieldsGiven(p: Payload, applied: string, checksum: string, k: string)
    ensures LastGiven(EventFields(p, applied, checksum), k) ==
      if k == "id" then Some(p.id) else if k == "kind" then Some(EVENT) else if k == "schema_version" then Some("1")
      else if k == "event_kind" then Some(p.kind) else if k == "created" then Some(p.created)
      else if k == "created_by" then Some(p.actor)
      else if k == "about" && p.about != "" then Some("[[" + p.about + "]]")
      else if k == "origin" then Some(p.origin)
      else if k == "against" && p.against != "" then Some(p.against)
      else if k == "applied" then Some(applied) else if k == "checksum" then Some(checksum) else None
  {
    var head := [("id", p.id), ("kind", EVENT), ("schema_version", "1"), ("event_kind", p.kind), ("created", p.created),
        ("created_by", p.actor)];
    var about := if p.about != "" then [("about", "[[" + p.about + "]]")] else [];
    var against := if p.against != "" then [("against", p.against)] else [];
    var end := [("applied", applied), ("checksum", checksum)];
    assert LastGiven([], k) == None;
    GivenOne("about", "[[" + p.about + "]]", k);
    GivenOne("origin", p.origin, k);
    GivenOne("against", p.against, k);
    GivenOne("applied", applied, k);
    GivenOne("checksum", checksum, k);
    assert end == [("applied", applied)] + [("checksum", checksum)];
    hide LastGiven;
    HeadGiven(p, k);
    GivenConcat([("applied", applied)], [("checksum", checksum)], k);
    GivenConcat(head, about, k);
    GivenConcat(head + about, [("origin", p.origin)], k);
    GivenConcat(head + about + [("origin", p.origin)], against, k);
    GivenConcat(head + about + [("origin", p.origin)] + against, end, k);
  }

  lemma LiteralKey(k: string)
    requires k in {"id", "kind", "schema_version", "event_kind", "created", "created_by", "about", "origin", "against",
        "applied", "checksum"}
    ensures GoodKey(k)
  {}

  lemma EventKeysGood(p: Payload, applied: string, checksum: string)
    ensures GoodFields(EventFields(p, applied, checksum)) && EventFields(p, applied, checksum) != []
  {
    hide GoodKey;
    forall k | k in {"id", "kind", "schema_version", "event_kind", "created", "created_by", "about", "origin",
        "against", "applied", "checksum"}
      ensures GoodKey(k) { LiteralKey(k); }
  }

  lemma BracketsTrim(about: string)
    ensures TrimSuffix(TrimPrefix("[[" + about + "]]", "[["), "]]") == about
  {
    var s := "[[" + about + "]]";
    assert s[..2] == "[[" && s[2..] == about + "]]";
    assert (about + "]]")[|about|..] == "]]";
  }

  /** What is read of a written event, given what is read of its fields and its body. */
  lemma AppendedParses(dg: Digest, d: Doc, p: Payload, body: string)
    requires dg.Lawful() && p.docKind == EVENT
    requires forall k | k != "" ::
        Get(d.front, k) == LastGiven(EventFields(p, if IsJournal(p.kind) then "true" else "false", dg.checksum(p)), k)
    requires TrimSpace(Contents(d.sections)) == body && p.version == SCHEMA
    ensures ParseEvent(dg, d) == if body != p.body then None else
      Some(Event(SCHEMA, dg.checksum(p), p.id, EVENT, p.kind, p.actor, p.about, p.origin, p.against, IsJournal(p.kind),
          !IsJournal(p.kind), p.body))
  {
    hide *;
    var applied, checksum := if IsJournal(p.kind) then "true" else "false", dg.checksum(p);
    ReadsAs(d, p, applied, checksum, "id");
    ReadsAs(d, p, applied, checksum, "kind");
    ReadsAs(d, p, applied, checksum, "schema_version");
    ReadsAs(d, p, applied, checksum, "event_kind");
    ReadsAs(d, p, applied, checksum, "created");
    ReadsAs(d, p, applied, checksum, "created_by");
    ReadsAs(d, p, applied, checksum, "about");
    ReadsAs(d, p, applied, checksum, "origin");
    ReadsAs(d, p, applied, checksum, "against");
    ReadsAs(d, p, applied, checksum, "applied");
    ReadsAs(d, p, applied, checksum, "checksum");
    ParsesFrom(dg, d, p, body);
  }

  lemma ReadsAs(d: Doc, p: Payload, applied: string, checksum: string, k: string)
    requires Get(d.front, k) == LastGiven(EventFields(p, applied, checksum), k)
    ensures Get(d.front, k) ==
      if k == "id" then Some(p.id) else if k == "kind" then Some(EVENT) else if k == "schema_version" then Some("1")
      else if k == "event_kind" then Some(p.kind) else if k == "created" then Some(p.created)
      else if k == "created_by" then Some(p.actor)
      else if k == "about" && p.about != "" then Some("[[" + p.about + "]]")
      else if k == "origin" then Some(p.origin)
      else if k == "against" && p.against != "" then Some(p.against)
      else if k == "applied" then Some(applied) else if k == "checksum" then Some(checksum) else None
  {
    FieldsGiven(p, applied, checksum, k);
    hide *;
  }

  lemma ParsesFrom(dg: Digest, d: Doc, p: Payload, body: string)
    requires dg.Lawful() && p.docKind == EVENT && p.version == SCHEMA && TrimSpace(Contents(d.sections)) == body
    requires Get(d.front, "id") == Some(p.id) && Get(d.front, "kind") == Some(EVENT)
        && Get(d.front, "schema_version") == Some("1")
    requires Get(d.front, "event_kind") == Some(p.kind) && Get(d.front, "created") == Some(p.created)
        && Get(d.front, "created_by") == Some(p.actor)
    requires Get(d.front, "about") == if p.about != "" then Some("[[" + p.about + "]]") else None
    requires Get(d.front, "origin") == Some(p.origin) && Get(d.front, "against") == if p.against != ""
        then Some(p.against) else None
    requires Get(d.front, "applied") == Some(if IsJournal(p.kind) then "true" else "false")
        && Get(d.front, "checksum") == Some(dg.checksum(p))
    ensures ParseEvent(dg, d) == if body != p.body then None else
      Some(Event(SCHEMA, dg.checksum(p), p.id, EVENT, p.kind, p.actor, p.about, p.origin, p.against, IsJournal(p.kind),
          !IsJournal(p.kind), p.body))
  {
    BracketsTrim(p.about);
    hide Get, TrimSpace, Contents, HasSuffix, IsJournal;
    assert AboutOf(d) == p.about by {
      if p.about == "" { assert TrimPrefix("", "[[") == ""; EmptySuffix(); }
    }
    hide AboutOf;
    assert PayloadOf(d, SCHEMA) == p.(body := body);
    assert PayloadOf(d, 0) == p.(version := 0, body := body);
  }

  lemma EmptySuffix()
    ensures TrimSuffix("", "]]") == ""
  {}

  /** The event that AppendFinding reports. */
  function Appended(dg: Digest, id: string, kind: string, created: string, actor: string, about: string, origin: string,
                    against: string, body: string): Event
  {
    var p := Payload(SCHEMA, id, EVENT, kind, created, actor, about, if origin == "" then "agent"
        else origin, against, TrimSpace(body));
    Event(SCHEMA, dg.checksum(p), id, EVENT, kind, actor, about, p.origin, against, IsJournal(kind), !IsJournal(kind),
        p.body)
  }

  /** An appended event can be read again if and only if its body has no heading line
      outside a code fence and no CRLF line end: headings and carriage returns are not
      part of the text a reader checks, so the checksum fails and the event is lost.
      Otherwise it reads back exactly, whatever is in its fields. */
  lemma AppendReadable(dg: Digest, id: string, kind: string, created: string, actor: string, about: string,
      origin: string,
                       against: string, body: string)
    requires dg.Lawful()
    ensures var raw := Render(AppendDoc(dg, id, kind, created, actor, about, origin, against, body));
      ReadEvent(dg, raw) == if Storable(body)
          then Some(Appended(dg, id, kind, created, actor, about, origin, against, body)) else None
  {
    hide *;
    var d := AppendDoc(dg, id, kind, created, actor, about, origin, against, body);
    var p := Payload(SCHEMA, id, EVENT, kind, created, actor, about, if origin == "" then "agent"
        else origin, against, TrimSpace(body));
    var fields := EventFields(p, if IsJournal(kind) then "true" else "false", dg.checksum(p));
    AppendIs(dg, id, kind, created, actor, about, origin, against, body);
    EventKeysGood(p, if IsJournal(kind) then "true" else "false", dg.checksum(p));
    NoFront();
    SetAllKeeps([], fields);
    AppendBody(body);
    FrontRead(d.front, d.sections);
    var again := Parse(Render(d)).value;
    forall k | k != "" ensures Get(again.front, k) == LastGiven(fields, k) { FieldRead(again.front, fields, k); }
    AppendedParses(dg, again, p, TrimSpace(Contents(again.sections)));
    AppendedIs(dg, id, kind, created, actor, about, origin, against, body);
    ReadIs(dg, Render(d));
  }

  lemma ReadIs(dg: Digest, raw: string)
    ensures ReadEvent(dg, raw) == if Parse(raw).None? then None else ParseEvent(dg, Parse(raw).value)
  {
    hide Parse, ParseEvent;
  }

  lemma AppendIs(dg: Digest, id: string, kind: string, created: string, actor: string, about: string, origin: string,
                 against: string, body: string)
    ensures var p :=
        Payload(SCHEMA, id, EVENT, kind, created, actor, about, if origin == "" then "agent"
        else origin, against, TrimSpace(body));
      AppendDoc(dg, id, kind, created, actor, about, origin, against, body) ==
        Doc(SetAll([], EventFields(p, if IsJournal(kind) then "true" else "false", dg.checksum(p))), if body != ""
            then [Section(0, "", body + "\n")] else [])
  {
    hide EventFields, SetAll, TrimSpace;
  }

  lemma AppendedIs(dg: Digest, id: string, kind: string, created: string, actor: string, about: string, origin: string,
                   against: string, body: string)
    ensures var p :=
        Payload(SCHEMA, id, EVENT, kind, created, actor, about, if origin == "" then "agent"
        else origin, against, TrimSpace(body));
      Appended(dg, id, kind, created, actor, about, origin, against, body) ==
        Event(SCHEMA, dg.checksum(p), p.id, EVENT, p.kind, p.actor, p.about, p.origin, p.against, IsJournal(p.kind),
            !IsJournal(p.kind), p.body)
  {
    hide TrimSpace;
  }

  lemma AppendBody(body: string)
    ensures var sections := if body != "" then [Section(0, "", body + "\n")] else [];
      TrimSpace(Contents(ParseSections(Normalize(BodyText(sections))))) == TrimSpace(body) <==> Storable(body)
  {
    hide *;
    BodyReads(body);
    OneBody(body);
    EmptyBodyReads();
  }

  lemma OneBody(body: string)
    ensures BodyText([Section(0, "", body + "\n")]) == body + "\n" && BodyText([]) == ""
  {
    var s := Section(0, "", body + "\n");
    assert [s][1..] == [];
    assert HasSuffix(s.content, "\n") by { assert s.content[|body|..] == "\n"; }
    assert SectionText(s) == body + "\n";
  }

  lemma EmptyBodyReads()
    ensures Contents(ParseSections(Normalize(""))) == "" && Storable("") && TrimSpace("") == ""
  {
    NoSections();
    TrimmedStays("");
    hide TrimSpace;
    assert Normalize("\n") == "\n" by { assert "\n"[1..] == ""; assert "\n"[0] != "\r\n"[0]; }
    BodyOfLines([""]);
    OneLine("");
    assert !Fence("") && Heading("").None?;
    assert [""][1..] == [];
  }

  // ---------------------------------------------------------------- events that are lost

  /** Two bodies whose events can be written and never read. */
  lemma LostBodies(dg: Digest, id: string, kind: string, created: string, actor: string, about: string, origin: string,
                   against: string)
    requires dg.Lawful()
    ensures ReadEvent(dg, Render(AppendDoc(dg, id, kind, created, actor, about, origin, against, "# x"))) == None
    ensures ReadEvent(dg, Render(AppendDoc(dg, id, kind, created, actor, about, origin, against, "a\r\nb"))) == None
  {
    hide *;
    AppendReadable(dg, id, kind, created, actor, about, origin, against, "# x");
    AppendReadable(dg, id, kind, created, actor, about, origin, against, "a\r\nb");
    HeadingNotStorable();
    CrlfNotStorable();
  }

  lemma HeadingNotStorable()
    ensures !Storable("# x")
  {
    var body, lines := "# x", ["# x"];
    assert NoCr(body + "\n");
    NormalizeStays(body + "\n");
    OneLine(body);
    assert Lines(lines);
    BodyOfLines(lines);
    TrimmedStays(body);
    TrimmedStays("x");
    assert body[0] != "```"[0];
    assert body[2..] == "x";
    assert Hashes(body[1..]) == 0;
    assert Heading(body).Some? && !Fence(body);
    hide BodyLines, Normalize, Heading, Fence, Terminated, Crlf, TrimSpace;
  }

  lemma CrlfNotStorable()
    ensures !Storable("a\r\nb")
  {
    var body := "a\r\nb";
    TrimmedStays(body);
    assert body[1] == '\r' && body[1 + 1] == '\n';
    hide NoHeadings, BodyLines, Normalize, TrimSpace;
  }
}
