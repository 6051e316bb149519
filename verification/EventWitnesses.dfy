/** Concrete event logs on which the one-pass dismissal index and the simple one differ. */
module EventWitnesses {
  import opened Wrappers
  import opened MarkdownText
  import opened EventRecords
  import opened EventLog
  import MarkdownDoc
  import MarkdownSections
  import CanonicalJson

  /** A finding, and a dismissal of it. */
  function Finding(dg: Digest): string {
    MarkdownDoc.Render(AppendDoc(dg, "x", "finding", "now", "someone", "", "", "", "e"))
  }

  function Dropping(dg: Digest): string {
    MarkdownDoc.Render(AppendDoc(dg, "y", DISMISSAL, "now", "someone", "x", "", "", "e"))
  }

  /** A dismissal that sorts older than the event it names: the event is listed without
      its flag, although it is dismissed. */
  lemma OlderDismissalMissed(dg: Digest) returns (l: Listed)
    requires dg.Lawful()
    ensures var t := Tree(map["a" := Dropping(dg), "b" := Finding(dg)], map[]);
      l in List(dg, t, EVERYTHING).out && l.event.id == "x" && !l.dismissed && "x" in DismissedIds(dg, t.live)
  {
    hide *;
    var finding, dropping := Finding(dg), Dropping(dg);
    var live := map["a" := dropping, "b" := finding];
    TheTexts(dg);
    TwoFiles(live, false);
    NoFiles(true);
    var files := [File("b", false, finding), File("a", false, dropping)];
    assert files + [] == files;
    ListIs(dg, Tree(live, map[]), EVERYTHING, files);
    l := FlagMeans(dg, files, {}, 0, 0);
    FirstOnly(dg, files, l);
    LiveDismisses(dg, live, "a", "x");
  }

  /** A dismissal in the archive only: the event is listed with its flag, although no file
      under events/ dismisses it. */
  lemma ArchivedDismissalCounts(dg: Digest) returns (l: Listed)
    requires dg.Lawful()
    ensures var t := Tree(map[], map["a" := Finding(dg), "b" := Dropping(dg)]);
      l in List(dg, t, EVERYTHING).out && l.event.id == "x" && l.dismissed && "x" !in DismissedIds(dg, t.live)
  {
    hide *;
    var finding, dropping := Finding(dg), Dropping(dg);
    var archive := map["a" := finding, "b" := dropping];
    TheTexts(dg);
    TwoFiles(archive, true);
    NoFiles(false);
    var files := [File("b", true, dropping), File("a", true, finding)];
    assert [] + files == files;
    ListIs(dg, Tree(map[], archive), EVERYTHING, files);
    l := FlagMeans(dg, files, {}, 0, 1);
    BothFiles(dg, files, l);
    NothingDismissed(dg);
  }

  // ---------------------------------------------------------------- the two texts

  lemma TheTexts(dg: Digest)
    requires dg.Lawful()
    ensures ReadEvent(dg, Finding(dg)).Some? && ReadEvent(dg, Finding(dg)).value.id == "x"
    ensures Dismisses(dg, Finding(dg)) == None && Dismisses(dg, Dropping(dg)) == Some("x")
  {
    hide *;
    TextsAre(dg);
    BodyStorable();
    AppendReadable(dg, "x", "finding", "now", "someone", "", "", "", "e");
    AppendReadable(dg, "y", DISMISSAL, "now", "someone", "x", "", "", "e");
    DismissesIs(dg, Finding(dg));
    DismissesIs(dg, Dropping(dg));
    WhatIsRead(dg);
  }

  lemma TextsAre(dg: Digest)
    ensures Finding(dg) == MarkdownDoc.Render(AppendDoc(dg, "x", "finding", "now", "someone", "", "", "", "e"))
    ensures Dropping(dg) == MarkdownDoc.Render(AppendDoc(dg, "y", DISMISSAL, "now", "someone", "x", "", "", "e"))
  {
    hide MarkdownDoc.Render, AppendDoc;
  }

  lemma WhatIsRead(dg: Digest)
    ensures var e := Appended(dg, "x", "finding", "now", "someone", "", "", "", "e"); e.id == "x" && !Authorizes(e)
    ensures var e := Appended(dg, "y", DISMISSAL, "now", "someone", "x", "", "", "e");
      e.about == "x" && Authorizes(e)
  {
    hide TrimSpace;
  }

  lemma BodyStorable()
    ensures Storable("e")
  {
    var body, lines := "e", ["e"];
    assert NoCr(body + "\n");
    NormalizeStays(body + "\n");
    OneLine(body);
    assert Lines(lines);
    MarkdownSections.BodyOfLines(lines);
    TrimmedStays(body);
    assert body[0] != "```"[0];
    assert !MarkdownSections.Fence(body) && MarkdownSections.Heading(body).None?;
    hide MarkdownSections.BodyLines, Normalize, MarkdownSections.Heading, MarkdownSections.Fence, Terminated, TrimSpace;
    assert lines[1..] == [] && NoHeadings([], false);
  }

  // ---------------------------------------------------------------- the listing

  lemma TwoNames()
    ensures CanonicalJson.SortedKeys({"a", "b"}) == ["a", "b"]
  {
    var keys := CanonicalJson.SortedKeys({"a", "b"});
    assert CanonicalJson.Below("a", "b") by { assert "a"[0] < "b"[0]; }
    assert forall k :: k in ["a", "b"] <==> k in {"a", "b"};
    hide CanonicalJson.SortedKeys, CanonicalJson.Below;
    CanonicalJson.AscendingUnique(keys, ["a", "b"]);
  }

  lemma TwoFiles(m: map<string, string>, archived: bool)
    requires m.Keys == {"a", "b"}
    ensures FilesOf(m, archived) == [File("b", archived, m["b"]), File("a", archived, m["a"])]
  {
    TwoNames();
    hide CanonicalJson.SortedKeys;
    assert ["a", "b"][1..] == ["b"] && ["b"][1..] == [];
    assert Reverse(["a", "b"]) == ["b", "a"] by { assert Reverse(["b"]) == ["b"]; }
  }

  lemma NoFiles(archived: bool)
    ensures FilesOf(map[], archived) == []
  {
    FilesHas(map[], archived);
    hide FilesOf;
    HasFirst(FilesOf(map[], archived));
  }

  lemma HasFirst(files: seq<File>)
    ensures files == [] || files[0] in files
  {}

  lemma FirstOnly(dg: Digest, files: seq<File>, l: Listed)
    requires ListedAt(dg, files, {}, l, 0) && Dismisses(dg, files[0].raw) == None
    ensures !l.dismissed && ReadEvent(dg, files[0].raw) == Some(l.event)
  {
    hide Dismisses, ReadEvent;
  }

  lemma BothFiles(dg: Digest, files: seq<File>, l: Listed)
    requires |files| == 2 && ListedAt(dg, files, {}, l, 1) && ReadEvent(dg, files[1].raw).Some?
    requires Dismisses(dg, files[0].raw) == Some(ReadEvent(dg, files[1].raw).value.id)
    ensures l.dismissed && ReadEvent(dg, files[1].raw) == Some(l.event)
  {
    hide Dismisses, ReadEvent;
  }

  lemma LiveDismisses(dg: Digest, live: map<string, string>, p: string, id: string)
    requires p in live && Dismisses(dg, live[p]) == Some(id)
    ensures id in DismissedIds(dg, live)
  {
    hide Dismisses;
  }

  lemma NothingDismissed(dg: Digest)
    ensures DismissedIds(dg, map[]) == {}
  {
    hide Dismisses;
  }
}
