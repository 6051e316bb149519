/** Listing the event log newest first with a one-pass dismissal index (ListReport in
    internal/eventlog/eventlog.go) and the simple index it must agree with
    (DismissedIDs in internal/eventdisp/eventdisp.go). */
module EventLog {
  import opened Wrappers
  import opened EventRecords
  import MarkdownDoc
  import CanonicalJson

  /** The event files under events/ and events-archive/, by path below their root. */
  datatype Tree = Tree(live: map<string, string>, archive: map<string, string>)

  datatype File = File(path: string, archived: bool, raw: string)

  /** A listed event: ListReport clears Pending when it sets Dismissed. */
  datatype Listed = Listed(file: File, event: Event, dismissed: bool) {
    predicate Pending() { event.pending && !dismissed }
  }

  /** limit <= 0 is no limit. */
  datatype Query = Query(about: string, kinds: seq<string>, actor: string, pending: bool, limit: int)

  const EVERYTHING := Query("", [], "", false, 0)

  datatype Report = Report(out: seq<Listed>, holes: seq<File>)

  // ---------------------------------------------------------------- order

  function Reverse<T>(s: seq<T>): seq<T> { if s == [] then [] else Reverse(s[1..]) + [s[0]] }

  ghost function FilesOf(m: map<string, string>, archived: bool): seq<File> {
    var names := Reverse(CanonicalJson.SortedKeys(m.Keys));
    ReverseHas(CanonicalJson.SortedKeys(m.Keys));
    seq(|names|, i requires 0 <= i < |names| => assert names[i] in names; File(names[i], archived, m[names[i]]))
  }

  /** Newest first. A path under events-archive/ sorts below every path under events/,
      so all live files come before all archived ones. */
  ghost function Files(t: Tree): seq<File> { FilesOf(t.live, false) + FilesOf(t.archive, true) }

  lemma {:induction false} ReverseHas<T>(s: seq<T>)
    ensures |Reverse(s)| == |s| && forall x :: x in Reverse(s) <==> x in s
  {
    if s != [] {
      ReverseHas(s[1..]);
      assert s == [s[0]] + s[1..];
    }
  }

  lemma FilesHas(m: map<string, string>, archived: bool)
    ensures forall f :: f in FilesOf(m, archived) <==> f.archived == archived && f.path in m && f.raw == m[f.path]
  {
    var keys := CanonicalJson.SortedKeys(m.Keys);
    ReverseHas(keys);
    var names, files := Reverse(keys), FilesOf(m, archived);
    hide Reverse, CanonicalJson.SortedKeys;
    assert forall i | 0 <= i < |names| :: files[i] == File(names[i], archived, m[names[i]]);
    forall f ensures f in files <==> f.archived == archived && f.path in m && f.raw == m[f.path] {
      if f.archived == archived && f.path in m && f.raw == m[f.path] {
        assert f.path in names;
        var i :| 0 <= i < |names| && names[i] == f.path;
        assert files[i] == f;
      }
    }
  }

  // ---------------------------------------------------------------- listing

  predicate Selected(q: Query, l: Listed) {
    && (!q.pending || l.Pending())
    && (q.kinds == [] || l.event.kind in q.kinds)
    && (q.actor == "" || l.event.actor == q.actor)
    && (q.about == "" || l.event.about == q.about)
  }

  function Noted(dismissed: set<string>, e: Event): set<string> {
    if Authorizes(e) then dismissed + {e.about} else dismissed
  }

  /** The rest of the listing, with `dismissed` noted and `taken` events out already. */
  function ListFrom(dg: Digest, files: seq<File>, q: Query, dismissed: set<string>, taken: nat): Report
    decreases |files|
  {
    if files == [] || (q.limit > 0 && taken >= q.limit) then Report([], [])
    else
      var e := ReadEvent(dg, files[0].raw);
      if e.None? then
        var rest := ListFrom(dg, files[1..], q, dismissed, taken);
        Report(rest.out, [files[0]] + rest.holes)
      else
        var noted := Noted(dismissed, e.value);
        var l := Listed(files[0], e.value, e.value.id in noted);
        if Selected(q, l) then
          var rest := ListFrom(dg, files[1..], q, noted, taken + 1);
          Report([l] + rest.out, rest.holes)
        else ListFrom(dg, files[1..], q, noted, taken)
  }

  ghost function List(dg: Digest, t: Tree, q: Query): Report { ListFrom(dg, Files(t), q, {}, 0) }

  /** The events a query selects of a listing. */
  function Filter(q: Query, listed: seq<Listed>): seq<Listed> {
    if listed == [] then [] else (if Selected(q, listed[0]) then [listed[0]] else []) + Filter(q, listed[1..])
  }

  /** Every query is a filter on the unfiltered listing, cut off at its limit: a limited
      query is a prefix of the unlimited one. */
  lemma {:induction false} QueryIsFilter(dg: Digest, files: seq<File>, q: Query, dismissed: set<string>, taken: nat)
    requires q.limit > 0 ==> taken <= q.limit
    ensures var all := Filter(q, ListFrom(dg, files, EVERYTHING, dismissed, 0).out);
      ListFrom(dg, files, q, dismissed, taken).out == if q.limit > 0 && |all| > q.limit - taken
          then all[..q.limit - taken] else all
    decreases |files|
  {
    hide *;
    EverythingStep(dg, files, dismissed, 0);
    QueryStep(dg, files, q, dismissed, taken);
    FilterNothing(q);
    if files != [] && !(q.limit > 0 && taken >= q.limit) {
      var e := ReadEvent(dg, files[0].raw);
      if e.None? {
        QueryIsFilter(dg, files[1..], q, dismissed, taken);
      } else {
        var noted := Noted(dismissed, e.value);
        var l := Listed(files[0], e.value, e.value.id in noted);
        AnyTaken(dg, files[1..], noted, 1, 0);
        QueryIsFilter(dg, files[1..], q, noted, if Selected(q, l) then taken + 1 else taken);
        FilterStep(q, l, ListFrom(dg, files[1..], EVERYTHING, noted, 0).out);
        CutStep(l, Filter(q, ListFrom(dg, files[1..], EVERYTHING, noted, 0).out), q.limit - taken);
      }
    }
  }

  lemma FilterNothing(q: Query)
    ensures Filter(q, []) == []
  {}

  lemma CutStep(l: Listed, rest: seq<Listed>, n: int)
    ensures var all := [l] + rest;
      && (n >= 1 && |all| > n ==> all[..n] == [l] + rest[..n - 1])
      && [] + rest == rest
  {}

  lemma QueryStep(dg: Digest, files: seq<File>, q: Query, dismissed: set<string>, taken: nat)
    ensures files == [] || (q.limit > 0 && taken >= q.limit)
        ==> ListFrom(dg, files, q, dismissed, taken) == Report([], [])
    ensures files != [] && !(q.limit > 0 && taken >= q.limit) ==>
      var e := ReadEvent(dg, files[0].raw);
      ListFrom(dg, files, q, dismissed, taken) == (
        if e.None? then
          var rest := ListFrom(dg, files[1..], q, dismissed, taken);
          Report(rest.out, [files[0]] + rest.holes)
        else
          var noted := Noted(dismissed, e.value);
          var l := Listed(files[0], e.value, e.value.id in noted);
          if Selected(q, l) then
            var rest := ListFrom(dg, files[1..], q, noted, taken + 1);
            Report([l] + rest.out, rest.holes)
          else ListFrom(dg, files[1..], q, noted, taken))
  {
    hide ReadEvent, Noted, Selected;
  }

  lemma FilterStep(q: Query, l: Listed, rest: seq<Listed>)
    ensures Filter(q, [l] + rest) == (if Selected(q, l) then [l] else []) + Filter(q, rest)
  {
    assert ([l] + rest)[1..] == rest;
  }

  /** Without a limit it does not matter how many are out already. */
  lemma {:induction false} AnyTaken(dg: Digest, files: seq<File>, dismissed: set<string>, a: nat, b: nat)
    ensures ListFrom(dg, files, EVERYTHING, dismissed, a) == ListFrom(dg, files, EVERYTHING, dismissed, b)
    decreases |files|
  {
    hide ReadEvent, Noted, Selected;
    if files != [] {
      var e := ReadEvent(dg, files[0].raw);
      if e.None? {
        AnyTaken(dg, files[1..], dismissed, a, b);
      } else {
        AnyTaken(dg, files[1..], Noted(dismissed, e.value), a + 1, b + 1);
        AnyTaken(dg, files[1..], Noted(dismissed, e.value), a, b);
      }
    }
  }

  lemma EverythingStep(dg: Digest, files: seq<File>, dismissed: set<string>, taken: nat)
    ensures files == [] ==> ListFrom(dg, files, EVERYTHING, dismissed, taken) == Report([], [])
    ensures files != [] ==>
      var e := ReadEvent(dg, files[0].raw);
      ListFrom(dg, files, EVERYTHING, dismissed, taken) == (
        if e.None? then
          var rest := ListFrom(dg, files[1..], EVERYTHING, dismissed, taken);
          Report(rest.out, [files[0]] + rest.holes)
        else
          var noted := Noted(dismissed, e.value);
          var rest := ListFrom(dg, files[1..], EVERYTHING, noted, taken + 1);
          Report([Listed(files[0], e.value, e.value.id in noted)] + rest.out, rest.holes))
  {
    hide ReadEvent, Noted;
  }

  /** Filtering the unfiltered list on Pending selects exactly what a query for pending
      events selects. */
  lemma PendingFilter(dg: Digest, t: Tree)
    ensures List(dg, t, EVERYTHING.(pending := true)).out == PendingOf(List(dg, t, EVERYTHING).out)
  {
    hide ListFrom, Files;
    QueryIsFilter(dg, Files(t), EVERYTHING.(pending := true), {}, 0);
    SamePending(List(dg, t, EVERYTHING).out);
  }

  function PendingOf(listed: seq<Listed>): seq<Listed> {
    if listed == [] then [] else (if listed[0].Pending() then [listed[0]] else []) + PendingOf(listed[1..])
  }

  lemma {:induction false} SamePending(listed: seq<Listed>)
    ensures Filter(EVERYTHING.(pending := true), listed) == PendingOf(listed)
  {
    if listed != [] { SamePending(listed[1..]); }
  }

  // ---------------------------------------------------------------- the dismissal index

  /** The id that a file validly dismisses. */
  function Dismisses(dg: Digest, raw: string): Option<string> {
    var d := MarkdownDoc.Parse(raw);
    if d.None? then None else ValidDismissal(dg, d.value)
  }

  /** DismissedIDs: the ids that some file under events/ validly dismisses. */
  ghost function DismissedIds(dg: Digest, live: map<string, string>): set<string> {
    set p | p in live && Dismisses(dg, live[p]).Some? :: Dismisses(dg, live[p]).value
  }

  /** The walk accepts exactly the dismissals the simple index accepts. */
  lemma DismissesIs(dg: Digest, raw: string)
    ensures Dismisses(dg, raw) == var e := ReadEvent(dg, raw);
        if e.Some? && Authorizes(e.value) then Some(e.value.about) else None
  {
    hide MarkdownDoc.Parse, ParseEvent, ValidDismissal;
    if MarkdownDoc.Parse(raw).Some? { SameVerdict(dg, MarkdownDoc.Parse(raw).value); }
  }

  /** Some file up to position `n` dismisses `id`. */
  ghost predicate NamedBy(dg: Digest, files: seq<File>, n: nat, id: string) {
    exists j :: 0 <= j < n && j < |files| && Dismisses(dg, files[j].raw) == Some(id)
  }

  /** The position of the file a listed event comes from. */
  ghost predicate ListedAt(dg: Digest, files: seq<File>, dismissed: set<string>, l: Listed, i: nat) {
    i < |files| && files[i] == l.file && ReadEvent(dg, l.file.raw) == Some(l.event)
    && (l.dismissed <==> l.event.id in dismissed || NamedBy(dg, files, i + 1, l.event.id))
  }

  lemma NamedStep(dg: Digest, files: seq<File>, n: nat, id: string)
    requires files != []
    ensures NamedBy(dg, files, n + 1, id) <==> Dismisses(dg, files[0].raw) == Some(id) || NamedBy(dg, files[1..], n, id)
  {
    hide Dismisses;
    var rest := files[1..];
    if NamedBy(dg, rest, n, id) {
      var j :| 0 <= j < n && j < |rest| && Dismisses(dg, rest[j].raw) == Some(id);
      assert files[j + 1] == rest[j];
    }
    if NamedBy(dg, files, n + 1, id) && Dismisses(dg, files[0].raw) != Some(id) {
      var j :| 0 <= j < n + 1 && j < |files| && Dismisses(dg, files[j].raw) == Some(id);
      assert rest[j - 1] == files[j];
    }
  }

  /** What is noted once the first file is read. */
  function NotedAfter(dg: Digest, f: File, dismissed: set<string>): set<string> {
    var e := ReadEvent(dg, f.raw);
    if e.Some? then Noted(dismissed, e.value) else dismissed
  }

  lemma NotedMeans(dg: Digest, f: File, dismissed: set<string>, id: string)
    ensures id in NotedAfter(dg, f, dismissed) <==> id in dismissed || Dismisses(dg, f.raw) == Some(id)
  {
    DismissesIs(dg, f.raw);
    hide ReadEvent, Dismisses;
  }

  /** The listing of a nonempty tree: its first file, if readable, and the rest. */
  lemma ListedStep(dg: Digest, files: seq<File>, dismissed: set<string>, taken: nat)
    requires files != []
    ensures var noted := NotedAfter(dg, files[0], dismissed);
      var e := ReadEvent(dg, files[0].raw);
      var all := ListFrom(dg, files, EVERYTHING, dismissed, taken).out;
      all == if e.Some?
          then [Listed(files[0], e.value, e.value.id in noted)]
          + ListFrom(dg, files[1..], EVERYTHING, noted, taken + 1).out
             else ListFrom(dg, files[1..], EVERYTHING, noted, taken).out
  {
    EverythingStep(dg, files, dismissed, taken);
    hide ListFrom, ReadEvent;
  }

  lemma ListedFirst(dg: Digest, files: seq<File>, dismissed: set<string>)
    requires files != [] && ReadEvent(dg, files[0].raw).Some?
    ensures var e := ReadEvent(dg, files[0].raw).value;
      ListedAt(dg, files, dismissed, Listed(files[0], e, e.id in NotedAfter(dg, files[0], dismissed)), 0)
  {
    var e := ReadEvent(dg, files[0].raw).value;
    NotedMeans(dg, files[0], dismissed, e.id);
    NamedStep(dg, files, 0, e.id);
    hide ReadEvent, Dismisses, NotedAfter;
  }

  lemma ListedLater(dg: Digest, files: seq<File>, dismissed: set<string>, l: Listed, i: nat)
    requires files != [] && ListedAt(dg, files[1..], NotedAfter(dg, files[0], dismissed), l, i)
    ensures ListedAt(dg, files, dismissed, l, i + 1)
  {
    NotedMeans(dg, files[0], dismissed, l.event.id);
    NamedStep(dg, files, i + 1, l.event.id);
    hide ReadEvent, Dismisses, NotedAfter, NamedBy;
  }

  /** Every readable file is listed, and flagged exactly when a file at or before it
      dismisses its id. */
  lemma {:induction false} FlagMeans(dg: Digest, files: seq<File>, dismissed: set<string>, taken: nat, i: nat)
      returns (l: Listed)
    requires i < |files| && ReadEvent(dg, files[i].raw).Some?
    ensures l in ListFrom(dg, files, EVERYTHING, dismissed, taken).out && ListedAt(dg, files, dismissed, l, i)
    decreases |files|
  {
    hide *;
    ListedStep(dg, files, dismissed, taken);
    var noted, e := NotedAfter(dg, files[0], dismissed), ReadEvent(dg, files[0].raw);
    if i == 0 {
      l := Listed(files[0], e.value, e.value.id in noted);
      ListedFirst(dg, files, dismissed);
    } else {
      l := FlagMeans(dg, files[1..], noted, if e.Some? then taken + 1 else taken, i - 1);
      ListedLater(dg, files, dismissed, l, i - 1);
    }
  }

  /** And nothing else is listed. */
  lemma {:induction false} ListedSomewhere(dg: Digest, files: seq<File>, dismissed: set<string>, taken: nat, l: Listed)
      returns (i: nat)
    requires l in ListFrom(dg, files, EVERYTHING, dismissed, taken).out
    ensures ListedAt(dg, files, dismissed, l, i)
    decreases |files|
  {
    hide *;
    EverythingStep(dg, files, dismissed, taken);
    ListedStep(dg, files, dismissed, taken);
    var noted, e := NotedAfter(dg, files[0], dismissed), ReadEvent(dg, files[0].raw);
    if e.Some? && l == Listed(files[0], e.value, e.value.id in noted) {
      ListedFirst(dg, files, dismissed);
      return 0;
    }
    var j := ListedSomewhere(dg, files[1..], noted, if e.Some? then taken + 1 else taken, l);
    ListedLater(dg, files, dismissed, l, j);
    return j + 1;
  }

  /** A valid dismissal is listed at or before each readable event it names, that is,
      it is newer. */
  ghost predicate DismissalsNewer(dg: Digest, t: Tree) {
    forall i | 0 <= i < |Files(t)| && ReadEvent(dg, Files(t)[i].raw).Some?
      && ReadEvent(dg, Files(t)[i].raw).value.id in DismissedIds(dg, t.live)
      :: NamedBy(dg, Files(t), i + 1, ReadEvent(dg, Files(t)[i].raw).value.id)
  }

  /** No dismissal in the archive, where no plan ever puts one, names an older event that
      no dismissal under events/ names. */
  ghost predicate ArchivedKnown(dg: Digest, t: Tree) {
    forall i, j | 0 <= j <= i < |Files(t)| && Files(t)[j].archived && ReadEvent(dg, Files(t)[i].raw).Some?
      && Dismisses(dg, Files(t)[j].raw) == Some(ReadEvent(dg, Files(t)[i].raw).value.id)
      :: ReadEvent(dg, Files(t)[i].raw).value.id in DismissedIds(dg, t.live)
  }

  /** The one-pass index agrees with the simple one on every listed event if and only
      if every dismissed event is named by a newer dismissal, and no event only by
      dismissals in the archive. */
  lemma IndexAgrees(dg: Digest, t: Tree)
    ensures (forall l | l in List(dg, t, EVERYTHING).out :: l.dismissed <==> l.event.id in DismissedIds(dg, t.live))
      <==> DismissalsNewer(dg, t) && ArchivedKnown(dg, t)
  {
    hide ListFrom, Files, ReadEvent, Dismisses, NamedBy, DismissedIds;
    var files, out, ids := Files(t), List(dg, t, EVERYTHING).out, DismissedIds(dg, t.live);
    if DismissalsNewer(dg, t) && ArchivedKnown(dg, t) {
      forall l | l in out ensures l.dismissed <==> l.event.id in ids {
        var i := ListedSomewhere(dg, files, {}, 0, l);
        if NamedBy(dg, files, i + 1, l.event.id) { NamedIsKnown(dg, t, i, l.event.id); }
      }
    }
    if forall l | l in out :: l.dismissed <==> l.event.id in ids {
      forall i | 0 <= i < |files| && ReadEvent(dg, files[i].raw).Some?
        ensures NamedBy(dg, files, i + 1, ReadEvent(dg, files[i].raw).value.id)
            <==> ReadEvent(dg, files[i].raw).value.id in ids
      {
        var l := FlagMeans(dg, files, {}, 0, i);
      }
      forall i, j | 0 <= j <= i < |files| && files[j].archived && ReadEvent(dg, files[i].raw).Some?
        && Dismisses(dg, files[j].raw) == Some(ReadEvent(dg, files[i].raw).value.id)
        ensures ReadEvent(dg, files[i].raw).value.id in ids
      {
        NamedAt(dg, files, i + 1, j);
      }
    }
  }

  lemma NamedAt(dg: Digest, files: seq<File>, n: nat, j: nat)
    requires j < n && j < |files| && Dismisses(dg, files[j].raw).Some?
    ensures NamedBy(dg, files, n, Dismisses(dg, files[j].raw).value)
  {
    hide Dismisses;
  }

  lemma NamedIsKnown(dg: Digest, t: Tree, i: nat, id: string)
    requires ArchivedKnown(dg, t) && i < |Files(t)| && NamedBy(dg, Files(t), i + 1, id)
    requires ReadEvent(dg, Files(t)[i].raw).Some? && ReadEvent(dg, Files(t)[i].raw).value.id == id
    ensures id in DismissedIds(dg, t.live)
  {
    hide Files, Dismisses, ReadEvent;
    var j :| 0 <= j < i + 1 && j < |Files(t)| && Dismisses(dg, Files(t)[j].raw) == Some(id);
    FileIs(t, Files(t)[j]);
  }

  lemma FileIs(t: Tree, f: File)
    ensures f in Files(t)
      <==> if f.archived then f.path in t.archive && f.raw == t.archive[f.path]
           else f.path in t.live && f.raw == t.live[f.path]
  {
    FilesHas(t.live, false);
    FilesHas(t.archive, true);
    hide FilesOf;
    assert f in Files(t) <==> f in FilesOf(t.live, false) || f in FilesOf(t.archive, true);
  }

  // ---------------------------------------------------------------- the code

  /** The walk of one root and the reverse sort of its paths. */
  method WalkRoot(m: map<string, string>, archived: bool) returns (files: seq<File>)
    ensures files == FilesOf(m, archived)
  {
    hide *;
    var sorted := CanonicalJson.SortStrings(m.Keys);
    ReverseHas(sorted);
    var paths := Reverse(sorted);
    files := [];
    for i := 0 to |paths|
      invariant |files| == i && forall k | 0 <= k < i ::
          paths[k] in m && files[k] == File(paths[k], archived, m[paths[k]])
    {
      assert paths[i] in sorted;
      files := files + [File(paths[i], archived, m[paths[i]])];
    }
    FilesAre(m, archived, files);
  }

  lemma FilesAre(m: map<string, string>, archived: bool, files: seq<File>)
    requires var paths := Reverse(CanonicalJson.SortedKeys(m.Keys));
      |files| == |paths| && forall k | 0 <= k < |files| ::
          paths[k] in m && files[k] == File(paths[k], archived, m[paths[k]])
    ensures files == FilesOf(m, archived)
  {
    hide CanonicalJson.SortedKeys, Reverse;
  }

  /** ListReport. */
  method ListReport(dg: Digest, t: Tree, q: Query) returns (r: Report)
    ensures r == List(dg, t, q)
  {
    hide *;
    var live := WalkRoot(t.live, false);
    var archived := WalkRoot(t.archive, true);
    var files := live + archived;
    var dismissed: set<string> := {};
    var out: seq<Listed>, holes: seq<File> := [], [];
    assert files[0..] == files;
    OntoNothing(ListFrom(dg, files, q, {}, 0));
    var i := 0;
    while i < |files| && !(q.limit > 0 && |out| >= q.limit)
      invariant i <= |files|
      invariant ListFrom(dg, files, q, {}, 0) == Onto(out, holes, ListFrom(dg, files[i..], q, dismissed, |out|))
    {
      ghost var left := files[i..];
      assert left[0] == files[i] && left[1..] == files[i + 1..];
      QueryStep(dg, left, q, dismissed, |out|);
      var f := files[i];
      i := i + 1;
      var e := ReadEvent(dg, f.raw);
      if e.None? {
        OntoHole(out, holes, f, ListFrom(dg, left[1..], q, dismissed, |out|));
        holes := holes + [f];
        continue;
      }
      dismissed := Noted(dismissed, e.value);
      var l := Listed(f, e.value, e.value.id in dismissed);
      if !Selected(q, l) { continue; }
      OntoEvent(out, holes, l, ListFrom(dg, left[1..], q, dismissed, |out| + 1));
      out := out + [l];
    }
    QueryStep(dg, files[i..], q, dismissed, |out|);
    OntoEnd(out, holes);
    ListIs(dg, t, q, files);
    return Report(out, holes);
  }

  lemma OntoEnd(out: seq<Listed>, holes: seq<File>)
    ensures Onto(out, holes, Report([], [])) == Report(out, holes)
  {}

  function Onto(out: seq<Listed>, holes: seq<File>, rest: Report): Report { Report(out + rest.out, holes + rest.holes) }

  lemma OntoNothing(rest: Report)
    ensures Onto([], [], rest) == rest
  {}

  lemma OntoHole(out: seq<Listed>, holes: seq<File>, f: File, rest: Report)
    ensures Onto(out, holes, Report(rest.out, [f] + rest.holes)) == Onto(out, holes + [f], rest)
  {}

  lemma OntoEvent(out: seq<Listed>, holes: seq<File>, l: Listed, rest: Report)
    ensures Onto(out, holes, Report([l] + rest.out, rest.holes)) == Onto(out + [l], holes, rest)
  {}

  lemma ListIs(dg: Digest, t: Tree, q: Query, files: seq<File>)
    requires files == FilesOf(t.live, false) + FilesOf(t.archive, true)
    ensures List(dg, t, q) == ListFrom(dg, files, q, {}, 0)
  {
    hide ListFrom, FilesOf;
  }

  /** DismissedIDs. */
  method DismissedIDs(dg: Digest, live: map<string, string>) returns (ids: set<string>)
    ensures ids == DismissedIds(dg, live)
  {
    hide Dismisses;
    ids := {};
    var left := live.Keys;
    while left != {}
      invariant left <= live.Keys
      invariant ids == set p | p in live && p !in left && Dismisses(dg, live[p]).Some? :: Dismisses(dg, live[p]).value
      decreases left
    {
      var p :| p in left;
      left := left - {p};
      var about := Dismisses(dg, live[p]);
      if about.Some? { ids := ids + {about.value}; }
    }
  }
}
