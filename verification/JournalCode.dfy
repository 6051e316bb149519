/** PlanJournal and Find as they are written, over the listing of the event log, proved
    to compute the plan and the lookup of Journal. */
module JournalCode {
  import opened Wrappers
  import opened EventRecords
  import opened EventLog
  import opened Journal
  import CanonicalJson

  // ---------------------------------------------------------------- the listing is the log

  ghost predicate Matches(l: Listed, s: Seen) {
    l.event == s.event && l.file.raw == s.raw && l.dismissed == s.dismissed
  }

  ghost predicate Lists(out: seq<Listed>, log: map<string, Seen>) {
    && (forall i | 0 <= i < |out| :: out[i].file.path in log && Matches(out[i], log[out[i].file.path]))
    && (forall p | p in log :: exists i :: 0 <= i < |out| && out[i].file.path == p)
    && (forall i, j | 0 <= i < j < |out| :: out[i].file.path != out[j].file.path)
  }

  lemma {:induction false} ReverseAt<T>(s: seq<T>, i: nat)
    requires i < |s|
    ensures |Reverse(s)| == |s| && Reverse(s)[i] == s[|s| - 1 - i]
  {
    ReverseHas(s[1..]);
    if i < |s| - 1 { ReverseAt(s[1..], i); }
  }

  /** The files of one root stand in descending order. */
  lemma RootOrder(m: map<string, string>, archived: bool, i: nat, j: nat)
    requires i < j < |FilesOf(m, archived)|
    ensures CanonicalJson.Below(FilesOf(m, archived)[j].path, FilesOf(m, archived)[i].path)
  {
    var keys := CanonicalJson.SortedKeys(m.Keys);
    ReverseHas(keys);
    ReverseAt(keys, i);
    ReverseAt(keys, j);
    hide CanonicalJson.SortedKeys, Reverse, CanonicalJson.Below;
  }

  lemma FileAt(t: Tree, i: nat)
    requires Disjoint(t) && i < |Files(t)|
    ensures var f := Files(t)[i];
      f.path in Paths(t) && RawAt(t, f.path) == f.raw && (f.archived <==> f.path !in t.live)
          && (f.archived <==> i >= |FilesOf(t.live, false)|)
  {
    var live, archived := FilesOf(t.live, false), FilesOf(t.archive, true);
    FilesHas(t.live, false);
    FilesHas(t.archive, true);
    hide FilesOf;
    assert Files(t)[i] == if i < |live| then live[i] else archived[i - |live|];
    assert i < |live| ==> live[i] in live;
    assert i >= |live| ==> archived[i - |live|] in archived;
  }

  /** Position in the listing is the order that flags are defined by. */
  lemma FilesOrder(t: Tree, i: nat, j: nat)
    requires Disjoint(t) && i < |Files(t)| && j < |Files(t)|
    ensures j <= i <==> AtOrBefore(t, Files(t)[j].path, Files(t)[i].path)
    ensures i != j ==> Files(t)[j].path != Files(t)[i].path
  {
    FileAt(t, i);
    FileAt(t, j);
    if i < j { LaterBelow(t, i, j); }
    if j < i { LaterBelow(t, j, i); }
    CanonicalJson.BelowTotal(Files(t)[i].path, Files(t)[j].path);
    hide Files, CanonicalJson.Below, RawAt, Paths;
  }

  lemma LaterBelow(t: Tree, i: nat, j: nat)
    requires Disjoint(t) && i < j < |Files(t)|
    ensures Files(t)[i].archived == Files(t)[j].archived ==> CanonicalJson.Below(Files(t)[j].path, Files(t)[i].path)
    ensures Files(t)[i].archived ==> Files(t)[j].archived
  {
    hide FilesOf, CanonicalJson.Below, RawAt, Paths, Disjoint;
    var n := |FilesOf(t.live, false)|;
    FileAt(t, i);
    FileAt(t, j);
    if j < n { RootOrder(t.live, false, i, j); }
    if i >= n { RootOrder(t.archive, true, i - n, j - n); }
  }

  /** Named at or before a position is flagged. */
  lemma NamedIsFlagged(dg: Digest, t: Tree, i: nat, id: string)
    requires Disjoint(t) && i < |Files(t)|
    ensures NamedBy(dg, Files(t), i + 1, id) <==> Flagged(dg, t, Files(t)[i].path, id)
  {
    hide Files, Dismisses, AtOrBefore, RawAt, Paths;
    var files := Files(t);
    if NamedBy(dg, files, i + 1, id) {
      var j :| 0 <= j < i + 1 && j < |files| && Dismisses(dg, files[j].raw) == Some(id);
      FileAt(t, j);
      FilesOrder(t, i, j);
    }
    if Flagged(dg, t, files[i].path, id) {
      var q :| q in Paths(t) && AtOrBefore(t, q, files[i].path) && Dismisses(dg, RawAt(t, q)) == Some(id);
      var j := PathListed(t, q);
      FileAt(t, j);
      FilesOrder(t, i, j);
    }
  }

  lemma PathListed(t: Tree, p: string) returns (i: nat)
    requires Disjoint(t) && p in Paths(t)
    ensures i < |Files(t)| && Files(t)[i].path == p
  {
    var f := File(p, p !in t.live, RawAt(t, p));
    FileIs(t, f);
    hide Files;
    i :| 0 <= i < |Files(t)| && Files(t)[i] == f;
  }

  // ---------------------------------------------------------------- distinct files

  ghost predicate DistinctFiles(files: seq<File>) { forall i, j | 0 <= i < j < |files| :: files[i] != files[j] }

  lemma {:induction false} OutFiles(dg: Digest, files: seq<File>, dismissed: set<string>, taken: nat)
    requires DistinctFiles(files)
    ensures var out := ListFrom(dg, files, EVERYTHING, dismissed, taken).out;
      && (forall i | 0 <= i < |out| :: out[i].file in files)
      && (forall i, j | 0 <= i < j < |out| :: out[i].file != out[j].file)
    decreases |files|
  {
    hide *;
    EverythingStep(dg, files, dismissed, taken);
    if files != [] {
      ListedStep(dg, files, dismissed, taken);
      TailDistinct(files);
      var noted, e := NotedAfter(dg, files[0], dismissed), ReadEvent(dg, files[0].raw);
      var left := if e.Some? then taken + 1 else taken;
      OutFiles(dg, files[1..], noted, left);
      OutCons(files, ListFrom(dg, files, EVERYTHING, dismissed, taken).out,
          ListFrom(dg, files[1..], EVERYTHING, noted, left).out);
    }
  }

  lemma TailDistinct(files: seq<File>)
    requires files != [] && DistinctFiles(files)
    ensures DistinctFiles(files[1..]) && files[0] !in files[1..]
  {}

  lemma OutCons(files: seq<File>, out: seq<Listed>, rest: seq<Listed>)
    requires files != [] && files[0] !in files[1..]
    requires out == rest || (out != [] && out[0].file == files[0] && out == [out[0]] + rest)
    requires (forall i | 0 <= i < |rest| :: rest[i].file in files[1..])
        && (forall i, j | 0 <= i < j < |rest| :: rest[i].file != rest[j].file)
    ensures (forall i | 0 <= i < |out| :: out[i].file in files)
        && (forall i, j | 0 <= i < j < |out| :: out[i].file != out[j].file)
  {
    if out != rest {
      assert forall i | 0 < i < |out| :: out[i] == rest[i - 1];
    }
  }

  lemma FilesDistinct(t: Tree)
    requires Disjoint(t)
    ensures DistinctFiles(Files(t))
  {
    hide Files, AtOrBefore;
    forall i, j | 0 <= i < j < |Files(t)| ensures Files(t)[i] != Files(t)[j] { FilesOrder(t, i, j); }
  }

  /** The unfiltered listing is the log: each event once, with its flag. */
  lemma ListingIsLog(dg: Digest, t: Tree)
    requires Disjoint(t)
    ensures Lists(List(dg, t, EVERYTHING).out, Log(dg, t))
  {
    hide *;
    var out, log, files := List(dg, t, EVERYTHING).out, Log(dg, t), Files(t);
    ListFiles(dg, t);
    FilesDistinct(t);
    OutFiles(dg, files, {}, 0);
    forall i | 0 <= i < |out| ensures out[i].file.path in log && Matches(out[i], log[out[i].file.path]) {
      assert out[i] in out;
      var k := ListedSomewhere(dg, files, {}, 0, out[i]);
      ListedMatches(dg, t, out[i], k);
    }
    forall p | p in log ensures exists i :: 0 <= i < |out| && out[i].file.path == p {
      LogDomain(dg, t);
      var k := PathListed(t, p);
      FileAt(t, k);
      LogAt(dg, t, p);
      var l := FlagMeans(dg, files, {}, 0, k);
      ListedFile(dg, files, l, k);
      var i :| 0 <= i < |out| && out[i] == l;
    }
    forall i, j | 0 <= i < j < |out| ensures out[i].file.path != out[j].file.path {
      SamePath(t, out[i].file, out[j].file);
    }
    ListsFits(out, log);
  }

  lemma ListsFits(out: seq<Listed>, log: map<string, Seen>)
    requires forall i | 0 <= i < |out| :: out[i].file.path in log && Matches(out[i], log[out[i].file.path])
    requires forall p | p in log :: exists i :: 0 <= i < |out| && out[i].file.path == p
    requires forall i, j | 0 <= i < j < |out| :: out[i].file.path != out[j].file.path
    ensures Lists(out, log)
  {
    hide Matches;
  }

  lemma ListFiles(dg: Digest, t: Tree)
    ensures List(dg, t, EVERYTHING) == ListFrom(dg, Files(t), EVERYTHING, {}, 0)
  {
    hide ListFrom, Files;
  }

  lemma ListedFile(dg: Digest, files: seq<File>, l: Listed, k: nat)
    requires ListedAt(dg, files, {}, l, k)
    ensures k < |files| && l.file == files[k]
  {
    hide ReadEvent, NamedBy;
  }

  lemma SamePath(t: Tree, f: File, g: File)
    requires Disjoint(t) && f in Files(t) && g in Files(t) && f != g
    ensures f.path != g.path
  {
    FileIs(t, f);
    FileIs(t, g);
    hide Files;
  }

  lemma ListedMatches(dg: Digest, t: Tree, l: Listed, k: nat)
    requires Disjoint(t) && ListedAt(dg, Files(t), {}, l, k)
    ensures l.file.path in Log(dg, t) && Matches(l, Log(dg, t)[l.file.path])
  {
    FileAt(t, k);
    NamedIsFlagged(dg, t, k, l.event.id);
    LogAt(dg, t, l.file.path);
    hide Log, Files, ReadEvent, Flagged, NamedBy, RawAt, Paths;
  }

  // ---------------------------------------------------------------- Find

  /** Event ids are as long as each other and no two events share one. */
  ghost predicate IdsOk(log: map<string, Seen>) {
    DistinctIds(log) && forall p | p in log :: |log[p].event.id| == 26
  }

  lemma ListedIds(out: seq<Listed>, log: map<string, Seen>)
    requires Lists(out, log) && IdsOk(log)
    ensures forall i | 0 <= i < |out| :: |out[i].event.id| == 26
    ensures forall i, j | 0 <= i < j < |out| :: out[i].event.id != out[j].event.id
  {
    forall i | 0 <= i < |out| ensures |out[i].event.id| == 26 { assert Matches(out[i], log[out[i].file.path]); }
    forall i, j | 0 <= i < j < |out| ensures out[i].event.id != out[j].event.id {
      assert Matches(out[i], log[out[i].file.path]) && Matches(out[j], log[out[j].file.path]);
    }
  }

  /** An id is listed exactly when the log has it. */
  lemma ListedId(out: seq<Listed>, log: map<string, Seen>, id: string)
    requires Lists(out, log)
    ensures (exists i :: 0 <= i < |out| && out[i].event.id == id) <==> exists p :: p in log && log[p].event.id == id
  {
    if i :| 0 <= i < |out| && out[i].event.id == id { assert Matches(out[i], log[out[i].file.path]); }
    if p :| p in log && log[p].event.id == id {
      var i :| 0 <= i < |out| && out[i].file.path == p;
      assert Matches(out[i], log[p]);
    }
  }

  /** The event that `found` is an event of the log. */
  ghost predicate FoundIn(log: map<string, Seen>, l: Listed) { l.file.path in log && Matches(l, log[l.file.path]) }

  lemma ListedFound(out: seq<Listed>, log: map<string, Seen>, i: nat)
    requires Lists(out, log) && i < |out|
    ensures FoundIn(log, out[i])
  {
    hide Matches;
  }

  lemma SameLength(a: string, b: string)
    requires |a| == |b|
    ensures a <= b <==> a == b
  {}

  /** Find by id or prefix; None is not found or ambiguous. */
  method Find(dg: Digest, t: Tree, ref: string) returns (found: Option<Listed>)
    requires Disjoint(t) && IdsOk(Log(dg, t)) && |ref| == 26
    ensures found.Some? <==> exists p :: p in Log(dg, t) && Log(dg, t)[p].event.id == ref
    ensures found.Some? ==> found.value.event.id == ref && FoundIn(Log(dg, t), found.value)
  {
    hide *;
    ListingIsLog(dg, t);
    var r := ListReport(dg, t, EVERYTHING);
    var out := r.out;
    ListedIds(out, Log(dg, t));
    ListedId(out, Log(dg, t), ref);
    found := None;
    for i := 0 to |out|
      invariant found.None? ==> forall k | 0 <= k < i :: out[k].event.id != ref
      invariant found.Some? ==> found.value.event.id == ref && exists k :: 0 <= k < i && out[k] == found.value
    {
      SameLength(ref, out[i].event.id);
      if out[i].event.id != ref && !(ref <= out[i].event.id) { continue; }
      if found.Some? { return None; }
      found := Some(out[i]);
    }
    if found.Some? {
      var k :| 0 <= k < |out| && out[k] == found.value;
      ListedFound(out, Log(dg, t), k);
    }
  }

  // ---------------------------------------------------------------- unreadable files

  lemma {:induction false} HolesOf(dg: Digest, files: seq<File>, dismissed: set<string>, taken: nat)
    ensures forall f ::
        f in ListFrom(dg, files, EVERYTHING, dismissed, taken).holes <==> f in files && ReadEvent(dg, f.raw).None?
    decreases |files|
  {
    hide *;
    EverythingStep(dg, files, dismissed, taken);
    if files != [] {
      assert files == [files[0]] + files[1..];
      var e := ReadEvent(dg, files[0].raw);
      if e.None? {
        HolesOf(dg, files[1..], dismissed, taken);
      } else {
        HolesOf(dg, files[1..], Noted(dismissed, e.value), taken + 1);
      }
    }
  }

  /** The holes of the listing are the files the log leaves out. */
  lemma HolesListed(dg: Digest, t: Tree, f: File)
    requires Disjoint(t)
    ensures f in List(dg, t, EVERYTHING).holes ==> f.path in Holes(dg, t) && Holes(dg, t)[f.path] == f.raw
    ensures f.path in Holes(dg, t) && f == File(f.path, f.path !in t.live, RawAt(t, f.path))
        ==> f in List(dg, t, EVERYTHING).holes
  {
    ListFiles(dg, t);
    HolesOf(dg, Files(t), {}, 0);
    FileIs(t, f);
    hide Files, ListFrom, Log, Holes, ReadEvent;
    LogDomain(dg, t);
    if f.path in Paths(t) { LogAt(dg, t, f.path); }
  }

  // ---------------------------------------------------------------- groups

  /** The listed events that wait for one target, each once. */
  ghost predicate Group(s: Scope, events: seq<Listed>, n: nat, target: string, group: seq<Listed>)
    requires n <= |events|
  {
    && (forall l :: l in group <==> l in events[..n] && Waiting(s, l.event) && l.event.about == target)
    && (forall i, j | 0 <= i < j < |group| :: group[i].file.path != group[j].file.path)
  }

  ghost predicate Groups(s: Scope, events: seq<Listed>, n: nat, pending: map<string, seq<Listed>>)
    requires n <= |events|
  {
    forall target :: Group(s, events, n, target, if target in pending then pending[target] else [])
  }

  predicate DistinctPaths(events: seq<Listed>) {
    forall i, j | 0 <= i < j < |events| :: events[i].file.path != events[j].file.path
  }

  lemma GroupStep(s: Scope, events: seq<Listed>, n: nat, target: string, group: seq<Listed>)
    requires n < |events| && DistinctPaths(events) && Group(s, events, n, target, group)
    ensures Group(s, events, n + 1, target, if Waiting(s, events[n].event) && events[n].event.about == target
        then group + [events[n]] else group)
  {
    hide Waiting;
    var before, after := events[..n], events[..n + 1];
    assert after == before + [events[n]];
    assert forall l | l in before :: l.file.path != events[n].file.path by {
      forall l | l in before ensures l.file.path != events[n].file.path { var k :| 0 <= k < n && before[k] == l; }
    }
  }

  /** pendingByTarget. */
  method GroupPending(s: Scope, events: seq<Listed>) returns (pending: map<string, seq<Listed>>)
    requires DistinctPaths(events)
    ensures Groups(s, events, |events|, pending)
  {
    hide Waiting, Group;
    pending := map[];
    forall target ensures Group(s, events, 0, target, []) { NoGroup(s, events, target); }
    for i := 0 to |events|
      invariant Groups(s, events, i, pending)
    {
      var l := events[i];
      ghost var before := pending;
      if Waiting(s, l.event) {
        var target := l.event.about;
        pending := pending[target := (if target in pending then pending[target] else []) + [l]];
      }
      forall target ensures Group(s, events, i + 1, target, if target in pending then pending[target] else []) {
        GroupStep(s, events, i, target, if target in before then before[target] else []);
      }
    }
  }

  lemma NoGroup(s: Scope, events: seq<Listed>, target: string)
    ensures Group(s, events, 0, target, [])
  {}

  lemma {:induction false} PathCount(group: seq<Listed>)
    requires DistinctPaths(group)
    ensures |set l | l in group :: l.file.path| == |group|
  {
    var paths := set l | l in group :: l.file.path;
    if group != [] {
      var rest := set l | l in group[1..] :: l.file.path;
      PathCount(group[1..]);
      assert group == [group[0]] + group[1..];
      assert paths == rest + {group[0].file.path};
      assert group[0].file.path !in rest;
    }
  }

  /** A group is the peers of its target in the log. */
  lemma GroupIsPeers(s: Scope, events: seq<Listed>, log: map<string, Seen>, target: string, group: seq<Listed>)
    requires Lists(events, log) && Group(s, events, |events|, target, group)
    ensures Peers(s, log, target) == (set l | l in group :: l.file.path) && |Peers(s, log, target)| == |group|
    ensures forall l | l in group :: l.file.path in log && log[l.file.path].event == l.event
  {
    hide Waiting;
    assert events[..|events|] == events;
    PathCount(group);
    forall l | l in events ensures l.file.path in log && log[l.file.path].event == l.event {
      var i :| 0 <= i < |events| && events[i] == l;
      assert Matches(events[i], log[events[i].file.path]);
    }
    forall p | p in Peers(s, log, target) ensures p in set l | l in group :: l.file.path {
      var i :| 0 <= i < |events| && events[i].file.path == p;
      assert events[i] in group;
    }
  }

  /** contestedMailbox, over the list of peers. */
  method ContestedMailbox(current: Event, events: seq<Listed>) returns (r: bool)
    ensures r == ContestedList(current, events)
  {
    hide Exclusive;
    if !Exclusive(current.kind) { return false; }
    var kinds: set<string>, actors: set<string> := {}, {};
    for i := 0 to |events|
      invariant kinds == set l | l in events[..i] && Exclusive(l.event.kind) :: l.event.kind
      invariant actors == set l | l in events[..i] && Exclusive(l.event.kind) :: l.event.actor
    {
      assert events[..i + 1] == events[..i] + [events[i]];
      if Exclusive(events[i].event.kind) {
        kinds, actors := kinds + {events[i].event.kind}, actors + {events[i].event.actor};
      }
    }
    assert events[..|events|] == events;
    return |kinds| > 1 || (|events| > 1 && |actors| > 1 && |kinds| > 0);
  }

  ghost predicate ContestedList(current: Event, events: seq<Listed>) {
    var kinds := set l | l in events && Exclusive(l.event.kind) :: l.event.kind;
    var actors := set l | l in events && Exclusive(l.event.kind) :: l.event.actor;
    Exclusive(current.kind) && (|kinds| > 1 || (|events| > 1 && |actors| > 1 && |kinds| > 0))
  }

  lemma ContestedIs(log: map<string, Seen>, current: Event, peers: set<string>, group: seq<Listed>)
    requires peers == (set l | l in group :: l.file.path) && |peers| == |group|
    requires forall l | l in group :: l.file.path in log && log[l.file.path].event == l.event
    ensures ContestedList(current, group) <==> ContestedBy(log, current, peers)
  {
    hide Exclusive;
    var rivals := set p | p in peers && Exclusive(log[p].event.kind);
    assert rivals == set l | l in group && Exclusive(l.event.kind) :: l.file.path;
    assert (set l | l in group && Exclusive(l.event.kind) :: l.event.kind) == set p | p in rivals :: log[p].event.kind;
    assert (set l | l in group && Exclusive(l.event.kind) :: l.event.actor) == set p | p in rivals ::
        log[p].event.actor;
  }

  // ---------------------------------------------------------------- superseded proposals

  /** The ids of the status proposals of a group. */
  function ProposalIds(group: seq<Listed>): set<string> {
    set l | l in group && l.event.kind == "propose-status" :: l.event.id
  }

  /** All proposals of one group but the newest. */
  method OlderProposals(group: seq<Listed>) returns (older: set<string>)
    ensures forall id :: id in older <==> id in ProposalIds(group) && exists other ::
        other in ProposalIds(group) && CanonicalJson.Below(id, other)
  {
    var ids := ProposalIds(group);
    var sorted := CanonicalJson.SortStrings(ids);
    hide CanonicalJson.SortedKeys, CanonicalJson.Below, ProposalIds;
    older := {};
    var n := if |sorted| > 0 then |sorted| - 1 else 0;
    for i := 0 to n
      invariant older == set k | 0 <= k < i :: sorted[k]
    {
      older := older + {sorted[i]};
    }
    forall id ensures id in older <==> id in ids && exists other :: other in ids && CanonicalJson.Below(id, other) {
      if id in older {
        assert sorted[n] in ids;
      }
      if id in ids && exists other :: other in ids && CanonicalJson.Below(id, other) {
        var other :| other in ids && CanonicalJson.Below(id, other);
        var k :| 0 <= k < |sorted| && sorted[k] == id;
        var j :| 0 <= j < |sorted| && sorted[j] == other;
        CanonicalJson.BelowTotal(id, other);
        if k == n { CanonicalJson.BelowTotal(sorted[j], sorted[k]); }
      }
    }
  }

  ghost predicate OldId(group: seq<Listed>, id: string) {
    id in ProposalIds(group) && exists other :: other in ProposalIds(group) && CanonicalJson.Below(id, other)
  }

  /** The loop over the targets. */
  method SupersededIds(pending: map<string, seq<Listed>>) returns (superseded: set<string>)
    ensures forall id :: id in superseded <==> exists target :: target in pending && OldId(pending[target], id)
  {
    superseded := {};
    var left := pending.Keys;
    while left != {}
      invariant left <= pending.Keys
      invariant forall id :: id in superseded <==> exists target ::
          target in pending && target !in left && OldId(pending[target], id)
      decreases left
    {
      var target :| target in left;
      var older := OlderProposals(pending[target]);
      hide ProposalIds, CanonicalJson.Below;
      assert forall id :: id in older <==> OldId(pending[target], id);
      hide OldId;
      left := left - {target};
      superseded := superseded + older;
    }
  }

  /** A waiting proposal is old exactly when the log has a newer one for its target. */
  lemma SupersededIs(s: Scope, events: seq<Listed>, log: map<string, Seen>, pending: map<string, seq<Listed>>,
      p: string)
    requires Lists(events, log) && DistinctIds(log) && Groups(s, events, |events|, pending) && p in log
        && Scoped(s, log[p].event)
    ensures (exists target :: target in pending && OldId(pending[target], log[p].event.id))
        <==> Superseded(s, log, log[p].event)
  {
    var e := log[p].event;
    hide Waiting, CanonicalJson.Below, Group, Scoped;
    if target :| target in pending && OldId(pending[target], e.id) {
      assert Group(s, events, |events|, target, pending[target]);
      OldIsSuperseded(s, events, log, target, pending[target], p);
    }
    if Superseded(s, log, e) {
      assert Group(s, events, |events|, e.about, if e.about in pending then pending[e.about] else []);
      SupersededIsOld(s, events, log, e.about, if e.about in pending then pending[e.about] else [], p);
      assert OldId([], e.id) ==> false by { NoOld(e.id); }
    }
  }

  lemma NoOld(id: string)
    ensures !OldId([], id)
  {
    hide CanonicalJson.Below;
  }

  lemma OldIsSuperseded(s: Scope, events: seq<Listed>, log: map<string, Seen>, target: string, group: seq<Listed>,
      p: string)
    requires Lists(events, log) && DistinctIds(log) && Group(s, events, |events|, target, group) && p in log
        && OldId(group, log[p].event.id)
    ensures Superseded(s, log, log[p].event)
  {
    GroupIsPeers(s, events, log, target, group);
    hide Waiting, CanonicalJson.Below, Peers, Lists;
    var id := log[p].event.id;
    var l :| l in group && l.event.kind == "propose-status" && l.event.id == id;
    assert log[l.file.path].event.id == id;
    assert l.file.path == p;
    var other :| other in ProposalIds(group) && CanonicalJson.Below(id, other);
    var m :| m in group && m.event.kind == "propose-status" && m.event.id == other;
    assert m.file.path in Peers(s, log, target);
  }

  lemma SupersededIsOld(s: Scope, events: seq<Listed>, log: map<string, Seen>, target: string, group: seq<Listed>,
      p: string)
    requires Lists(events, log) && Group(s, events, |events|, target, group) && p in log
        && Superseded(s, log, log[p].event) && target == log[p].event.about
    ensures OldId(group, log[p].event.id)
  {
    GroupIsPeers(s, events, log, target, group);
    var e := log[p].event;
    assert p in Peers(s, log, target);
    hide Waiting, CanonicalJson.Below, Peers, Lists, Group;
    var q :| q in Peers(s, log, target) && log[q].event.kind == "propose-status"
        && CanonicalJson.Below(e.id, log[q].event.id);
    var l :| l in group && l.file.path == p;
    var m :| m in group && m.file.path == q;
    assert l.event.id in ProposalIds(group) && m.event.id in ProposalIds(group);
  }

  // ---------------------------------------------------------------- the plan

  /** The loop that collects the ids other events are about. */
  method ReferencedIds(events: seq<Listed>) returns (referenced: set<string>)
    ensures forall i | 0 <= i < |events| ::
      events[i].event.id in referenced <==> exists k ::
          0 <= k < |events| && events[k].event.kind != DISMISSAL && events[k].event.about == events[i].event.id
  {
    var allIds: set<string> := {};
    for i := 0 to |events|
      invariant forall k | 0 <= k < i :: events[k].event.id in allIds
    {
      allIds := allIds + {events[i].event.id};
    }
    referenced := {};
    for i := 0 to |events|
      invariant forall id :: id in referenced <==> id in allIds && exists k ::
          0 <= k < i && events[k].event.kind != DISMISSAL && events[k].event.about == id
    {
      var e := events[i].event;
      if e.kind != DISMISSAL && e.about in allIds { referenced := referenced + {e.about}; }
    }
  }

  lemma ReferencedIs(events: seq<Listed>, log: map<string, Seen>, id: string)
    requires Lists(events, log)
    ensures (exists k :: 0 <= k < |events| && events[k].event.kind != DISMISSAL && events[k].event.about == id)
        <==> Referenced(log, id)
  {
    if k :| 0 <= k < |events| && events[k].event.kind != DISMISSAL && events[k].event.about == id {
      assert Matches(events[k], log[events[k].file.path]);
    }
    if p :| p in log && log[p].event.kind != DISMISSAL && log[p].event.about == id {
      var k :| 0 <= k < |events| && events[k].file.path == p;
      assert Matches(events[k], log[p]);
    }
  }

  /** classifyJournalItem on a listed event and the tables PlanJournal has filled. */
  method ClassifyItem(dg: Digest, s: Scope, l: Listed, peers: seq<Listed>, oldProposal: bool, referenced: bool)
      returns (item: Item)
    requires Scoped(s, l.event)
    ensures item == ClassifiedItem(dg, s, l, ClassOf(s, l, ContestedList(l.event, peers), oldProposal, referenced))
  {
    hide ContestedList, IsJournal;
    var e := l.event;
    var contested := ContestedMailbox(e, peers);
    var c: Class, action := PendingActionable, Preserve;
    if referenced {
      c := ExternallyReferenced;
    } else if contested {
      c := Contested;
    } else if oldProposal {
      c, action := SupersededProposal, Dismiss;
    } else if !e.applied && !IsJournal(e.kind) && e.about !in s.tasks {
      c, action := MissingTarget, Dismiss;
    } else if !e.applied && !IsJournal(e.kind) && s.tasks[e.about] {
      c, action := TerminalTarget, Dismiss;
    } else if !e.applied && !IsJournal(e.kind) && !l.dismissed {
      c := PendingActionable;
    } else if IsJournal(e.kind) {
      c := CompleteJournal;
      if c in s.classes { action := Archive; }
    } else {
      c := CompleteMailbox;
      if c in s.classes { action := Archive; }
    }
    return Item(e.id, e.kind, e.actor, e.about, l.file.path, c, action, |l.file.raw|, dg.sum(l.file.raw));
  }

  function ClassOf(s: Scope, l: Listed, contested: bool, oldProposal: bool, referenced: bool): Class {
    var e := l.event;
    if referenced then ExternallyReferenced
    else if contested then Contested
    else if oldProposal then SupersededProposal
    else if !e.applied && !IsJournal(e.kind) && e.about !in s.tasks then MissingTarget
    else if !e.applied && !IsJournal(e.kind) && s.tasks[e.about] then TerminalTarget
    else if !e.applied && !IsJournal(e.kind) && !l.dismissed then PendingActionable
    else if IsJournal(e.kind) then CompleteJournal
    else CompleteMailbox
  }

  function ClassifiedItem(dg: Digest, s: Scope, l: Listed, c: Class): Item {
    Item(l.event.id, l.event.kind, l.event.actor, l.event.about, l.file.path, c, ActionOf(s, c), |l.file.raw|,
        dg.sum(l.file.raw))
  }

  /** The tables give the class that the log gives. */
  lemma ItemFromTables(dg: Digest, s: Scope, events: seq<Listed>, log: map<string, Seen>, pending: map<string,
      seq<Listed>>, i: nat, oldProposal: bool, referenced: bool)
    requires Lists(events, log) && DistinctIds(log) && Groups(s, events, |events|, pending) && i < |events|
        && Scoped(s, events[i].event)
    requires oldProposal <==> exists target :: target in pending && OldId(pending[target], events[i].event.id)
    requires referenced <==> exists k ::
        0 <= k < |events| && events[k].event.kind != DISMISSAL && events[k].event.about == events[i].event.id
    ensures var l := events[i]; var peers := if l.event.about in pending then pending[l.event.about] else [];
      l.file.path in log && log[l.file.path].event == l.event
      && ClassifiedItem(dg, s, l, ClassOf(s, l, ContestedList(l.event, peers), oldProposal, referenced))
          == ItemOf(dg, s, log, l.file.path)
  {
    hide *;
    var l := events[i];
    var p := l.file.path;
    var peers := if l.event.about in pending then pending[l.event.about] else [];
    ListedFound(events, log, i);
    FoundParts(log, l);
    ReferencedIs(events, log, l.event.id);
    SupersededIs(s, events, log, pending, p);
    GroupAt(s, events, pending, l.event.about);
    GroupIsPeers(s, events, log, l.event.about, peers);
    ContestedIs(log, l.event, Peers(s, log, l.event.about), peers);
    SameItem(dg, s, log, l, ContestedList(l.event, peers), oldProposal, referenced);
  }

  lemma GroupAt(s: Scope, events: seq<Listed>, pending: map<string, seq<Listed>>, target: string)
    requires Groups(s, events, |events|, pending)
    ensures Group(s, events, |events|, target, if target in pending then pending[target] else [])
  {
    hide Group;
  }

  lemma FoundParts(log: map<string, Seen>, l: Listed)
    requires FoundIn(log, l)
    ensures l.file.path in log && log[l.file.path] == Seen(l.event, l.file.raw, l.dismissed)
  {}

  lemma SameItem(dg: Digest, s: Scope, log: map<string, Seen>, l: Listed, contested: bool, oldProposal: bool,
      referenced: bool)
    requires l.file.path in log && log[l.file.path] == Seen(l.event, l.file.raw, l.dismissed)
    requires forall p | p in Peers(s, log, l.event.about) :: p in log
    requires contested == ContestedBy(log, l.event, Peers(s, log, l.event.about))
    requires oldProposal == Superseded(s, log, l.event) && referenced == Referenced(log, l.event.id)
    requires Scoped(s, l.event)
    ensures ClassifiedItem(dg, s, l, ClassOf(s, l, contested, oldProposal, referenced))
        == ItemOf(dg, s, log, l.file.path)
  {
    hide ContestedBy, Superseded, Referenced, Peers, IsJournal;
  }

  lemma ListedPaths(events: seq<Listed>, log: map<string, Seen>)
    requires Lists(events, log)
    ensures DistinctPaths(events)
  {
    hide Matches;
  }

  /** A listed event in scope has its item. */
  ghost predicate ItemPut(dg: Digest, s: Scope, log: map<string, Seen>, l: Listed, items: map<string, Item>) {
    var p := l.file.path;
    p in log && log[p].event == l.event && (Scoped(s, l.event) ==> p in items && items[p] == ItemOf(dg, s, log, p))
  }

  ghost predicate FromLog(dg: Digest, s: Scope, log: map<string, Seen>, p: string, item: Item) {
    p in log && Scoped(s, log[p].event) && item == ItemOf(dg, s, log, p)
  }

  lemma PutStep(dg: Digest, s: Scope, log: map<string, Seen>, events: seq<Listed>, i: nat, before: map<string, Item>,
      items: map<string, Item>)
    requires i < |events| && events[i].file.path in log && log[events[i].file.path].event == events[i].event
    requires forall k | 0 <= k < i :: ItemPut(dg, s, log, events[k], before)
    requires forall p | p in before :: FromLog(dg, s, log, p, before[p])
    requires items == if Scoped(s, events[i].event)
        then before[events[i].file.path := ItemOf(dg, s, log, events[i].file.path)] else before
    ensures forall k | 0 <= k < i + 1 :: ItemPut(dg, s, log, events[k], items)
    ensures forall p | p in items :: FromLog(dg, s, log, p, items[p])
  {
    hide ItemOf, Scoped;
    forall k | 0 <= k < i ensures ItemPut(dg, s, log, events[k], items) {
      assert ItemPut(dg, s, log, events[k], before);
    }
    forall p | p in items ensures FromLog(dg, s, log, p, items[p]) {
      assert p in before ==> FromLog(dg, s, log, p, before[p]);
    }
  }

  lemma AllPut(dg: Digest, s: Scope, events: seq<Listed>, log: map<string, Seen>, items: map<string, Item>)
    requires Lists(events, log)
    requires forall k | 0 <= k < |events| :: ItemPut(dg, s, log, events[k], items)
    requires forall p | p in items :: FromLog(dg, s, log, p, items[p])
    ensures items == map p | p in log && Scoped(s, log[p].event) :: ItemOf(dg, s, log, p)
  {
    hide ItemOf, Scoped, Matches;
    forall p | p in log && Scoped(s, log[p].event) ensures p in items && items[p] == ItemOf(dg, s, log, p) {
      var k :| 0 <= k < |events| && events[k].file.path == p;
      assert ItemPut(dg, s, log, events[k], items);
    }
    forall p | p in items ensures p in log && Scoped(s, log[p].event) {
      assert FromLog(dg, s, log, p, items[p]);
    }
  }

  lemma NotInLog(dg: Digest, s: Scope, log: map<string, Seen>, fromLog: map<string, Item>, p: string)
    requires fromLog == (map q | q in log && Scoped(s, log[q].event) :: ItemOf(dg, s, log, q)) && p !in log
    ensures p !in fromLog
  {
    hide ItemOf, Scoped;
  }

  lemma ItemsAre(dg: Digest, s: Scope, t: Tree, fromLog: map<string, Item>, items: map<string, Item>)
    requires fromLog == map p | p in Log(dg, t) && Scoped(s, Log(dg, t)[p].event) :: ItemOf(dg, s, Log(dg, t), p)
    requires forall p | p in fromLog :: p in items && items[p] == fromLog[p]
    requires forall p | p in items && p !in fromLog :: p in Holes(dg, t) && items[p] == HoleItem(p, Holes(dg, t)[p])
    requires forall p | p in Holes(dg, t) :: p in items
    ensures items == Items(dg, s, t)
  {
    LogHoles(dg, t);
    hide ItemOf, Scoped, Log, Holes;
  }

  lemma LogHoles(dg: Digest, t: Tree)
    ensures Log(dg, t).Keys !! Holes(dg, t).Keys
  {
    hide ReadEvent, Flagged;
  }

  /** PlanJournal: the items of the plan, by logical path. */
  method PlanJournal(dg: Digest, s: Scope, t: Tree) returns (items: map<string, Item>)
    requires Disjoint(t) && DistinctIds(Log(dg, t))
    ensures items == Items(dg, s, t)
  {
    hide *;
    ghost var log, holes := Log(dg, t), Holes(dg, t);
    ListingIsLog(dg, t);
    var report := ListReport(dg, t, EVERYTHING);
    var events := report.out;
    ListedPaths(events, log);
    var referenced := ReferencedIds(events);
    var pending := GroupPending(s, events);
    var superseded := SupersededIds(pending);
    items := map[];
    for i := 0 to |events|
      invariant forall k | 0 <= k < i :: ItemPut(dg, s, log, events[k], items)
      invariant forall p | p in items :: FromLog(dg, s, log, p, items[p])
    {
      var l := events[i];
      ghost var before := items;
      if Scoped(s, l.event) {
        ItemFromTables(dg, s, events, log, pending, i, l.event.id in superseded, l.event.id in referenced);
        var peers := if l.event.about in pending then pending[l.event.about] else [];
        var item := ClassifyItem(dg, s, l, peers, l.event.id in superseded, l.event.id in referenced);
        items := items[l.file.path := item];
      }
      ListedFound(events, log, i);
      FoundParts(log, l);
      PutStep(dg, s, log, events, i, before, items);
    }
    AllPut(dg, s, events, log, items);
    ghost var fromLog := items;
    for i := 0 to |report.holes|
      invariant forall k | 0 <= k < i :: report.holes[k].path in items
      invariant forall p | p in fromLog :: p in items && items[p] == fromLog[p]
      invariant forall p | p in items && p !in fromLog :: p in holes && items[p] == HoleItem(p, holes[p])
    {
      var f := report.holes[i];
      assert f in report.holes;
      HolesListed(dg, t, f);
      LogDomain(dg, t);
      LogAt(dg, t, f.path);
      NotInLog(dg, s, log, fromLog, f.path);
      items := items[f.path := HoleItem(f.path, f.raw)];
    }
    forall p | p in holes ensures p in items {
      var f := File(p, p !in t.live, RawAt(t, p)) by { LogDomain(dg, t); }
      HolesListed(dg, t, f);
      var k :| 0 <= k < |report.holes| && report.holes[k] == f;
    }
    ItemsAre(dg, s, t, fromLog, items);
  }
}
