/** ApplyJournalPlan and Dismiss of internal/eventlog/journal.go and eventlog.go as
    they are written: in durable phases that may stop before any write. */
module JournalApply {
  import opened Wrappers
  import opened EventRecords
  import opened EventLog
  import opened Journal
  import opened JournalCode
  import opened JournalProgress
  import opened JournalRuns
  import CanonicalJson

  // ---------------------------------------------------------------- the code

  /** The lookup of Dismiss: is there a dismissal of `id` already? */
  method DismissalListed(dg: Digest, t: Tree, id: string) returns (r: bool)
    requires Disjoint(t)
    ensures r <==> HasDismissal(Log(dg, t), id)
  {
    hide *;
    var q := EVERYTHING.(kinds := [DISMISSAL]);
    var report := ListReport(dg, t, q);
    ListedDismissals(dg, t, q, report.out, id);
    for i := 0 to |report.out|
      invariant forall k | 0 <= k < i :: report.out[k].event.about != id
    {
      if report.out[i].event.about == id { return true; }
    }
    return false;
  }

  lemma ListedDismissals(dg: Digest, t: Tree, q: Query, out: seq<Listed>, id: string)
    requires Disjoint(t) && q == EVERYTHING.(kinds := [DISMISSAL]) && out == List(dg, t, q).out
    ensures (exists k :: 0 <= k < |out| && out[k].event.about == id) <==> HasDismissal(Log(dg, t), id)
  {
    hide *;
    ListingIsLog(dg, t);
    ListFiles(dg, t);
    ListQuery(dg, t, q);
    QueryIsFilter(dg, Files(t), q, {}, 0);
    NoLimit(q);
    var all := List(dg, t, EVERYTHING).out;
    FilterHas(q, all);
    DismissalsOf(q, all, Log(dg, t), out, id);
  }

  lemma NoLimit(q: Query)
    requires q == EVERYTHING.(kinds := [DISMISSAL])
    ensures q.limit <= 0
  {}

  lemma ListQuery(dg: Digest, t: Tree, q: Query)
    ensures List(dg, t, q) == ListFrom(dg, Files(t), q, {}, 0)
  {
    hide ListFrom, Files;
  }

  lemma {:induction false} FilterHas(q: Query, all: seq<Listed>)
    ensures forall l :: l in Filter(q, all) <==> l in all && Selected(q, l)
  {
    if all != [] {
      FilterHas(q, all[1..]);
      assert all == [all[0]] + all[1..];
      hide Selected;
    }
  }

  lemma DismissalsOf(q: Query, all: seq<Listed>, log: map<string, Seen>, out: seq<Listed>, id: string)
    requires q == EVERYTHING.(kinds := [DISMISSAL]) && Lists(all, log) && forall l ::
        l in out <==> l in all && Selected(q, l)
    ensures (exists k :: 0 <= k < |out| && out[k].event.about == id) <==> HasDismissal(log, id)
  {
    if k :| 0 <= k < |out| && out[k].event.about == id {
      assert out[k] in out;
      var i :| 0 <= i < |all| && all[i] == out[k];
      assert Matches(all[i], log[all[i].file.path]);
    }
    if p :| p in log && log[p].event.kind == DISMISSAL && log[p].event.about == id {
      var i :| 0 <= i < |all| && all[i].file.path == p;
      assert Matches(all[i], log[p]);
      assert Selected(q, all[i]);
      assert all[i] in out;
    }
  }

  /** Stale: the id is not that of the plan now. Unverified: an existing snapshot or
      sidecar is not this plan's. Crashed: the process died before a durable write. */
  datatype Outcome = Applied(snapshot: Snapshot) | Stale | Unverified | Failed | Crashed

  function Sidecar(h: Hashing, raw: string): string { h.dg.sum(raw) + "  snapshot.json\n" }

  /** What is on disk of the snapshot of a plan is what a run of it wrote. */
  ghost predicate SnapsOk(h: Hashing, id: string, snapshots: map<string, string>, sidecars: map<string, string>) {
    && (id in snapshots ==>
          h.decode(snapshots[id]).Some? && h.decode(snapshots[id]).value.planId == id
              && h.decode(snapshots[id]).value.schema == SNAPSHOT_SCHEMA)
    && (id in sidecars ==> id in snapshots && sidecars[id] == Sidecar(h, snapshots[id]))
  }

  /** What is on disk under the id of a plan is no snapshot of it, or not the one that was
      summed up. */
  ghost predicate BadSnapshot(h: Hashing, id: string, snapshots: map<string, string>, sidecars: map<string, string>) {
    && id in snapshots
    && var stored := h.decode(snapshots[id]);
    || stored.None? || stored.value.planId != id || stored.value.schema != "event-journal-snapshot/v1"
    || (id in sidecars && sidecars[id] != h.dg.sum(snapshots[id]) + "  snapshot.json\n")
  }

  predicate Same(k: string, before: map<string, string>, after: map<string, string>) {
    if k in before then k in after && after[k] == before[k] else k !in after
  }

  /** Names for new events: none is taken and no two are alike. */
  ghost predicate FreshStamps(dg: Digest, t: Tree, stamps: seq<Stamp>) {
    && (forall i | 0 <= i < |stamps| :: FreshStamp(dg, t, stamps[i]))
    && (forall i, j | 0 <= i < j < |stamps| :: stamps[i].id != stamps[j].id && stamps[i].path != stamps[j].path)
  }

  lemma StampUsed(dg: Digest, b: Tree, c: Tree, stamps: seq<Stamp>)
    requires FreshStamps(dg, b, stamps) && stamps != []
    requires Paths(c) == Paths(b) + {stamps[0].path} && Log(dg, c).Keys == Log(dg, b).Keys + {stamps[0].path}
    requires Log(dg, c)[stamps[0].path].event.id == stamps[0].id
    requires forall p | p in Log(dg, b) :: Log(dg, c)[p].event == Log(dg, b)[p].event
    ensures FreshStamps(dg, c, stamps[1..])
  {
    hide Log, Paths;
    forall i | 0 <= i < |stamps[1..]| ensures FreshStamp(dg, c, stamps[1..][i]) {
      assert stamps[1..][i] == stamps[i + 1];
      assert FreshStamp(dg, b, stamps[i + 1]);
    }
  }

  lemma FirstStamp(dg: Digest, t: Tree, stamps: seq<Stamp>)
    requires FreshStamps(dg, t, stamps) && stamps != []
    ensures FreshStamp(dg, t, stamps[0]) && stamps[0].id != "" && stamps[0].path !in Paths(t)
  {
    hide Log, Paths;
  }

  class Workspace {
    const scope: Scope
    var live: map<string, string>
    var archive: map<string, string>
    var snapshots: map<string, string>
    var sidecars: map<string, string>

    constructor (scope: Scope, live: map<string, string>, archive: map<string, string>)
      ensures this.scope == scope && this.live == live && this.archive == archive && snapshots == map[]
          && sidecars == map[]
    {
      this.scope, this.live, this.archive, snapshots, sidecars := scope, live, archive, map[], map[];
    }

    /** The snapshot phase: the snapshot and its checksum are written once and checked
        ever after. `writes` durable writes are left before the process dies. */
    method WriteSnapshot(h: Hashing, planned: Snapshot, id: string, writes: nat) returns (r: Outcome, left: nat)
      requires h.Lawful() && planned.planId == id && planned.schema == SNAPSHOT_SCHEMA
      modifies this`snapshots, this`sidecars
      ensures !r.Stale? && !r.Failed? && left <= writes <= left + 2
      ensures r.Crashed? ==> writes < 2
      ensures r.Applied? ==>
        && SnapsOk(h, id, snapshots, sidecars) && id in snapshots && id in sidecars
        && h.decode(snapshots[id]) == Some(r.snapshot)
        && sidecars[id] == h.dg.sum(snapshots[id]) + "  snapshot.json\n"
      ensures SnapsOk(h, id, old(snapshots), old(sidecars)) ==> SnapsOk(h, id, snapshots, sidecars) && !r.Unverified?
      ensures id in old(snapshots) ==> id in snapshots && snapshots[id] == old(snapshots[id])
      ensures BadSnapshot(h, id, old(snapshots), old(sidecars)) ==> r.Unverified?
      ensures r.Applied? && id !in old(snapshots) ==> r.snapshot == planned
      ensures forall k | k != id :: Same(k, old(snapshots), snapshots) && Same(k, old(sidecars), sidecars)
    {
      left := writes;
      var raw, snapshot := h.encode(planned), planned;
      if id in snapshots {
        raw := snapshots[id];
        var existing := h.decode(raw);
        if existing.None? || existing.value.planId != id
            || existing.value.schema != SNAPSHOT_SCHEMA { return Unverified, left; }
        snapshot := existing.value;
      } else {
        if left == 0 { return Crashed, left; }
        left := left - 1;
        snapshots := snapshots[id := raw];
      }
      if id in sidecars {
        if sidecars[id] != Sidecar(h, raw) { return Unverified, left; }
      } else {
        if left == 0 { return Crashed, left; }
        left := left - 1;
        sidecars := sidecars[id := Sidecar(h, raw)];
      }
      return Applied(snapshot), left;
    }

    /** One item of the dismissal phase. `writes` durable writes are left. */
    method DismissItemNow(h: Hashing, actor: string, ghost a: Tree, p: string, item: Item, planId: string,
        stamps: seq<Stamp>, writes: nat)
      returns (r: Outcome, rest: seq<Stamp>, left: nat)
      requires h.Lawful() && planId == PlanIdOf(h, scope, a) && Reaches(h, scope, a, Tree(live, archive))
      requires p in Items(h.dg, scope, a) && item == Items(h.dg, scope, a)[p] && item.action == Dismiss
      requires FreshStamps(h.dg, Tree(live, archive), stamps) && |stamps| > 0
      modifies this`live
      ensures Reaches(h, scope, a, Tree(live, archive)) && FreshStamps(h.dg, Tree(live, archive), rest)
          && |rest| >= |stamps| - 1
      ensures left <= writes <= left + 1 && (r.Applied? || (r.Crashed? && writes == 0))
      ensures r.Applied? ==> HasDismissal(Log(h.dg, Tree(live, archive)), item.id)
      ensures forall id | HasDismissal(Log(h.dg, old(Tree(live, archive))), id) ::
          HasDismissal(Log(h.dg, Tree(live, archive)), id)
    {
      hide *;
      left, rest := writes, stamps;
      ghost var before := Tree(live, archive);
      r := Applied(Snapshot("", "", "", "", map[]));
      ReachesProgress(h, scope, a, before);
      ProgressParts(h.dg, scope, a, before);
      DismissItem(h.dg, scope, a, before, p);
      SamePlanId(h, scope, a, before);
      var event := Find(h.dg, Tree(live, archive), item.id);
      if event.None? { return Failed, rest, left; }
      var original := event.value;
      if original.event.applied && !original.dismissed { return Failed, rest, left; }
      var found := DismissalListed(h.dg, Tree(live, archive), item.id);
      if found { return; }
      if left == 0 { return Crashed, rest, left; }
      left := left - 1;
      FirstStamp(h.dg, before, stamps);
      var raw := DismissalText(h, actor, stamps[0], item.id, planId, item.standing);
      PlanIdHex(h, scope, a);
      DismissalWritten(h, actor, stamps[0], item.id, planId, item.standing);
      DismissingFits(h, scope, before, p, actor, stamps[0]);
      ReachesMore(h, scope, a, before, Dismissing(p, actor, stamps[0]));
      DismissProgress(h.dg, scope, a, before, p, stamps[0], raw);
      live := live[stamps[0].path := raw];
      NewFits(h.dg, before, stamps[0].path, raw, item.id);
      NewPaths(h.dg, before, stamps[0].path, raw, item.id);
      WithFileIs(before, stamps[0].path, raw);
      StampUsed(h.dg, before, Tree(live, archive), stamps);
      rest := stamps[1..];
    }

    /** One item of the archive phase. */
    method ArchiveItemNow(h: Hashing, ghost a: Tree, p: string, item: Item, writes: nat) returns (r: Outcome, left: nat)
      requires h.Lawful() && Reaches(h, scope, a, Tree(live, archive))
      requires p in Items(h.dg, scope, a) && item == Items(h.dg, scope, a)[p] && item.action == Archive
      modifies this`live, this`archive
      ensures Reaches(h, scope, a, Tree(live, archive))
      ensures left <= writes <= left + 1 && (r.Applied? || (r.Crashed? && writes == 0))
      ensures r.Applied? ==> p in archive
      ensures forall q | q in old(archive) :: q in archive
      ensures forall id ::
          HasDismissal(Log(h.dg, Tree(live, archive)), id) <==> HasDismissal(Log(h.dg, old(Tree(live, archive))), id)
    {
      hide *;
      left := writes;
      ghost var before := Tree(live, archive);
      r := Applied(Snapshot("", "", "", "", map[]));
      ReachesProgress(h, scope, a, before);
      ProgressParts(h.dg, scope, a, before);
      ArchiveItem(h.dg, scope, a, before, p);
      PathsOf(before);
      if p in archive { return; }
      var raw := live[p];
      RawOf(before, p);
      if h.dg.sum(raw) != item.hash { return Failed, left; }
      if left == 0 { return Crashed, left; }
      left := left - 1;
      ArchivingFits(h, scope, before, p);
      ReachesMore(h, scope, a, before, Archiving(p));
      MoveProgress(h.dg, scope, a, before, p);
      live, archive := live - {p}, archive[p := raw];
      MovedIs(before, p);
    }

    /** The dismissal phase. */
    method DismissAll(h: Hashing, actor: string, ghost a: Tree, items: map<string, Item>, keys: seq<string>,
        planId: string, stamps: seq<Stamp>, writes: nat) returns (r: Outcome, left: nat)
      requires h.Lawful() && planId == PlanIdOf(h, scope, a) && Reaches(h, scope, a, Tree(live, archive))
      requires items == Items(h.dg, scope, a) && forall k | k in keys :: k in items
      requires FreshStamps(h.dg, Tree(live, archive), stamps) && |stamps| >= |keys|
      modifies this`live
      ensures Reaches(h, scope, a, Tree(live, archive))
      ensures left <= writes <= left + |keys| && (r.Applied? || (r.Crashed? && writes < |keys|))
      ensures r.Applied? ==> forall k | k in keys && items[k].action == Dismiss ::
          HasDismissal(Log(h.dg, Tree(live, archive)), items[k].id)
    {
      hide *;
      var rest := stamps;
      left := writes;
      for i := 0 to |keys|
        invariant Reaches(h, scope, a, Tree(live, archive)) && left <= writes <= left + i
        invariant FreshStamps(h.dg, Tree(live, archive), rest) && |rest| >= |keys| - i
        invariant forall k | 0 <= k < i && items[keys[k]].action == Dismiss ::
            HasDismissal(Log(h.dg, Tree(live, archive)), items[keys[k]].id)
      {
        var p := keys[i];
        if items[p].action != Dismiss { continue; }
        var step, unused, after := DismissItemNow(h, actor, a, p, items[p], planId, rest, left);
        if !step.Applied? { return step, after; }
        rest, left := unused, after;
      }
      r := Applied(Snapshot("", "", "", "", map[]));
    }

    /** The archive phase. */
    method ArchiveAll(h: Hashing, ghost a: Tree, items: map<string, Item>, keys: seq<string>, writes: nat)
      returns (r: Outcome, left: nat)
      requires h.Lawful() && Reaches(h, scope, a, Tree(live, archive))
      requires items == Items(h.dg, scope, a) && forall k | k in keys :: k in items
      modifies this`live, this`archive
      ensures Reaches(h, scope, a, Tree(live, archive))
      ensures left <= writes <= left + |keys| && (r.Applied? || (r.Crashed? && writes < |keys|))
      ensures r.Applied? ==> forall k | k in keys && items[k].action == Archive :: k in archive
      ensures forall id ::
          HasDismissal(Log(h.dg, Tree(live, archive)), id) <==> HasDismissal(Log(h.dg, old(Tree(live, archive))), id)
    {
      hide *;
      left := writes;
      for i := 0 to |keys|
        invariant Reaches(h, scope, a, Tree(live, archive)) && left <= writes <= left + i
        invariant forall k | 0 <= k < i && items[keys[k]].action == Archive :: keys[k] in archive
        invariant forall id ::
            HasDismissal(Log(h.dg, Tree(live, archive)), id) <==> HasDismissal(Log(h.dg, old(Tree(live, archive))), id)
      {
        var p := keys[i];
        if items[p].action != Archive { continue; }
        var step, after := ArchiveItemNow(h, a, p, items[p], left);
        if !step.Applied? { return step, after; }
        left := after;
      }
      r := Applied(Snapshot("", "", "", "", map[]));
    }

    /** ApplyJournalPlan. `a` is the tree before any run of this plan; the run may die
        before any of its durable writes. Whatever happens, what is on disk is reached
        from `a` by work of the plan, and a run that is not cut short finishes,
        whether or not earlier runs were. */
    method ApplyJournalPlan(h: Hashing, actor: string, requested: string, now: string, stamps: seq<Stamp>, writes: nat,
        ghost a: Tree)
      returns (r: Outcome)
      requires h.Lawful() && Reaches(h, scope, a, Tree(live, archive))
      requires FreshStamps(h.dg, Tree(live, archive), stamps) && |stamps| >= |Items(h.dg, scope, a)|
      modifies this
      ensures Reaches(h, scope, a, Tree(live, archive))
      ensures requested != PlanIdOf(h, scope, a) ==>
        r == Stale && live == old(live) && archive == old(archive) && snapshots == old(snapshots)
            && sidecars == old(sidecars)
      ensures r.Applied? ==> Finished(h.dg, scope, a, Tree(live, archive))
      ensures r.Applied? ==>
        && requested in snapshots && h.decode(snapshots[requested]) == Some(r.snapshot)
        && requested in sidecars && sidecars[requested] == h.dg.sum(snapshots[requested]) + "  snapshot.json\n"
        && (requested in old(snapshots) ==> snapshots[requested] == old(snapshots)[requested])
      ensures r.Applied? && requested !in old(snapshots) ==>
        r.snapshot == Snapshot("event-journal-snapshot/v1", requested, scope.project, now, Items(h.dg, scope, a))
      ensures requested == "" ==> r == Stale
      ensures (&& requested != "" && requested == PlanIdOf(h, scope, a)
               && BadSnapshot(h, requested, old(snapshots), old(sidecars))) ==> r.Unverified?
      ensures r.Unverified? ==> live == old(live) && archive == old(archive)
      ensures (&& requested != "" && requested == PlanIdOf(h, scope, a)
               && SnapsOk(h, requested, old(snapshots), old(sidecars))) ==>
        && SnapsOk(h, requested, snapshots, sidecars)
        && (r.Applied? || (r.Crashed? && writes < 2 + 2 * |Items(h.dg, scope, a)|))
    {
      hide *;
      ReachesProgress(h, scope, a, Tree(live, archive));
      ProgressParts(h.dg, scope, a, Tree(live, archive));
      IdsParts(Log(h.dg, Tree(live, archive)));
      SamePlanId(h, scope, a, Tree(live, archive));
      var items := PlanJournal(h.dg, scope, Tree(live, archive));
      var planId := h.planId(PlanContent(scope.project, scope.classes, items));
      ContentIs(h, scope, a);
      if requested == "" || requested != planId { return Stale; }
      var left: nat := writes;
      LawfulParts(h, PlanContent(scope.project, scope.classes, items));
      var planned := Snapshot(SNAPSHOT_SCHEMA, planId, scope.project, now, items);
      var snapped, more := WriteSnapshot(h, planned, planId, left);
      if !snapped.Applied? { return snapped; }
      left := more;
      var keys := CanonicalJson.SortStrings(items.Keys);
      KeysCount(items);
      var dismissed, after := DismissAll(h, actor, a, items, keys, planId, stamps, left);
      if !dismissed.Applied? { return dismissed; }
      var archived, end := ArchiveAll(h, a, items, keys, after);
      if !archived.Applied? { return archived; }
      KeysAll(items, keys);
      SchemaIs();
      ReachesProgress(h, scope, a, Tree(live, archive));
      FinishedWhen(h.dg, scope, a, Tree(live, archive), items, keys);
      return snapped;
    }
  }

  lemma SchemaIs()
    ensures SNAPSHOT_SCHEMA == "event-journal-snapshot/v1"
  {}

  lemma ContentIs(h: Hashing, s: Scope, a: Tree)
    ensures PlanIdOf(h, s, a) == h.planId(PlanContent(s.project, s.classes, Items(h.dg, s, a)))
  {
    hide Items;
  }

  lemma LawfulParts(h: Hashing, c: PlanContent)
    requires h.Lawful()
    ensures Hex(h.planId(c))
  {}

  lemma KeysCount(items: map<string, Item>)
    ensures |items.Keys| == |items|
  {}

  lemma KeysAll(items: map<string, Item>, keys: seq<string>)
    requires keys == CanonicalJson.SortedKeys(items.Keys)
    ensures forall p | p in items :: exists k :: 0 <= k < |keys| && keys[k] == p
    ensures forall k | 0 <= k < |keys| :: keys[k] in items
  {
    hide CanonicalJson.SortedKeys;
  }

  lemma FinishedWhen(dg: Digest, s: Scope, a: Tree, b: Tree, items: map<string, Item>, keys: seq<string>)
    requires items == Items(dg, s, a) && Progress(dg, s, a, b)
    requires (forall p | p in items :: exists k :: 0 <= k < |keys| && keys[k] == p) && forall k | 0 <= k < |keys| ::
        keys[k] in items
    requires forall k | 0 <= k < |keys| && items[keys[k]].action == Dismiss ::
        HasDismissal(Log(dg, b), items[keys[k]].id)
    requires forall k | 0 <= k < |keys| && items[keys[k]].action == Archive :: keys[k] in b.archive
    ensures Finished(dg, s, a, b)
  {
    hide Items, Progress, Log, HasDismissal;
    forall p | p in items
        ensures (items[p].action == Archive ==> p in b.archive)
        && (items[p].action == Dismiss ==> HasDismissal(Log(dg, b), items[p].id)) {
      var k :| 0 <= k < |keys| && keys[k] == p;
    }
  }

  lemma WithFileIs(t: Tree, p: string, raw: string)
    ensures WithFile(t, p, raw) == Tree(t.live[p := raw], t.archive)
  {}

  lemma MovedIs(t: Tree, p: string)
    requires p in t.live
    ensures Moved(t, p) == Tree(t.live - {p}, t.archive[p := t.live[p]])
  {}

  lemma PathsOf(t: Tree)
    ensures forall p :: p in Paths(t) <==> p in t.live || p in t.archive
  {}

  lemma RawOf(t: Tree, p: string)
    requires p in t.live
    ensures RawAt(t, p) == t.live[p]
  {}
}
