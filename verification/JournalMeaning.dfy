/** What a reconciliation plan does with an event, read off the events themselves, and so
    what carrying it out may put away and whom it may dismiss. */
module JournalMeaning {
  import opened EventRecords
  import opened EventLog
  import opened Journal
  import opened JournalCode
  import opened JournalProgress
  import opened JournalRuns
  import CanonicalJson

  /** Kinds that are complete when written; all others are mailbox work. */
  const FACTS: set<string> := {"commit", "run", "exit", "dismissal", "review"}

  /** Kinds of which a target can only bear one. */
  const CLAIMS: set<string> := {"claim", "block", "dependency"}

  predicate Open(e: Event) { e.kind !in FACTS && !e.applied }

  /** The target is a task of the project that is not done. */
  predicate LiveTarget(s: Scope, e: Event) { e.about in s.tasks && !s.tasks[e.about] }

  predicate TaskId(about: string) { |about| >= 2 && about[0] == 't' && about[1] == '-' }

  /** What a plan has an item for: events about a task of the project, and open mailbox work
      about something that is named like a task. */
  predicate Concerns(s: Scope, e: Event) {
    e.kind != "dismissal" && (e.about in s.tasks || (Open(e) && TaskId(e.about)))
  }

  /** Two open claims on one target that differ in kind or in actor. */
  predicate Rivals(s: Scope, target: string, f: Event, g: Event) {
    && (forall x | x in [f, g] :: x.kind in CLAIMS && Open(x) && x.about == target && Concerns(s, x))
    && (f.kind != g.kind || f.actor != g.actor)
  }

  ghost predicate IsContested(s: Scope, log: map<string, Seen>, e: Event) {
    e.kind in CLAIMS && exists p, q :: p in log && q in log && Rivals(s, e.about, log[p].event, log[q].event)
  }

  /** Some event that is not a dismissal is about this one. */
  ghost predicate IsReferenced(log: map<string, Seen>, e: Event) {
    exists p :: p in log && log[p].event.about == e.id && log[p].event.kind != "dismissal"
  }

  /** An open status proposal with a newer open one about the same target. */
  ghost predicate IsSuperseded(log: map<string, Seen>, e: Event) {
    && Open(e) && e.kind == "propose-status"
    && exists p :: p in log && Newer(log[p].event, e)
  }

  predicate Newer(f: Event, e: Event) {
    f.kind == "propose-status" && Open(f) && f.about == e.about && CanonicalJson.Below(e.id, f.id)
  }

  /** Nothing keeps the plan from doing anything with the event. */
  ghost predicate Free(s: Scope, log: map<string, Seen>, e: Event) { !IsReferenced(log, e) && !IsContested(s, log, e) }

  /** Journal facts, work that was applied, and work for a live target that was dismissed. */
  predicate Complete(s: Scope, l: Seen) {
    l.event.kind in FACTS || l.event.applied || (l.dismissed && LiveTarget(s, l.event))
  }

  predicate Asked(s: Scope, e: Event) { (if e.kind in FACTS then CompleteJournal else CompleteMailbox) in s.classes }

  /** To be put away: complete, superseded by nothing, and of a class that was asked for. */
  ghost predicate Archived(s: Scope, log: map<string, Seen>, l: Seen) {
    Free(s, log, l.event) && !IsSuperseded(log, l.event) && Complete(s, l) && Asked(s, l.event)
  }

  /** To be dismissed: open work that is superseded or has no live target. */
  ghost predicate Moot(s: Scope, log: map<string, Seen>, l: Seen) {
    Free(s, log, l.event) && Open(l.event) && (IsSuperseded(log, l.event) || !LiveTarget(s, l.event))
  }

  // ---------------------------------------------------------------- the words of the plan

  lemma KindsAre(kind: string)
    ensures IsJournal(kind) <==> kind in FACTS
    ensures Exclusive(kind) <==> kind in CLAIMS
  {}

  lemma TaskIdIs(about: string)
    ensures TaskId(about) <==> "t-" <= about
  {
    if |about| >= 2 { assert about[..2] == [about[0], about[1]]; }
  }

  lemma ConcernsIs(s: Scope, e: Event)
    ensures Scoped(s, e) <==> Concerns(s, e)
    ensures Waiting(s, e) <==> Concerns(s, e) && Open(e)
  {
    KindsAre(e.kind);
    TaskIdIs(e.about);
    hide IsJournal;
  }

  lemma ReferencedMeans(log: map<string, Seen>, e: Event)
    ensures Referenced(log, e.id) <==> IsReferenced(log, e)
  {}

  lemma SupersededMeans(s: Scope, log: map<string, Seen>, e: Event)
    requires Scoped(s, e)
    ensures Superseded(s, log, e) <==> IsSuperseded(log, e)
  {
    KindsAre(e.kind);
    ConcernsIs(s, e);
    hide IsJournal, CanonicalJson.Below;
    forall p | p in log && log[p].event.kind == "propose-status" && log[p].event.about == e.about
      ensures p in Peers(s, log, e.about) <==> Open(log[p].event)
    {
      KindsAre("propose-status");
    }
    if Superseded(s, log, e) {
      var p :| p in Peers(s, log, e.about) && log[p].event.kind == "propose-status"
        && CanonicalJson.Below(e.id, log[p].event.id);
      assert Newer(log[p].event, e);
    }
    if IsSuperseded(log, e) {
      var p :| p in log && Newer(log[p].event, e);
      assert p in Peers(s, log, e.about);
    }
  }

  lemma PeerIs(s: Scope, log: map<string, Seen>, target: string, p: string)
    ensures p in Peers(s, log, target) <==>
      p in log && Open(log[p].event) && log[p].event.about == target && Concerns(s, log[p].event)
  {
    if p in log { ConcernsIs(s, log[p].event); }
    hide Open, Concerns, Scoped;
  }

  lemma ContestedMeans(s: Scope, log: map<string, Seen>, e: Event)
    ensures ContestedBy(log, e, Peers(s, log, e.about)) <==> IsContested(s, log, e)
  {
    hide *;
    KindsAre(e.kind);
    var peers := Peers(s, log, e.about);
    forall p ensures p in peers <==>
        p in log && Open(log[p].event) && log[p].event.about == e.about && Concerns(s, log[p].event) {
      PeerIs(s, log, e.about, p);
    }
    ContestedPairs(log, e, peers);
    RivalPairs(s, log, e, peers);
  }

  /** Two peers with claims that differ. */
  predicate Differ(f: Event, g: Event) {
    f.kind in CLAIMS && g.kind in CLAIMS && (f.kind != g.kind || f.actor != g.actor)
  }

  lemma RivalPairs(s: Scope, log: map<string, Seen>, e: Event, peers: set<string>)
    requires forall p :: p in peers <==>
        p in log && Open(log[p].event) && log[p].event.about == e.about && Concerns(s, log[p].event)
    ensures IsContested(s, log, e) <==>
      e.kind in CLAIMS && exists p, q :: p in peers && q in peers && Differ(log[p].event, log[q].event)
  {
    hide Open, Concerns;
    forall p, q | p in log && q in log
      ensures Rivals(s, e.about, log[p].event, log[q].event)
        <==> p in peers && q in peers && Differ(log[p].event, log[q].event)
    {
      var both := [log[p].event, log[q].event];
      assert both[0] in both && both[1] in both;
    }
    hide Rivals, Differ;
    if IsContested(s, log, e) {
      var p, q :| p in log && q in log && Rivals(s, e.about, log[p].event, log[q].event);
      assert p in peers && q in peers && Differ(log[p].event, log[q].event);
    }
    if exists p, q :: p in peers && q in peers && Differ(log[p].event, log[q].event) {
      var p, q :| p in peers && q in peers && Differ(log[p].event, log[q].event);
      assert Rivals(s, e.about, log[p].event, log[q].event);
    }
  }

  /** Counting kinds and actors finds such a pair. */
  lemma ContestedPairs(log: map<string, Seen>, e: Event, peers: set<string>)
    requires forall p | p in peers :: p in log
    ensures ContestedBy(log, e, peers) <==>
      e.kind in CLAIMS && exists p, q :: p in peers && q in peers && Differ(log[p].event, log[q].event)
  {
    var rivals := set p | p in peers && Exclusive(log[p].event.kind);
    var kinds, actors := set p | p in rivals :: log[p].event.kind, set p | p in rivals :: log[p].event.actor;
    assert ContestedBy(log, e, peers) <==>
      Exclusive(e.kind) && (|kinds| > 1 || (|peers| > 1 && |actors| > 1 && |kinds| > 0));
    KindsAre(e.kind);
    forall p ensures p in rivals <==> p in peers && log[p].event.kind in CLAIMS {
      if p in peers { KindsAre(log[p].event.kind); }
    }
    assert Counts(log, peers, rivals, kinds, actors);
    hide *;
    if |kinds| > 1 || |actors| > 1 { CountedDiffer(log, peers, rivals, kinds, actors); }
    if exists p, q :: p in peers && q in peers && Differ(log[p].event, log[q].event) {
      DifferCounted(log, peers, rivals, kinds, actors);
    }
  }

  ghost predicate Counts(log: map<string, Seen>, peers: set<string>, rivals: set<string>, kinds: set<string>,
                         actors: set<string>) {
    && (forall p | p in peers :: p in log)
    && (forall p :: p in rivals <==> p in peers && log[p].event.kind in CLAIMS)
    && kinds == (set p | p in rivals :: log[p].event.kind) && actors == (set p | p in rivals :: log[p].event.actor)
  }

  lemma CountedDiffer(log: map<string, Seen>, peers: set<string>, rivals: set<string>, kinds: set<string>,
                      actors: set<string>)
    requires Counts(log, peers, rivals, kinds, actors) && (|kinds| > 1 || |actors| > 1)
    ensures exists p, q :: p in peers && q in peers && Differ(log[p].event, log[q].event)
  {
    hide CLAIMS;
    if |kinds| > 1 {
      var k, l := Two(kinds);
      var p :| p in rivals && log[p].event.kind == k;
      var q :| q in rivals && log[q].event.kind == l;
      assert Differ(log[p].event, log[q].event);
    } else {
      var k, l := Two(actors);
      var p :| p in rivals && log[p].event.actor == k;
      var q :| q in rivals && log[q].event.actor == l;
      assert Differ(log[p].event, log[q].event);
    }
  }

  lemma DifferCounted(log: map<string, Seen>, peers: set<string>, rivals: set<string>, kinds: set<string>,
                      actors: set<string>)
    requires Counts(log, peers, rivals, kinds, actors)
    requires exists p, q :: p in peers && q in peers && Differ(log[p].event, log[q].event)
    ensures |kinds| > 1 || (|peers| > 1 && |actors| > 1 && |kinds| > 0)
  {
    hide CLAIMS;
    var p, q :| p in peers && q in peers && Differ(log[p].event, log[q].event);
    assert p in rivals && q in rivals && p != q;
    MoreThanOne(peers, p, q);
    assert log[p].event.kind in kinds && log[q].event.kind in kinds;
    assert log[p].event.actor in actors && log[q].event.actor in actors;
    if log[p].event.kind != log[q].event.kind {
      MoreThanOne(kinds, log[p].event.kind, log[q].event.kind);
    } else {
      MoreThanOne(actors, log[p].event.actor, log[q].event.actor);
    }
  }

  lemma Two(s: set<string>) returns (a: string, b: string)
    requires |s| > 1
    ensures a in s && b in s && a != b
  {
    a :| a in s;
    assert |s - {a}| > 0;
    b :| b in s - {a};
  }

  lemma MoreThanOne(s: set<string>, a: string, b: string)
    requires a in s && b in s && a != b
    ensures |s| > 1
  {
    assert {a, b} <= s;
    FewerLeft({a, b}, s);
  }

  // ---------------------------------------------------------------- the plan

  /** The plan has an item for every unreadable file and for every event that concerns the
      project, and no other. It leaves an unreadable file alone; of the others it
      archives exactly those that are complete, free and asked for, dismisses exactly
      those that are moot, and leaves the rest alone. */
  lemma PlanMeans(dg: Digest, s: Scope, t: Tree, p: string)
    ensures var log, items := Log(dg, t), Items(dg, s, t);
      && (p in items <==> p in Holes(dg, t) || (p in log && Concerns(s, log[p].event)))
      && (p in items && p in Holes(dg, t) ==> items[p].action == Preserve)
      && (p in items && p in log ==>
            && (items[p].action == Archive <==> Archived(s, log, log[p]))
            && (items[p].action == Dismiss <==> Moot(s, log, log[p]))
            && items[p].id == log[p].event.id && items[p].path == p)
  {
    hide *;
    var log := Log(dg, t);
    LogHoles(dg, t);
    ItemsAt(dg, s, t, p);
    if p in log {
      ConcernsIs(s, log[p].event);
      if Scoped(s, log[p].event) { ActionMeans(dg, s, log, p); }
    }
  }

  lemma ItemsAt(dg: Digest, s: Scope, t: Tree, p: string)
    ensures var log, items := Log(dg, t), Items(dg, s, t);
      && (p in items <==> p in Holes(dg, t) || (p in log && Scoped(s, log[p].event)))
      && (p in items && p in Holes(dg, t) ==> items[p].action == Preserve)
      && (p in items && p !in Holes(dg, t) ==> p in log && items[p] == ItemOf(dg, s, log, p))
  {
    hide Log, Holes, Scoped, ItemOf;
  }

  lemma ActionMeans(dg: Digest, s: Scope, log: map<string, Seen>, p: string)
    requires p in log && Scoped(s, log[p].event)
    ensures var item := ItemOf(dg, s, log, p);
      && (item.action == Archive <==> Archived(s, log, log[p])) && (item.action == Dismiss <==> Moot(s, log, log[p]))
      && item.id == log[p].event.id && item.path == p
  {
    var e := log[p].event;
    ReferencedMeans(log, e);
    ContestedMeans(s, log, e);
    SupersededMeans(s, log, e);
    KindsAre(e.kind);
    hide Referenced, ContestedBy, Superseded, IsReferenced, IsContested, IsSuperseded, Peers, IsJournal, Scoped, FACTS;
  }

  /** The reason a plan gives for what it does with an event: the first of these that holds. */
  ghost function Standing(s: Scope, log: map<string, Seen>, l: Seen): Class {
    var e := l.event;
    if IsReferenced(log, e) then ExternallyReferenced
    else if IsContested(s, log, e) then Contested
    else if IsSuperseded(log, e) then SupersededProposal
    else if e.kind in FACTS then CompleteJournal
    else if e.applied then CompleteMailbox
    else if e.about !in s.tasks then MissingTarget
    else if s.tasks[e.about] then TerminalTarget
    else if l.dismissed then CompleteMailbox
    else PendingActionable
  }

  /** An item names the event, says why, and fixes the bytes that were seen. */
  lemma ItemMeans(dg: Digest, s: Scope, t: Tree, p: string)
    requires p in Items(dg, s, t)
    ensures var item, log := Items(dg, s, t)[p], Log(dg, t);
      && p in Paths(t) && item.path == p && item.bytes == |RawAt(t, p)|
      && (p in Holes(dg, t) ==>
            && item.standing == UnknownUnreadable
            && (item.id, item.kind, item.actor, item.about, item.hash) == ("", "", "", "", ""))
      && (p in log ==>
            && item.standing == Standing(s, log, log[p]) && item.hash == dg.sum(RawAt(t, p))
            && var e := log[p].event; (item.id, item.kind, item.actor, item.about) == (e.id, e.kind, e.actor, e.about))
  {
    hide *;
    LogHoles(dg, t);
    LogDomain(dg, t);
    ItemsAt(dg, s, t, p);
    HoleAt(dg, s, t, p);
    LogAt(dg, t, p);
    if p in Log(dg, t) { StandingMeans(dg, s, Log(dg, t), p); }
  }

  lemma HoleAt(dg: Digest, s: Scope, t: Tree, p: string)
    ensures p in Items(dg, s, t) && p in Holes(dg, t) ==>
      Items(dg, s, t)[p] == Item("", "", "", "", p, UnknownUnreadable, Preserve, |Holes(dg, t)[p]|, "")
  {
    hide Log, Holes, Scoped, ItemOf;
  }

  lemma StandingMeans(dg: Digest, s: Scope, log: map<string, Seen>, p: string)
    requires p in log && Scoped(s, log[p].event)
    ensures var item, e := ItemOf(dg, s, log, p), log[p].event;
      && item.standing == Standing(s, log, log[p]) && item.hash == dg.sum(log[p].raw) && item.bytes == |log[p].raw|
      && (item.id, item.kind, item.actor, item.about, item.path) == (e.id, e.kind, e.actor, e.about, p)
  {
    var e := log[p].event;
    ReferencedMeans(log, e);
    ContestedMeans(s, log, e);
    SupersededMeans(s, log, e);
    KindsAre(e.kind);
    hide Referenced, ContestedBy, Superseded, IsReferenced, IsContested, IsSuperseded, Peers, IsJournal, FACTS;
  }

  /** Whatever the order and however often it was interrupted, a run only moves to the
      archive what its start calls complete, free and asked for, and only writes
      dismissals of what its start calls moot. */
  lemma RunsDoOnlyThat(h: Hashing, s: Scope, trees: seq<Tree>, works: seq<Work>, n: nat)
    requires h.Lawful() && Run(h, s, trees, works) && n < |works|
    ensures var a := Log(h.dg, trees[0]); var w := works[n];
      && w.item in a
      && (w.Archiving? ==> Archived(s, a, a[w.item]) && trees[n + 1] == Moved(trees[n], w.item))
      && (w.Dismissing? ==> Moot(s, a, a[w.item]) && trees[n + 1].archive == trees[n].archive)
  {
    hide *;
    RunStarts(h, s, trees, works);
    var w, items := works[n], Items(h.dg, s, trees[0]);
    RunStep(h, s, trees, works, n);
    PlanIdStable(h, s, trees, works, n);
    WorkParts(h, s, trees[n], w);
    PlanMeans(h.dg, s, trees[0], w.item);
    if w.Dismissing? {
      OnlyAdds(trees[n], w.stamp.path,
               DismissalText(h, w.actor, w.stamp, items[w.item].id, PlanIdOf(h, s, trees[n]), items[w.item].standing));
    }
  }

  lemma OnlyAdds(t: Tree, path: string, raw: string)
    ensures WithFile(t, path, raw).archive == t.archive
  {}
}
