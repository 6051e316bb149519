/** The work of a reconciliation plan as a run of single dismissals and moves, each
    planned from the tree it finds: what every prefix of every such run keeps, and
    that all runs that leave nothing to do end alike. */
module JournalRuns {
  import opened Wrappers
  import opened EventRecords
  import opened EventLog
  import opened Journal
  import opened JournalCode
  import opened JournalProgress

  datatype Work = Dismissing(item: string, actor: string, stamp: Stamp) | Archiving(item: string)

  /** The work is on an item of the plan of this tree, and has not been done: the item
      is dismissed under a name that is free, or its file is still live. */
  ghost predicate Enabled(h: Hashing, s: Scope, t: Tree, w: Work) {
    var items := Items(h.dg, s, t);
    && w.item in items
    && match w
       case Dismissing(x, _, stamp) =>
         items[x].action == Dismiss && FreshStamp(h.dg, t, stamp) && !HasDismissal(Log(h.dg, t), items[x].id)
       case Archiving(p) => items[p].action == Archive && p in t.live
  }

  ghost function After(h: Hashing, s: Scope, t: Tree, w: Work): Tree
    requires Enabled(h, s, t, w)
  {
    match w
    case Dismissing(x, actor, stamp) =>
      var item := Items(h.dg, s, t)[x];
      WithFile(t, stamp.path, DismissalText(h, actor, stamp, item.id, PlanIdOf(h, s, t), item.standing))
    case Archiving(p) => Moved(t, p)
  }

  /** A run of the work from a tree without clashes. */
  ghost predicate Run(h: Hashing, s: Scope, trees: seq<Tree>, works: seq<Work>) {
    && |trees| == |works| + 1 && Disjoint(trees[0]) && IdsOk(Log(h.dg, trees[0]))
    && forall i | 0 <= i < |works| ::
         Enabled(h, s, trees[i], works[i]) && trees[i + 1] == After(h, s, trees[i], works[i])
  }

  ghost predicate RunFrom(h: Hashing, s: Scope, trees: seq<Tree>, works: seq<Work>, a: Tree, b: Tree) {
    Run(h, s, trees, works) && trees[0] == a && trees[|works|] == b
  }

  ghost predicate Reaches(h: Hashing, s: Scope, a: Tree, b: Tree) {
    exists trees, works :: RunFrom(h, s, trees, works, a, b)
  }

  // ---------------------------------------------------------------- one piece of work

  lemma WorkParts(h: Hashing, s: Scope, t: Tree, w: Work)
    requires Enabled(h, s, t, w)
    ensures w.item in Items(h.dg, s, t)
    ensures var item := Items(h.dg, s, t)[w.item];
      match w
      case Dismissing(x, actor, stamp) =>
        && item.action == Dismiss && FreshStamp(h.dg, t, stamp) && !HasDismissal(Log(h.dg, t), item.id)
        && After(h, s, t, w)
           == WithFile(t, stamp.path, DismissalText(h, actor, stamp, item.id, PlanIdOf(h, s, t), item.standing))
      case Archiving(p) => item.action == Archive && p in t.live && After(h, s, t, w) == Moved(t, p)
  {
    hide Items, FreshStamp, HasDismissal, DismissalText, PlanIdOf;
  }

  lemma DismissingFits(h: Hashing, s: Scope, t: Tree, x: string, actor: string, stamp: Stamp)
    requires x in Items(h.dg, s, t) && Items(h.dg, s, t)[x].action == Dismiss
    requires FreshStamp(h.dg, t, stamp) && !HasDismissal(Log(h.dg, t), Items(h.dg, s, t)[x].id)
    ensures var item := Items(h.dg, s, t)[x];
      && Enabled(h, s, t, Dismissing(x, actor, stamp))
      && After(h, s, t, Dismissing(x, actor, stamp))
         == WithFile(t, stamp.path, DismissalText(h, actor, stamp, item.id, PlanIdOf(h, s, t), item.standing))
  {
    hide Items, FreshStamp, HasDismissal, DismissalText, PlanIdOf;
  }

  lemma ArchivingFits(h: Hashing, s: Scope, t: Tree, p: string)
    requires p in Items(h.dg, s, t) && Items(h.dg, s, t)[p].action == Archive && p in t.live
    ensures Enabled(h, s, t, Archiving(p)) && After(h, s, t, Archiving(p)) == Moved(t, p)
  {
    hide Items;
  }

  /** What one piece of work adds to what was done before it. */
  lemma WorkProgress(h: Hashing, s: Scope, a: Tree, b: Tree, w: Work)
    requires h.Lawful() && Progress(h.dg, s, a, b) && Enabled(h, s, b, w)
    ensures var c, items := After(h, s, b, w), Items(h.dg, s, a);
      && Progress(h.dg, s, a, c) && w.item in items
      && (forall id | HasDismissal(Log(h.dg, b), id) :: HasDismissal(Log(h.dg, c), id))
      && (w.Archiving? ==> items[w.item].action == Archive && w.item in b.live && w.item !in c.live)
      && (w.Dismissing? ==>
            && items[w.item].action == Dismiss && !HasDismissal(Log(h.dg, b), items[w.item].id)
            && HasDismissal(Log(h.dg, c), items[w.item].id))
  {
    hide *;
    WorkParts(h, s, b, w);
    ProgressParts(h.dg, s, a, b);
    var item := Items(h.dg, s, b)[w.item];
    match w
    case Dismissing(x, actor, stamp) =>
      var planId := PlanIdOf(h, s, b);
      PlanIdHex(h, s, b);
      FreshNamed(h.dg, b, stamp);
      DismissItem(h.dg, s, a, b, x);
      DismissalWritten(h, actor, stamp, item.id, planId, item.standing);
      DismissProgress(h.dg, s, a, b, x, stamp, DismissalText(h, actor, stamp, item.id, planId, item.standing));
    case Archiving(p) =>
      MoveProgress(h.dg, s, a, b, p);
      MovedAway(b, p);
  }

  lemma PlanIdHex(h: Hashing, s: Scope, t: Tree)
    requires h.Lawful()
    ensures Hex(PlanIdOf(h, s, t))
  {
    hide Items;
  }

  lemma FreshNamed(dg: Digest, t: Tree, stamp: Stamp)
    requires FreshStamp(dg, t, stamp)
    ensures stamp.id != ""
  {
    hide Log, Paths;
  }

  lemma MovedAway(t: Tree, p: string)
    requires p in t.live
    ensures p !in Moved(t, p).live
  {}

  // ---------------------------------------------------------------- runs

  lemma RunStep(h: Hashing, s: Scope, trees: seq<Tree>, works: seq<Work>, n: nat)
    requires Run(h, s, trees, works) && n < |works|
    ensures |trees| == |works| + 1 && Enabled(h, s, trees[n], works[n])
        && trees[n + 1] == After(h, s, trees[n], works[n])
  {
    hide Enabled, After, Log, IdsOk;
  }

  lemma RunStarts(h: Hashing, s: Scope, trees: seq<Tree>, works: seq<Work>)
    requires Run(h, s, trees, works)
    ensures |trees| == |works| + 1 && Disjoint(trees[0]) && IdsOk(Log(h.dg, trees[0]))
  {
    hide Enabled, After, Log, IdsOk;
  }

  lemma {:induction false} RunProgress(h: Hashing, s: Scope, trees: seq<Tree>, works: seq<Work>, n: nat)
    requires h.Lawful() && Run(h, s, trees, works) && n <= |works|
    ensures Progress(h.dg, s, trees[0], trees[n])
    decreases n
  {
    hide *;
    RunStarts(h, s, trees, works);
    if n == 0 {
      ProgressStarts(h.dg, s, trees[0]);
    } else {
      RunProgress(h, s, trees, works, n - 1);
      RunStep(h, s, trees, works, n - 1);
      WorkProgress(h, s, trees[0], trees[n - 1], works[n - 1]);
    }
  }

  /** The plan, and with it its id, is the same after every prefix of its own work. */
  lemma PlanIdStable(h: Hashing, s: Scope, trees: seq<Tree>, works: seq<Work>, n: nat)
    requires h.Lawful() && Run(h, s, trees, works) && n <= |works|
    ensures PlanIdOf(h, s, trees[n]) == PlanIdOf(h, s, trees[0]) && Items(h.dg, s, trees[n]) == Items(h.dg, s, trees[0])
  {
    hide *;
    RunStarts(h, s, trees, works);
    RunProgress(h, s, trees, works, n);
    ProgressParts(h.dg, s, trees[0], trees[n]);
    SamePlanId(h, s, trees[0], trees[n]);
  }

  lemma SamePlanId(h: Hashing, s: Scope, a: Tree, b: Tree)
    requires Items(h.dg, s, b) == Items(h.dg, s, a)
    ensures PlanIdOf(h, s, b) == PlanIdOf(h, s, a)
  {
    hide Items;
  }

  /** After every prefix of the work: each file of the start is in exactly one of the two
      places with its bytes, each new file is a dismissal of an event that had none,
      and no two new files dismiss the same event. */
  lemma BytesConserved(h: Hashing, s: Scope, trees: seq<Tree>, works: seq<Work>, n: nat)
    requires h.Lawful() && Run(h, s, trees, works) && n <= |works|
    ensures var dg, a, b := h.dg, trees[0], trees[n];
      && (forall p | p in Paths(a) :: (p in b.live) != (p in b.archive) && RawAt(b, p) == RawAt(a, p))
      && (forall p | p in Paths(b) && p !in Paths(a) ::
            p in b.live && Dismisses(dg, b.live[p]).Some? && !HasDismissal(Log(dg, a), Dismisses(dg, b.live[p]).value))
      && (forall p, q | p in Paths(b) && p !in Paths(a) && q in Paths(b) && q !in Paths(a) && p != q ::
            Dismisses(dg, RawAt(b, p)) != Dismisses(dg, RawAt(b, q)))
  {
    hide *;
    RunStarts(h, s, trees, works);
    RunProgress(h, s, trees, works, n);
    ProgressParts(h.dg, s, trees[0], trees[n]);
    ConservedBytes(trees[0], trees[n]);
    AddsParts(h.dg, trees[0], trees[n], Items(h.dg, s, trees[0]));
  }

  lemma ConservedBytes(a: Tree, b: Tree)
    requires Conserved(a, b)
    ensures forall p | p in Paths(a) :: (p in b.live) != (p in b.archive) && RawAt(b, p) == RawAt(a, p)
  {
    forall p | p in Paths(a) ensures (p in b.live) != (p in b.archive) && RawAt(b, p) == RawAt(a, p) {
      assert p in Paths(b);
    }
  }

  lemma AddsParts(dg: Digest, a: Tree, b: Tree, items: map<string, Item>)
    requires AddsOnly(dg, a, b, items)
    ensures forall p | p in Paths(b) && p !in Paths(a) ::
      p in b.live && Dismisses(dg, b.live[p]).Some? && !HasDismissal(Log(dg, a), Dismisses(dg, b.live[p]).value)
    ensures forall p, q | p in Paths(b) && p !in Paths(a) && q in Paths(b) && q !in Paths(a) && p != q
      :: Dismisses(dg, RawAt(b, p)) != Dismisses(dg, RawAt(b, q))
  {
    hide Dismisses, Paths, HasDismissal, Log, ToDismiss, RawAt;
    forall p | p in Paths(b) && p !in Paths(a)
      ensures p in b.live && Dismisses(dg, b.live[p]).Some?
          && !HasDismissal(Log(dg, a), Dismisses(dg, b.live[p]).value) {
      assert Adds(dg, a, b.live[p], items);
    }
  }

  // ---------------------------------------------------------------- runs end, and end alike

  /** The items that are still to be worked on. */
  ghost function Left(dg: Digest, items: map<string, Item>, t: Tree): set<string> {
    set p | p in items && ((items[p].action == Archive && p in t.live)
                        || (items[p].action == Dismiss && !HasDismissal(Log(dg, t), items[p].id)))
  }

  lemma LeftShrinks(dg: Digest, items: map<string, Item>, a: Tree, b: Tree, c: Tree, x: string)
    requires x in Left(dg, items, b) && x !in Left(dg, items, c)
    requires forall p | p in items && items[p].action == Archive && p in c.live :: p in b.live
    requires forall id | HasDismissal(Log(dg, b), id) :: HasDismissal(Log(dg, c), id)
    ensures |Left(dg, items, c)| < |Left(dg, items, b)|
  {
    hide HasDismissal, Log;
    assert Left(dg, items, c) <= Left(dg, items, b) - {x};
    FewerLeft(Left(dg, items, c), Left(dg, items, b) - {x});
  }

  lemma {:induction false} FewerLeft(a: set<string>, b: set<string>)
    requires a <= b
    ensures |a| <= |b|
    decreases |a|
  {
    if a != {} {
      var x :| x in a;
      FewerLeft(a - {x}, b - {x});
    }
  }

  lemma WorkLeft(h: Hashing, s: Scope, a: Tree, b: Tree, w: Work)
    requires h.Lawful() && Progress(h.dg, s, a, b) && Enabled(h, s, b, w)
    ensures var items := Items(h.dg, s, a); |Left(h.dg, items, After(h, s, b, w))| < |Left(h.dg, items, b)|
  {
    hide *;
    var items, c := Items(h.dg, s, a), After(h, s, b, w);
    WorkProgress(h, s, a, b, w);
    WorkParts(h, s, b, w);
    LeftHas(h.dg, items, b, w.item);
    LeftHas(h.dg, items, c, w.item);
    StillLive(h, s, a, b, w);
    LeftShrinks(h.dg, items, a, b, c, w.item);
  }

  lemma LeftHas(dg: Digest, items: map<string, Item>, t: Tree, p: string)
    requires p in items
    ensures p in Left(dg, items, t) <==>
      (items[p].action == Archive && p in t.live)
          || (items[p].action == Dismiss && !HasDismissal(Log(dg, t), items[p].id))
  {
    hide HasDismissal, Log;
  }

  /** No work brings back a file that was to be archived. */
  lemma StillLive(h: Hashing, s: Scope, a: Tree, b: Tree, w: Work)
    requires Progress(h.dg, s, a, b) && Enabled(h, s, b, w)
    ensures var items := Items(h.dg, s, a);
      forall p | p in items && items[p].action == Archive && p in After(h, s, b, w).live :: p in b.live
  {
    hide *;
    WorkParts(h, s, b, w);
    ProgressParts(h.dg, s, a, b);
    var items, c := Items(h.dg, s, a), After(h, s, b, w);
    forall p | p in items && items[p].action == Archive && p in c.live ensures p in b.live {
      ItemPath(h.dg, s, b, p);
      if w.Dismissing? {
        FreshParts(h.dg, b, w.stamp);
        var item := Items(h.dg, s, b)[w.item];
        AddedLive(b, w.stamp.path, DismissalText(h, w.actor, w.stamp, item.id, PlanIdOf(h, s, b), item.standing), p);
      } else {
        MovedLive(b, w.item, p);
      }
    }
  }

  lemma AddedLive(b: Tree, path: string, raw: string, p: string)
    requires path !in Paths(b) && p in Paths(b) && p in WithFile(b, path, raw).live
    ensures p in b.live
  {}

  lemma MovedLive(b: Tree, q: string, p: string)
    requires q in b.live && p in Moved(b, q).live
    ensures p in b.live
  {}

  /** No run does more than one piece of work for each item. */
  lemma {:induction false} WorkBounded(h: Hashing, s: Scope, trees: seq<Tree>, works: seq<Work>, n: nat)
    requires h.Lawful() && Run(h, s, trees, works) && n <= |works|
    ensures var items := Items(h.dg, s, trees[0]);
      n + |Left(h.dg, items, trees[n])| <= |Left(h.dg, items, trees[0])| <= |items|
    decreases n
  {
    hide *;
    RunStarts(h, s, trees, works);
    var items := Items(h.dg, s, trees[0]);
    LeftWithin(h.dg, items, trees[0]);
    if n > 0 {
      WorkBounded(h, s, trees, works, n - 1);
      RunStep(h, s, trees, works, n - 1);
      RunProgress(h, s, trees, works, n - 1);
      WorkLeft(h, s, trees[0], trees[n - 1], works[n - 1]);
    }
  }

  lemma LeftWithin(dg: Digest, items: map<string, Item>, t: Tree)
    ensures |Left(dg, items, t)| <= |items|
  {
    hide HasDismissal, Log;
    FewerLeft(Left(dg, items, t), items.Keys);
  }

  /** Whatever order the work is done in and wherever it was interrupted, two runs from
      the same tree that leave nothing to do have the same archive, the same live
      files and the same dismissed events. */
  lemma RunsEndAlike(h: Hashing, s: Scope, trees: seq<Tree>, works: seq<Work>, others: seq<Tree>, rest: seq<Work>)
    requires h.Lawful() && Run(h, s, trees, works) && Run(h, s, others, rest) && trees[0] == others[0]
    requires Left(h.dg, Items(h.dg, s, trees[|works|]), trees[|works|]) == {}
    requires Left(h.dg, Items(h.dg, s, others[|rest|]), others[|rest|]) == {}
    ensures var a, b, c := trees[0], trees[|works|], others[|rest|];
      && b.archive == c.archive
      && (forall p | p in Paths(a) :: (p in b.live <==> p in c.live) && (p in b.live ==> b.live[p] == c.live[p]))
      && (forall id :: HasDismissal(Log(h.dg, b), id) <==> HasDismissal(Log(h.dg, c), id))
  {
    hide *;
    RunStarts(h, s, trees, works);
    RunStarts(h, s, others, rest);
    RunFinished(h, s, trees, works);
    RunFinished(h, s, others, rest);
    FinishedAlike(h.dg, s, trees[0], trees[|works|], others[|rest|]);
  }

  lemma RunFinished(h: Hashing, s: Scope, trees: seq<Tree>, works: seq<Work>)
    requires h.Lawful() && Run(h, s, trees, works)
    requires Left(h.dg, Items(h.dg, s, trees[|works|]), trees[|works|]) == {}
    ensures Finished(h.dg, s, trees[0], trees[|works|])
  {
    hide *;
    RunStarts(h, s, trees, works);
    RunProgress(h, s, trees, works, |works|);
    ProgressParts(h.dg, s, trees[0], trees[|works|]);
    NothingLeft(h.dg, s, trees[0], trees[|works|]);
  }

  lemma NothingLeft(dg: Digest, s: Scope, a: Tree, b: Tree)
    requires Progress(dg, s, a, b) && Left(dg, Items(dg, s, a), b) == {}
    ensures Finished(dg, s, a, b)
  {
    hide *;
    var items := Items(dg, s, a);
    ProgressParts(dg, s, a, b);
    forall p | p in items
      ensures (items[p].action == Archive ==> p in b.archive)
          && (items[p].action == Dismiss ==> HasDismissal(Log(dg, b), items[p].id)) {
      LeftHas(dg, items, b, p);
      ItemPath(dg, s, b, p);
      PathPlaces(b, p);
    }
    FinishedIs(dg, s, a, b);
  }

  lemma PathPlaces(t: Tree, p: string)
    ensures p in Paths(t) <==> p in t.live || p in t.archive
  {}

  lemma FinishedIs(dg: Digest, s: Scope, a: Tree, b: Tree)
    requires Progress(dg, s, a, b)
    requires forall p | p in Items(dg, s, a) ::
      && (Items(dg, s, a)[p].action == Archive ==> p in b.archive)
      && (Items(dg, s, a)[p].action == Dismiss ==> HasDismissal(Log(dg, b), Items(dg, s, a)[p].id))
    ensures Finished(dg, s, a, b)
  {
    hide Progress, Items, HasDismissal, Log;
  }

  // ---------------------------------------------------------------- reaching a tree

  /** Where the first run of ApplyJournalPlan begins: a tree reaches itself. */
  lemma ReachesStart(h: Hashing, s: Scope, a: Tree)
    requires Disjoint(a) && IdsOk(Log(h.dg, a))
    ensures Reaches(h, s, a, a)
  {
    hide Log, IdsOk, Disjoint, Enabled, After;
    var trees, works := [a], [];
    assert RunFrom(h, s, trees, works, a, a);
  }

  lemma RunMore(h: Hashing, s: Scope, trees: seq<Tree>, works: seq<Work>, w: Work)
    requires Run(h, s, trees, works) && Enabled(h, s, trees[|works|], w)
    ensures Run(h, s, trees + [After(h, s, trees[|works|], w)], works + [w])
  {
    hide *;
    RunStarts(h, s, trees, works);
    var more, done := trees + [After(h, s, trees[|works|], w)], works + [w];
    forall i | 0 <= i < |done| ensures Enabled(h, s, more[i], done[i]) && more[i + 1] == After(h, s, more[i], done[i]) {
      if i < |works| {
        RunStep(h, s, trees, works, i);
        assert more[i] == trees[i] && more[i + 1] == trees[i + 1] && done[i] == works[i];
      }
    }
    RunFits(h, s, more, done);
  }

  lemma RunFits(h: Hashing, s: Scope, trees: seq<Tree>, works: seq<Work>)
    requires |trees| == |works| + 1 && Disjoint(trees[0]) && IdsOk(Log(h.dg, trees[0]))
    requires forall i | 0 <= i < |works| ::
      Enabled(h, s, trees[i], works[i]) && trees[i + 1] == After(h, s, trees[i], works[i])
    ensures Run(h, s, trees, works)
  {
    hide Log, IdsOk, Disjoint, Enabled, After;
  }

  lemma ReachesMore(h: Hashing, s: Scope, a: Tree, b: Tree, w: Work)
    requires Reaches(h, s, a, b) && Enabled(h, s, b, w)
    ensures Reaches(h, s, a, After(h, s, b, w))
  {
    hide Enabled, After, IdsOk, Log, Disjoint;
    var trees, works :| RunFrom(h, s, trees, works, a, b);
    RunStarts(h, s, trees, works);
    RunMore(h, s, trees, works, w);
    var more, done := trees + [After(h, s, b, w)], works + [w];
    assert RunFrom(h, s, more, done, a, After(h, s, b, w));
  }

  lemma ReachesProgress(h: Hashing, s: Scope, a: Tree, b: Tree)
    requires h.Lawful() && Reaches(h, s, a, b)
    ensures Progress(h.dg, s, a, b)
  {
    var trees, works :| RunFrom(h, s, trees, works, a, b);
    hide *;
    RunStarts(h, s, trees, works);
    RunProgress(h, s, trees, works, |works|);
  }
}
