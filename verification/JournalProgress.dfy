/** What carrying out a reconciliation plan may have done to a tree at any point
    (ApplyJournalPlan and Dismiss in internal/eventlog/journal.go and eventlog.go),
    and that each dismissal and each move stays within it. */
module JournalProgress {
  import opened Wrappers
  import opened MarkdownText
  import opened EventRecords
  import opened EventLog
  import opened Journal
  import opened JournalCode
  import MarkdownDoc
  import MarkdownSections

  /** What the identity of a plan covers: everything but its id and time. The totals
      of a plan are sums over its items. */
  datatype PlanContent = PlanContent(project: string, classes: set<Class>, items: map<string, Item>)

  datatype Snapshot = Snapshot(schema: string, planId: string, project: string, createdAt: string, items: map<string,
      Item>)

  const SNAPSHOT_SCHEMA := "event-journal-snapshot/v1"

  /** The digest of a plan and the JSON of a snapshot, with the laws that are used. */
  datatype Hashing = Hashing(dg: Digest, planId: PlanContent -> string, encode: Snapshot -> string,
      decode: string -> Option<Snapshot>) {
    ghost predicate Lawful() {
      && dg.Lawful()
      && (forall a, b :: planId(a) == planId(b) ==> a == b)
      && (forall a :: Hex(planId(a)))
      && (forall s :: decode(encode(s)) == Some(s))
    }
  }

  predicate Hex(s: string) { forall i | 0 <= i < |s| :: '0' <= s[i] <= '9' || 'a' <= s[i] <= 'f' }

  /** The id, time and path that a new event gets. */
  datatype Stamp = Stamp(id: string, created: string, path: string)

  ghost function ContentOf(h: Hashing, s: Scope, t: Tree): PlanContent {
    PlanContent(s.project, s.classes, Items(h.dg, s, t))
  }

  ghost function PlanIdOf(h: Hashing, s: Scope, t: Tree): string { h.planId(ContentOf(h, s, t)) }

  /** A plan id stands for its items: a run accepts an id only if every item, class,
      action and file digest is the one that was reviewed. */
  lemma SamePlan(h: Hashing, s: Scope, t: Tree, u: Tree)
    requires h.Lawful() && PlanIdOf(h, s, t) == PlanIdOf(h, s, u)
    ensures Items(h.dg, s, t) == Items(h.dg, s, u)
  {
    hide Items;
    assert ContentOf(h, s, t) == ContentOf(h, s, u);
  }

  // ---------------------------------------------------------------- dismissals

  function ClassName(c: Class): string {
    match c
    case UnknownUnreadable => "unknown-unreadable"
    case ExternallyReferenced => "externally-referenced"
    case Contested => "contested"
    case SupersededProposal => "superseded-proposal"
    case MissingTarget => "missing-target"
    case TerminalTarget => "terminal-target"
    case PendingActionable => "pending-actionable"
    case CompleteJournal => "complete-journal"
    case CompleteMailbox => "complete-mailbox"
  }

  const REASON := "event journal reconciliation "

  function Reason(planId: string, c: Class): string { REASON + planId + ": " + ClassName(c) }

  /** The file Dismiss appends. */
  function DismissalText(h: Hashing, actor: string, stamp: Stamp, id: string, planId: string, c: Class): string {
    MarkdownDoc.Render(AppendDoc(h.dg, stamp.id, DISMISSAL, stamp.created, actor, id, "", "",
        TrimSpace(Reason(planId, c))))
  }

  /** The classes whose items are dismissed. */
  predicate Dismissed(c: Class) { c == SupersededProposal || c == MissingTarget || c == TerminalTarget }

  predicate Plain(n: string) { n != "" && NoBreak(n) && NoCr(n) && !IsSpace(n[|n| - 1]) }

  lemma PlainNames()
    ensures Plain("superseded-proposal") && Plain("missing-target") && Plain("terminal-target")
  {}

  lemma NamePlain(c: Class)
    requires Dismissed(c)
    ensures Plain(ClassName(c))
  {
    PlainNames();
    hide Plain;
  }

  lemma ReasonPlain(planId: string, c: Class)
    requires Hex(planId) && Dismissed(c)
    ensures var r := Reason(planId, c);
      NoBreak(r) && NoCr(r) && r != "" && r[0] == 'e' && TrimSpace(r) == r
  {
    NamePlain(c);
    HeadPlain();
    HexPlain(planId);
    var name, head := ClassName(c), REASON;
    assert Reason(planId, c) == head + planId + ": " + name;
    hide *;
    PlainEnds(head, planId, name);
    TrimmedStays(head + planId + ": " + name);
  }

  lemma HeadPlain()
    ensures NoBreak(REASON) && NoCr(REASON) && REASON != "" && REASON[0] == 'e'
  {}

  lemma HexPlain(planId: string)
    requires Hex(planId)
    ensures NoBreak(planId) && NoCr(planId)
  {}

  lemma PlainEnds(head: string, mid: string, name: string)
    requires NoBreak(head) && NoCr(head) && head != "" && head[0] == 'e'
    requires NoBreak(mid) && NoCr(mid) && Plain(name)
    ensures var r := head + mid + ": " + name;
      NoBreak(r) && NoCr(r) && r != "" && r[0] == 'e' && Trimmed(r)
  {
    var r := head + mid + ": " + name;
    assert r == head + (mid + ": " + name);
    assert r[|r| - 1] == name[|name| - 1];
    assert '\n' !in ": " && '\r' !in ": ";
  }

  lemma ReasonStorable(planId: string, c: Class)
    requires Hex(planId) && Dismissed(c)
    ensures Storable(TrimSpace(Reason(planId, c)))
  {
    ReasonPlain(planId, c);
    var r := Reason(planId, c);
    hide Reason, TrimSpace, Normalize;
    NormalizeStays(r + "\n");
    OneLine(r);
    MarkdownSections.BodyOfLines([r]);
    TextLine(r);
    assert forall i | 0 <= i < |r| :: r[i] in r;
  }

  lemma TextLine(r: string)
    requires r != "" && r[0] == 'e'
    ensures NoHeadings([r], false)
  {
    TrimKeepsHead(r);
    assert TrimSpace(r)[0] != "```"[0];
    hide TrimSpace;
    assert !MarkdownSections.Fence(r) && MarkdownSections.Heading(r).None?;
    assert [r][1..] == [];
    assert NoHeadings([], false);
  }

  lemma TrimmedTwice(s: string)
    requires TrimSpace(s) == s
    ensures TrimSpace(TrimSpace(s)) == s
  {}

  /** What Dismiss writes is read as a valid dismissal of the event it names, by the actor
      and with the plan and the class as its reason. */
  lemma DismissalWritten(h: Hashing, actor: string, stamp: Stamp, id: string, planId: string, c: Class)
    requires h.Lawful() && Hex(planId) && Dismissed(c) && stamp.id != "" && id != ""
    ensures var raw := DismissalText(h, actor, stamp, id, planId, c);
      Dismisses(h.dg, raw) == Some(id) && ReadEvent(h.dg, raw).Some? && ReadEvent(h.dg, raw).value.id == stamp.id
    ensures var e := ReadEvent(h.dg, DismissalText(h, actor, stamp, id, planId, c)).value;
      && e.actor == actor && e.about == id && e.applied && !e.pending
      && e.body == "event journal reconciliation " + planId + ": " + ClassName(c)
  {
    ReasonPlain(planId, c);
    TrimmedTwice(Reason(planId, c));
    ReasonStorable(planId, c);
    AppendReadable(h.dg, stamp.id, DISMISSAL, stamp.created, actor, id, "", "", TrimSpace(Reason(planId, c)));
    DismissesIs(h.dg, DismissalText(h, actor, stamp, id, planId, c));
    hide AppendDoc, MarkdownDoc.Render, ReadEvent, Dismisses, Storable, TrimSpace, ClassName;
  }

  /** Some event of the log, valid as a dismissal or not, is a dismissal of `id`. */
  ghost predicate HasDismissal(log: map<string, Seen>, id: string) {
    exists p :: p in log && log[p].event.kind == DISMISSAL && log[p].event.about == id
  }

  // ---------------------------------------------------------------- progress

  ghost predicate ToDismiss(items: map<string, Item>, id: string) {
    exists p :: p in items && items[p].action == Dismiss && items[p].id == id
  }

  /** Nothing is lost: every file of `a` is in `b`, in one of the two places, unchanged. */
  ghost predicate Conserved(a: Tree, b: Tree) {
    && Disjoint(a) && Disjoint(b)
    && (forall p | p in Paths(a) :: p in Paths(b) && RawAt(b, p) == RawAt(a, p))
  }

  /** Files only move to the archive, and only items to be archived. */
  ghost predicate MovesOnly(a: Tree, b: Tree, items: map<string, Item>) {
    && (forall p | p in a.archive :: p in b.archive)
    && (forall p | p in b.archive :: p in a.archive || (p in a.live && p in items && items[p].action == Archive))
  }

  /** The files added are dismissals, one for each of some items that had none. */
  ghost predicate AddsOnly(dg: Digest, a: Tree, b: Tree, items: map<string, Item>) {
    && (forall p | p in Paths(b) && p !in Paths(a) :: p in b.live && Adds(dg, a, b.live[p], items))
    && (forall p, q | p in Paths(b) && p !in Paths(a) && q in Paths(b) && q !in Paths(a) && p != q
          :: Dismisses(dg, RawAt(b, p)) != Dismisses(dg, RawAt(b, q)))
  }

  ghost predicate Adds(dg: Digest, a: Tree, raw: string, items: map<string, Item>) {
    var id := Dismisses(dg, raw);
    id.Some? && ToDismiss(items, id.value) && !HasDismissal(Log(dg, a), id.value)
  }

  /** What every run of a plan, finished or not, has made of the tree `a` it started from. */
  ghost predicate Progress(dg: Digest, s: Scope, a: Tree, b: Tree) {
    && Conserved(a, b)
    && Items(dg, s, b) == Items(dg, s, a)
    && MovesOnly(a, b, Items(dg, s, a))
    && AddsOnly(dg, a, b, Items(dg, s, a))
    && IdsOk(Log(dg, b))
    && (forall id | HasDismissal(Log(dg, a), id) :: HasDismissal(Log(dg, b), id))
    && (forall id | HasDismissal(Log(dg, b), id) :: HasDismissal(Log(dg, a), id) || ToDismiss(Items(dg, s, a), id))
    && (forall p | p in Log(dg, a) :: p in Log(dg, b) && Log(dg, b)[p].event == Log(dg, a)[p].event)
  }

  /** And what a finished run has made of it: everything to be archived is archived and
      everything to be dismissed has its dismissal. */
  ghost predicate Finished(dg: Digest, s: Scope, a: Tree, b: Tree) {
    var items := Items(dg, s, a);
    && Progress(dg, s, a, b)
    && (forall p | p in items && items[p].action == Archive :: p in b.archive)
    && (forall p | p in items && items[p].action == Dismiss :: HasDismissal(Log(dg, b), items[p].id))
  }

  lemma ProgressStarts(dg: Digest, s: Scope, a: Tree)
    requires Disjoint(a) && IdsOk(Log(dg, a))
    ensures Progress(dg, s, a, a)
  {
    hide Items, Log, IdsOk, HasDismissal, Dismisses;
  }

  /** Two finished runs from the same tree archive the same files and dismiss the same
      events: they differ in the names of the dismissals at most. */
  lemma FinishedAlike(dg: Digest, s: Scope, a: Tree, b: Tree, c: Tree)
    requires Finished(dg, s, a, b) && Finished(dg, s, a, c)
    ensures b.archive == c.archive
    ensures forall p | p in Paths(a) :: p in b.live <==> p in c.live
    ensures forall p | p in Paths(a) && p in b.live :: b.live[p] == c.live[p]
    ensures forall id :: HasDismissal(Log(dg, b), id) <==> HasDismissal(Log(dg, c), id)
  {
    hide Items, Log, IdsOk, Dismisses, AddsOnly;
    DismissedAlike(dg, s, a, b, c);
    DismissedAlike(dg, s, a, c, b);
    ArchivedAlike(dg, s, a, b, c);
    hide HasDismissal;
  }

  lemma ArchivedAlike(dg: Digest, s: Scope, a: Tree, b: Tree, c: Tree)
    requires Finished(dg, s, a, b) && Finished(dg, s, a, c)
    ensures b.archive == c.archive
    ensures forall p | p in Paths(a) :: p in b.live <==> p in c.live
    ensures forall p | p in Paths(a) && p in b.live :: b.live[p] == c.live[p]
  {
    hide Items, Log, IdsOk, Dismisses, AddsOnly, HasDismissal;
    forall p ensures p in b.archive <==> p in c.archive {}
    forall p | p in b.archive ensures b.archive[p] == c.archive[p] {
      assert p in Paths(a) && RawAt(b, p) == RawAt(a, p) && RawAt(c, p) == RawAt(a, p);
    }
    forall p | p in Paths(a) ensures (p in b.live <==> p in c.live) && (p in b.live ==> b.live[p] == c.live[p]) {
      assert RawAt(b, p) == RawAt(a, p) && RawAt(c, p) == RawAt(a, p);
    }
  }

  lemma DismissedAlike(dg: Digest, s: Scope, a: Tree, b: Tree, c: Tree)
    requires Finished(dg, s, a, b) && Finished(dg, s, a, c)
    ensures forall id | HasDismissal(Log(dg, b), id) :: HasDismissal(Log(dg, c), id)
  {
    hide Items, Log, IdsOk, Dismisses, AddsOnly, HasDismissal, MovesOnly, Conserved;
  }

  // ---------------------------------------------------------------- one step keeps the progress

  lemma ProgressParts(dg: Digest, s: Scope, a: Tree, b: Tree)
    requires Progress(dg, s, a, b)
    ensures Conserved(a, b) && MovesOnly(a, b, Items(dg, s, a)) && AddsOnly(dg, a, b, Items(dg, s, a))
        && IdsOk(Log(dg, b))
    ensures Items(dg, s, b) == Items(dg, s, a) && Disjoint(b)
    ensures forall id | HasDismissal(Log(dg, a), id) :: HasDismissal(Log(dg, b), id)
    ensures forall id | HasDismissal(Log(dg, b), id) :: HasDismissal(Log(dg, a), id) || ToDismiss(Items(dg, s, a), id)
    ensures forall p | p in Log(dg, a) :: p in Log(dg, b) && Log(dg, b)[p].event == Log(dg, a)[p].event
  {
    hide Items, Log, IdsOk, HasDismissal, Dismisses, AddsOnly, MovesOnly;
  }

  lemma ProgressFits(dg: Digest, s: Scope, a: Tree, b: Tree)
    requires Conserved(a, b) && MovesOnly(a, b, Items(dg, s, a)) && AddsOnly(dg, a, b, Items(dg, s, a))
        && IdsOk(Log(dg, b))
    requires Items(dg, s, b) == Items(dg, s, a)
    requires forall id | HasDismissal(Log(dg, a), id) :: HasDismissal(Log(dg, b), id)
    requires forall id | HasDismissal(Log(dg, b), id) :: HasDismissal(Log(dg, a), id) || ToDismiss(Items(dg, s, a), id)
    requires forall p | p in Log(dg, a) :: p in Log(dg, b) && Log(dg, b)[p].event == Log(dg, a)[p].event
    ensures Progress(dg, s, a, b)
  {
    hide Items, Log, IdsOk, HasDismissal, Dismisses, AddsOnly, MovesOnly, Conserved;
  }

  /** A new event file: a name and an id that nothing has. */
  ghost predicate FreshStamp(dg: Digest, t: Tree, stamp: Stamp) {
    && stamp.path !in Paths(t) && |stamp.id| == 26
    && forall p | p in Log(dg, t) :: Log(dg, t)[p].event.id != stamp.id
  }

  lemma DismissProgress(dg: Digest, s: Scope, a: Tree, b: Tree, x: string, stamp: Stamp, raw: string)
    requires Progress(dg, s, a, b) && x in Items(dg, s, a) && Items(dg, s, a)[x].action == Dismiss
    requires FreshStamp(dg, b, stamp) && !HasDismissal(Log(dg, b), Items(dg, s, a)[x].id)
    requires Dismisses(dg, raw) == Some(Items(dg, s, a)[x].id) && ReadEvent(dg, raw).Some?
        && ReadEvent(dg, raw).value.id == stamp.id
    ensures var c := WithFile(b, stamp.path, raw);
      && Progress(dg, s, a, c) && HasDismissal(Log(dg, c), Items(dg, s, a)[x].id)
      && (forall id | HasDismissal(Log(dg, b), id) :: HasDismissal(Log(dg, c), id))
      && Log(dg, c).Keys == Log(dg, b).Keys + {stamp.path} && Log(dg, c)[stamp.path].event.id == stamp.id
      && (forall p | p in Log(dg, b) :: Log(dg, c)[p].event == Log(dg, b)[p].event)
  {
    hide *;
    var items, id := Items(dg, s, a), Items(dg, s, a)[x].id;
    var c := WithFile(b, stamp.path, raw);
    ProgressParts(dg, s, a, b);
    IdsParts(Log(dg, b));
    FreshParts(dg, b, stamp);
    NewFits(dg, b, stamp.path, raw, id);
    DismissalKeepsPlan(dg, s, b, stamp.path, raw, x);
    DismissalLog(dg, b, stamp.path, raw, id);
    StepParts(Log(dg, b), Log(dg, c), {stamp.path});
    NewPaths(dg, b, stamp.path, raw, id);
    LogDomain(dg, c);
    LogAt(dg, c, stamp.path);
    AddedDismissal(Log(dg, b), Log(dg, c), stamp.path, id);
    AddedIds(Log(dg, b), Log(dg, c), stamp);
    ConservedAdds(a, b, stamp.path, raw);
    ToDismissAt(items, x);
    NeverDismissed(dg, s, a, b, id);
    AddsMore(dg, a, b, items, stamp.path, raw, id, s);
    ProgressFits(dg, s, a, c);
  }

  lemma IdsParts(log: map<string, Seen>)
    requires IdsOk(log)
    ensures DistinctIds(log)
  {}

  lemma FreshParts(dg: Digest, t: Tree, stamp: Stamp)
    requires FreshStamp(dg, t, stamp)
    ensures stamp.path !in Paths(t) && |stamp.id| == 26 && forall p | p in Log(dg, t) ::
        Log(dg, t)[p].event.id != stamp.id
  {
    hide Log, Paths;
  }

  lemma NewFits(dg: Digest, t: Tree, p: string, raw: string, id: string)
    requires p !in Paths(t) && Dismisses(dg, raw) == Some(id)
    ensures NewDismissal(dg, t, p, raw, id)
  {
    hide Dismisses, Paths;
  }

  lemma StepParts(x: map<string, Seen>, y: map<string, Seen>, more: set<string>)
    requires StepLog(x, y, more)
    ensures y.Keys == x.Keys + more && x.Keys !! more
    ensures forall q | q in x :: y[q].event == x[q].event && y[q].raw == x[q].raw
  {
    forall q | q in x ensures y[q].event == x[q].event && y[q].raw == x[q].raw { assert SameSeen(x[q], y[q], true); }
  }

  lemma AddedDismissal(x: map<string, Seen>, y: map<string, Seen>, p: string, id: string)
    requires y.Keys == x.Keys + {p} && p !in x && y[p].event.kind == DISMISSAL && y[p].event.about == id
    requires forall q | q in x :: y[q].event == x[q].event
    ensures forall i :: HasDismissal(y, i) <==> HasDismissal(x, i) || i == id
  {
    forall i ensures HasDismissal(y, i) <==> HasDismissal(x, i) || i == id {
      if HasDismissal(x, i) {
        var q :| q in x && x[q].event.kind == DISMISSAL && x[q].event.about == i;
        assert q in y && y[q].event == x[q].event;
      }
      if HasDismissal(y, i) && i != id {
        var q :| q in y && y[q].event.kind == DISMISSAL && y[q].event.about == i;
        assert q in x;
      }
    }
  }

  lemma AddedIds(x: map<string, Seen>, y: map<string, Seen>, stamp: Stamp)
    requires IdsOk(x) && y.Keys == x.Keys + {stamp.path} && stamp.path !in x && y[stamp.path].event.id == stamp.id
        && |stamp.id| == 26
    requires forall q | q in x :: y[q].event == x[q].event && x[q].event.id != stamp.id
    ensures IdsOk(y)
  {}

  lemma ConservedAdds(a: Tree, b: Tree, p: string, raw: string)
    requires Conserved(a, b) && p !in Paths(b)
    ensures Conserved(a, WithFile(b, p, raw)) && p !in Paths(a)
  {
    var c := WithFile(b, p, raw);
    assert Paths(c) == Paths(b) + {p};
    forall q | q in Paths(a) ensures q in Paths(c) && RawAt(c, q) == RawAt(a, q) {
      assert q in Paths(b) && RawAt(b, q) == RawAt(a, q);
    }
  }

  lemma ToDismissAt(items: map<string, Item>, x: string)
    requires x in items && items[x].action == Dismiss
    ensures ToDismiss(items, items[x].id)
  {}

  lemma NeverDismissed(dg: Digest, s: Scope, a: Tree, b: Tree, id: string)
    requires Progress(dg, s, a, b) && !HasDismissal(Log(dg, b), id)
    ensures !HasDismissal(Log(dg, a), id)
  {
    ProgressParts(dg, s, a, b);
    hide *;
  }

  /** No file added before dismisses the same id. */
  lemma AddsMore(dg: Digest, a: Tree, b: Tree, items: map<string, Item>, p: string, raw: string, id: string, s: Scope)
    requires MovesOnly(a, b, items) && AddsOnly(dg, a, b, items) && Conserved(a, b) && p !in Paths(b)
        && Dismisses(dg, raw) == Some(id)
    requires ToDismiss(items, id) && !HasDismissal(Log(dg, a), id) && !HasDismissal(Log(dg, b), id)
    ensures MovesOnly(a, WithFile(b, p, raw), items) && AddsOnly(dg, a, WithFile(b, p, raw), items)
  {
    var c := WithFile(b, p, raw);
    AddsHead(dg, a, items, raw, id);
    AddedPaths(b, p, raw);
    hide *;
    forall q | q in Paths(b) && q !in Paths(a)
        ensures Dismisses(dg, RawAt(b, q)) != Some(id) { NotNamed(dg, b, q, id); }
    AddsFits(dg, a, b, c, items, p, raw, id);
  }

  lemma AddedPaths(b: Tree, p: string, raw: string)
    requires p !in Paths(b)
    ensures var c := WithFile(b, p, raw);
      Paths(c) == Paths(b) + {p} && RawAt(c, p) == raw && p in c.live && p !in c.archive && c.archive == b.archive
      && (forall q | q in Paths(b) :: RawAt(c, q) == RawAt(b, q)) && c.live[p] == raw
      && (forall q | q in b.live :: q in c.live && c.live[q] == b.live[q])
  {}

  lemma AddsFits(dg: Digest, a: Tree, b: Tree, c: Tree, items: map<string, Item>, p: string, raw: string, id: string)
    requires MovesOnly(a, b, items) && AddsOnly(dg, a, b, items) && p !in Paths(b)
    requires Paths(c) == Paths(b) + {p} && RawAt(c, p) == raw && p in c.live && c.archive == b.archive
        && c.live[p] == raw
    requires forall q | q in Paths(b) :: RawAt(c, q) == RawAt(b, q)
    requires forall q | q in b.live :: q in c.live && c.live[q] == b.live[q]
    requires Dismisses(dg, raw) == Some(id) && Adds(dg, a, raw, items)
    requires forall q | q in Paths(b) && q !in Paths(a) :: Dismisses(dg, RawAt(b, q)) != Some(id)
    ensures MovesOnly(a, c, items) && AddsOnly(dg, a, c, items)
  {
    hide Dismisses, Adds, RawAt, Paths;
  }

  lemma AddsHead(dg: Digest, a: Tree, items: map<string, Item>, raw: string, id: string)
    requires Dismisses(dg, raw) == Some(id) && ToDismiss(items, id) && !HasDismissal(Log(dg, a), id)
    ensures Adds(dg, a, raw, items)
  {
    hide Dismisses, Log, HasDismissal, ToDismiss;
  }

  lemma NotNamed(dg: Digest, b: Tree, q: string, id: string)
    requires q in Paths(b) && !HasDismissal(Log(dg, b), id)
    ensures Dismisses(dg, RawAt(b, q)) != Some(id)
  {
    if Dismisses(dg, RawAt(b, q)) == Some(id) {
      DismissalReads(dg, RawAt(b, q), id);
      LogAt(dg, b, q);
    }
    hide Log, Dismisses, ReadEvent;
  }

  lemma MoveProgress(dg: Digest, s: Scope, a: Tree, b: Tree, p: string)
    requires Progress(dg, s, a, b) && p in Items(dg, s, a) && Items(dg, s, a)[p].action == Archive && p in b.live
    ensures var c := Moved(b, p);
      && Progress(dg, s, a, c) && p in c.archive && (forall q | q in b.archive :: q in c.archive)
          && Paths(c) == Paths(b)
      && (forall id :: HasDismissal(Log(dg, c), id) <==> HasDismissal(Log(dg, b), id))
  {
    hide *;
    var items, c := Items(dg, s, a), Moved(b, p);
    ProgressParts(dg, s, a, b);
    MoveKeepsPlan(dg, s, b, p);
    MovedLog(dg, b, p);
    StepParts(Log(dg, b), Log(dg, c), {});
    SameDismissals(Log(dg, b), Log(dg, c));
    SameIds(Log(dg, b), Log(dg, c));
    MovedConserves(a, b, p);
    ItemPath(dg, s, a, p);
    MovedMoves(a, b, items, p);
    MovedAdds(dg, a, b, items, p);
    ProgressFits(dg, s, a, c);
  }

  lemma SameDismissals(x: map<string, Seen>, y: map<string, Seen>)
    requires y.Keys == x.Keys + {} && forall q | q in x :: y[q].event == x[q].event
    ensures forall id :: HasDismissal(y, id) <==> HasDismissal(x, id)
  {
    assert y.Keys == x.Keys;
    forall id ensures HasDismissal(y, id) <==> HasDismissal(x, id) {
      if HasDismissal(x, id) {
        var q :| q in x && x[q].event.kind == DISMISSAL && x[q].event.about == id;
        assert q in y && y[q].event == x[q].event;
      }
      if HasDismissal(y, id) {
        var q :| q in y && y[q].event.kind == DISMISSAL && y[q].event.about == id;
        assert q in x;
      }
    }
  }

  lemma SameIds(x: map<string, Seen>, y: map<string, Seen>)
    requires IdsOk(x) && y.Keys == x.Keys + {} && forall q | q in x :: y[q].event == x[q].event
    ensures IdsOk(y)
  {
    assert y.Keys == x.Keys;
  }

  lemma MovedConserves(a: Tree, b: Tree, p: string)
    requires Conserved(a, b) && p in b.live
    ensures Conserved(a, Moved(b, p)) && Paths(Moved(b, p)) == Paths(b) && p in Moved(b, p).archive
    ensures forall q | q in b.archive :: q in Moved(b, p).archive
  {
    var c := Moved(b, p);
    assert Paths(c) == Paths(b);
    forall q | q in Paths(a) ensures q in Paths(c) && RawAt(c, q) == RawAt(a, q) {
      assert q in Paths(b) && RawAt(b, q) == RawAt(a, q);
    }
  }

  /** Items stand for files of the tree. */
  lemma ItemPath(dg: Digest, s: Scope, a: Tree, p: string)
    requires p in Items(dg, s, a)
    ensures p in Paths(a)
  {
    LogDomain(dg, a);
    hide Log, Holes, Scoped, ItemOf;
  }

  lemma MovedMoves(a: Tree, b: Tree, items: map<string, Item>, p: string)
    requires MovesOnly(a, b, items) && Conserved(a, b) && p in b.live && p in items && items[p].action == Archive
        && p in Paths(a)
    ensures MovesOnly(a, Moved(b, p), items)
  {
    assert p !in b.archive;
  }

  lemma MovedAdds(dg: Digest, a: Tree, b: Tree, items: map<string, Item>, p: string)
    requires AddsOnly(dg, a, b, items) && Conserved(a, b) && p in b.live && p in Paths(a)
    ensures AddsOnly(dg, a, Moved(b, p), items)
  {
    hide Dismisses, Adds;
    var c := Moved(b, p);
    assert Paths(c) == Paths(b);
    assert forall q | q in Paths(b) :: RawAt(c, q) == RawAt(b, q);
    forall q | q in Paths(c) && q !in Paths(a) ensures q in c.live && Adds(dg, a, c.live[q], items) {
      assert q in Paths(b) && q in b.live && Adds(dg, a, b.live[q], items);
    }
  }

  // ---------------------------------------------------------------- what the items promise

  lemma DismissItem(dg: Digest, s: Scope, a: Tree, b: Tree, x: string)
    requires Progress(dg, s, a, b) && x in Items(dg, s, a) && Items(dg, s, a)[x].action == Dismiss
    ensures var item := Items(dg, s, a)[x];
      && |item.id| == 26 && Dismissed(item.standing)
      && (exists p :: p in Log(dg, b) && Log(dg, b)[p].event.id == item.id)
      && (forall l | FoundIn(Log(dg, b), l) && l.event.id == item.id :: !l.event.applied)
  {
    hide *;
    ProgressParts(dg, s, a, b);
    DismissFree(dg, s, a, x);
    DismissClass(dg, s, a, x);
    var id := Items(dg, s, a)[x].id;
    assert Log(dg, b)[x].event == Log(dg, a)[x].event;
    IdLength(Log(dg, b), x);
    IdsParts(Log(dg, b));
    forall l | FoundIn(Log(dg, b), l) && l.event.id == id ensures !l.event.applied {
      FoundParts(Log(dg, b), l);
      SameId(Log(dg, b), l.file.path, x);
    }
  }

  lemma IdLength(log: map<string, Seen>, p: string)
    requires IdsOk(log) && p in log
    ensures |log[p].event.id| == 26
  {}

  lemma DismissClass(dg: Digest, s: Scope, a: Tree, x: string)
    requires x in Items(dg, s, a) && Items(dg, s, a)[x].action == Dismiss
    ensures Dismissed(Items(dg, s, a)[x].standing)
  {
    hide Log, Holes, Classify, Scoped;
  }

  lemma ArchiveItem(dg: Digest, s: Scope, a: Tree, b: Tree, p: string)
    requires Progress(dg, s, a, b) && p in Items(dg, s, a) && Items(dg, s, a)[p].action == Archive
    ensures p in Paths(b) && dg.sum(RawAt(b, p)) == Items(dg, s, a)[p].hash
  {
    hide *;
    ProgressParts(dg, s, a, b);
    ItemPath(dg, s, a, p);
    ConservedAt(a, b, p);
    ArchiveHash(dg, s, a, p);
  }

  lemma ConservedAt(a: Tree, b: Tree, p: string)
    requires Conserved(a, b) && p in Paths(a)
    ensures p in Paths(b) && RawAt(b, p) == RawAt(a, p)
  {}

  lemma ArchiveHash(dg: Digest, s: Scope, a: Tree, p: string)
    requires p in Items(dg, s, a) && Items(dg, s, a)[p].action == Archive && p in Paths(a)
    ensures Items(dg, s, a)[p].hash == dg.sum(RawAt(a, p))
  {
    ArchiveFree(dg, s, a, p);
    LogAt(dg, a, p);
    hide Log, Holes, Classify, Scoped, Paths, RawAt, ReadEvent, Flagged;
  }
}
