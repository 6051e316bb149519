/** The reconciliation plan of the event journal (PlanJournal, classifyJournalItem and
    contestedMailbox in internal/eventlog/journal.go): what it depends on, and that
    carrying it out does not change it. */
module Journal {
  import opened Wrappers
  import opened EventRecords
  import opened EventLog
  import CanonicalJson

  // ---------------------------------------------------------------- the log of a tree

  /** A readable event file. */
  datatype Seen = Seen(event: Event, raw: string, dismissed: bool)

  function Paths(t: Tree): set<string> { t.live.Keys + t.archive.Keys }

  function RawAt(t: Tree, p: string): string
    requires p in Paths(t)
  {
    if p in t.live then t.live[p] else t.archive[p]
  }

  /** A file is in one of the two places, never in both. */
  ghost predicate Disjoint(t: Tree) { t.live.Keys !! t.archive.Keys }

  /** `q` is listed at or before `p`. */
  ghost predicate AtOrBefore(t: Tree, q: string, p: string) {
    if (q in t.live) == (p in t.live) then q == p || CanonicalJson.Below(p, q) else q in t.live
  }

  ghost predicate Flagged(dg: Digest, t: Tree, p: string, id: string) {
    exists q :: q in Paths(t) && AtOrBefore(t, q, p) && Dismisses(dg, RawAt(t, q)) == Some(id)
  }

  ghost function Log(dg: Digest, t: Tree): map<string, Seen> {
    map p | p in Paths(t) && ReadEvent(dg, RawAt(t, p)).Some? ::
      var e := ReadEvent(dg, RawAt(t, p)).value;
      Seen(e, RawAt(t, p), Flagged(dg, t, p, e.id))
  }

  ghost function Holes(dg: Digest, t: Tree): map<string, string> {
    map p | p in Paths(t) && ReadEvent(dg, RawAt(t, p)).None? :: RawAt(t, p)
  }

  // ---------------------------------------------------------------- classification

  datatype Class =
    | UnknownUnreadable | ExternallyReferenced | Contested | SupersededProposal | MissingTarget | TerminalTarget
                 | PendingActionable | CompleteJournal | CompleteMailbox

  datatype Action = Preserve | Dismiss | Archive

  /** One item of a plan. Its reason and manual action are texts fixed by its class
      and path. */
  datatype Item = Item(id: string, kind: string, actor: string, about: string, path: string, standing: Class,
      action: Action,
                       bytes: nat, hash: string)

  /** What a plan looks at besides the log: the tasks of the project, each with
      whether it is done, and the classes to archive. */
  datatype Scope = Scope(project: string, tasks: map<string, bool>, classes: set<Class>)

  predicate Scoped(s: Scope, e: Event) {
    e.kind != DISMISSAL && (e.about in s.tasks || ("t-" <= e.about && !e.applied && !IsJournal(e.kind)))
  }

  /** Mailbox work that waits for its target. */
  predicate Waiting(s: Scope, e: Event) { Scoped(s, e) && !e.applied && !IsJournal(e.kind) }

  /** pendingByTarget: the files of the events that wait for one target. */
  ghost function Peers(s: Scope, log: map<string, Seen>, target: string): set<string> {
    set p | p in log && Waiting(s, log[p].event) && log[p].event.about == target
  }

  predicate Exclusive(kind: string) { kind == "claim" || kind == "block" || kind == "dependency" }

  /** contestedMailbox. */
  ghost predicate ContestedBy(log: map<string, Seen>, e: Event, peers: set<string>)
    requires forall p | p in peers :: p in log
  {
    var rivals := set p | p in peers && Exclusive(log[p].event.kind);
    var kinds, actors := set p | p in rivals :: log[p].event.kind, set p | p in rivals :: log[p].event.actor;
    Exclusive(e.kind) && (|kinds| > 1 || (|peers| > 1 && |actors| > 1 && |kinds| > 0))
  }

  /** A status proposal with a newer one for the same target. */
  ghost predicate Superseded(s: Scope, log: map<string, Seen>, e: Event) {
    && Waiting(s, e) && e.kind == "propose-status"
    && exists p ::
        p in Peers(s, log, e.about) && log[p].event.kind == "propose-status"
        && CanonicalJson.Below(e.id, log[p].event.id)
  }

  /** Another event, not a dismissal, is about this one. */
  ghost predicate Referenced(log: map<string, Seen>, id: string) {
    exists p :: p in log && log[p].event.kind != DISMISSAL && log[p].event.about == id
  }

  /** The switch of classifyJournalItem, on an event whose bytes were read. */
  ghost function Classify(s: Scope, log: map<string, Seen>, l: Seen): Class {
    var e := l.event;
    if Referenced(log, e.id) then ExternallyReferenced
    else if ContestedBy(log, e, Peers(s, log, e.about)) then Contested
    else if Superseded(s, log, e) then SupersededProposal
    else if !e.applied && !IsJournal(e.kind) && e.about !in s.tasks then MissingTarget
    else if !e.applied && !IsJournal(e.kind) && s.tasks[e.about] then TerminalTarget
    else if !e.applied && !IsJournal(e.kind) && !l.dismissed then PendingActionable
    else if IsJournal(e.kind) then CompleteJournal
    else CompleteMailbox
  }

  function ActionOf(s: Scope, c: Class): Action {
    if c == SupersededProposal || c == MissingTarget || c == TerminalTarget then Dismiss
    else if (c == CompleteJournal || c == CompleteMailbox) && c in s.classes then Archive
    else Preserve
  }

  ghost function ItemOf(dg: Digest, s: Scope, log: map<string, Seen>, p: string): Item
    requires p in log
  {
    var e, c := log[p].event, Classify(s, log, log[p]);
    Item(e.id, e.kind, e.actor, e.about, p, c, ActionOf(s, c), |log[p].raw|, dg.sum(log[p].raw))
  }

  function HoleItem(p: string, raw: string): Item { Item("", "", "", "", p, UnknownUnreadable, Preserve, |raw|, "") }

  /** The items of a plan, by their logical path, which is the order they are kept in. */
  ghost function Items(dg: Digest, s: Scope, t: Tree): map<string, Item> {
    var log, holes := Log(dg, t), Holes(dg, t);
    map p | p in log.Keys + holes.Keys && (p in holes || Scoped(s, log[p].event))
      :: if p in holes then HoleItem(p, holes[p]) else ItemOf(dg, s, log, p)
  }

  // ---------------------------------------------------------------- what the plan depends on

  /** The class is decided before the dismissal flag is looked at. */
  ghost predicate FlagFree(s: Scope, log: map<string, Seen>, e: Event) {
    || Referenced(log, e.id) || ContestedBy(log, e, Peers(s, log, e.about)) || Superseded(s, log, e)
    || e.applied || IsJournal(e.kind) || e.about !in s.tasks || s.tasks[e.about]
  }

  /** The same events except for new dismissals and flags nothing depends on. */
  ghost predicate SameToPlan(s: Scope, a: map<string, Seen>, b: map<string, Seen>) {
    && (forall p | p in a :: p in b && b[p].event == a[p].event && b[p].raw == a[p].raw)
    && (forall p | p in b && p !in a :: b[p].event.kind == DISMISSAL)
    && (forall p | p in a && Scoped(s, a[p].event) :: b[p].dismissed == a[p].dismissed || FlagFree(s, a, a[p].event))
  }

  lemma SamePeers(s: Scope, a: map<string, Seen>, b: map<string, Seen>, target: string)
    requires SameToPlan(s, a, b)
    ensures Peers(s, b, target) == Peers(s, a, target)
  {
    hide FlagFree;
  }

  lemma SameReferenced(s: Scope, a: map<string, Seen>, b: map<string, Seen>, id: string)
    requires SameToPlan(s, a, b)
    ensures Referenced(b, id) <==> Referenced(a, id)
  {
    hide FlagFree;
  }

  lemma SameContested(s: Scope, a: map<string, Seen>, b: map<string, Seen>, e: Event, peers: set<string>)
    requires SameToPlan(s, a, b) && forall p | p in peers :: p in a
    ensures ContestedBy(b, e, peers) <==> ContestedBy(a, e, peers)
  {
    hide FlagFree, Exclusive;
    var rivals := set p | p in peers && Exclusive(a[p].event.kind);
    assert rivals == set p | p in peers && Exclusive(b[p].event.kind);
    assert (set p | p in rivals :: a[p].event.kind) == set p | p in rivals :: b[p].event.kind;
    assert (set p | p in rivals :: a[p].event.actor) == set p | p in rivals :: b[p].event.actor;
  }

  lemma SameSuperseded(s: Scope, a: map<string, Seen>, b: map<string, Seen>, e: Event)
    requires SameToPlan(s, a, b)
    ensures Superseded(s, b, e) <==> Superseded(s, a, e)
  {
    SamePeers(s, a, b, e.about);
    hide FlagFree, CanonicalJson.Below;
  }

  lemma SameClass(s: Scope, a: map<string, Seen>, b: map<string, Seen>, p: string)
    requires SameToPlan(s, a, b) && p in a && Scoped(s, a[p].event)
    ensures Classify(s, b, b[p]) == Classify(s, a, a[p])
  {
    var e := a[p].event;
    SamePeers(s, a, b, e.about);
    SameReferenced(s, a, b, e.id);
    SameContested(s, a, b, e, Peers(s, a, e.about));
    SameSuperseded(s, a, b, e);
    hide Referenced, ContestedBy, Superseded, Peers, Scoped;
  }

  /** Two trees with the same log, up to dismissals, and the same holes have the same plan. */
  lemma SameItems(dg: Digest, s: Scope, t: Tree, u: Tree)
    requires SameToPlan(s, Log(dg, t), Log(dg, u)) && Holes(dg, u) == Holes(dg, t)
    ensures Items(dg, s, u) == Items(dg, s, t)
  {
    var a, b := Log(dg, t), Log(dg, u);
    hide Log, Holes, Classify, FlagFree;
    forall p | p in a && Scoped(s, a[p].event)
        ensures ItemOf(dg, s, b, p) == ItemOf(dg, s, a, p) { SameClass(s, a, b, p); }
    hide ItemOf;
    assert forall p | p in b && Scoped(s, b[p].event) :: p in a;
  }

  // ---------------------------------------------------------------- one dismissal

  /** A new file under events/ with a valid dismissal of `id`. */
  ghost predicate NewDismissal(dg: Digest, t: Tree, p: string, raw: string, id: string) {
    p !in Paths(t) && Dismisses(dg, raw) == Some(id)
  }

  function WithFile(t: Tree, p: string, raw: string): Tree { t.(live := t.live[p := raw]) }

  lemma DismissalReads(dg: Digest, raw: string, id: string)
    requires Dismisses(dg, raw) == Some(id)
    ensures ReadEvent(dg, raw).Some? && ReadEvent(dg, raw).value.kind == DISMISSAL
        && ReadEvent(dg, raw).value.about == id
  {
    DismissesIs(dg, raw);
    hide ReadEvent, Dismisses;
  }

  lemma DismissalFlags(dg: Digest, t: Tree, p: string, raw: string, id: string, q: string, x: string)
    requires NewDismissal(dg, t, p, raw, id) && q in Paths(t)
    ensures Flagged(dg, t, q, x) ==> Flagged(dg, WithFile(t, p, raw), q, x)
    ensures Flagged(dg, WithFile(t, p, raw), q, x) ==> Flagged(dg, t, q, x) || x == id
  {
    hide Dismisses, CanonicalJson.Below;
    var u := WithFile(t, p, raw);
    assert forall r | r in Paths(t) ::
        r in Paths(u) && RawAt(u, r) == RawAt(t, r) && (AtOrBefore(u, r, q) <==> AtOrBefore(t, r, q));
    assert RawAt(u, p) == raw;
    if Flagged(dg, t, q, x) {
      var r :| r in Paths(t) && AtOrBefore(t, r, q) && Dismisses(dg, RawAt(t, r)) == Some(x);
      assert r in Paths(u) && AtOrBefore(u, r, q);
    }
    if Flagged(dg, u, q, x) && x != id {
      var r :| r in Paths(u) && AtOrBefore(u, r, q) && Dismisses(dg, RawAt(u, r)) == Some(x);
      assert r in Paths(t) && AtOrBefore(t, r, q);
    }
  }

  /** Event ids are distinct. */
  ghost predicate DistinctIds(log: map<string, Seen>) {
    forall p, q | p in log && q in log && p != q :: log[p].event.id != log[q].event.id
  }

  lemma LogAt(dg: Digest, t: Tree, p: string)
    requires p in Paths(t)
    ensures p in Log(dg, t) <==> ReadEvent(dg, RawAt(t, p)).Some?
    ensures p in Log(dg, t) ==>
      var e := ReadEvent(dg, RawAt(t, p)).value;
      Log(dg, t)[p] == Seen(e, RawAt(t, p), Flagged(dg, t, p, e.id))
    ensures p in Holes(dg, t) <==> p !in Log(dg, t)
    ensures p in Holes(dg, t) ==> Holes(dg, t)[p] == RawAt(t, p)
  {
    hide ReadEvent, Flagged;
  }

  lemma LogDomain(dg: Digest, t: Tree)
    ensures Log(dg, t).Keys <= Paths(t) && Holes(dg, t).Keys <= Paths(t)
  {
    hide ReadEvent, Flagged;
  }

  /** A path that reads the same in two trees; its flag may only have been raised, and
      only when `mayRaise`. */
  ghost predicate ReadsSame(dg: Digest, t: Tree, u: Tree, q: string, mayRaise: bool) {
    var a, b := Log(dg, t), Log(dg, u);
    && (q in a <==> q in b) && (q in Holes(dg, t) <==> q in Holes(dg, u))
    && (q in Holes(dg, t) ==> Holes(dg, u)[q] == Holes(dg, t)[q])
    && (q in a ==> SameSeen(a[q], b[q], mayRaise))
  }

  predicate SameSeen(x: Seen, y: Seen, mayRaise: bool) {
    y.event == x.event && y.raw == x.raw && (x.dismissed ==> y.dismissed) && (y.dismissed ==> x.dismissed || mayRaise)
  }

  lemma ReadsSameWhen(dg: Digest, t: Tree, u: Tree, q: string, mayRaise: bool)
    requires q in Paths(t) && q in Paths(u) && RawAt(u, q) == RawAt(t, q)
    requires var e := ReadEvent(dg, RawAt(t, q));
      e.Some? ==>
        && (Flagged(dg, t, q, e.value.id) ==> Flagged(dg, u, q, e.value.id))
        && (Flagged(dg, u, q, e.value.id) ==> Flagged(dg, t, q, e.value.id) || mayRaise)
    ensures ReadsSame(dg, t, u, q, mayRaise)
  {
    hide Log, Holes, ReadEvent, Flagged, RawAt, Paths;
    LogAt(dg, t, q);
    LogAt(dg, u, q);
  }

  /** What a step leaves of the log: `more` are the paths it adds. */
  ghost predicate StepLog(a: map<string, Seen>, b: map<string, Seen>, more: set<string>) {
    b.Keys == a.Keys + more && a.Keys !! more && forall q | q in a :: SameSeen(a[q], b[q], true)
  }

  lemma DismissalAt(dg: Digest, t: Tree, p: string, raw: string, id: string, q: string)
    requires NewDismissal(dg, t, p, raw, id) && q in Paths(t)
    ensures ReadsSame(dg, t, WithFile(t, p, raw), q, ReadEvent(dg, RawAt(t, q)).Some?
        && ReadEvent(dg, RawAt(t, q)).value.id == id)
  {
    var e := ReadEvent(dg, RawAt(t, q));
    if e.Some? { DismissalFlags(dg, t, p, raw, id, q, e.value.id); }
    hide ReadEvent, Flagged, ReadsSame, Dismisses;
    ReadsSameWhen(dg, t, WithFile(t, p, raw), q, e.Some? && e.value.id == id);
  }

  /** The log with one more dismissal. */
  lemma DismissalLog(dg: Digest, t: Tree, p: string, raw: string, id: string)
    requires NewDismissal(dg, t, p, raw, id)
    ensures var a, b := Log(dg, t), Log(dg, WithFile(t, p, raw));
      && StepLog(a, b, {p}) && b[p].event.kind == DISMISSAL && b[p].event.about == id
      && Holes(dg, WithFile(t, p, raw)) == Holes(dg, t)
      && (forall q | q in a :: SameSeen(a[q], b[q], a[q].event.id == id))
  {
    hide *;
    var u := WithFile(t, p, raw);
    NewPaths(dg, t, p, raw, id);
    DismissalReads(dg, raw, id);
    LogDomain(dg, t);
    LogDomain(dg, u);
    LogAt(dg, u, p);
    forall q | q in Paths(t)
        ensures SameKeys(dg, t, u, q)
        && (q in Log(dg, t)
        ==> q in Log(dg, u) && SameSeen(Log(dg, t)[q], Log(dg, u)[q], Log(dg, t)[q].event.id == id)) {
      DismissalAt(dg, t, p, raw, id, q);
      LogAt(dg, t, q);
      ReadsSameParts(dg, t, u, q, ReadEvent(dg, RawAt(t, q)).Some? && ReadEvent(dg, RawAt(t, q)).value.id == id);
    }
    StepFits(dg, t, u, {p});
  }

  ghost predicate SameKeys(dg: Digest, t: Tree, u: Tree, q: string) {
    var a, b := Log(dg, t), Log(dg, u);
    && (q in a <==> q in b) && (q in Holes(dg, t) <==> q in Holes(dg, u))
    && (q in Holes(dg, t) ==> Holes(dg, u)[q] == Holes(dg, t)[q])
    && (q in a ==> SameSeen(a[q], b[q], true))
  }

  lemma ReadsSameParts(dg: Digest, t: Tree, u: Tree, q: string, mayRaise: bool)
    requires ReadsSame(dg, t, u, q, mayRaise)
    ensures SameKeys(dg, t, u, q)
        && (q in Log(dg, t) ==> q in Log(dg, u) && SameSeen(Log(dg, t)[q], Log(dg, u)[q], mayRaise))
  {
    hide Log, Holes;
  }

  lemma NewPaths(dg: Digest, t: Tree, p: string, raw: string, id: string)
    requires NewDismissal(dg, t, p, raw, id)
    ensures p !in Paths(t) && Paths(WithFile(t, p, raw)) == Paths(t) + {p} && RawAt(WithFile(t, p, raw), p) == raw
        && Dismisses(dg, raw) == Some(id)
  {
    hide Dismisses;
  }

  lemma StepFits(dg: Digest, t: Tree, u: Tree, more: set<string>)
    requires Log(dg, t).Keys <= Paths(t) && Holes(dg, t).Keys <= Paths(t) && Log(dg, u).Keys <= Paths(u)
        && Holes(dg, u).Keys <= Paths(u)
    requires Paths(u) == Paths(t) + more && Paths(t) !! more
        && (forall q | q in more :: q in Log(dg, u) && q !in Holes(dg, u))
    requires forall q | q in Paths(t) :: SameKeys(dg, t, u, q)
    ensures StepLog(Log(dg, t), Log(dg, u), more) && Holes(dg, u) == Holes(dg, t)
  {
    hide Log, Holes, SameSeen, Paths;
    var a, b := Log(dg, t), Log(dg, u);
    assert forall q | q in a :: q in Paths(t) && SameKeys(dg, t, u, q);
    assert forall q | q in b :: q in Paths(t) || q in more;
    assert forall q | q in Paths(t) :: SameKeys(dg, t, u, q);
    assert b.Keys == a.Keys + more;
    assert Holes(dg, u).Keys == Holes(dg, t).Keys;
  }

  /** Dismissing an item of the plan leaves the plan as it is. */
  lemma DismissalKeepsPlan(dg: Digest, s: Scope, t: Tree, p: string, raw: string, x: string)
    requires DistinctIds(Log(dg, t)) && x in Items(dg, s, t) && Items(dg, s, t)[x].action == Dismiss
    requires NewDismissal(dg, t, p, raw, Items(dg, s, t)[x].id)
    ensures Items(dg, s, WithFile(t, p, raw)) == Items(dg, s, t)
  {
    hide *;
    var a, b := Log(dg, t), Log(dg, WithFile(t, p, raw));
    DismissalLog(dg, t, p, raw, Items(dg, s, t)[x].id);
    DismissFree(dg, s, t, x);
    DismissalSame(s, a, b, p, x);
    SameItems(dg, s, t, WithFile(t, p, raw));
  }

  lemma DismissalSame(s: Scope, a: map<string, Seen>, b: map<string, Seen>, p: string, x: string)
    requires StepLog(a, b, {p}) && b[p].event.kind == DISMISSAL && x in a && FlagFree(s, a, a[x].event)
        && DistinctIds(a)
    requires forall q | q in a :: SameSeen(a[q], b[q], a[q].event.id == a[x].event.id)
    ensures SameToPlan(s, a, b)
  {
    hide FlagFree, Scoped;
    forall q | q in a ensures b[q].dismissed == a[q].dismissed || FlagFree(s, a, a[q].event) {
      assert SameSeen(a[q], b[q], a[q].event.id == a[x].event.id);
      assert a[q].event.id == a[x].event.id ==> q == x;
    }
  }

  lemma SameId(a: map<string, Seen>, p: string, q: string)
    requires DistinctIds(a) && p in a && q in a && a[p].event.id == a[q].event.id
    ensures p == q
  {}

  /** The class of an item to be dismissed does not depend on its flag. */
  lemma DismissFree(dg: Digest, s: Scope, t: Tree, x: string)
    requires x in Items(dg, s, t) && Items(dg, s, t)[x].action == Dismiss
    ensures var a := Log(dg, t);
        x in a && Items(dg, s, t)[x].id == a[x].event.id && FlagFree(s, a, a[x].event) && !a[x].event.applied
  {
    hide Log, Holes, Referenced, ContestedBy, Peers, Exclusive;
  }

  // ---------------------------------------------------------------- one archive move

  function Moved(t: Tree, p: string): Tree
    requires p in t.live
  {
    Tree(t.live - {p}, t.archive[p := t.live[p]])
  }

  lemma MovedFlags(dg: Digest, t: Tree, p: string, q: string, x: string)
    requires Disjoint(t) && p in t.live && Dismisses(dg, t.live[p]).None? && q in Paths(t)
    ensures Flagged(dg, t, q, x) ==> Flagged(dg, Moved(t, p), q, x)
    ensures q != p ==> (Flagged(dg, Moved(t, p), q, x) <==> Flagged(dg, t, q, x))
  {
    hide Dismisses, CanonicalJson.Below;
    var u := Moved(t, p);
    assert forall r | r in Paths(t) :: r in Paths(u) && RawAt(u, r) == RawAt(t, r);
    if Flagged(dg, t, q, x) {
      var r :| r in Paths(t) && AtOrBefore(t, r, q) && Dismisses(dg, RawAt(t, r)) == Some(x);
      assert r in Paths(u) && AtOrBefore(u, r, q);
    }
    if q != p && Flagged(dg, u, q, x) {
      var r :| r in Paths(u) && AtOrBefore(u, r, q) && Dismisses(dg, RawAt(u, r)) == Some(x);
      assert r in Paths(t) && AtOrBefore(t, r, q);
    }
  }

  /** The log after one file has moved: at most that file's flag was raised. */
  lemma MovedLog(dg: Digest, t: Tree, p: string)
    requires Disjoint(t) && p in t.live && Dismisses(dg, t.live[p]).None?
    ensures var a, b := Log(dg, t), Log(dg, Moved(t, p));
      && StepLog(a, b, {}) && Holes(dg, Moved(t, p)) == Holes(dg, t)
      && (forall q | q in a :: SameSeen(a[q], b[q], q == p))
  {
    hide *;
    var u := Moved(t, p);
    MovedPaths(t, p);
    LogDomain(dg, t);
    LogDomain(dg, u);
    forall q | q in Paths(t)
        ensures SameKeys(dg, t, u, q)
        && (q in Log(dg, t) ==> q in Log(dg, u) && SameSeen(Log(dg, t)[q], Log(dg, u)[q], q == p)) {
      MovedAt(dg, t, p, q);
      ReadsSameParts(dg, t, u, q, q == p);
    }
    StepFits(dg, t, u, {});
  }

  lemma MovedPaths(t: Tree, p: string)
    requires p in t.live
    ensures Paths(Moved(t, p)) == Paths(t) + {} && Paths(t) !! {}
  {}

  lemma MovedAt(dg: Digest, t: Tree, p: string, q: string)
    requires Disjoint(t) && p in t.live && Dismisses(dg, t.live[p]).None? && q in Paths(t)
    ensures ReadsSame(dg, t, Moved(t, p), q, q == p)
  {
    var e := ReadEvent(dg, RawAt(t, q));
    if e.Some? { MovedFlags(dg, t, p, q, e.value.id); }
    hide ReadEvent, Flagged, ReadsSame, Dismisses;
    ReadsSameWhen(dg, t, Moved(t, p), q, q == p);
  }

  /** Archiving an item of the plan leaves the plan as it is. */
  lemma MoveKeepsPlan(dg: Digest, s: Scope, t: Tree, p: string)
    requires Disjoint(t) && p in t.live && p in Items(dg, s, t) && Items(dg, s, t)[p].action == Archive
    ensures Items(dg, s, Moved(t, p)) == Items(dg, s, t) && Dismisses(dg, t.live[p]).None?
  {
    hide *;
    var a, b := Log(dg, t), Log(dg, Moved(t, p));
    ArchiveFree(dg, s, t, p);
    ArchiveNot(dg, s, t, p);
    MovedLog(dg, t, p);
    MovedSame(s, a, b, p);
    SameItems(dg, s, t, Moved(t, p));
  }

  lemma MovedSame(s: Scope, a: map<string, Seen>, b: map<string, Seen>, p: string)
    requires StepLog(a, b, {}) && p in a && (a[p].dismissed || FlagFree(s, a, a[p].event))
    requires forall q | q in a :: SameSeen(a[q], b[q], q == p)
    ensures SameToPlan(s, a, b)
  {
    hide FlagFree, Scoped;
    forall q | q in a ensures b[q].dismissed == a[q].dismissed || FlagFree(s, a, a[q].event) {
      assert SameSeen(a[q], b[q], q == p);
    }
  }

  lemma ArchiveFree(dg: Digest, s: Scope, t: Tree, p: string)
    requires p in Items(dg, s, t) && Items(dg, s, t)[p].action == Archive
    ensures var a := Log(dg, t);
        p in a && (a[p].dismissed || FlagFree(s, a, a[p].event)) && a[p].event.kind != DISMISSAL
  {
    hide Log, Holes, Referenced, ContestedBy, Superseded, IsJournal;
  }

  lemma ArchiveNot(dg: Digest, s: Scope, t: Tree, p: string)
    requires p in t.live && p in Log(dg, t) && Log(dg, t)[p].event.kind != DISMISSAL
    ensures Dismisses(dg, t.live[p]).None?
  {
    LogAt(dg, t, p);
    DismissesIs(dg, t.live[p]);
    hide Log, Flagged, ReadEvent, Dismisses;
  }
}
