/** What Open computes from a disk: it re-establishes the invariant whatever keys
    are configured, it is the in-memory state with the pending envelope applied,
    and doing it twice changes nothing. */
module SyncRecovery {
  import opened Wrappers
  import opened Envelopes
  import opened SyncState
  import opened SyncInbound

  // ---------------------------------------------------------------- seen lists

  lemma {:induction false} AppendNewHas(list: seq<string>, more: seq<string>)
    ensures forall x :: x in AppendNew(list, more) <==> x in list || x in more
    decreases |more|
  {
    if more != [] {
      var head := if more[0] in list then list else list + [more[0]];
      AppendNewHas(head, more[1..]);
      forall x ensures x in AppendNew(list, more) <==> x in list || x in more {
        assert x in more <==> x == more[0] || x in more[1..];
        assert x in head <==> x in list || x == more[0];
      }
    }
  }

  /** Only one element of `more` can be missing from the list: it is appended, and
      where in `more` it stands does not matter. */
  lemma {:induction false} AppendNewOne(list: seq<string>, more: seq<string>, x: string)
    requires forall y | y in more :: y in list || y == x
    ensures AppendNew(list, more) == if x in more && x !in list then list + [x] else list
    decreases |more|
  {
    if more != [] {
      var head := if more[0] in list then list else list + [more[0]];
      assert more == [more[0]] + more[1..];
      AppendNewOne(head, more[1..], x);
    }
  }

  lemma IdsHave(rows: seq<Envelope>)
    ensures forall x :: x in Ids(rows) <==> exists e :: e in rows && e.id == x
    ensures forall x :: x in Keys(rows) <==> exists e :: e in rows && e.key == x
  {
    forall x ensures x in Ids(rows) <==> exists e :: e in rows && e.id == x {
      assert forall i | 0 <= i < |rows| :: Ids(rows)[i] == rows[i].id;
      if e :| e in rows && e.id == x { var i :| 0 <= i < |rows| && rows[i] == e; assert Ids(rows)[i] == x; }
    }
    forall x ensures x in Keys(rows) <==> exists e :: e in rows && e.key == x {
      assert forall i | 0 <= i < |rows| :: Keys(rows)[i] == rows[i].key;
      if e :| e in rows && e.key == x { var i :| 0 <= i < |rows| && rows[i] == e; assert Keys(rows)[i] == x; }
    }
  }

  lemma RebuiltLists(cfg: Config, st: State, inbox: map<string, Envelope>)
    ensures var c := RebuiltState(cfg, st, inbox).cursor;
      && (forall x :: x in c.seenIds <==> x in st.cursor.seenIds || exists e :: e in inbox.Values && e.id == x)
      && (forall x :: x in c.seenKeys <==> x in st.cursor.seenKeys || exists e :: e in inbox.Values && e.key == x)
  {
    hide Listing, AppendNew, Ids, Keys, RebuiltStreams, Distrusted, Frontier;
    var rows := Listing(inbox);
    IdsHave(rows);
    AppendNewHas(st.cursor.seenIds, Ids(rows));
    AppendNewHas(st.cursor.seenKeys, Keys(rows));
  }

  // ---------------------------------------------------------------- streams

  lemma JoinedCovers(prior: Stream, done: set<Envelope>, open: set<Envelope>, rows: set<Envelope>, s: StreamId)
    requires Covers(prior, Seqs(done, s)) && open <= rows <= done + open
    requires forall u | u in open :: u.seqno >= 1 && forall f | f in done :: SeqId(f) != SeqId(u)
    ensures Covers(prior.(gaps := prior.gaps + RowGaps(rows, s, prior.last)), Seqs(done + open, s))
  {
    var joined := prior.(gaps := prior.gaps + RowGaps(rows, s, prior.last));
    forall n: nat ensures Reserves(joined, n) <==> n in Seqs(done + open, s) {
      assert n in Seqs(done + open, s) <==> n in Seqs(done, s) || n in Seqs(open, s);
      assert Reserves(prior, n) <==> n in Seqs(done, s);
      if n in Seqs(open, s) {
        var u :| u in open && Sid(u) == s && u.seqno == n;
        assert n !in Seqs(done, s);
        assert n in RowGaps(rows, s, prior.last);
      }
    }
  }

  lemma RebuiltCovers(cfg: Config, st: State, done: set<Envelope>, open: set<Envelope>, rows: set<Envelope>,
      s: StreamId)
    requires Covers(StreamOf(st.streams, s), Seqs(done, s)) && open <= rows <= done + open
    requires forall u | u in open :: u.seqno >= 1 && forall f | f in done :: SeqId(f) != SeqId(u)
    requires s in st.streams ==> OnRoute(cfg, s)
    ensures Covers(StreamOf(RebuiltStreams(cfg, st, rows), s), Seqs(done + open, s))
  {
    var prior := StreamOf(st.streams, s);
    var joined := prior.(gaps := prior.gaps + RowGaps(rows, s, prior.last));
    JoinedCovers(prior, done, open, rows, s);
    SettleKeeps(joined);
    hide Settle, RowGaps, OnRoute, Distrusted, Covers;
    if s in RebuiltStreams(cfg, st, rows) {
      SettleCovers(joined, Seqs(done + open, s));
    } else {
      NoGaps(rows, s, prior.last);
      assert forall e | e in rows :: Sid(e) != s;
    }
  }

  lemma SettleCovers(s: Stream, seqs: set<nat>)
    requires Covers(s, seqs)
    ensures Covers(Settle(s), seqs)
  {
    SettleKeeps(s);
    hide Settle, Reserves;
  }

  lemma NoGaps(rows: set<Envelope>, s: StreamId, last: nat)
    ensures (forall e | e in rows :: Sid(e) != s) ==> RowGaps(rows, s, last) == {}
  {}

  lemma RebuiltShapes(cfg: Config, st: State, rows: set<Envelope>)
    requires Shapes(cfg, st) && forall e | e in rows :: OnRoute(cfg, Sid(e))
    ensures var untrusted := Distrusted(cfg, st, rows); var streams := RebuiltStreams(cfg, st, rows);
      && (forall s | s in streams :: OnRoute(cfg, s) && (s !in untrusted ==> Settled(streams[s])))
      && (forall s | s in untrusted :: OnRoute(cfg, s))
      && (forall s | s in st.untrusted :: s in untrusted)
  {
    var untrusted, streams := Distrusted(cfg, st, rows), RebuiltStreams(cfg, st, rows);
    hide Settle, Settled, RowGaps;
    forall s | s in streams && s !in untrusted ensures Settled(streams[s]) {
      assert s !in st.untrusted;
      StreamSettled(cfg, st, s);
      JoinedSettles(StreamOf(st.streams, s), rows, s);
    }
  }

  lemma JoinedSettles(prior: Stream, rows: set<Envelope>, s: StreamId)
    requires Settled(prior)
    ensures Settled(Settle(prior.(gaps := prior.gaps + RowGaps(rows, s, prior.last))))
  {
    SettleKeeps(prior.(gaps := prior.gaps + RowGaps(rows, s, prior.last)));
    hide Settle;
  }

  // ---------------------------------------------------------------- Open re-establishes the invariant

  lemma RebuiltInv(cfg: Config, d: Disk, done: set<Envelope>, open: set<Envelope>)
    requires DiskInv(cfg, d, done, open)
    ensures StateInv(cfg, View(RebuiltState(cfg, Loaded(cfg, d), d.inbox)), done + open, {})
  {
    hide *;
    var st, rows := Loaded(cfg, d), d.inbox.Values;
    var after := RebuiltState(cfg, st, d.inbox);
    DiskParts(cfg, d, done, open);
    StateParts(cfg, Base(cfg, d), done, open);
    BaseParts(cfg, d);
    RowsOf(cfg, d, done, open);
    forall s ensures Covers(StreamOf(RebuiltStreams(cfg, st, rows), s), Seqs(done + open, s)) {
      SummaryAt(cfg, Base(cfg, d), done, s);
      RebuiltCovers(cfg, st, done, open, rows, s);
    }
    ShapesView(cfg, st);
    RebuiltShapes(cfg, st, rows);
    RebuiltLists(cfg, st, d.inbox);
    RebuiltParts(cfg, st, d.inbox);
    RowFactsDepend(cfg, Base(cfg, d), View(after), done + open);
    RebuiltFits(cfg, st, d.inbox, done, open);
  }

  lemma BaseParts(cfg: Config, d: Disk)
    ensures Base(cfg, d) == View(Loaded(cfg, d))
    ensures View(Loaded(cfg, d)).streams == Loaded(cfg, d).streams
        && View(Loaded(cfg, d)).cursor == Loaded(cfg, d).cursor
    ensures Loaded(cfg, d).cursor.minSchema != 0 && Loaded(cfg, d).cursor.maxSchema != 0
  {}

  lemma ShapesView(cfg: Config, st: State)
    ensures Shapes(cfg, View(st)) <==> Shapes(cfg, st)
  {
    hide OnRoute, Settled;
  }

  lemma SummaryAt(cfg: Config, st: State, done: set<Envelope>, s: StreamId)
    requires Summaries(st, done) && Shapes(cfg, st)
    ensures Covers(StreamOf(st.streams, s), Seqs(done, s)) && (s in st.streams ==> OnRoute(cfg, s))
  {
    hide Covers, OnRoute, Settled;
  }

  /** What the invariant says of the retained rows. */
  lemma RowsOf(cfg: Config, d: Disk, done: set<Envelope>, open: set<Envelope>)
    requires DiskInv(cfg, d, done, open)
    ensures open <= d.inbox.Values <= done + open
    ensures forall e | e in done + open :: OnRoute(cfg, Sid(e)) && e.seqno >= 1
    ensures forall u, f | u in open && f in done :: SeqId(f) != SeqId(u)
    ensures forall id | id in d.inbox :: d.inbox[id].id == id
  {
    hide Summaries, Shapes, CursorTracks, Listed, Canonical, Loaded, SeqId;
    forall u | u in open ensures u in d.inbox.Values { assert d.inbox[u.id] == u; }
    assert forall e | e in done + open :: RowFacts(cfg, Base(cfg, d), e);
  }

  lemma RebuiltParts(cfg: Config, st: State, inbox: map<string, Envelope>)
    ensures var after := View(RebuiltState(cfg, st, inbox));
      && after.streams == RebuiltStreams(cfg, st, inbox.Values) && after.untrusted == Distrusted(cfg, st, inbox.Values)
      && after.cursor.minSchema == st.cursor.minSchema && after.cursor.maxSchema == st.cursor.maxSchema
      && after.cursor.seenIds == RebuiltState(cfg, st, inbox).cursor.seenIds
      && after.cursor.seenKeys == RebuiltState(cfg, st, inbox).cursor.seenKeys
      && CursorTracks(after)
  {
    hide RebuiltStreams, Distrusted, Frontier, Listing, AppendNew;
  }

  lemma RebuiltFits(cfg: Config, st: State, inbox: map<string, Envelope>, done: set<Envelope>, open: set<Envelope>)
    requires forall s :: Covers(StreamOf(RebuiltStreams(cfg, st, inbox.Values), s), Seqs(done + open, s))
    requires var after := View(RebuiltState(cfg, st, inbox));
      && after.streams == RebuiltStreams(cfg, st, inbox.Values) && after.untrusted == Distrusted(cfg, st, inbox.Values)
      && CursorTracks(after)
      && (forall x :: x in after.cursor.seenIds <==> x in st.cursor.seenIds || exists e ::
          e in inbox.Values && e.id == x)
      && (forall x :: x in after.cursor.seenKeys <==> x in st.cursor.seenKeys || exists e ::
          e in inbox.Values && e.key == x)
      && (forall e | e in done + open :: RowFacts(cfg, after, e))
      && (forall s | s in after.streams :: OnRoute(cfg, s) && (s !in after.untrusted ==> Settled(after.streams[s])))
      && (forall s | s in after.untrusted :: OnRoute(cfg, s))
    requires Listed(View(st), done, open) && open <= inbox.Values
    ensures StateInv(cfg, View(RebuiltState(cfg, st, inbox)), done + open, {})
  {
    hide RebuiltStreams, Distrusted, RebuiltState, CursorTracks, RowFacts, OnRoute, Settled, Covers, Seqs;
  }

  lemma OpenedIndexes(cfg: Config, st: State, inbox: map<string, Envelope>, all: set<Envelope>)
    requires inbox.Values <= all && forall id | id in inbox :: inbox[id].id == id
    ensures Indexes(Opened(cfg, st, inbox), inbox, all) && PendingIs(Opened(cfg, st, inbox), {})
  {
    hide *;
    RowIndexes(inbox, all);
    OpenedMaps(cfg, st, inbox);
    RowIndexesFit(Opened(cfg, st, inbox), inbox, all);
    NothingPending(Opened(cfg, st, inbox));
  }

  lemma OpenedMaps(cfg: Config, st: State, inbox: map<string, Envelope>)
    ensures var m := Opened(cfg, st, inbox);
      m.byId == inbox && m.byKey == ByKey(inbox.Values) && m.bySeq == BySeq(inbox.Values) && m.pending == map[]
          && !m.pendingSave
  {
    hide RebuiltState, ByKey, BySeq;
  }

  lemma RowIndexesFit(m: Memory, inbox: map<string, Envelope>, all: set<Envelope>)
    requires m.byId == inbox && inbox.Values <= all && forall id | id in inbox :: inbox[id].id == id
    requires forall e | e in inbox.Values :: e.key in m.byKey && SeqId(e) in m.bySeq
    requires forall k | k in m.byKey :: m.byKey[k].key == k && m.byKey[k] in all && m.byKey[k].id in inbox
    requires forall q | q in m.bySeq :: SeqId(m.bySeq[q]) == q && m.bySeq[q] in all && m.bySeq[q].id in inbox
    ensures Indexes(m, inbox, all)
  {
    hide SeqId, IdIndex, KeyIndex, SeqIndex;
    IdIndexFits(m, inbox, all);
    assert KeyIndex(m, all) by { KeyIndexFits(m, all); }
    assert SeqIndex(m, all) by { SeqIndexFits(m, all); }
  }

  lemma IdIndexFits(m: Memory, inbox: map<string, Envelope>, all: set<Envelope>)
    requires m.byId == inbox && inbox.Values <= all && forall id | id in inbox :: inbox[id].id == id
    requires forall e | e in inbox.Values :: e.key in m.byKey && SeqId(e) in m.bySeq
    ensures IdIndex(m, all)
  {
    hide SeqId;
    assert forall id | id in inbox :: inbox[id] in inbox.Values;
  }

  lemma KeyIndexFits(m: Memory, all: set<Envelope>)
    requires forall k | k in m.byKey :: m.byKey[k].key == k && m.byKey[k] in all && m.byKey[k].id in m.byId
    ensures KeyIndex(m, all)
  {}

  lemma SeqIndexFits(m: Memory, all: set<Envelope>)
    requires forall q | q in m.bySeq :: SeqId(m.bySeq[q]) == q && m.bySeq[q] in all && m.bySeq[q].id in m.byId
    ensures SeqIndex(m, all)
  {}

  lemma RowIndexes(inbox: map<string, Envelope>, all: set<Envelope>)
    requires inbox.Values <= all && forall id | id in inbox :: inbox[id].id == id
    ensures var byKey, bySeq := ByKey(inbox.Values), BySeq(inbox.Values);
      && (forall e | e in inbox.Values :: e.key in byKey && SeqId(e) in bySeq)
      && (forall k | k in byKey :: byKey[k].key == k && byKey[k] in all && byKey[k].id in inbox)
      && (forall q | q in bySeq :: SeqId(bySeq[q]) == q && bySeq[q] in all && bySeq[q].id in inbox)
  {
    hide SeqId;
    assert forall e | e in inbox.Values :: e.id in inbox;
  }

  lemma OpenedReserves(cfg: Config, st: State, inbox: map<string, Envelope>)
    requires forall id | id in inbox :: inbox[id].id == id
    ensures Reserved(Opened(cfg, st, inbox))
  {
    RebuiltLists(cfg, st, inbox);
    hide RebuiltState, RowByKey, BySeq;
    forall e | e in inbox.Values ensures e.id in inbox && e.key in ByKey(inbox.Values) {}
  }

  lemma OpenedKeys(cfg: Config, st: State, inbox: map<string, Envelope>)
    requires forall id | id in inbox :: OnRoute(cfg, Sid(inbox[id]))
    requires forall id | id in inbox :: inbox[id].keyId in cfg.trusted ==> Verify(cfg.prims, inbox[id], cfg.trusted)
    ensures KeysKnown(cfg, Opened(cfg, st, inbox), inbox, {})
  {
    hide Verify, RebuiltStreams, Distrusted, Opened, OnRoute;
    OpenedStreams(cfg, st, inbox);
    StreamsKnown(cfg, st, inbox.Values);
    assert forall id | id in inbox :: inbox[id] in inbox.Values;
  }

  lemma OpenedStreams(cfg: Config, st: State, inbox: map<string, Envelope>)
    ensures Opened(cfg, st, inbox).state.streams == RebuiltStreams(cfg, st, inbox.Values)
    ensures Opened(cfg, st, inbox).state.untrusted == Distrusted(cfg, st, inbox.Values)
  {
    hide RebuiltStreams, Distrusted, Listing, AppendNew, Frontier, ByKey, BySeq;
  }

  lemma StreamsKnown(cfg: Config, st: State, rows: set<Envelope>)
    ensures forall e | e in rows && e.keyId !in cfg.trusted :: Sid(e) in Distrusted(cfg, st, rows)
    ensures forall s | s in RebuiltStreams(cfg, st, rows) :: s.keyId in cfg.trusted || s in Distrusted(cfg, st, rows)
  {
    hide RebuiltStream, OnRoute;
  }

  lemma OpenedStep(cfg: Config, d: Disk, save: bool)
    requires Open(cfg, d, save).0.Some?
    ensures var (o, d') := Open(cfg, d, save);
      && o == Some(Opened(cfg, Loaded(cfg, d), d.inbox)) && InStep(cfg, o.value, d')
      && d'.inbox == d.inbox && d'.outbox == d.outbox && d'.state == Some(o.value.state)
      && Base(cfg, d') == View(o.value.state) == View(RebuiltState(cfg, Loaded(cfg, d), d.inbox))
      && OpenOk(cfg, d) && o.value.state == RebuiltState(cfg, Loaded(cfg, d), d.inbox)
  {
    hide OpenOk, RebuiltStreams, Distrusted, Frontier, Listing, AppendNew, ByKey, BySeq;
  }

  /** An Open that succeeds, under whatever keys, yields a client that has lost
      nothing: the row left unsaved by a failed save or a crash is accounted for. */
  lemma OpenKeeps(cfg: Config, d: Disk, done: set<Envelope>, open: set<Envelope>, save: bool)
    requires DiskInv(cfg, d, done, open) && Open(cfg, d, save).0.Some?
    ensures var (o, d') := Open(cfg, d, save);
      ClientInv(cfg, o.value, d', done + open, {}) && d'.inbox == d.inbox && d'.outbox == d.outbox
  {
    hide *;
    var (o, d') := Open(cfg, d, save);
    var st := Loaded(cfg, d);
    OpenedStep(cfg, d, save);
    DiskParts(cfg, d, done, open);
    RowsOf(cfg, d, done, open);
    RebuiltInv(cfg, d, done, open);
    OpenedIndexes(cfg, st, d.inbox, done + open);
    OpenedReserves(cfg, st, d.inbox);
    VerifiedRows(cfg, d);
    assert forall id | id in d.inbox :: d.inbox[id] in d.inbox.Values;
    OpenedKeys(cfg, st, d.inbox);
    RowsClose(d.inbox, done, open);
    DiskFits(cfg, d', done + open);
    assert done + open + {} == done + open;
    ClientFits(cfg, o.value, d', done + open, {});
  }

  lemma VerifiedRows(cfg: Config, d: Disk)
    requires OpenOk(cfg, d)
    ensures forall id | id in d.inbox ::
        d.inbox[id].keyId in cfg.trusted ==> Verify(cfg.prims, d.inbox[id], cfg.trusted)
  {
    hide Verify, Canonical, ValidFields, ProducerOk, Loaded, Distinct;
  }

  lemma RowsClose(inbox: map<string, Envelope>, done: set<Envelope>, open: set<Envelope>)
    requires Rows(inbox, done, open)
    ensures Rows(inbox, done + open, {})
  {}

  // ---------------------------------------------------------------- recovery

  /** The state of the client with its pending envelope applied. */
  ghost function Caught(m: Memory): State { ApplyPending(m.state, m.fallback, m.pending) }

  ghost predicate CaughtUp(cfg: Config, m: Memory, all: set<Envelope>, open: set<Envelope>) {
    var after := View(Caught(m));
    && StateInv(cfg, after, all, {})
    && after.untrusted == m.state.untrusted
    && after.streams.Keys == m.state.streams.Keys + (set u | u in open :: Sid(u))
    && (forall s | s in after.untrusted && s in after.streams ::
        s in m.state.streams && after.streams[s] == m.state.streams[s])
    && after.cursor == m.state.cursor.(last := after.cursor.last,
         seenIds := after.cursor.seenIds, seenKeys := after.cursor.seenKeys)
    && (after.streams == map[] ==> after.cursor.last == m.state.cursor.last)
    && (open == {}
        ==> after.cursor.seenIds == m.state.cursor.seenIds && after.cursor.seenKeys == m.state.cursor.seenKeys)
    && (forall u | u in open ::
        after.cursor.seenIds == m.state.cursor.seenIds + [u.id]
        && after.cursor.seenKeys == m.state.cursor.seenKeys + [u.key])
  }

  lemma CatchUp(cfg: Config, m: Memory, d: Disk, done: set<Envelope>, open: set<Envelope>)
    requires ClientInv(cfg, m, d, done, open)
    ensures CaughtUp(cfg, m, done + open, open)
  {
    hide *;
    ClientParts(cfg, m, d, done, open);
    OnePending(m, d, done, open);
    if u :| u in open {
      assert open == {u};
      CatchUpKeeps(cfg, m, d, done, u);
      CatchUpOne(cfg, m, done, u);
    } else {
      CatchUpNone(cfg, m, done);
      assert done + open == done;
    }
  }

  lemma CatchUpNone(cfg: Config, m: Memory, done: set<Envelope>)
    requires m.pending == map[] && StateInv(cfg, View(m.state), done, {})
    ensures CaughtUp(cfg, m, done, {})
  {
    hide StateInv;
    assert Caught(m) == m.state;
    assert (set u: Envelope | u in {} :: Sid(u)) == {};
  }

  lemma CatchUpKeeps(cfg: Config, m: Memory, d: Disk, done: set<Envelope>, u: Envelope)
    requires ClientInv(cfg, m, d, done, {u}) && m.pending == map[u.id := u]
    ensures var after := ApplyInbound(m.state, m.fallback, u);
      StateInv(cfg, View(after), done + {u}, {}) && Caught(m) == after && Sid(u) !in m.state.untrusted
      && after.streams != map[] && after.untrusted == m.state.untrusted
  {
    hide *;
    OpenApplies(cfg, m, d, done, u);
    ApplyKeeps(cfg, View(m.state), m.fallback, done, u);
    ApplyView(m.state, m.fallback, u);
    CaughtOne(m, u);
    ClientParts(cfg, m, d, done, {u});
    OpenTrusted(cfg, m, d.inbox, {u});
    assert u in {u};
  }

  lemma CaughtOne(m: Memory, u: Envelope)
    requires m.pending == map[u.id := u]
    ensures Caught(m) == ApplyInbound(m.state, m.fallback, u)
  {
    ApplyOnePending(m.state, m.fallback, u);
    hide ApplyPending, ApplyInbound;
  }

  lemma OpenTrusted(cfg: Config, m: Memory, inbox: map<string, Envelope>, open: set<Envelope>)
    requires KeysKnown(cfg, m, inbox, open)
    ensures forall e | e in open :: Sid(e) !in m.state.untrusted
  {
    hide Verify;
  }

  lemma CatchUpOne(cfg: Config, m: Memory, done: set<Envelope>, u: Envelope)
    requires var after := ApplyInbound(m.state, m.fallback, u);
      StateInv(cfg, View(after), done + {u}, {}) && Caught(m) == after && Sid(u) !in m.state.untrusted
      && after.streams != map[] && after.untrusted == m.state.untrusted
    ensures CaughtUp(cfg, m, done + {u}, {u})
  {
    hide StateInv, Settle;
    var after := ApplyInbound(m.state, m.fallback, u);
    assert (set v | v in {u} :: Sid(v)) == {Sid(u)};
  }

  /** The disk, re-opened under the same keys, gives exactly the streams, seen lists
      and cursor that the running client has once its pending envelope is applied.
      A crash between the row and the state loses nothing and invents nothing. */
  lemma RecoveryIsApplyingPending(cfg: Config, m: Memory, d: Disk, done: set<Envelope>, open: set<Envelope>)
    requires ClientInv(cfg, m, d, done, open)
    ensures View(RebuiltState(cfg, Loaded(cfg, d), d.inbox)) == View(Caught(m))
  {
    hide *;
    var st, all := Loaded(cfg, d), done + open;
    var rebuilt, caught := View(RebuiltState(cfg, st, d.inbox)), View(Caught(m));
    ClientParts(cfg, m, d, done, open);
    BaseParts(cfg, d);
    ViewOf(st);
    ViewOf(m.state);
    OnePending(m, d, done, open);
    OpenTrusted(cfg, m, d.inbox, open);
    CatchUp(cfg, m, d, done, open);
    CaughtUntrusted(cfg, m, all, open);
    RebuiltInv(cfg, d, done, open);
    RowsOf(cfg, d, done, open);
    RebuiltParts(cfg, st, d.inbox);
    StateParts(cfg, View(m.state), done, open);
    SameUntrusted(cfg, m, d.inbox, open, st);
    SameDomain(cfg, m, d.inbox, done, open, st);
    SameStreams(cfg, m, st, d.inbox, done, open);
    SameLists(cfg, m, st, d.inbox, done, open);
    SameCursor(cfg, m, st, d.inbox, all, open);
    SameView(RebuiltState(cfg, st, d.inbox), Caught(m));
  }

  lemma CaughtUntrusted(cfg: Config, m: Memory, all: set<Envelope>, open: set<Envelope>)
    requires CaughtUp(cfg, m, all, open)
    ensures View(Caught(m)).untrusted == m.state.untrusted
  {
    hide StateInv, Caught;
  }

  lemma ViewOf(st: State)
    ensures View(st).streams == st.streams && View(st).untrusted == st.untrusted && View(st).cursor == st.cursor
  {}

  lemma SameUntrusted(cfg: Config, m: Memory, inbox: map<string, Envelope>, open: set<Envelope>, st: State)
    requires KeysKnown(cfg, m, inbox, open) && Shapes(cfg, View(m.state))
    requires st.streams == m.state.streams && st.untrusted == m.state.untrusted
    ensures Distrusted(cfg, st, inbox.Values) == m.state.untrusted
  {
    hide Verify, OnRoute, Settled;
  }

  lemma SameDomain(cfg: Config, m: Memory, inbox: map<string, Envelope>, done: set<Envelope>, open: set<Envelope>,
      st: State)
    requires Shapes(cfg, View(m.state)) && Summaries(View(m.state), done) && open <= inbox.Values <= done + open
    requires forall e | e in done + open :: OnRoute(cfg, Sid(e)) && e.seqno >= 1
    requires st.streams == m.state.streams
    ensures RebuiltStreams(cfg, st, inbox.Values).Keys == m.state.streams.Keys + (set u | u in open :: Sid(u))
  {
    forall e | e in done ensures Sid(e) in m.state.streams { DoneHasStream(View(m.state), done, e); }
    hide RebuiltStream, Summaries, OnRoute, Settled, Distrusted;
    assert forall u | u in open :: u in inbox.Values;
  }

  lemma DoneHasStream(st: State, done: set<Envelope>, e: Envelope)
    requires Summaries(st, done) && e in done && e.seqno >= 1
    ensures Sid(e) in st.streams
  {
    assert Covers(StreamOf(st.streams, Sid(e)), Seqs(done, Sid(e)));
    assert e.seqno in Seqs(done, Sid(e));
    assert Reserves(StreamOf(st.streams, Sid(e)), e.seqno);
  }

  lemma SameStreams(cfg: Config, m: Memory, st: State, inbox: map<string, Envelope>, done: set<Envelope>,
      open: set<Envelope>)
    requires StateInv(cfg, View(RebuiltState(cfg, st, inbox)), done + open, {}) && CaughtUp(cfg, m, done + open, open)
    requires View(RebuiltState(cfg, st, inbox)).streams == RebuiltStreams(cfg, st, inbox.Values)
    requires View(RebuiltState(cfg, st, inbox)).untrusted == m.state.untrusted == Distrusted(cfg, st, inbox.Values)
    requires RebuiltStreams(cfg, st, inbox.Values).Keys == m.state.streams.Keys + (set u | u in open :: Sid(u))
    requires st.streams == m.state.streams && Summaries(View(m.state), done) && inbox.Values <= done + open
    requires forall e | e in open :: Sid(e) !in m.state.untrusted
    ensures View(RebuiltState(cfg, st, inbox)).streams == View(Caught(m)).streams
  {
    var a, b := View(RebuiltState(cfg, st, inbox)), View(Caught(m));
    hide RebuiltState, Distrusted, Settle, Caught;
    assert a.streams.Keys == b.streams.Keys by { hide RebuiltStreams, StateInv; }
    hide RebuiltStreams;
    forall s | s in a.streams ensures a.streams[s] == b.streams[s] {
      if s in m.state.untrusted {
        UntrustedRebuilt(cfg, st, inbox.Values, done, open, s);
      } else {
        TrustedAgree(cfg, a, b, done + open, s);
      }
    }
  }

  lemma TrustedAgree(cfg: Config, a: State, b: State, all: set<Envelope>, s: StreamId)
    requires StateInv(cfg, a, all, {}) && StateInv(cfg, b, all, {})
    requires s in a.streams && s in b.streams && s !in a.untrusted && s !in b.untrusted
    ensures a.streams[s] == b.streams[s]
  {
    StateParts(cfg, a, all, {});
    StateParts(cfg, b, all, {});
    hide StateInv, CursorTracks, Listed, RowFacts, Covers, Settled, Seqs;
    assert Covers(StreamOf(a.streams, s), Seqs(all, s)) && Covers(StreamOf(b.streams, s), Seqs(all, s));
    SummaryUnique(a.streams[s], b.streams[s], Seqs(all, s));
  }

  /** A distrusted stream gains nothing from rows it already reserves. */
  lemma UntrustedRebuilt(cfg: Config, st: State, rows: set<Envelope>, done: set<Envelope>, open: set<Envelope>,
      s: StreamId)
    requires s in Distrusted(cfg, st, rows) && rows <= done + open && s in RebuiltStreams(cfg, st, rows)
    requires Covers(StreamOf(st.streams, s), Seqs(done, s)) && forall u | u in open :: Sid(u) != s
    ensures RebuiltStreams(cfg, st, rows)[s] == StreamOf(st.streams, s)
  {
    hide Distrusted, Settle;
    var prior := StreamOf(st.streams, s);
    forall n | n in RowGaps(rows, s, prior.last) ensures n in prior.gaps {
      assert n in Seqs(done, s);
      assert Reserves(prior, n);
    }
    assert prior.gaps + RowGaps(rows, s, prior.last) == prior.gaps;
  }

  lemma SameLists(cfg: Config, m: Memory, st: State, inbox: map<string, Envelope>, done: set<Envelope>,
      open: set<Envelope>)
    requires CaughtUp(cfg, m, done + open, open) && Listed(View(m.state), done, open) && st.cursor == m.state.cursor
    requires open <= inbox.Values <= done + open && forall e, f | e in open && f in open :: e == f
    ensures RebuiltState(cfg, st, inbox).cursor.seenIds == View(Caught(m)).cursor.seenIds
    ensures RebuiltState(cfg, st, inbox).cursor.seenKeys == View(Caught(m)).cursor.seenKeys
  {
    var rows := Listing(inbox);
    IdsHave(rows);
    hide RebuiltStreams, Distrusted, Frontier, Listing, AppendNew, Ids, Keys, StateInv, Caught;
    if u :| u in open {
      AppendNewOne(st.cursor.seenIds, Ids(rows), u.id);
      AppendNewOne(st.cursor.seenKeys, Keys(rows), u.key);
      assert u in rows;
    } else {
      AppendNewOne(st.cursor.seenIds, Ids(rows), "");
      AppendNewOne(st.cursor.seenKeys, Keys(rows), "");
    }
  }

  lemma SameCursor(cfg: Config, m: Memory, st: State, inbox: map<string, Envelope>, all: set<Envelope>,
      open: set<Envelope>)
    requires CaughtUp(cfg, m, all, open) && st.cursor == m.state.cursor
    requires CursorTracks(View(RebuiltState(cfg, st, inbox)))
    requires View(RebuiltState(cfg, st, inbox)).streams == View(Caught(m)).streams
    requires View(RebuiltState(cfg, st, inbox)).untrusted == View(Caught(m)).untrusted
    requires RebuiltState(cfg, st, inbox).cursor.seenIds == View(Caught(m)).cursor.seenIds
    requires RebuiltState(cfg, st, inbox).cursor.seenKeys == View(Caught(m)).cursor.seenKeys
    ensures View(RebuiltState(cfg, st, inbox)).cursor == View(Caught(m)).cursor
  {
    StateParts(cfg, View(Caught(m)), all, {});
    hide StateInv, Frontier, RebuiltStreams, Distrusted, AppendNew, Caught, Listing;
    var a, b := View(RebuiltState(cfg, st, inbox)), View(Caught(m));
    if a.streams == map[] { EmptyRebuild(cfg, st, inbox); }
  }

  /** No streams after a rebuild means no rows either, so the scalar cursor stays. */
  lemma EmptyRebuild(cfg: Config, st: State, inbox: map<string, Envelope>)
    requires RebuiltState(cfg, st, inbox).streams == map[]
    ensures RebuiltState(cfg, st, inbox).cursor.last == st.cursor.last
  {
    RowsHaveStreams(cfg, st, inbox);
    hide RebuiltStreams, Distrusted, Listing, AppendNew, Frontier;
  }

  lemma RowsHaveStreams(cfg: Config, st: State, inbox: map<string, Envelope>)
    ensures Listing(inbox) != [] ==> RebuiltStreams(cfg, st, inbox.Values) != map[]
  {
    hide RebuiltStream, Distrusted, Listing;
    if Listing(inbox) != [] {
      assert Listing(inbox)[0] in inbox.Values;
      assert Sid(Listing(inbox)[0]) in RebuiltStreams(cfg, st, inbox.Values);
    }
  }

  lemma SameView(a: State, b: State)
    requires View(a).streams == View(b).streams && View(a).untrusted == View(b).untrusted
        && View(a).cursor == View(b).cursor
    ensures View(a) == View(b)
  {}

  // ---------------------------------------------------------------- opening twice

  lemma {:induction false} SettleLeaves(s: Stream, n: nat)
    requires n in s.gaps && n > Settle(s).last
    ensures n in Settle(s).gaps
    decreases |s.gaps|
  {
    if s.last + 1 in s.gaps {
      var t := Stream(s.last + 1, s.gaps - {s.last + 1});
      SettleKeeps(t);
      SettleLeaves(t, n);
    }
  }

  /** Rows whose stream has been rebuilt add nothing to it a second time. */
  lemma RebuiltTwice(a: State, b: State, rows: set<Envelope>, untrusted: set<StreamId>, s: StreamId)
    requires StreamOf(b.streams, s) == RebuiltStream(a, rows, untrusted, s)
    ensures RebuiltStream(b, rows, untrusted, s) == RebuiltStream(a, rows, untrusted, s)
  {
    var prior, now := StreamOf(a.streams, s), StreamOf(b.streams, s);
    var joined := prior.(gaps := prior.gaps + RowGaps(rows, s, prior.last));
    SettleKeeps(joined);
    forall n | n in RowGaps(rows, s, now.last) ensures n in now.gaps {
      if s !in untrusted { SettleLeaves(joined, n); }
    }
    assert now.gaps + RowGaps(rows, s, now.last) == now.gaps;
    if s !in untrusted { SettledStays(now); }
  }

  lemma DistrustedTwice(cfg: Config, a: State, b: State, rows: set<Envelope>)
    requires b.untrusted == Distrusted(cfg, a, rows) && b.streams == RebuiltStreams(cfg, a, rows)
    requires forall e | e in rows :: OnRoute(cfg, Sid(e))
    ensures Distrusted(cfg, b, rows) == Distrusted(cfg, a, rows)
  {
    StreamsKnown(cfg, a, rows);
    hide RebuiltStreams;
  }

  lemma StreamsTwice(cfg: Config, a: State, b: State, rows: set<Envelope>)
    requires b.untrusted == Distrusted(cfg, a, rows) && b.streams == RebuiltStreams(cfg, a, rows)
    requires forall e | e in rows :: OnRoute(cfg, Sid(e))
    ensures RebuiltStreams(cfg, b, rows) == RebuiltStreams(cfg, a, rows)
  {
    DistrustedTwice(cfg, a, b, rows);
    hide RebuiltStream, Distrusted, OnRoute;
    forall s | s in b.streams ensures RebuiltStream(b, rows, b.untrusted, s) == b.streams[s] {
      RebuiltTwice(a, b, rows, b.untrusted, s);
    }
    assert RebuiltStreams(cfg, b, rows).Keys == b.streams.Keys;
  }

  lemma ListsTwice(cfg: Config, a: State, b: State, inbox: map<string, Envelope>)
    requires b == RebuiltState(cfg, a, inbox)
    ensures AppendNew(b.cursor.seenIds, Ids(Listing(inbox))) == b.cursor.seenIds
    ensures AppendNew(b.cursor.seenKeys, Keys(Listing(inbox))) == b.cursor.seenKeys
  {
    RebuiltLists(cfg, a, inbox);
    IdsHave(Listing(inbox));
    hide RebuiltState, AppendNew, Listing, Ids, Keys;
    AppendNewOne(b.cursor.seenIds, Ids(Listing(inbox)), "");
    AppendNewOne(b.cursor.seenKeys, Keys(Listing(inbox)), "");
  }

  lemma StateTwice(cfg: Config, a: State, inbox: map<string, Envelope>)
    requires forall e | e in inbox.Values :: OnRoute(cfg, Sid(e))
    ensures RebuiltState(cfg, RebuiltState(cfg, a, inbox), inbox) == RebuiltState(cfg, a, inbox)
  {
    var b := RebuiltState(cfg, a, inbox);
    ListsTwice(cfg, a, b, inbox);
    RowsHaveStreams(cfg, b, inbox);
    hide RebuiltStreams, Distrusted, Listing, AppendNew, Ids, Keys, Frontier, OnRoute;
    StreamsTwice(cfg, a, b, inbox.Values);
    DistrustedTwice(cfg, a, b, inbox.Values);
  }

  lemma HeldTwice(cfg: Config, a: State, inbox: map<string, Envelope>)
    requires forall e | e in inbox.Values :: e.id in inbox && e.key in ByKey(inbox.Values)
    ensures var b, byKey := RebuiltState(cfg, a, inbox), ByKey(inbox.Values);
      && (set id | id in a.cursor.seenIds && id !in inbox) == (set id | id in b.cursor.seenIds && id !in inbox)
      && (set k | k in a.cursor.seenKeys && k !in byKey) == (set k | k in b.cursor.seenKeys && k !in byKey)
  {
    hide RebuiltState, ByKey;
    RebuiltLists(cfg, a, inbox);
  }

  lemma RowsIndexed(cfg: Config, inbox: map<string, Envelope>)
    requires forall id | id in inbox :: OnRoute(cfg, Sid(inbox[id])) && inbox[id].id == id
    ensures forall e | e in inbox.Values :: OnRoute(cfg, Sid(e)) && e.id in inbox && e.key in ByKey(inbox.Values)
  {
    hide OnRoute;
  }

  lemma OpenedTwice(cfg: Config, a: State, inbox: map<string, Envelope>)
    requires forall id | id in inbox :: OnRoute(cfg, Sid(inbox[id])) && inbox[id].id == id
    ensures Opened(cfg, RebuiltState(cfg, a, inbox), inbox) == Opened(cfg, a, inbox)
  {
    hide RebuiltState, BySeq, OnRoute, ByKey;
    RowsIndexed(cfg, inbox);
    StateTwice(cfg, a, inbox);
    HeldTwice(cfg, a, inbox);
  }

  lemma OpenRows(cfg: Config, d: Disk)
    requires OpenOk(cfg, d)
    ensures forall id | id in d.inbox :: OnRoute(cfg, Sid(d.inbox[id])) && d.inbox[id].id == id
  {
    hide Verify, Canonical, ProducerOk, Loaded, Distinct;
    forall id | id in d.inbox ensures OnRoute(cfg, Sid(d.inbox[id])) && d.inbox[id].id == id {
      assert InboxRowOk(cfg, Loaded(cfg, d), d.inbox[id]);
    }
  }

  /** Nothing Open checks depends on what a rebuild changes. */
  lemma OpenOkAgain(cfg: Config, d: Disk, st: State)
    requires OpenOk(cfg, d) && st == RebuiltState(cfg, Loaded(cfg, d), d.inbox)
    ensures OpenOk(cfg, Saved(d, st)) && Loaded(cfg, Saved(d, st)) == st
  {
    hide Verify, Canonical, ValidFields, OutboxOk, Distinct, RebuiltStreams, Distrusted, Listing, AppendNew, Frontier;
  }

  /** Opening what an Open has left, on any disk at all and whether or not a save
      would succeed now, gives the same client and leaves the disk as it is. */
  lemma ReopenChangesNothing(cfg: Config, d: Disk, save: bool, again: bool)
    requires Open(cfg, d, save).0.Some?
    ensures var (o, d') := Open(cfg, d, save); Open(cfg, d', again) == (o, d')
  {
    hide *;
    var (o, d') := Open(cfg, d, save);
    var st := Loaded(cfg, d);
    OpenedStep(cfg, d, save);
    OpenRows(cfg, d);
    OpenedTwice(cfg, st, d.inbox);
    OpenOkAgain(cfg, d, RebuiltState(cfg, st, d.inbox));
    OpenUnsaved(cfg, d, d', o.value, again);
  }

  lemma OpenUnsaved(cfg: Config, d: Disk, d': Disk, m: Memory, again: bool)
    requires d' == d.(state := Some(m.state)) && m == Opened(cfg, Loaded(cfg, d), d.inbox)
    requires OpenOk(cfg, Saved(d, m.state)) && Loaded(cfg, Saved(d, m.state)) == m.state
    requires Opened(cfg, m.state, d.inbox) == m
    ensures Open(cfg, d', again) == (Some(m), d')
  {
    hide OpenOk, Opened, Loaded;
  }
}
