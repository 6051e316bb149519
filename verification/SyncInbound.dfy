/** What every inbound operation keeps: each envelope ever admitted is recorded
    exactly once, in the compact stream summaries and in the seen lists, and the
    client in memory is the disk up to the one envelope not yet saved. */
module SyncInbound {
  import opened Wrappers
  import opened Envelopes
  import opened SyncState

  // ---------------------------------------------------------------- streams

  /** The sequence numbers of the envelopes of one stream. */
  ghost function Seqs(rows: set<Envelope>, s: StreamId): set<nat> {
    set e | e in rows && Sid(e) == s :: e.seqno
  }

  ghost predicate Covers(s: Stream, seqs: set<nat>) {
    forall n: nat :: Reserves(s, n) <==> n in seqs
  }

  /** The frontier is as far as it can go and the gap set lies beyond it. */
  ghost predicate Settled(s: Stream) {
    s.last + 1 !in s.gaps && forall n | n in s.gaps :: n > s.last
  }

  /** The compact summary depends only on the set it covers, not on the order in
      which the set was filled. */
  lemma SummaryUnique(a: Stream, b: Stream, seqs: set<nat>)
    requires Settled(a) && Settled(b) && Covers(a, seqs) && Covers(b, seqs)
    ensures a == b
  {
    assert !Reserves(a, a.last + 1) && !Reserves(b, b.last + 1);
    assert a.last >= 1 ==> Reserves(a, a.last);
    assert b.last >= 1 ==> Reserves(b, b.last);
    if a.last < b.last { assert Reserves(b, a.last + 1); }
    if b.last < a.last { assert Reserves(a, b.last + 1); }
    forall n ensures n in a.gaps <==> n in b.gaps {
      assert n in a.gaps ==> Reserves(a, n);
      assert n in b.gaps ==> Reserves(b, n);
    }
  }

  lemma {:induction false} SettleKeeps(s: Stream)
    ensures forall n: nat :: Reserves(Settle(s), n) <==> Reserves(s, n)
    ensures Settle(s).last >= s.last && Settle(s).gaps <= s.gaps
    ensures Settle(s).last + 1 !in Settle(s).gaps
    ensures (forall n | n in s.gaps :: n > s.last) ==> Settled(Settle(s))
    decreases |s.gaps|
  {
    if s.last + 1 in s.gaps {
      var t := Stream(s.last + 1, s.gaps - {s.last + 1});
      SettleKeeps(t);
      forall n: nat ensures Reserves(t, n) <==> Reserves(s, n) {}
    }
  }

  lemma SettledStays(s: Stream)
    requires s.last + 1 !in s.gaps
    ensures Settle(s) == s
  {}

  // ---------------------------------------------------------------- the cursor

  lemma {:induction false} FrontierBounds(streams: map<StreamId, Stream>, untrusted: set<StreamId>)
    ensures forall s | s in streams && s !in untrusted :: streams[s].last <= Frontier(streams, untrusted)
    ensures Frontier(streams, untrusted) == 0
         || exists s :: s in streams && s !in untrusted && streams[s].last == Frontier(streams, untrusted)
    decreases |streams|
  {
    if streams != map[] {
      var s :| s in streams && Frontier(streams, untrusted)
        == var rest := Frontier(streams - {s}, untrusted);
            if s !in untrusted && streams[s].last > rest then streams[s].last else rest;
      var less := streams - {s};
      assert |less| < |streams| by { assert less.Keys == streams.Keys - {s}; }
      FrontierBounds(less, untrusted);
      if Frontier(streams, untrusted) != 0 && Frontier(streams, untrusted) == Frontier(less, untrusted) {
        var t :| t in less && t !in untrusted && less[t].last == Frontier(less, untrusted);
        assert t in streams && streams[t].last == Frontier(streams, untrusted);
      }
    }
  }

  /** Moving one trusted frontier forward moves the cursor to the larger of the two. */
  lemma FrontierMoves(streams: map<StreamId, Stream>, untrusted: set<StreamId>, s: StreamId, t: Stream)
    requires s !in untrusted && t.last >= StreamOf(streams, s).last
    ensures Frontier(streams[s := t], untrusted)
         == var before := Frontier(streams, untrusted); if t.last > before then t.last else before
  {
    FrontierBounds(streams, untrusted);
    FrontierBounds(streams[s := t], untrusted);
    hide Frontier;
    var after := streams[s := t];
    assert after[s].last == t.last;
    if Frontier(streams, untrusted) != 0 {
      var u :| u in streams && u !in untrusted && streams[u].last == Frontier(streams, untrusted);
      assert u in after && after[u].last >= streams[u].last;
    }
    if Frontier(after, untrusted) != 0 {
      var u :| u in after && u !in untrusted && after[u].last == Frontier(after, untrusted);
      assert u != s ==> u in streams && streams[u].last <= Frontier(streams, untrusted);
    }
  }

  // ---------------------------------------------------------------- the invariant of the disk

  /** The inbound part of a state. */
  function View(st: State): State { st.(next := 1, acked := 0) }

  /** The inbound part of the state the next Open starts from. */
  function Base(cfg: Config, d: Disk): State { View(Loaded(cfg, d)) }

  /** What is known of an envelope whatever keys are configured later. */
  ghost predicate RowFacts(cfg: Config, st: State, e: Envelope) {
    && e.tenant == cfg.tenant && e.project == cfg.project && ValidFields(e)
    && st.cursor.minSchema <= e.schema <= st.cursor.maxSchema
    && cfg.prims.payloadOk(e.kind, e.payload)
    && e.algorithm == ED25519 && cfg.prims.wellFormed(e.signature)
    && Canonical(e).Some?
  }

  /** `done` are the envelopes the saved state accounts for, `open` the one row, if
      any, that is durable but not yet accounted for. */
  ghost predicate Rows(inbox: map<string, Envelope>, done: set<Envelope>, open: set<Envelope>) {
    && (forall id | id in inbox :: inbox[id].id == id && inbox[id] in done + open)
    && (forall e | e in open :: e.id in inbox && inbox[e.id] == e)
    && (forall e, f | e in open && f in open :: e == f)
  }

  ghost predicate Summaries(st: State, done: set<Envelope>) {
    forall s: StreamId :: Covers(StreamOf(st.streams, s), Seqs(done, s))
  }

  ghost predicate Shapes(cfg: Config, st: State) {
    && (forall s | s in st.streams :: OnRoute(cfg, s) && (s !in st.untrusted ==> Settled(st.streams[s])))
    && (forall s | s in st.untrusted :: OnRoute(cfg, s))
  }

  ghost predicate Listed(st: State, done: set<Envelope>, open: set<Envelope>) {
    && (forall e | e in done :: e.id in st.cursor.seenIds && e.key in st.cursor.seenKeys)
    && (forall e | e in open :: e.id !in st.cursor.seenIds && e.key !in st.cursor.seenKeys)
  }

  ghost predicate CursorTracks(st: State) {
    st.streams != map[] ==> st.cursor.last == Frontier(st.streams, st.untrusted)
  }

  /** All of it in terms of the inbound part of a state. */
  ghost predicate StateInv(cfg: Config, st: State, done: set<Envelope>, open: set<Envelope>) {
    && Summaries(st, done) && Shapes(cfg, st) && CursorTracks(st) && Listed(st, done, open)
    && (forall e | e in done + open :: RowFacts(cfg, st, e))
  }

  ghost predicate DiskInv(cfg: Config, d: Disk, done: set<Envelope>, open: set<Envelope>) {
    && Distinct(done + open)
    && open !! done
    && Rows(d.inbox, done, open)
    && StateInv(cfg, Base(cfg, d), done, open)
  }

  // ---------------------------------------------------------------- the invariant of an open client

  /** The three indexes hold the same envelopes, all of them admitted, and every
      retained row is among them. */
  ghost predicate Indexes(m: Memory, inbox: map<string, Envelope>, all: set<Envelope>) {
    && IdIndex(m, all) && KeyIndex(m, all) && SeqIndex(m, all)
    && (forall id | id in inbox :: id in m.byId && m.byId[id] == inbox[id])
  }

  ghost predicate IdIndex(m: Memory, all: set<Envelope>) {
    forall id | id in m.byId ::
        m.byId[id].id == id && m.byId[id] in all && m.byId[id].key in m.byKey && SeqId(m.byId[id]) in m.bySeq
  }

  ghost predicate KeyIndex(m: Memory, all: set<Envelope>) {
    forall k | k in m.byKey :: m.byKey[k].key == k && m.byKey[k] in all && m.byKey[k].id in m.byId
  }

  ghost predicate SeqIndex(m: Memory, all: set<Envelope>) {
    forall q | q in m.bySeq :: SeqId(m.bySeq[q]) == q && m.bySeq[q] in all && m.bySeq[q].id in m.byId
  }

  /** What is pending is what the saved state does not account for. */
  ghost predicate PendingIs(m: Memory, open: set<Envelope>) {
    && (forall id | id in m.pending :: m.pending[id].id == id && m.pending[id] in open)
    && (forall e | e in open :: e.id in m.pending && m.pending[e.id] == e)
    && (m.pendingSave <==> m.pending != map[])
  }

  ghost predicate Reserved(m: Memory) {
    && (forall id | id in m.state.cursor.seenIds :: id in m.byId || id in m.heldIds)
    && (forall k | k in m.state.cursor.seenKeys :: k in m.byKey || k in m.heldKeys)
  }

  /** Every stream and row is either under a configured key or distrusted. */
  ghost predicate KeysKnown(cfg: Config, m: Memory, inbox: map<string, Envelope>, open: set<Envelope>) {
    && (forall s | s in m.state.streams :: s.keyId in cfg.trusted || s in m.state.untrusted)
    && (forall id | id in inbox ::
        if inbox[id].keyId in cfg.trusted then Verify(cfg.prims, inbox[id], cfg.trusted)
        else Sid(inbox[id]) in m.state.untrusted)
    && (forall e | e in open :: e.keyId in cfg.trusted && Sid(e) !in m.state.untrusted)
  }

  /** The client agrees with state.json on everything inbound. */
  ghost predicate InStep(cfg: Config, m: Memory, d: Disk) {
    && d.state.Some? && View(d.state.value) == View(m.state) == Base(cfg, d)
    && m.state.cursor.minSchema != 0 && m.state.cursor.maxSchema != 0
    && m.fallback == (if m.state.streams == map[] then m.state.cursor.last else 0)
  }

  ghost predicate ClientInv(cfg: Config, m: Memory, d: Disk, done: set<Envelope>, open: set<Envelope>) {
    && DiskInv(cfg, d, done, open)
    && InStep(cfg, m, d)
    && Indexes(m, d.inbox, done + open)
    && PendingIs(m, open)
    && Reserved(m)
    && KeysKnown(cfg, m, d.inbox, open)
  }

  // ---------------------------------------------------------------- admission

  /** What the checks of Receive establish about an envelope they all let pass. */
  lemma FreshPassed(cfg: Config, m: Memory, e: Envelope)
    requires Classify(cfg, m, e) == Fresh
    ensures !Reserves(StreamOf(m.state.streams, Sid(e)), e.seqno)
    ensures e.id !in m.byId && e.key !in m.byKey && SeqId(e) !in m.bySeq && e.id !in m.heldIds && e.key !in m.heldKeys
    ensures Verify(cfg.prims, e, cfg.trusted) && Sid(e) !in m.state.untrusted && e.keyId in cfg.trusted
    ensures RowFacts(cfg, View(m.state), e) && OnRoute(cfg, Sid(e))
  {
    hide Canonical, Reserves, ValidUlid;
    VerifiedHasText(cfg.prims, e, cfg.trusted);
  }

  /** An unsaved row is in all three indexes. */
  lemma OpenIsIndexed(m: Memory, inbox: map<string, Envelope>, done: set<Envelope>, open: set<Envelope>, f: Envelope)
    requires Rows(inbox, done, open) && Indexes(m, inbox, done + open) && f in open
    ensures f.id in m.byId && f.key in m.byKey && SeqId(f) in m.bySeq
  {
    assert m.byId[f.id] == f;
  }

  /** A saved admission is reserved by the seen lists and by its stream. */
  lemma DoneIsReserved(m: Memory, done: set<Envelope>, open: set<Envelope>, f: Envelope)
    requires Listed(View(m.state), done, open) && Summaries(View(m.state), done) && Reserved(m) && f in done
    ensures f.id in m.byId || f.id in m.heldIds
    ensures f.key in m.byKey || f.key in m.heldKeys
    ensures Reserves(StreamOf(m.state.streams, Sid(f)), f.seqno)
  {
    assert f.id in m.state.cursor.seenIds && f.key in m.state.cursor.seenKeys;
    assert Covers(StreamOf(View(m.state).streams, Sid(f)), Seqs(done, Sid(f)));
    assert f.seqno in Seqs(done, Sid(f));
  }

  /** An envelope that passes every check of Receive shares no identity with any
      envelope ever admitted, whether its row is retained, expired or unsaved. */
  lemma FreshIsNew(cfg: Config, m: Memory, d: Disk, done: set<Envelope>, open: set<Envelope>, e: Envelope, f: Envelope)
    requires ClientInv(cfg, m, d, done, open) && Classify(cfg, m, e) == Fresh && f in done + open
    ensures e.id != f.id && e.key != f.key && SeqId(e) != SeqId(f)
  {
    hide *;
    FreshPassed(cfg, m, e);
    assert Rows(d.inbox, done, open) && Indexes(m, d.inbox, done + open) && Reserved(m)
      && Listed(View(m.state), done, open) && Summaries(View(m.state), done) by {
        ClientParts(cfg, m, d, done, open);
        StateParts(cfg, View(m.state), done, open);
      }
    if f in open {
      OpenIsIndexed(m, d.inbox, done, open, f);
    } else {
      DoneIsReserved(m, done, open, f);
    }
    if SeqId(e) == SeqId(f) { SeqIdParts(e, f); }
  }

  lemma SeqIdParts(e: Envelope, f: Envelope)
    requires SeqId(e) == SeqId(f)
    ensures Sid(e) == Sid(f) && e.seqno == f.seqno
  {}

  // ---------------------------------------------------------------- applying one envelope

  /** What an unsaved envelope is to the state it will be applied to. */
  ghost predicate Applicable(cfg: Config, st: State, fallback: nat, done: set<Envelope>, u: Envelope) {
    && StateInv(cfg, st, done, {u})
    && (forall f | f in done :: SeqId(f) != SeqId(u))
    && Sid(u) !in st.untrusted && OnRoute(cfg, Sid(u)) && u.seqno >= 1
    && fallback == (if st.streams == map[] then st.cursor.last else 0)
  }

  lemma ApplyCovers(st: State, fallback: nat, done: set<Envelope>, u: Envelope, s: StreamId)
    requires Covers(StreamOf(st.streams, s), Seqs(done, s))
    ensures Covers(StreamOf(ApplyInbound(st, fallback, u).streams, s), Seqs(done + {u}, s))
  {
    var prior := StreamOf(st.streams, s);
    if s == Sid(u) {
      var joined := prior.(gaps := prior.gaps + {u.seqno});
      SettleKeeps(joined);
      hide Settle;
      forall n: nat ensures Reserves(Settle(joined), n) <==> n in Seqs(done + {u}, s) {
        assert Reserves(joined, n) <==> Reserves(prior, n) || n == u.seqno;
        assert n in Seqs(done + {u}, s) <==> n in Seqs(done, s) || n == u.seqno;
      }
    } else {
      assert Seqs(done + {u}, s) == Seqs(done, s);
    }
  }

  lemma ApplySettles(st: State, fallback: nat, done: set<Envelope>, u: Envelope)
    requires Covers(StreamOf(st.streams, Sid(u)), Seqs(done, Sid(u)))
    requires forall f | f in done :: SeqId(f) != SeqId(u)
    requires Settled(StreamOf(st.streams, Sid(u))) && u.seqno >= 1
    ensures Settled(StreamOf(ApplyInbound(st, fallback, u).streams, Sid(u)))
    ensures StreamOf(ApplyInbound(st, fallback, u).streams, Sid(u)).last >= StreamOf(st.streams, Sid(u)).last
  {
    var prior := StreamOf(st.streams, Sid(u));
    assert u.seqno !in Seqs(done, Sid(u));
    assert !Reserves(prior, u.seqno);
    SettleKeeps(prior.(gaps := prior.gaps + {u.seqno}));
    hide Settle;
  }

  lemma ApplyCursor(st: State, fallback: nat, u: Envelope)
    requires CursorTracks(st) && Sid(u) !in st.untrusted
    requires StreamOf(ApplyInbound(st, fallback, u).streams, Sid(u)).last >= StreamOf(st.streams, Sid(u)).last
    requires fallback == (if st.streams == map[] then st.cursor.last else 0)
    ensures CursorTracks(ApplyInbound(st, fallback, u))
  {
    hide Settle, Frontier;
    var t := StreamOf(ApplyInbound(st, fallback, u).streams, Sid(u));
    FrontierMoves(st.streams, st.untrusted, Sid(u), t);
    if st.streams == map[] { FrontierNone(st.untrusted); }
  }

  lemma FrontierNone(untrusted: set<StreamId>)
    ensures Frontier(map[], untrusted) == 0
  {}

  lemma ApplyShapes(cfg: Config, st: State, fallback: nat, u: Envelope)
    requires Shapes(cfg, st) && OnRoute(cfg, Sid(u))
    requires Settled(StreamOf(ApplyInbound(st, fallback, u).streams, Sid(u)))
    ensures Shapes(cfg, ApplyInbound(st, fallback, u))
  {
    hide Settle, Settled, OnRoute;
  }

  lemma ApplyLists(st: State, fallback: nat, done: set<Envelope>, u: Envelope)
    requires Listed(st, done, {u})
    ensures Listed(ApplyInbound(st, fallback, u), done + {u}, {})
  {
    hide Settle;
  }

  lemma StreamSettled(cfg: Config, st: State, s: StreamId)
    requires Shapes(cfg, st) && s !in st.untrusted
    ensures Settled(StreamOf(st.streams, s))
  {}

  /** Applying the unsaved envelope makes it one of those the state accounts for:
      the summary of its stream covers it, the seen lists name it, the cursor
      follows, and the summaries of the other streams stay as they are. */
  lemma ApplyKeeps(cfg: Config, st: State, fallback: nat, done: set<Envelope>, u: Envelope)
    requires Applicable(cfg, st, fallback, done, u)
    ensures StateInv(cfg, ApplyInbound(st, fallback, u), done + {u}, {})
  {
    hide Settle, Settled, Shapes, CursorTracks, Listed, RowFacts, OnRoute, Covers, Seqs, SeqId;
    var after := ApplyInbound(st, fallback, u);
    forall s ensures Covers(StreamOf(after.streams, s), Seqs(done + {u}, s)) {
      assert Covers(StreamOf(st.streams, s), Seqs(done, s));
      ApplyCovers(st, fallback, done, u, s);
    }
    assert Covers(StreamOf(st.streams, Sid(u)), Seqs(done, Sid(u)));
    StreamSettled(cfg, st, Sid(u));
    ApplySettles(st, fallback, done, u);
    ApplyCursor(st, fallback, u);
    ApplyShapes(cfg, st, fallback, u);
    ApplyLists(st, fallback, done, u);
    RowFactsDepend(cfg, st, after, done + {u});
  }

  /** The facts about a row use the schema bounds of the state and nothing else. */
  lemma RowFactsDepend(cfg: Config, a: State, b: State, rows: set<Envelope>)
    requires a.cursor.minSchema == b.cursor.minSchema && a.cursor.maxSchema == b.cursor.maxSchema
    requires forall e | e in rows :: RowFacts(cfg, a, e)
    ensures forall e | e in rows :: RowFacts(cfg, b, e)
  {
    hide Canonical, ValidFields;
  }

  // ---------------------------------------------------------------- committing the pending envelope

  /** At most one envelope is ever pending. */
  lemma OnePending(m: Memory, d: Disk, done: set<Envelope>, open: set<Envelope>)
    requires PendingIs(m, open) && Rows(d.inbox, done, open)
    ensures m.pending.Values == open && |m.pending| <= 1 && (m.pendingSave <==> m.pending != map[])
    ensures open == {} <==> m.pending == map[]
    ensures forall u | u in open :: m.pending == map[u.id := u] && open == {u}
  {
    if u :| u in open {
      assert open == {u};
      assert m.pending == map[u.id := u];
    } else {
      assert m.pending == map[];
    }
  }

  lemma ApplyOnePending(st: State, fallback: nat, u: Envelope)
    ensures ApplyPending(st, fallback, map[u.id := u]) == ApplyInbound(st, fallback, u)
  {
    hide ApplyInbound;
    assert map[u.id := u] - {u.id} == map[];
    assert ApplyPending(ApplyInbound(st, fallback, u), fallback, map[]) == ApplyInbound(st, fallback, u);
  }

  lemma ApplyView(st: State, fallback: nat, u: Envelope)
    ensures View(ApplyInbound(st, fallback, u)) == ApplyInbound(View(st), fallback, u)
    ensures ApplyInbound(st, fallback, u).streams != map[]
    ensures ApplyInbound(st, fallback, u).cursor.minSchema == st.cursor.minSchema
    ensures ApplyInbound(st, fallback, u).cursor.maxSchema == st.cursor.maxSchema
    ensures ApplyInbound(st, fallback, u).untrusted == st.untrusted
    ensures ApplyInbound(st, fallback, u).streams.Keys == st.streams.Keys + {Sid(u)}
    ensures ApplyInbound(st, fallback, u).cursor.seenIds == st.cursor.seenIds + [u.id]
    ensures ApplyInbound(st, fallback, u).cursor.seenKeys == st.cursor.seenKeys + [u.key]
  {
    hide Settle;
    assert Sid(u) in ApplyInbound(st, fallback, u).streams;
  }

  /** A saved state is the base of the next Open. */
  lemma SavedBase(cfg: Config, d: Disk, st: State)
    requires st.cursor.minSchema != 0 && st.cursor.maxSchema != 0
    ensures Base(cfg, Saved(d, st)) == View(st)
  {}

  /** An unsaved envelope satisfies what applying it asks for. */
  lemma OpenApplies(cfg: Config, m: Memory, d: Disk, done: set<Envelope>, u: Envelope)
    requires ClientInv(cfg, m, d, done, {u})
    ensures Applicable(cfg, View(m.state), m.fallback, done, u)
    ensures StateInv(cfg, View(m.state), done, {u})
  {
    hide Canonical, Settled, Covers, Listed, Summaries, CursorTracks, Indexes, Reserved, Verify;
    var st := View(m.state);
    assert StateInv(cfg, st, done, {u});
    assert RowFacts(cfg, st, u);
    assert u in {u};
    forall f | f in done ensures SeqId(f) != SeqId(u) {
      assert f in done + {u} && u in done + {u} && f != u;
    }
  }

  /** Committing leaves nothing pending and the client in step with the disk. */
  lemma CommitKeeps(cfg: Config, m: Memory, d: Disk, done: set<Envelope>, u: Envelope)
    requires ClientInv(cfg, m, d, done, {u})
    ensures var (m', d') := Commit(m, d, true);
      ClientInv(cfg, m', d', done + {u}, {}) && d'.inbox == d.inbox && d'.outbox == d.outbox
      && m'.byId == m.byId && m'.byKey == m.byKey && m'.bySeq == m.bySeq && m'.heldIds == m.heldIds
          && m'.heldKeys == m.heldKeys
      && m'.state == ApplyInbound(m.state, m.fallback, u) && m'.pending == map[] && !m'.pendingSave
  {
    hide *;
    var (m', d') := Commit(m, d, true);
    CommitOne(cfg, m, d, done, u);
    OpenApplies(cfg, m, d, done, u);
    ApplyKeeps(cfg, View(m.state), m.fallback, done, u);
    CommitRest(cfg, m, d, done, u);
    CommitFits(cfg, m, d, done, u, m', d');
  }

  lemma CommitOne(cfg: Config, m: Memory, d: Disk, done: set<Envelope>, u: Envelope)
    requires ClientInv(cfg, m, d, done, {u})
    ensures var st := ApplyInbound(m.state, m.fallback, u);
      Commit(m, d, true) == (m.(state := st, pending := map[], pendingSave := false, fallback := 0), Saved(d, st))
    ensures Commit(m, d, true).1.inbox == d.inbox && Commit(m, d, true).1.outbox == d.outbox
    ensures m.pending == map[u.id := u] && m.pendingSave
  {
    hide ApplyInbound, DiskInv, InStep, Indexes, Reserved, KeysKnown;
    DiskParts(cfg, d, done, {u});
    OnePending(m, d, done, {u});
    assert u in {u};
    ApplyOnePending(m.state, m.fallback, u);
  }

  lemma DiskParts(cfg: Config, d: Disk, done: set<Envelope>, open: set<Envelope>)
    requires DiskInv(cfg, d, done, open)
    ensures Rows(d.inbox, done, open) && Distinct(done + open) && open !! done
        && StateInv(cfg, Base(cfg, d), done, open)
  {}

  /** The parts of the invariant that a commit leaves alone. */
  lemma CommitRest(cfg: Config, m: Memory, d: Disk, done: set<Envelope>, u: Envelope)
    requires ClientInv(cfg, m, d, done, {u})
    ensures Distinct(done + {u}) && Rows(d.inbox, done + {u}, {})
  {
    hide Distinct, StateInv, InStep, Indexes, Reserved, KeysKnown, PendingIs;
  }

  lemma CommitFits(cfg: Config, m: Memory, d: Disk, done: set<Envelope>, u: Envelope, m': Memory, d': Disk)
    requires ClientInv(cfg, m, d, done, {u})
    requires var st := ApplyInbound(m.state, m.fallback, u);
      m' == m.(state := st, pending := map[], pendingSave := false, fallback := 0) && d' == Saved(d, st)
    requires StateInv(cfg, ApplyInbound(View(m.state), m.fallback, u), done + {u}, {})
    requires Distinct(done + {u}) && Rows(d.inbox, done + {u}, {})
    ensures ClientInv(cfg, m', d', done + {u}, {})
  {
    hide *;
    ApplyView(m.state, m.fallback, u);
    ClientParts(cfg, m, d, done, {u});
    OpenIsIndexed(m, d.inbox, done, {u}, u);
    ReservedGrows(m, m', u);
    KeysGrow(cfg, m, m', d.inbox, u);
    SavedInStep(cfg, m, d, m', d');
    DiskFits(cfg, d', done + {u});
    assert done + {u} + {} == done + {u};
    SameIndexes(m, m', d.inbox, done + {u});
    NothingPending(m');
    ClientFits(cfg, m', d', done + {u}, {});
  }

  lemma SavedInStep(cfg: Config, m: Memory, d: Disk, m': Memory, d': Disk)
    requires InStep(cfg, m, d) && d' == Saved(d, m'.state)
    requires m'.state.streams != map[] && m'.fallback == 0
    requires m'.state.cursor.minSchema == m.state.cursor.minSchema
        && m'.state.cursor.maxSchema == m.state.cursor.maxSchema
    ensures InStep(cfg, m', d') && Base(cfg, d') == View(m'.state) && d'.inbox == d.inbox
  {
    SavedBase(cfg, d, m'.state);
  }

  lemma SameIndexes(m: Memory, m': Memory, inbox: map<string, Envelope>, all: set<Envelope>)
    requires Indexes(m, inbox, all) && m'.byId == m.byId && m'.byKey == m.byKey && m'.bySeq == m.bySeq
    ensures Indexes(m', inbox, all)
  {}

  lemma NothingPending(m: Memory)
    requires m.pending == map[] && !m.pendingSave
    ensures PendingIs(m, {})
  {}

  lemma ClientParts(cfg: Config, m: Memory, d: Disk, done: set<Envelope>, open: set<Envelope>)
    requires ClientInv(cfg, m, d, done, open)
    ensures DiskInv(cfg, d, done, open) && InStep(cfg, m, d) && Base(cfg, d) == View(m.state)
    ensures Indexes(m, d.inbox, done + open) && PendingIs(m, open) && Reserved(m) && KeysKnown(cfg, m, d.inbox, open)
    ensures Rows(d.inbox, done, open) && Distinct(done + open) && open !! done
        && StateInv(cfg, View(m.state), done, open)
    ensures m.fallback == if m.state.streams == map[] then m.state.cursor.last else 0
  {
    hide Rows, Indexes, Reserved, StateInv, Distinct, PendingIs, KeysKnown, Loaded;
  }

  lemma ClientFits(cfg: Config, m: Memory, d: Disk, done: set<Envelope>, open: set<Envelope>)
    requires DiskInv(cfg, d, done, open) && InStep(cfg, m, d)
    requires Indexes(m, d.inbox, done + open) && PendingIs(m, open) && Reserved(m) && KeysKnown(cfg, m, d.inbox, open)
    ensures ClientInv(cfg, m, d, done, open)
  {
    hide DiskInv, InStep, Indexes, PendingIs, Reserved, KeysKnown;
  }

  lemma StateParts(cfg: Config, st: State, done: set<Envelope>, open: set<Envelope>)
    requires StateInv(cfg, st, done, open)
    ensures Summaries(st, done) && Shapes(cfg, st) && CursorTracks(st) && Listed(st, done, open)
    ensures forall e | e in done + open :: RowFacts(cfg, st, e)
  {
    hide Summaries, Shapes, CursorTracks, Listed, RowFacts;
  }

  lemma DiskFits(cfg: Config, d: Disk, done: set<Envelope>)
    requires Distinct(done) && Rows(d.inbox, done, {}) && StateInv(cfg, Base(cfg, d), done, {})
    ensures DiskInv(cfg, d, done, {})
  {
    hide Distinct, Rows, StateInv, Base;
    assert done + {} == done;
  }

  lemma ReservedGrows(m: Memory, m': Memory, u: Envelope)
    requires Reserved(m) && u.id in m'.byId && u.key in m'.byKey
    requires m.byId.Keys <= m'.byId.Keys && m.byKey.Keys <= m'.byKey.Keys && m'.heldIds == m.heldIds
        && m'.heldKeys == m.heldKeys
    requires m'.state.cursor.seenIds == m.state.cursor.seenIds + [u.id]
    requires m'.state.cursor.seenKeys == m.state.cursor.seenKeys + [u.key]
    ensures Reserved(m')
  {}

  lemma KeysGrow(cfg: Config, m: Memory, m': Memory, inbox: map<string, Envelope>, u: Envelope)
    requires KeysKnown(cfg, m, inbox, {u})
    requires m'.state.untrusted == m.state.untrusted && m'.state.streams.Keys == m.state.streams.Keys + {Sid(u)}
    ensures KeysKnown(cfg, m', inbox, {})
  {
    hide Verify;
    assert u in {u};
  }

  // ---------------------------------------------------------------- writing the row

  /** What Receive knows of an envelope when it writes its row. */
  ghost predicate Admissible(cfg: Config, m: Memory, done: set<Envelope>, e: Envelope) {
    && (forall f | f in done :: e.id != f.id && e.key != f.key && SeqId(e) != SeqId(f))
    && e.id !in m.byId && e.key !in m.byKey && SeqId(e) !in m.bySeq
    && e.id !in m.state.cursor.seenIds && e.key !in m.state.cursor.seenKeys
    && e.keyId in cfg.trusted && Verify(cfg.prims, e, cfg.trusted) && Sid(e) !in m.state.untrusted
    && RowFacts(cfg, View(m.state), e) && OnRoute(cfg, Sid(e))
  }

  lemma UnheldUnseen(m: Memory, e: Envelope)
    requires Reserved(m) && e.id !in m.byId && e.key !in m.byKey && e.id !in m.heldIds && e.key !in m.heldKeys
    ensures e.id !in m.state.cursor.seenIds && e.key !in m.state.cursor.seenKeys
  {}

  /** Nothing was pending: the checks are all that is needed. */
  lemma FreshAdmissible(cfg: Config, m: Memory, d: Disk, done: set<Envelope>, open: set<Envelope>, e: Envelope)
    requires ClientInv(cfg, m, d, done, open) && Classify(cfg, m, e) == Fresh
    ensures Admissible(cfg, m, done + open, e)
  {
    hide ClientInv, Classify, RowFacts, OnRoute, Verify, Reserves;
    forall f | f in done + open ensures e.id != f.id && e.key != f.key && SeqId(e) != SeqId(f) {
      FreshIsNew(cfg, m, d, done, open, e, f);
    }
    FreshPassed(cfg, m, e);
    ClientParts(cfg, m, d, done, open);
    hide Rows, Indexes, PendingIs, KeysKnown, DiskInv, StateInv, Distinct, Reserved;
    UnheldUnseen(m, e);
  }

  /** The pending envelope was committed between the checks and the row: they
      still hold of what the commit left. */
  lemma AdmissibleAfterCommit(cfg: Config, m: Memory, all: set<Envelope>, e: Envelope, u: Envelope, m': Memory)
    requires Admissible(cfg, m, all, e) && u in all
    requires m'.byId == m.byId && m'.byKey == m.byKey && m'.bySeq == m.bySeq
    requires m'.state == ApplyInbound(m.state, m.fallback, u)
    ensures Admissible(cfg, m', all, e)
  {
    hide ApplyInbound, RowFacts, OnRoute, Verify, SeqId;
    ApplyView(m.state, m.fallback, u);
    RowFactsDepend(cfg, View(m.state), View(m'.state), {e});
  }

  /** The memory and disk once the row is durable and marked pending. */
  function Marked(m: Memory, e: Envelope): Memory {
    Indexed(m, e).(pending := m.pending[e.id := e], pendingSave := true)
  }

  function Written(d: Disk, e: Envelope): Disk { d.(inbox := d.inbox[e.id := e]) }

  /** A durable row that is not yet saved is exactly one unsaved envelope. */
  lemma MarkKeeps(cfg: Config, m: Memory, d: Disk, done: set<Envelope>, e: Envelope)
    requires ClientInv(cfg, m, d, done, {}) && Admissible(cfg, m, done, e)
    ensures ClientInv(cfg, Marked(m, e), Written(d, e), done, {e})
    ensures e !in done && e.id !in d.inbox && m.pending == map[]
  {
    hide *;
    ClientParts(cfg, m, d, done, {});
    OnePending(m, d, done, {});
    AdmissibleParts(cfg, m, done, e);
    assert done + {} == done;
    NewToIndexes(m, d.inbox, done, e);
    MarkDistinct(done, e);
    MarkRows(d.inbox, done, e);
    MarkState(cfg, m, done, e);
    MarkIndexes(m, d.inbox, done, e);
    MarkPending(m, e);
    MarkKeys(cfg, m, d.inbox, e);
    MarkStep(cfg, m, d, e);
    MarkDisk(cfg, Written(d, e), done, e);
    ClientFits(cfg, Marked(m, e), Written(d, e), done, {e});
  }

  lemma AdmissibleParts(cfg: Config, m: Memory, done: set<Envelope>, e: Envelope)
    requires Admissible(cfg, m, done, e)
    ensures forall f | f in done :: e.id != f.id && e.key != f.key && SeqId(e) != SeqId(f)
    ensures e.id !in m.byId && e.key !in m.byKey && SeqId(e) !in m.bySeq
    ensures e.keyId in cfg.trusted && Verify(cfg.prims, e, cfg.trusted) && Sid(e) !in m.state.untrusted
  {
    hide RowFacts, OnRoute, Verify, SeqId;
  }

  lemma NewToIndexes(m: Memory, inbox: map<string, Envelope>, done: set<Envelope>, e: Envelope)
    requires Indexes(m, inbox, done) && e.id !in m.byId
    requires forall f | f in done :: e.id != f.id
    ensures e !in done && e.id !in inbox
  {}

  lemma MarkDistinct(done: set<Envelope>, e: Envelope)
    requires Distinct(done)
    requires forall f | f in done :: e.id != f.id && e.key != f.key && SeqId(e) != SeqId(f)
    ensures Distinct(done + {e})
  {
    hide SeqId;
  }

  lemma MarkRows(inbox: map<string, Envelope>, done: set<Envelope>, e: Envelope)
    requires Rows(inbox, done, {})
    ensures Rows(inbox[e.id := e], done, {e})
  {}

  lemma MarkState(cfg: Config, m: Memory, done: set<Envelope>, e: Envelope)
    requires StateInv(cfg, View(m.state), done, {}) && Admissible(cfg, m, done, e)
    ensures StateInv(cfg, View(m.state), done, {e})
  {
    hide RowFacts, OnRoute, Verify, Summaries, Shapes, CursorTracks;
  }

  lemma MarkIndexes(m: Memory, inbox: map<string, Envelope>, done: set<Envelope>, e: Envelope)
    requires Indexes(m, inbox, done)
    requires e.id !in m.byId && e.key !in m.byKey && SeqId(e) !in m.bySeq
    ensures Indexes(Marked(m, e), inbox[e.id := e], done + {e})
  {
    hide SeqId, IdIndex, KeyIndex, SeqIndex;
    MarkIdIndex(m, done, e);
    MarkKeyIndex(m, done, e);
    MarkSeqIndex(m, done, e);
  }

  lemma MarkIdIndex(m: Memory, done: set<Envelope>, e: Envelope)
    requires IdIndex(m, done)
    ensures IdIndex(Marked(m, e), done + {e})
  {
    hide SeqId;
  }

  lemma MarkKeyIndex(m: Memory, done: set<Envelope>, e: Envelope)
    requires KeyIndex(m, done)
    ensures KeyIndex(Marked(m, e), done + {e})
  {
    hide SeqId;
  }

  lemma MarkSeqIndex(m: Memory, done: set<Envelope>, e: Envelope)
    requires SeqIndex(m, done)
    ensures SeqIndex(Marked(m, e), done + {e})
  {
    hide SeqId;
  }

  lemma MarkPending(m: Memory, e: Envelope)
    requires m.pending == map[] && Reserved(m)
    ensures PendingIs(Marked(m, e), {e}) && Reserved(Marked(m, e))
  {
    hide SeqId;
  }

  lemma MarkKeys(cfg: Config, m: Memory, inbox: map<string, Envelope>, e: Envelope)
    requires KeysKnown(cfg, m, inbox, {})
    requires e.keyId in cfg.trusted && Verify(cfg.prims, e, cfg.trusted) && Sid(e) !in m.state.untrusted
    ensures KeysKnown(cfg, Marked(m, e), inbox[e.id := e], {e})
  {
    hide Verify;
  }

  lemma MarkStep(cfg: Config, m: Memory, d: Disk, e: Envelope)
    requires InStep(cfg, m, d)
    ensures InStep(cfg, Marked(m, e), Written(d, e))
        && Base(cfg, Written(d, e)) == Base(cfg, d) == View(m.state) == View(Marked(m, e).state)
    ensures Written(d, e).inbox == d.inbox[e.id := e]
  {}

  lemma MarkDisk(cfg: Config, d: Disk, done: set<Envelope>, e: Envelope)
    requires Distinct(done + {e}) && e !in done && Rows(d.inbox, done, {e}) && StateInv(cfg, Base(cfg, d), done, {e})
    ensures DiskInv(cfg, d, done, {e})
  {
    hide Distinct, Rows, StateInv, Base;
  }

  // ---------------------------------------------------------------- Receive

  /** Writing the row and saving is marking it and then committing it. */
  lemma AdmitCases(m: Memory, d: Disk, e: Envelope, outcome: Outcome, io: Io)
    requires m.pending == map[] && e.id !in d.inbox
    ensures !io.create ==> Admit(m, d, e, outcome, io) == Received(m, d, IoError)
    ensures io.create && !io.save ==> Admit(m, d, e, outcome, io) == Received(Marked(m, e), Written(d, e), IoError)
    ensures io.create && io.save ==>
      var (m', d') := Commit(Marked(m, e), Written(d, e), true);
      Admit(m, d, e, outcome, io) == Received(m', d', Done(outcome))
  {
    ApplyOnePending(m.state, m.fallback, e);
    hide ApplyInbound;
    assert m.pending[e.id := e] == map[e.id := e] && m.pending - {e.id} == map[];
  }

  /** The envelopes admitted once an operation has left `d` on disk, and those of
      them that the saved state does not yet account for. */
  ghost function AllAfter(all: set<Envelope>, d: Disk): set<Envelope> { all + d.inbox.Values }

  ghost predicate Holds(cfg: Config, m: Memory, d: Disk, all: set<Envelope>) {
    ClientInv(cfg, m, d, AllAfter(all, d) - m.pending.Values, m.pending.Values)
  }

  lemma HoldsWhen(cfg: Config, m: Memory, d: Disk, all: set<Envelope>, done: set<Envelope>, open: set<Envelope>)
    requires ClientInv(cfg, m, d, done, open)
    requires all <= done + open && forall e | e in done + open :: e in all || e in d.inbox.Values
    ensures Holds(cfg, m, d, all) && AllAfter(all, d) == done + open && m.pending.Values == open
  {
    hide *;
    ClientParts(cfg, m, d, done, open);
    OnePending(m, d, done, open);
    RowsAdmitted(d.inbox, done, open);
    SameHistory(cfg, m, d, all, done, open);
  }

  lemma RowsAdmitted(inbox: map<string, Envelope>, done: set<Envelope>, open: set<Envelope>)
    requires Rows(inbox, done, open)
    ensures inbox.Values <= done + open
  {}

  lemma SameHistory(cfg: Config, m: Memory, d: Disk, all: set<Envelope>, done: set<Envelope>, open: set<Envelope>)
    requires ClientInv(cfg, m, d, done, open) && d.inbox.Values <= done + open && m.pending.Values == open
        && open !! done
    requires all <= done + open && forall e | e in done + open :: e in all || e in d.inbox.Values
    ensures Holds(cfg, m, d, all) && AllAfter(all, d) == done + open
  {
    hide ClientInv;
    assert AllAfter(all, d) == done + open;
    assert done + open - open == done;
  }

  /** Whatever Receive is given and whichever of its writes fail, the invariant
      stays; an envelope is reported accepted only if it is new to the history
      and its row is durable. */
  lemma ReceiveKeeps(cfg: Config, m: Memory, d: Disk, done: set<Envelope>, open: set<Envelope>, e: Envelope, io: Io)
    requires ClientInv(cfg, m, d, done, open)
    ensures Kept(cfg, done + open, e, d, Receive(cfg, m, d, e, io))
  {
    hide *;
    if Classify(cfg, m, e) == Fresh {
      FreshKeeps(cfg, m, d, done, open, e, io);
    } else {
      ClientParts(cfg, m, d, done, open);
      OnePending(m, d, done, open);
      ReceiveOld(cfg, m, d, e, io);
      HoldsWhen(cfg, m, d, done + open, done, open);
      var (m', d') := Commit(m, d, true);
      if u :| u in open {
        CommitKeeps(cfg, m, d, done, u);
        HoldsWhen(cfg, m', d', done + open, done + {u}, {});
      }
      OldKept(cfg, done + open, e, d, Receive(cfg, m, d, e, io));
    }
  }

  lemma OldKept(cfg: Config, all: set<Envelope>, e: Envelope, d: Disk, r: Received)
    requires Holds(cfg, r.memory, r.disk, all) && r.verdict != Done(Accepted) && r.verdict != Done(Reordered)
    requires r.disk.outbox == d.outbox
    ensures Kept(cfg, all, e, d, r)
  {
    hide Holds;
  }

  /** An envelope that some check stops is never accepted, and at most the pending
      envelope is committed on its account. */
  lemma ReceiveOld(cfg: Config, m: Memory, d: Disk, e: Envelope, io: Io)
    requires Classify(cfg, m, e) != Fresh && (m.pendingSave <==> m.pending != map[])
    ensures var r := Receive(cfg, m, d, e, io);
      && ((r.memory == m && r.disk == d)
          || (m.pending != map[] && io.commit && (r.memory, r.disk) == Commit(m, d, true)))
      && r.verdict != Done(Accepted) && r.verdict != Done(Reordered)
  {
    hide Verify, ValidFields, ApplyPending;
  }

  /** An envelope every check lets through is admitted on top of the pending one. */
  lemma ReceiveFresh(cfg: Config, m: Memory, d: Disk, e: Envelope, io: Io) returns (outcome: Outcome)
    requires Classify(cfg, m, e) == Fresh && (m.pendingSave <==> m.pending != map[])
    ensures m.pending != map[] && !io.commit ==> Receive(cfg, m, d, e, io) == Received(m, d, IoError)
    ensures m.pending == map[] ==> Receive(cfg, m, d, e, io) == Admit(m, d, e, outcome, io)
    ensures m.pending != map[] && io.commit ==>
      var (m', d') := Commit(m, d, true); Receive(cfg, m, d, e, io) == Admit(m', d', e, outcome, io)
    ensures outcome == Accepted || outcome == Reordered
  {
    hide Classify, ApplyPending, Admit;
    var m' := if m.pendingSave then Commit(m, d, io.commit).0 else m;
    outcome := if StreamOf(m.state.streams, Sid(e)).last == 0 && m'.fallback > 0 && e.seqno <= m'.fallback
        then Reordered else Accepted;
  }

  /** What Receive promises of one envelope, given the envelopes admitted before. */
  ghost predicate Kept(cfg: Config, all: set<Envelope>, e: Envelope, d: Disk, r: Received) {
    && Holds(cfg, r.memory, r.disk, all)
    && (r.verdict == Done(Accepted) || r.verdict == Done(Reordered) ==> e !in all && e in AllAfter(all, r.disk))
    && r.disk.outbox == d.outbox
  }

  lemma FreshKeeps(cfg: Config, m: Memory, d: Disk, done: set<Envelope>, open: set<Envelope>, e: Envelope, io: Io)
    requires ClientInv(cfg, m, d, done, open) && Classify(cfg, m, e) == Fresh
    ensures Kept(cfg, done + open, e, d, Receive(cfg, m, d, e, io))
  {
    hide *;
    ClientParts(cfg, m, d, done, open);
    OnePending(m, d, done, open);
    var outcome := ReceiveFresh(cfg, m, d, e, io);
    if m.pending == map[] {
      FreshAdmissible(cfg, m, d, done, open, e);
      assert done + open == done;
      AdmitKeeps(cfg, m, d, done, e, outcome, io);
    } else if io.commit {
      var u :| u in open;
      FreshAfterCommit(cfg, m, d, done, u, e, outcome, io);
    } else {
      HoldsWhen(cfg, m, d, done + open, done, open);
      NothingAdmitted(cfg, done + open, e, d, m);
    }
  }

  lemma NothingAdmitted(cfg: Config, all: set<Envelope>, e: Envelope, d: Disk, m: Memory)
    requires Holds(cfg, m, d, all)
    ensures Kept(cfg, all, e, d, Received(m, d, IoError))
  {
    hide Holds;
  }

  lemma FreshAfterCommit(cfg: Config, m: Memory, d: Disk, done: set<Envelope>, u: Envelope, e: Envelope,
      outcome: Outcome, io: Io)
    requires ClientInv(cfg, m, d, done, {u}) && Classify(cfg, m, e) == Fresh
    ensures var (m', d') := Commit(m, d, true); Kept(cfg, done + {u}, e, d, Admit(m', d', e, outcome, io))
  {
    hide *;
    FreshAdmissible(cfg, m, d, done, {u}, e);
    CommitKeeps(cfg, m, d, done, u);
    var (m', d') := Commit(m, d, true);
    AdmissibleAfterCommit(cfg, m, done + {u}, e, u, m');
    AdmitKeeps(cfg, m', d', done + {u}, e, outcome, io);
    SameOutbox(cfg, done + {u}, e, d, d', Admit(m', d', e, outcome, io));
  }

  lemma SameOutbox(cfg: Config, all: set<Envelope>, e: Envelope, d: Disk, d': Disk, r: Received)
    requires Kept(cfg, all, e, d', r) && d'.outbox == d.outbox
    ensures Kept(cfg, all, e, d, r)
  {
    hide Holds;
  }

  lemma AdmitKeeps(cfg: Config, m: Memory, d: Disk, done: set<Envelope>, e: Envelope, outcome: Outcome, io: Io)
    requires ClientInv(cfg, m, d, done, {}) && Admissible(cfg, m, done, e)
    ensures Kept(cfg, done, e, d, Admit(m, d, e, outcome, io))
  {
    hide *;
    MarkKeeps(cfg, m, d, done, e);
    AdmitCases(m, d, e, outcome, io);
    WrittenHas(d, e);
    if io.create && io.save {
      CommitKeeps(cfg, Marked(m, e), Written(d, e), done, e);
      var (m', d') := Commit(Marked(m, e), Written(d, e), true);
      HoldsWhen(cfg, m', d', done, done + {e}, {});
      Admitted(cfg, done, e, d, m', d', Done(outcome));
    } else if io.create {
      HoldsWhen(cfg, Marked(m, e), Written(d, e), done, done, {e});
      Admitted(cfg, done, e, d, Marked(m, e), Written(d, e), IoError);
    } else {
      HoldsWhen(cfg, m, d, done, done, {});
      NothingAdmitted(cfg, done, e, d, m);
    }
  }

  lemma Admitted(cfg: Config, done: set<Envelope>, e: Envelope, d: Disk, m': Memory, d': Disk, verdict: Verdict)
    requires Holds(cfg, m', d', done) && e !in done && e in d'.inbox.Values && d'.outbox == d.outbox
    ensures Kept(cfg, done, e, d, Received(m', d', verdict))
  {
    hide Holds;
  }

  lemma WrittenHas(d: Disk, e: Envelope)
    ensures e in Written(d, e).inbox.Values && Written(d, e).outbox == d.outbox
  {
    assert Written(d, e).inbox[e.id] == e;
  }

  // ---------------------------------------------------------------- what does not concern the inbox

  /** The disk invariant does not depend on the configured keys. */
  lemma DiskInvAnyKeys(cfg: Config, keys: map<string, string>, d: Disk, done: set<Envelope>, open: set<Envelope>)
    ensures DiskInv(cfg.(trusted := keys), d, done, open) <==> DiskInv(cfg, d, done, open)
  {
    hide Distinct, Rows, Summaries, CursorTracks, Listed, Canonical, ValidFields;
    assert Base(cfg.(trusted := keys), d) == Base(cfg, d);
    SameShapes(cfg, keys, Base(cfg, d));
    hide Base, Shapes;
  }

  lemma SameShapes(cfg: Config, keys: map<string, string>, st: State)
    ensures Shapes(cfg.(trusted := keys), st) <==> Shapes(cfg, st)
  {
    hide Settled;
    assert forall s :: OnRoute(cfg.(trusted := keys), s) == OnRoute(cfg, s);
  }

  /** Producing and acknowledging move only the sequence counters. */
  lemma CountersKeep(cfg: Config, m: Memory, d: Disk, m': Memory, d': Disk, done: set<Envelope>, open: set<Envelope>)
    requires ClientInv(cfg, m, d, done, open)
    requires m' == m.(state := m'.state) && View(m'.state) == View(m.state)
    requires d'.inbox == d.inbox && (d'.state == d.state || d'.state == Some(m'.state))
    ensures ClientInv(cfg, m', d', done, open)
  {
    hide *;
    ClientParts(cfg, m, d, done, open);
    CountersStep(cfg, m, d, m', d');
    DiskMoves(cfg, d, d', done, open);
    SameIndexes(m, m', d.inbox, done + open);
    CountersRest(cfg, m, m', d.inbox, open);
    ClientFits(cfg, m', d', done, open);
  }

  lemma CountersStep(cfg: Config, m: Memory, d: Disk, m': Memory, d': Disk)
    requires InStep(cfg, m, d) && m' == m.(state := m'.state) && View(m'.state) == View(m.state)
    requires d'.state == d.state || d'.state == Some(m'.state)
    ensures InStep(cfg, m', d') && Base(cfg, d') == Base(cfg, d)
  {
    assert m'.state.cursor == View(m'.state).cursor && m'.state.streams == View(m'.state).streams;
    assert m.state.cursor == View(m.state).cursor && m.state.streams == View(m.state).streams;
  }

  lemma DiskMoves(cfg: Config, d: Disk, d': Disk, done: set<Envelope>, open: set<Envelope>)
    requires DiskInv(cfg, d, done, open) && Base(cfg, d') == Base(cfg, d) && d'.inbox == d.inbox
    ensures DiskInv(cfg, d', done, open)
  {
    hide Base, Distinct, Rows, StateInv;
  }

  lemma CountersRest(cfg: Config, m: Memory, m': Memory, inbox: map<string, Envelope>, open: set<Envelope>)
    requires PendingIs(m, open) && Reserved(m) && KeysKnown(cfg, m, inbox, open)
    requires m' == m.(state := m'.state) && View(m'.state) == View(m.state)
    ensures PendingIs(m', open) && Reserved(m') && KeysKnown(cfg, m', inbox, open)
  {
    hide Verify;
    assert m'.state.cursor == View(m'.state).cursor == m.state.cursor;
    assert m'.state.streams == View(m'.state).streams == m.state.streams;
    assert m'.state.untrusted == View(m'.state).untrusted == m.state.untrusted;
  }

  // ---------------------------------------------------------------- expiry

  function Without(d: Disk, id: string): Disk { d.(inbox := d.inbox - {id}) }

  lemma ExpiryKeepsDisk(cfg: Config, d: Disk, id: string, done: set<Envelope>, open: set<Envelope>)
    requires DiskInv(cfg, d, done, open) && id in d.inbox && d.inbox[id] !in open
    ensures DiskInv(cfg, Without(d, id), done, open)
  {
    hide Distinct, StateInv, Loaded;
    assert Base(cfg, Without(d, id)) == Base(cfg, d) by { LoadedIgnoresInbox(cfg, d, id); }
    hide Base;
    forall e | e in open ensures e.id in Without(d, id).inbox {
      assert e.id in d.inbox && d.inbox[e.id] == e;
    }
  }

  lemma LoadedIgnoresInbox(cfg: Config, d: Disk, id: string)
    ensures Loaded(cfg, Without(d, id)) == Loaded(cfg, d)
  {}

  lemma ExpiryKeeps(cfg: Config, m: Memory, d: Disk, id: string, done: set<Envelope>, open: set<Envelope>)
    requires ClientInv(cfg, m, d, done, open) && id in d.inbox && d.inbox[id] !in open
    ensures ClientInv(cfg, m, Without(d, id), done, open)
  {
    hide *;
    ClientParts(cfg, m, d, done, open);
    ExpiryKeepsDisk(cfg, d, id, done, open);
    ExpiryRest(cfg, m, d, id, done, open);
    ClientFits(cfg, m, Without(d, id), done, open);
  }

  lemma ExpiryRest(cfg: Config, m: Memory, d: Disk, id: string, done: set<Envelope>, open: set<Envelope>)
    requires Indexes(m, d.inbox, done + open) && KeysKnown(cfg, m, d.inbox, open) && InStep(cfg, m, d)
    ensures Indexes(m, Without(d, id).inbox, done + open) && KeysKnown(cfg, m, Without(d, id).inbox, open)
    ensures InStep(cfg, m, Without(d, id))
  {
    LoadedIgnoresInbox(cfg, d, id);
    hide Verify, IdIndex, KeyIndex, SeqIndex, Loaded;
  }
}
