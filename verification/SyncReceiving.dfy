/** What Receive answers, exactly, in terms of the response and the history before it,
    and so which responses let Sync acknowledge anything. */
module SyncReceiving {
  import opened Wrappers
  import opened Envelopes
  import opened SyncState
  import opened SyncInbound
  import opened SyncRuns
  import opened SyncTheorems
  import SyncDraining
  import SC = SyncClient

  const WORKS := Io(true, true, true)

  /** Nothing admitted shares an identity with the envelope, none of its identities is
      held without a row, and its sequence is not below the floor. */
  ghost predicate New(m: Memory, all: set<Envelope>, e: Envelope) {
    && e.seqno >= m.state.cursor.floor && e.id !in m.heldIds && e.key !in m.heldKeys
    && forall f | f in all :: !SharesIdentity(e, f)
  }

  /** In order, and either known already or new. `rows` are the envelopes the client
      knows in full, `all` those it has ever admitted. */
  ghost predicate Receivable(cfg: Config, m: Memory, rows: set<Envelope>, all: set<Envelope>, e: Envelope) {
    Presentable(cfg, m.state, e) && (e in rows || New(m, all, e))
  }

  /** Each envelope of a response, given those before it. */
  ghost predicate AllReceivable(cfg: Config, m: Memory, rows: set<Envelope>, all: set<Envelope>, inbound: seq<Envelope>)
    decreases |inbound|
  {
    inbound == []
    || (Receivable(cfg, m, rows, all, inbound[0])
        && AllReceivable(cfg, m, rows + {inbound[0]}, all + {inbound[0]}, inbound[1..]))
  }

  // ---------------------------------------------------------------- one envelope

  /** Receive knows exactly the envelopes of its index, and takes for fresh exactly
      those that are new to everything ever admitted. */
  lemma ClassifiedExactly(cfg: Config, m: Memory, d: Disk, done: set<Envelope>, open: set<Envelope>, e: Envelope)
    requires ClientInv(cfg, m, d, done, open)
    ensures Classify(cfg, m, e) == Known <==> Presentable(cfg, m.state, e) && e in m.byId.Values
    ensures Classify(cfg, m, e) == Fresh <==>
      Presentable(cfg, m.state, e) && e !in m.byId.Values && New(m, done + open, e)
  {
    hide *;
    ClientParts(cfg, m, d, done, open);
    StateParts(cfg, View(m.state), done, open);
    var all := done + open;
    KnownMeans(cfg, m, d.inbox, all, e);
    NewNotIndexed(m, d.inbox, all, e);
    NewNotReserved(m, done, all, e);
    NewParts(m, all, e);
    IndexValues(m, d.inbox, all, e);
    FreshWhen(cfg, m, e);
    if Classify(cfg, m, e) == Fresh {
      forall f | f in all ensures !SharesIdentity(e, f) {
        FreshIsNew(cfg, m, d, done, open, e, f);
        IdentityMeans(e, f);
      }
      NewWhen(m, all, e);
    }
  }

  lemma KnownMeans(cfg: Config, m: Memory, inbox: map<string, Envelope>, all: set<Envelope>, e: Envelope)
    requires Indexes(m, inbox, all)
    ensures Classify(cfg, m, e) == Known <==> Presentable(cfg, m.state, e) && e in m.byId.Values
  {
    hide *;
    KnownWhen(cfg, m, e);
    IndexValues(m, inbox, all, e);
  }

  /** One index after the other is asked. */
  lemma KnownWhen(cfg: Config, m: Memory, e: Envelope)
    ensures Classify(cfg, m, e) == Known <==>
      && Presentable(cfg, m.state, e)
      && if e.id in m.byId then m.byId[e.id] == e
         else if e.key in m.byKey then m.byKey[e.key] == e
         else SeqId(e) in m.bySeq && m.bySeq[SeqId(e)] == e
  {
    hide Verify, ValidFields, Reserves, SeqId;
  }

  lemma IndexValues(m: Memory, inbox: map<string, Envelope>, all: set<Envelope>, e: Envelope)
    requires Indexes(m, inbox, all)
    ensures e in m.byId.Values <==> e.id in m.byId && m.byId[e.id] == e
    ensures e.key in m.byKey && m.byKey[e.key] == e ==> e.id in m.byId
    ensures SeqId(e) in m.bySeq && m.bySeq[SeqId(e)] == e ==> e.id in m.byId
    ensures e in m.byId.Values ==> e in all
  {
    IdValues(m, all, e);
    hide SeqId, IdIndex;
  }

  lemma IdValues(m: Memory, all: set<Envelope>, e: Envelope)
    requires IdIndex(m, all)
    ensures e in m.byId.Values <==> e.id in m.byId && m.byId[e.id] == e
    ensures e in m.byId.Values ==> e in all
  {
    hide SeqId;
    if e in m.byId.Values { var id :| id in m.byId && m.byId[id] == e; }
  }

  lemma NewNotIndexed(m: Memory, inbox: map<string, Envelope>, all: set<Envelope>, e: Envelope)
    requires Indexes(m, inbox, all)
    ensures New(m, all, e) ==> e.id !in m.byId && e.key !in m.byKey && SeqId(e) !in m.bySeq
  {
    hide IdIndex, KeyIndex, SeqIndex, SeqId, SharesIdentity;
    if e.id in m.byId { SharedId(m, all, e); }
    if e.key in m.byKey { SharedKey(m, all, e); }
    if SeqId(e) in m.bySeq { SharedSeq(m, all, e); }
  }

  lemma SharedId(m: Memory, all: set<Envelope>, e: Envelope)
    requires IdIndex(m, all) && e.id in m.byId
    ensures m.byId[e.id] in all && SharesIdentity(e, m.byId[e.id])
  {
    hide SeqId;
  }

  lemma SharedKey(m: Memory, all: set<Envelope>, e: Envelope)
    requires KeyIndex(m, all) && e.key in m.byKey
    ensures m.byKey[e.key] in all && SharesIdentity(e, m.byKey[e.key])
  {
    hide SeqId;
  }

  lemma SharedSeq(m: Memory, all: set<Envelope>, e: Envelope)
    requires SeqIndex(m, all) && SeqId(e) in m.bySeq
    ensures m.bySeq[SeqId(e)] in all && SharesIdentity(e, m.bySeq[SeqId(e)])
  {
    hide SeqId;
  }

  lemma NewParts(m: Memory, all: set<Envelope>, e: Envelope)
    ensures New(m, all, e) ==> e.seqno >= m.state.cursor.floor && e.id !in m.heldIds && e.key !in m.heldKeys
  {
    hide SharesIdentity;
  }

  lemma NewNotReserved(m: Memory, done: set<Envelope>, all: set<Envelope>, e: Envelope)
    requires Summaries(View(m.state), done) && done <= all
    ensures New(m, all, e) ==> !Reserves(StreamOf(m.state.streams, Sid(e)), e.seqno)
  {
    hide Reserves;
    assert Covers(StreamOf(View(m.state).streams, Sid(e)), Seqs(done, Sid(e)));
    if e.seqno in Seqs(done, Sid(e)) {
      var f :| f in done && Sid(f) == Sid(e) && f.seqno == e.seqno;
      assert SharesIdentity(e, f);
    }
  }

  lemma FreshWhen(cfg: Config, m: Memory, e: Envelope)
    ensures (&& Presentable(cfg, m.state, e) && e.seqno >= m.state.cursor.floor
             && e.id !in m.byId && e.key !in m.byKey && SeqId(e) !in m.bySeq
             && e.id !in m.heldIds && e.key !in m.heldKeys
             && !Reserves(StreamOf(m.state.streams, Sid(e)), e.seqno)) <==> Classify(cfg, m, e) == Fresh
  {
    hide Verify, ValidFields, Reserves, SeqId;
  }

  lemma NewWhen(m: Memory, all: set<Envelope>, e: Envelope)
    requires e.seqno >= m.state.cursor.floor && e.id !in m.heldIds && e.key !in m.heldKeys
    requires forall f | f in all :: !SharesIdentity(e, f)
    ensures New(m, all, e)
  {}

  // ---------------------------------------------------------------- one call

  /** What the checks look at besides indexes and streams. */
  ghost predicate SameChecks(m: Memory, n: Memory) {
    && n.heldIds == m.heldIds && n.heldKeys == m.heldKeys && n.state.untrusted == m.state.untrusted
    && n.state.cursor.minSchema == m.state.cursor.minSchema && n.state.cursor.maxSchema == m.state.cursor.maxSchema
    && n.state.cursor.floor == m.state.cursor.floor
  }

  lemma SameReceivable(cfg: Config, m: Memory, n: Memory, rows: set<Envelope>, all: set<Envelope>, e: Envelope)
    requires SameChecks(m, n)
    ensures Receivable(cfg, n, rows, all, e) <==> Receivable(cfg, m, rows, all, e)
  {
    hide Verify, ValidFields, SharesIdentity;
  }

  lemma {:induction false} SameAllReceivable(cfg: Config, m: Memory, n: Memory, rows: set<Envelope>, all: set<Envelope>,
                                             inbound: seq<Envelope>)
    requires SameChecks(m, n)
    ensures AllReceivable(cfg, n, rows, all, inbound) <==> AllReceivable(cfg, m, rows, all, inbound)
    decreases |inbound|
  {
    hide Receivable, SameChecks;
    if inbound != [] {
      SameReceivable(cfg, m, n, rows, all, inbound[0]);
      SameAllReceivable(cfg, m, n, rows + {inbound[0]}, all + {inbound[0]}, inbound[1..]);
    }
  }

  lemma {:induction false} AppliedChecks(st: State, fallback: nat, pending: map<string, Envelope>)
    ensures var t := ApplyPending(st, fallback, pending);
      && t.untrusted == st.untrusted && t.cursor.minSchema == st.cursor.minSchema
      && t.cursor.maxSchema == st.cursor.maxSchema && t.cursor.floor == st.cursor.floor
    decreases pending.Keys
  {
    hide Settle;
    if pending != map[] {
      var id :| id in pending && ApplyPending(st, fallback, pending)
        == ApplyPending(ApplyInbound(st, fallback, pending[id]), fallback, pending - {id});
      assert (pending - {id}).Keys == pending.Keys - {id};
      AppliedChecks(ApplyInbound(st, fallback, pending[id]), fallback, pending - {id});
    }
  }

  lemma CommittedChecks(m: Memory, d: Disk)
    ensures var (m', d') := Commit(m, d, true); SameChecks(m, m') && m'.byId == m.byId && d'.inbox == d.inbox
  {
    AppliedChecks(m.state, m.fallback, m.pending);
    hide ApplyPending;
  }

  lemma KnownAnswer(cfg: Config, m: Memory, d: Disk, e: Envelope)
    requires Classify(cfg, m, e) == Known
    ensures var r := Receive(cfg, m, d, e, WORKS);
      r.verdict == Done(Duplicate) && SameChecks(m, r.memory) && r.memory.byId == m.byId && r.disk.inbox == d.inbox
  {
    CommittedChecks(m, d);
    hide Classify, Commit;
  }

  lemma RefusedAnswer(cfg: Config, m: Memory, d: Disk, e: Envelope)
    requires Classify(cfg, m, e).Refuse?
    ensures !SC.Fine(Receive(cfg, m, d, e, WORKS).verdict)
  {
    RefusalsAre(cfg, m, e);
    hide Classify;
  }

  lemma RefusalsAre(cfg: Config, m: Memory, e: Envelope)
    requires Classify(cfg, m, e).Refuse?
    ensures Classify(cfg, m, e).why !in {Accepted, Reordered, Duplicate}
  {
    hide Verify, ValidFields, Reserves;
  }

  lemma FreshAnswer(cfg: Config, m: Memory, d: Disk, e: Envelope)
    requires Classify(cfg, m, e) == Fresh && e.id !in d.inbox
    ensures var r := Receive(cfg, m, d, e, WORKS);
      && SC.Fine(r.verdict) && SameChecks(m, r.memory)
      && r.memory.byId == m.byId[e.id := e] && r.disk.inbox == d.inbox[e.id := e]
  {
    CommittedChecks(m, d);
    var (m', d') := Commit(m, d, true);
    AdmitAnswer(m', d', e);
    AdmitAnswer(m, d, e);
    hide Classify, Commit, Admit;
  }

  lemma AdmitAnswer(m: Memory, d: Disk, e: Envelope)
    requires e.id !in d.inbox
    ensures forall outcome :: Admit(m, d, e, outcome, WORKS).verdict == Done(outcome)
    ensures forall outcome :: var r := Admit(m, d, e, outcome, WORKS);
      SameChecks(m, r.memory) && r.memory.byId == m.byId[e.id := e] && r.disk.inbox == d.inbox[e.id := e]
  {
    hide Settle;
  }

  /** With writes that succeed, Receive reports no error exactly when the envelope is in
      order and either known or new, and then it is known. */
  lemma ReceivedExactly(cfg: Config, s: Sys, e: Envelope)
    requires Inv(cfg, s) && s.client.Some?
    ensures var sc, m, a := Session(cfg, s), s.client.value, Receives(e, WORKS);
      var r := Receive(sc, m, s.disk, e, WORKS);
      && (SC.Fine(r.verdict) <==> Receivable(sc, m, m.byId.Values, s.admitted, e))
      && Enabled(s, a) && Inv(cfg, Next(cfg, s, a)) && Next(cfg, s, a).client == Some(r.memory)
      && Next(cfg, s, a).keys == s.keys
      && (SC.Fine(r.verdict) ==>
            && SameChecks(m, r.memory) && r.memory.byId.Values == m.byId.Values + {e}
            && Next(cfg, s, a).admitted == s.admitted + {e})
  {
    hide *;
    var sc, m, d, a := Session(cfg, s), s.client.value, s.disk, Receives(e, WORKS);
    var done, open := s.admitted - s.unsaved, s.unsaved;
    InvParts(cfg, s);
    InboundClient(cfg, s);
    ClientParts(sc, m, d, done, open);
    ReceiveEnabled(s, a);
    ReceiveStep(cfg, s, a);
    ReceiveNext(cfg, s, a);
    ClassifiedExactly(sc, m, d, done, open, e);
    ReceivableIs(sc, m, m.byId.Values, s.admitted, e);
    match Classify(sc, m, e)
    case Refuse(_) =>
      RefusedAnswer(sc, m, d, e);
    case Known =>
      KnownAnswer(sc, m, d, e);
      FineDuplicate();
      IndexValues(m, d.inbox, s.admitted, e);
      RowsWithin(d.inbox, done, open);
      NothingMore(m.byId.Values, s.admitted, d, Receive(sc, m, d, e, WORKS).disk, e);
    case Fresh =>
      NotInInbox(m, d.inbox, done, open, e);
      FreshAnswer(sc, m, d, e);
      RowsWithin(d.inbox, done, open);
      OneMore(m.byId, s.admitted, d, Receive(sc, m, d, e, WORKS).disk, e);
      NewNotIndexed(m, d.inbox, s.admitted, e);
  }

  lemma ReceiveEnabled(s: Sys, a: Action)
    requires s.client.Some? && a.Receives?
    ensures Enabled(s, a)
  {}

  lemma ReceivableIs(cfg: Config, m: Memory, rows: set<Envelope>, all: set<Envelope>, e: Envelope)
    ensures Receivable(cfg, m, rows, all, e) <==> Presentable(cfg, m.state, e) && (e in rows || New(m, all, e))
  {
    hide Presentable, New;
  }

  lemma FineDuplicate()
    ensures SC.Fine(Done(Duplicate))
  {}

  lemma RowsWithin(inbox: map<string, Envelope>, done: set<Envelope>, open: set<Envelope>)
    requires Rows(inbox, done, open)
    ensures inbox.Values <= done + open
  {}

  lemma NotInInbox(m: Memory, inbox: map<string, Envelope>, done: set<Envelope>, open: set<Envelope>, e: Envelope)
    requires Rows(inbox, done, open) && New(m, done + open, e)
    ensures e.id !in inbox
  {
    if e.id in inbox {
      assert inbox[e.id] in done + open && inbox[e.id].id == e.id;
      assert SharesIdentity(e, inbox[e.id]);
    }
  }

  lemma NothingMore(rows: set<Envelope>, all: set<Envelope>, d: Disk, d': Disk, e: Envelope)
    requires e in rows && e in all && d'.inbox == d.inbox && d.inbox.Values <= all
    ensures rows + {e} == rows && AllAfter(all, d') == all + {e}
  {}

  lemma OneMore(byId: map<string, Envelope>, all: set<Envelope>, d: Disk, d': Disk, e: Envelope)
    requires e.id !in d.inbox && d'.inbox == d.inbox[e.id := e] && d.inbox.Values <= all
    ensures AllAfter(all, d') == all + {e}
    ensures e.id !in byId ==> byId[e.id := e].Values == byId.Values + {e}
  {
    assert d'.inbox[e.id] == e;
    assert d'.inbox.Values == d.inbox.Values + {e} by {
      forall f | f in d.inbox.Values ensures f in d'.inbox.Values {
        var id :| id in d.inbox && d.inbox[id] == f;
        assert d'.inbox[id] == f;
      }
    }
    if e.id !in byId {
      var more := byId[e.id := e];
      assert more[e.id] == e;
      forall f | f in byId.Values ensures f in more.Values {
        var id :| id in byId && byId[id] == f;
        assert more[id] == f;
      }
    }
  }

  // ---------------------------------------------------------------- a whole response

  predicate AllWork(ios: seq<Io>) { forall i | 0 <= i < |ios| :: ios[i] == WORKS }

  /** With writes that succeed, everything in a response is received exactly when each of
      its envelopes is receivable after those before it. */
  lemma {:induction false} AllReceivedExactly(cfg: Config, s: Sys, inbound: seq<Envelope>, ios: seq<Io>)
    requires Inv(cfg, s) && s.client.Some? && |ios| == |inbound| && AllWork(ios)
    ensures var sc, m := Session(cfg, s), s.client.value;
      SC.ReceiveAll(sc, m, s.disk, inbound, ios).ok <==> AllReceivable(sc, m, m.byId.Values, s.admitted, inbound)
    decreases |inbound|
  {
    hide *;
    var sc, m := Session(cfg, s), s.client.value;
    AllCases(sc, m, m.byId.Values, s.admitted, inbound);
    SyncDraining.ReceivingCases(cfg, s, inbound, ios);
    if inbound != [] {
      var e, a := inbound[0], Receives(inbound[0], WORKS);
      FirstWorks(ios);
      ReceivedExactly(cfg, s, e);
      var r, t := Receive(sc, m, s.disk, e, WORKS), Next(cfg, s, a);
      if SC.Fine(r.verdict) {
        SyncDraining.SameSession(cfg, s, t);
        ReceiveNext(cfg, s, a);
        AllReceivedExactly(cfg, t, inbound[1..], ios[1..]);
        SameAllReceivable(sc, m, r.memory, m.byId.Values + {e}, s.admitted + {e}, inbound[1..]);
      }
    }
  }

  lemma AllCases(cfg: Config, m: Memory, rows: set<Envelope>, all: set<Envelope>, inbound: seq<Envelope>)
    ensures inbound == [] ==> AllReceivable(cfg, m, rows, all, inbound)
    ensures inbound != [] ==>
      (AllReceivable(cfg, m, rows, all, inbound) <==>
         && Receivable(cfg, m, rows, all, inbound[0])
         && AllReceivable(cfg, m, rows + {inbound[0]}, all + {inbound[0]}, inbound[1..]))
  {
    hide Receivable;
  }

  lemma FirstWorks(ios: seq<Io>)
    requires AllWork(ios) && ios != []
    ensures ios[0] == WORKS && AllWork(ios[1..])
  {}

  /** So a Sync in which nothing fails acknowledges the next hundred rows, or all that are
      left, exactly when every envelope of the response is receivable. */
  lemma FaultFreeSync(cfg: Config, s: Sys, inbound: seq<Envelope>, cursor: string, ios: seq<Io>)
    requires Inv(cfg, s) && s.client.Some? && cfg.prims.Lawful() && AllWork(ios)
    requires SyncDraining.Sendable(SyncDraining.Answered(inbound, cursor, ios, true))
    ensures var m, r := s.client.value, SyncDraining.Answered(inbound, cursor, ios, true);
      var t := SyncDraining.After(cfg, s, r);
      var acked, n := m.state.acked, |s.disk.outbox|;
      && t.client.Some?
      && t.client.value.state.acked ==
           if !AllReceivable(Session(cfg, s), m, m.byId.Values, s.admitted, inbound) then acked
           else if n - acked > 100 then acked + 100 else n
  {
    hide *;
    var r := SyncDraining.Answered(inbound, cursor, ios, true);
    SyncDraining.SendableIs(r);
    SyncDraining.UsefulIs(cfg, s, r);
    SyncDraining.SyncAdvances(cfg, s, r);
    SyncDraining.Limit();
    AllReceivedExactly(cfg, s, inbound, ios);
  }
}
