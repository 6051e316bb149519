/** The quarantine of inbound streams whose signing key is no longer configured:
    once marked, for good. */
module SyncQuarantine {
  import opened Wrappers
  import opened Envelopes
  import opened SyncState
  import opened SyncInbound
  import opened SyncRecovery
  import opened SyncServer
  import opened SyncOutbound
  import opened SyncRuns

  ghost predicate Quarantined(cfg: Config, s: Sys, sid: StreamId) { sid in Base(cfg, s.disk).untrusted }

  ghost function FrontierOf(cfg: Config, s: Sys, sid: StreamId): nat { StreamOf(Base(cfg, s.disk).streams, sid).last }

  /** Nothing quarantined is released or moved. */
  ghost predicate Holds(a: State, b: State) {
    && a.untrusted <= b.untrusted
    && forall sid | sid in a.untrusted :: StreamOf(b.streams, sid).last == StreamOf(a.streams, sid).last
  }

  lemma HoldsTrans(a: State, b: State, c: State)
    requires Holds(a, b) && Holds(b, c)
    ensures Holds(a, c)
  {}

  lemma HoldsView(a: State, b: State)
    ensures Holds(View(a), View(b)) <==> Holds(a, b)
  {}

  lemma ApplyHolds(st: State, fallback: nat, e: Envelope)
    requires Sid(e) !in st.untrusted
    ensures Holds(st, ApplyInbound(st, fallback, e)) && ApplyInbound(st, fallback, e).untrusted == st.untrusted
  {
    hide Settle;
  }

  lemma CommitHolds(cfg: Config, m: Memory, d: Disk, done: set<Envelope>, open: set<Envelope>)
    requires ClientInv(cfg, m, d, done, open) && m.pending != map[]
    ensures Holds(m.state, Commit(m, d, true).0.state) && Commit(m, d, true).0.state.untrusted == m.state.untrusted
  {
    hide *;
    ClientParts(cfg, m, d, done, open);
    OnePending(m, d, done, open);
    var u :| u in open;
    assert open == {u};
    CommitOne(cfg, m, d, done, u);
    OpenTrusted(cfg, m, d.inbox, open);
    ApplyHolds(m.state, m.fallback, u);
  }

  lemma AdmitHolds(m: Memory, d: Disk, e: Envelope, outcome: Outcome, io: Io)
    requires Sid(e) !in m.state.untrusted
    ensures Holds(m.state, Admit(m, d, e, outcome, io).memory.state)
  {
    ApplyHolds(m.state, m.fallback, e);
    hide ApplyInbound, Sid, Holds, Persists;
    assert Holds(m.state, m.state) by { Unmoved(m.state); }
  }

  lemma Unmoved(st: State)
    ensures Holds(st, st)
  {}

  /** Receive never admits on a quarantined stream and moves none of them. */
  lemma ReceiveHolds(cfg: Config, m: Memory, d: Disk, done: set<Envelope>, open: set<Envelope>, e: Envelope, io: Io)
    requires ClientInv(cfg, m, d, done, open)
    ensures var r := Receive(cfg, m, d, e, io);
      Holds(m.state, r.memory.state)
      && (Sid(e) in m.state.untrusted ==> r.verdict != Done(Accepted) && r.verdict != Done(Reordered))
  {
    hide *;
    ClientParts(cfg, m, d, done, open);
    OnePending(m, d, done, open);
    Unmoved(m.state);
    if m.pending != map[] { CommitHolds(cfg, m, d, done, open); }
    if Classify(cfg, m, e) == Fresh {
      FreshPassed(cfg, m, e);
      var outcome := ReceiveFresh(cfg, m, d, e, io);
      if m.pending == map[] {
        AdmitHolds(m, d, e, outcome, io);
      } else if io.commit {
        var (m', d') := Commit(m, d, true);
        AdmitHolds(m', d', e, outcome, io);
        HoldsTrans(m.state, m'.state, Receive(cfg, m, d, e, io).memory.state);
      }
    } else {
      ReceiveOld(cfg, m, d, e, io);
    }
  }

  /** A rebuild keeps every mark and leaves the frontier of a marked stream alone,
      however contiguous its retained rows are. */
  lemma RebuiltHolds(cfg: Config, st: State, inbox: map<string, Envelope>)
    requires Shapes(cfg, View(st))
    ensures Holds(st, RebuiltState(cfg, st, inbox))
  {
    RebuiltParts(cfg, st, inbox);
    hide RebuiltState, Settled, OnRoute, Settle, RowGaps;
    var after := View(RebuiltState(cfg, st, inbox));
    HoldsView(st, RebuiltState(cfg, st, inbox));
    forall sid | sid in st.untrusted
      ensures sid in after.untrusted && StreamOf(after.streams, sid).last == StreamOf(st.streams, sid).last
    {
      assert OnRoute(cfg, sid);
    }
  }

  lemma OpenHolds(cfg: Config, s: Sys, a: Action)
    requires Inbound(cfg, s) && a.Opens? && Enabled(s, a)
    ensures Holds(Base(cfg, s.disk), Base(cfg, Next(cfg, s, a).disk))
  {
    hide *;
    var c := cfg.(trusted := a.keys);
    Unmoved(Base(cfg, s.disk));
    OpenNext(cfg, s, a);
    if Open(c, s.disk, a.save).0.Some? {
      InboundParts(cfg, s);
      var done := s.admitted - s.unsaved;
      DiskInvAnyKeys(cfg, a.keys, s.disk, done, s.unsaved);
      DiskParts(c, s.disk, done, s.unsaved);
      StateParts(c, Base(c, s.disk), done, s.unsaved);
      BaseParts(c, s.disk);
      OpenedStep(c, s.disk, a.save);
      RebuiltHolds(c, Loaded(c, s.disk), s.disk.inbox);
      HoldsView(Loaded(c, s.disk), RebuiltState(c, Loaded(c, s.disk), s.disk.inbox));
      BaseAnyKeys(cfg, a.keys, s.disk);
      BaseAnyKeys(cfg, a.keys, Next(cfg, s, a).disk);
    }
  }

  lemma BaseAnyKeys(cfg: Config, keys: map<string, string>, d: Disk)
    ensures Base(cfg.(trusted := keys), d) == Base(cfg, d)
  {}

  lemma InboundParts(cfg: Config, s: Sys)
    requires Inbound(cfg, s)
    ensures DiskInv(cfg, s.disk, s.admitted - s.unsaved, s.unsaved)
    ensures s.client.Some? ==>
      && ClientInv(Session(cfg, s), s.client.value, s.disk, s.admitted - s.unsaved, s.unsaved)
      && Base(cfg, s.disk) == View(s.client.value.state)
  {
    hide *;
    InboundBare(cfg, s);
    if s.client.Some? {
      ClientParts(Session(cfg, s), s.client.value, s.disk, s.admitted - s.unsaved, s.unsaved);
      SessionKeys(cfg, s);
      BaseAnyKeys(cfg, s.keys, s.disk);
    }
  }

  lemma InboundBare(cfg: Config, s: Sys)
    requires Inbound(cfg, s)
    ensures DiskInv(cfg, s.disk, s.admitted - s.unsaved, s.unsaved)
    ensures s.client.Some? ==> ClientInv(Session(cfg, s), s.client.value, s.disk, s.admitted - s.unsaved, s.unsaved)
  {
    hide DiskInv, ClientInv;
  }

  lemma ReceiveStepHolds(cfg: Config, s: Sys, a: Action, sid: StreamId)
    requires Inv(cfg, s) && a.Receives? && Enabled(s, a)
    ensures Holds(Base(cfg, s.disk), Base(cfg, Next(cfg, s, a).disk))
    ensures sid in Base(cfg, s.disk).untrusted && Sid(a.e) == sid ==> Next(cfg, s, a).accepted == s.accepted
  {
    hide *;
    var t := Next(cfg, s, a);
    InvParts(cfg, s);
    ReceiveStep(cfg, s, a);
    InvParts(cfg, t);
    ReceiveNext(cfg, s, a);
    InboundParts(cfg, s);
    InboundParts(cfg, t);
    ReceiveHolds(Session(cfg, s), s.client.value, s.disk, s.admitted - s.unsaved, s.unsaved, a.e, a.io);
    HoldsView(s.client.value.state, t.client.value.state);
    ViewOf(s.client.value.state);
  }

  /** Every other step leaves the inbound state as it is. */
  lemma OtherStepHolds(cfg: Config, s: Sys, a: Action)
    requires Inv(cfg, s) && Enabled(s, a) && cfg.prims.Lawful() && !a.Receives? && !a.Opens?
    ensures Base(cfg, Next(cfg, s, a).disk) == Base(cfg, s.disk) && Next(cfg, s, a).accepted == s.accepted
  {
    hide *;
    var t := Next(cfg, s, a);
    InvParts(cfg, s);
    StepKeeps(cfg, s, a);
    InvParts(cfg, t);
    InboundParts(cfg, s);
    InboundParts(cfg, t);
    OtherStepState(cfg, s, a);
    if t.disk == s.disk.(inbox := t.disk.inbox) { BaseIgnoresInbox(cfg, s.disk, t.disk); }
  }

  lemma BaseIgnoresInbox(cfg: Config, d: Disk, d': Disk)
    requires d' == d.(inbox := d'.inbox)
    ensures Base(cfg, d') == Base(cfg, d)
  {}

  lemma OtherStepState(cfg: Config, s: Sys, a: Action)
    requires Enabled(s, a) && !a.Receives? && !a.Opens?
    ensures var t := Next(cfg, s, a);
      t.accepted == s.accepted
      && (t.disk == s.disk.(inbox := t.disk.inbox)
          || (s.client.Some? && t.client.Some? && View(t.client.value.state) == View(s.client.value.state)))
  {
    hide ServeAll, Exchanged, Pending, LastPending, FreshName, Sign, WithKey;
  }

  /** One step: a quarantined stream stays quarantined whatever keys an Open is
      given, its frontier does not move, and nothing is accepted on it. */
  lemma QuarantineStep(cfg: Config, s: Sys, a: Action, sid: StreamId)
    requires cfg.prims.Lawful() && Inv(cfg, s) && Enabled(s, a) && Quarantined(cfg, s, sid)
    ensures var t := Next(cfg, s, a);
      && Quarantined(cfg, t, sid) && FrontierOf(cfg, t, sid) == FrontierOf(cfg, s, sid)
      && (t.accepted == s.accepted
          || (|t.accepted| == |s.accepted| + 1 && t.accepted[..|s.accepted|] == s.accepted
          && Sid(t.accepted[|s.accepted|]) != sid))
  {
    hide Inv, Next, Base, Sid, Enabled;
    if a.Receives? {
      ReceiveStepHolds(cfg, s, a, sid);
      ReceiveNext(cfg, s, a);
    } else if a.Opens? {
      InvParts(cfg, s);
      OpenHolds(cfg, s, a);
      OpenNext(cfg, s, a);
    } else {
      OtherStepHolds(cfg, s, a);
    }
  }

  /** Over a whole run: from the moment a stream is quarantined its frontier never
      moves again and nothing more is accepted on it. */
  lemma {:induction false} QuarantineLatches(cfg: Config, states: seq<Sys>, actions: seq<Action>, i: nat, j: nat,
      sid: StreamId)
    requires cfg.prims.Lawful() && Run(cfg, states, actions) && i <= j <= |actions| && Quarantined(cfg, states[i], sid)
    ensures Quarantined(cfg, states[j], sid) && FrontierOf(cfg, states[j], sid) == FrontierOf(cfg, states[i], sid)
    ensures |states[i].accepted| <= |states[j].accepted|
    ensures forall n | |states[i].accepted| <= n < |states[j].accepted| :: Sid(states[j].accepted[n]) != sid
    decreases j - i
  {
    hide Quarantined, FrontierOf, Inv, Next, Enabled, Sid;
    if i < j {
      QuarantineLatches(cfg, states, actions, i, j - 1, sid);
      RunKeeps(cfg, states, actions, j - 1);
      assert Enabled(states[j - 1], actions[j - 1]);
      QuarantineStep(cfg, states[j - 1], actions[j - 1], sid);
    }
  }

  /** An Open that succeeds without the key of some envelope ever admitted
      quarantines its stream, whether or not the row is still retained. */
  lemma OpenQuarantines(cfg: Config, s: Sys, keys: map<string, string>, save: bool, e: Envelope)
    requires cfg.prims.Lawful() && Inv(cfg, s) && Enabled(s, Opens(keys, save)) && e in s.admitted && e.keyId !in keys
    requires Open(cfg.(trusted := keys), s.disk, save).0.Some?
    ensures Quarantined(cfg, Next(cfg, s, Opens(keys, save)), Sid(e))
  {
    hide *;
    var a := Opens(keys, save);
    var t := Next(cfg, s, a);
    InvParts(cfg, s);
    StepKeeps(cfg, s, a);
    InvParts(cfg, t);
    OpenNext(cfg, s, a);
    InboundParts(cfg, t);
    QuarantinedRow(cfg, t, e);
  }

  lemma QuarantinedRow(cfg: Config, t: Sys, e: Envelope)
    requires t.client.Some? && e in t.admitted && e !in t.unsaved && e.keyId !in t.keys
    requires ClientInv(Session(cfg, t), t.client.value, t.disk, t.admitted - t.unsaved, t.unsaved)
    requires Base(cfg, t.disk) == View(t.client.value.state)
    ensures Quarantined(cfg, t, Sid(e))
  {
    hide *;
    var sc, m, done := Session(cfg, t), t.client.value, t.admitted - t.unsaved;
    SessionKeys(cfg, t);
    ClientParts(sc, m, t.disk, done, t.unsaved);
    StateParts(sc, View(m.state), done, t.unsaved);
    assert RowFacts(sc, View(m.state), e);
    RowSequence(sc, View(m.state), e);
    DoneHasStream(View(m.state), done, e);
    ViewOf(m.state);
    StreamDistrusted(sc, m, t.disk.inbox, t.unsaved, e);
    QuarantinedMeans(cfg, t, Sid(e));
  }

  lemma QuarantinedMeans(cfg: Config, t: Sys, sid: StreamId)
    ensures Quarantined(cfg, t, sid) <==> sid in Base(cfg, t.disk).untrusted
  {}

  lemma RowSequence(cfg: Config, st: State, e: Envelope)
    requires RowFacts(cfg, st, e)
    ensures e.seqno >= 1
  {
    hide Canonical, ValidUlid;
  }

  lemma StreamDistrusted(cfg: Config, m: Memory, inbox: map<string, Envelope>, open: set<Envelope>, e: Envelope)
    requires KeysKnown(cfg, m, inbox, open) && Sid(e) in m.state.streams && e.keyId !in cfg.trusted
    ensures Sid(e) in m.state.untrusted
  {
    hide Verify;
  }
}
