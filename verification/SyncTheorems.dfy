/** The promises of the sync protocol, stated of every reachable state of the step
    system of SyncRuns. */
module SyncTheorems {
  import opened Wrappers
  import opened Envelopes
  import opened SyncState
  import opened SyncInbound
  import opened SyncRecovery
  import opened SyncServer
  import opened SyncTransport
  import opened SyncOutbound
  import opened SyncRuns

  // ---------------------------------------------------------------- the producer and the server

  /** End to end: the server's accepted log is a prefix of the outbox, in order and
      without repeats, and every acknowledgement the client holds, in memory or on
      disk, is within that prefix. */
  lemma ServerLogIsOutboxPrefix(cfg: Config, s: Sys)
    requires cfg.prims.Lawful() && Reachable(cfg, s)
    ensures |s.ledger.log| == s.ledger.frontier <= |s.disk.outbox|
    ensures forall i | 0 <= i < |s.ledger.log| :: s.ledger.log[i] == s.disk.outbox[i].id
    ensures forall i, j | 0 <= i < j < |s.ledger.log| :: s.ledger.log[i] != s.ledger.log[j]
    ensures s.client.Some? ==> s.client.value.state.acked <= s.ledger.frontier
    ensures s.disk.state.Some? ==> s.disk.state.value.acked <= s.ledger.frontier
  {
    hide *;
    ReachableInv(cfg, s);
    InvParts(cfg, s);
    LedgerLog(s);
    OutboxRows(cfg, s);
  }

  lemma LedgerLog(s: Sys)
    requires Ledgers(s)
    ensures |s.ledger.log| == s.ledger.frontier <= |s.disk.outbox|
    ensures forall i | 0 <= i < |s.ledger.log| :: s.ledger.log[i] == s.disk.outbox[i].id
    ensures s.client.Some? ==> s.client.value.state.acked <= s.ledger.frontier
    ensures s.disk.state.Some? ==> s.disk.state.value.acked <= s.ledger.frontier
  {
    hide KeysRecorded, IdsRecorded;
    assert forall i | 0 <= i < s.ledger.frontier :: s.disk.outbox[..s.ledger.frontier][i] == s.disk.outbox[i];
  }

  lemma OutboxRows(cfg: Config, s: Sys)
    requires Producer(cfg, s)
    ensures forall i | 0 <= i < |s.disk.outbox| :: s.disk.outbox[i].seqno == i + 1
    ensures forall i, j | 0 <= i < j < |s.disk.outbox| ::
        s.disk.outbox[i].key != s.disk.outbox[j].key && s.disk.outbox[i].id != s.disk.outbox[j].id
    ensures s.client.Some?
        ==> s.client.value.state.acked <= |s.disk.outbox| && s.client.value.state.next == |s.disk.outbox| + 1
  {
    hide Signed;
  }

  /** No request a client ever sent is refused, whenever and however often it arrives. */
  lemma HonestExchangeNeverRefused(cfg: Config, s: Sys, r: Request)
    requires cfg.prims.Lawful() && Reachable(cfg, s) && r in s.sent
    ensures ServeAll(DeviceOf(cfg), s.ledger, r.batch).acks.Some?
  {
    hide *;
    ReachableInv(cfg, s);
    InvParts(cfg, s);
    SentAreHonest(s, r);
    ServedPrefix(cfg, s, r);
  }

  /** The outbox holds sequences 1..n with one row per idempotency key and per event
      id, and an open client would send exactly the rows above its acknowledgement. */
  lemma OutboxIsPrefix(cfg: Config, s: Sys)
    requires cfg.prims.Lawful() && Reachable(cfg, s)
    ensures forall i | 0 <= i < |s.disk.outbox| :: s.disk.outbox[i].seqno == i + 1
    ensures forall i, j | 0 <= i < j < |s.disk.outbox| ::
        s.disk.outbox[i].key != s.disk.outbox[j].key && s.disk.outbox[i].id != s.disk.outbox[j].id
    ensures s.client.Some? ==>
      var st := s.client.value.state;
      st.acked <= |s.disk.outbox| && st.next == |s.disk.outbox| + 1
          && Pending(s.disk.outbox, st.acked) == s.disk.outbox[st.acked..]
  {
    hide *;
    ReachableInv(cfg, s);
    InvParts(cfg, s);
    OutboxRows(cfg, s);
    if s.client.Some? { PendingIsSuffix(s.disk.outbox, s.client.value.state.acked, 0); }
  }

  /** A row once written is never changed, removed or renumbered by any step. */
  lemma OutboxImmutable(cfg: Config, s: Sys, a: Action)
    requires cfg.prims.Lawful() && Inv(cfg, s) && Enabled(s, a)
    ensures var rows := Next(cfg, s, a).disk.outbox;
        |rows| >= |s.disk.outbox| && rows[..|s.disk.outbox|] == s.disk.outbox
  {
    hide Inbound, Network, History, Ledgers, OutboxInv, FreshName, Receive, Enqueue, Open, ServeAll, Exchanged;
    match a
    case Enqueues(kind, key, payload, id, now, io) =>
      ProducerAnyKeys(cfg, s.keys, s.disk);
      EnqueueKeeps(Session(cfg, s), s.client.value, s.disk, kind, key, payload, id, now, io);
    case Receives(e, io) => ReceiveCounters(Session(cfg, s), s.client.value, s.disk, e, io);
    case Opens(keys, save) => OpenOutbox(cfg.(trusted := keys), s.disk, save);
    case _ =>
  }

  lemma OpenOutbox(cfg: Config, d: Disk, save: bool)
    ensures Open(cfg, d, save).1.outbox == d.outbox
  {
    hide OpenOk, Opened, Loaded;
  }

  // ---------------------------------------------------------------- admission

  /** Across crashes, failed saves, re-opens, changes of keys and expiry, Receive
      reports accepted or reordered at most once per event id, per idempotency key
      and per (stream, sequence). */
  lemma AcceptedAtMostOnce(cfg: Config, s: Sys, i: nat, j: nat)
    requires cfg.prims.Lawful() && Reachable(cfg, s) && i < j < |s.accepted|
    ensures s.accepted[i].id != s.accepted[j].id && s.accepted[i].key != s.accepted[j].key
    ensures SeqId(s.accepted[i]) != SeqId(s.accepted[j])
  {
    hide *;
    ReachableInv(cfg, s);
    InvParts(cfg, s);
    AcceptedAdmitted(s, i, j);
    AdmittedDistinct(cfg, s);
    DistinctPair(s.admitted, s.accepted[i], s.accepted[j]);
  }

  lemma AcceptedAdmitted(s: Sys, i: nat, j: nat)
    requires History(s) && i < j < |s.accepted|
    ensures s.accepted[i] in s.admitted && s.accepted[j] in s.admitted && s.accepted[i] != s.accepted[j]
  {}

  lemma AdmittedDistinct(cfg: Config, s: Sys)
    requires Inbound(cfg, s)
    ensures Distinct(s.admitted)
  {
    hide *;
    InboundDisk(cfg, s);
    InboundSplit(cfg, s);
    DiskParts(cfg, s.disk, s.admitted - s.unsaved, s.unsaved);
  }

  lemma InboundSplit(cfg: Config, s: Sys)
    requires Inbound(cfg, s)
    ensures s.admitted - s.unsaved + s.unsaved == s.admitted
  {
    hide ClientInv, DiskInv;
  }

  lemma DistinctPair(rows: set<Envelope>, e: Envelope, f: Envelope)
    requires Distinct(rows) && e in rows && f in rows && e != f
    ensures e.id != f.id && e.key != f.key && SeqId(e) != SeqId(f)
  {
    hide SeqId;
  }

  /** An envelope that shares an identity with a different admitted envelope, even
      one whose row has expired, is never accepted; nor is the same envelope twice. */
  lemma UsedIdentityRefused(cfg: Config, s: Sys, e: Envelope, f: Envelope, io: Io)
    requires cfg.prims.Lawful() && Reachable(cfg, s) && s.client.Some? && f in s.admitted
    requires e.id == f.id || e.key == f.key || SeqId(e) == SeqId(f)
    ensures var r := Receive(Session(cfg, s), s.client.value, s.disk, e, io);
      r.verdict != Done(Accepted) && r.verdict != Done(Reordered) && e.id !in r.disk.inbox - s.disk.inbox.Keys
  {
    hide *;
    ReachableInv(cfg, s);
    InvParts(cfg, s);
    InboundClient(cfg, s);
    var sc, m := Session(cfg, s), s.client.value;
    if Classify(sc, m, e) == Fresh { FreshIsNew(sc, m, s.disk, s.admitted - s.unsaved, s.unsaved, e, f); }
    ClientParts(sc, m, s.disk, s.admitted - s.unsaved, s.unsaved);
    OnePending(m, s.disk, s.admitted - s.unsaved, s.unsaved);
    ReceiveOld(sc, m, s.disk, e, io);
    CommitInbox(m, s.disk);
  }

  lemma CommitInbox(m: Memory, d: Disk)
    ensures Commit(m, d, true).1.inbox == d.inbox
  {
    hide ApplyPending;
  }

  lemma InboundClient(cfg: Config, s: Sys)
    requires Inbound(cfg, s) && s.client.Some?
    ensures s.unsaved <= s.admitted && s.admitted - s.unsaved + s.unsaved == s.admitted
    ensures ClientInv(Session(cfg, s), s.client.value, s.disk, s.admitted - s.unsaved, s.unsaved)
  {
    hide ClientInv, DiskInv;
  }

  ghost predicate SharesIdentity(e: Envelope, f: Envelope) { e.id == f.id || e.key == f.key || SeqId(e) == SeqId(f) }

  /** An envelope that is authentic, in the accepted schema range and well formed. */
  ghost predicate Presentable(cfg: Config, st: State, e: Envelope) {
    && e.tenant == cfg.tenant && e.project == cfg.project && Verify(cfg.prims, e, cfg.trusted)
    && st.cursor.minSchema <= e.schema <= st.cursor.maxSchema && ValidFields(e)
        && cfg.prims.payloadOk(e.kind, e.payload)
    && Sid(e) !in st.untrusted
  }

  /** What a retained row answers to a presentable envelope: the same envelope is a
      duplicate, unless a commit it triggers fails, and a different one under any of
      its three identities is a collision that changes nothing. */
  lemma RetainedRowAnswers(cfg: Config, s: Sys, e: Envelope, f: Envelope, io: Io)
    requires cfg.prims.Lawful() && Reachable(cfg, s) && s.client.Some? && f in s.disk.inbox.Values
    requires Presentable(Session(cfg, s), s.client.value.state, e)
    ensures var r := Receive(Session(cfg, s), s.client.value, s.disk, e, io);
      && (e == f ==> r.verdict == if s.client.value.pending != map[] && !io.commit then IoError else Done(Duplicate))
      && (e != f && SharesIdentity(e, f) ==> r == Received(s.client.value, s.disk, Done(Collision)))
  {
    hide *;
    ReachableInv(cfg, s);
    InvParts(cfg, s);
    InboundClient(cfg, s);
    var sc, m, all := Session(cfg, s), s.client.value, s.admitted - s.unsaved + s.unsaved;
    ClientParts(sc, m, s.disk, s.admitted - s.unsaved, s.unsaved);
    OnePending(m, s.disk, s.admitted - s.unsaved, s.unsaved);
    RetainedIndexed(m, s.disk.inbox, s.admitted - s.unsaved, s.unsaved, f);
    RetainedClass(sc, m, s.disk, e, f, io, all);
  }

  lemma RetainedIndexed(m: Memory, inbox: map<string, Envelope>, done: set<Envelope>, open: set<Envelope>, f: Envelope)
    requires Rows(inbox, done, open) && Indexes(m, inbox, done + open) && f in inbox.Values
    ensures f.id in m.byId && m.byId[f.id] == f && f.key in m.byKey && SeqId(f) in m.bySeq && f in done + open
  {
    hide KeyIndex, SeqIndex, SeqId;
    assert exists id :: id in inbox && inbox[id] == f;
  }

  lemma RetainedClass(cfg: Config, m: Memory, d: Disk, e: Envelope, f: Envelope, io: Io, all: set<Envelope>)
    requires Presentable(cfg, m.state, e) && Distinct(all) && f in all && Indexes(m, d.inbox, all)
    requires f.id in m.byId && m.byId[f.id] == f && f.key in m.byKey && SeqId(f) in m.bySeq
    requires m.pendingSave <==> m.pending != map[]
    ensures var r := Receive(cfg, m, d, e, io);
      && (e == f ==> r.verdict == if m.pending != map[] && !io.commit then IoError else Done(Duplicate))
      && (e != f && SharesIdentity(e, f) ==> r == Received(m, d, Done(Collision)))
  {
    hide Verify, ValidFields, Commit, Admit, Reserves, SeqId, Distinct, IdIndex, KeyIndex, SeqIndex;
    if e != f && SharesIdentity(e, f) {
      if e in all { DistinctPair(all, e, f); }
      IndexedAdmitted(m, all, e);
    }
    hide Indexes, SharesIdentity;
    assert SharesIdentity(e, f) <==> e.id == f.id || e.key == f.key || SeqId(e) == SeqId(f) by { IdentityMeans(e, f); }
  }

  lemma IdentityMeans(e: Envelope, f: Envelope)
    ensures SharesIdentity(e, f) <==> e.id == f.id || e.key == f.key || SeqId(e) == SeqId(f)
  {}

  lemma IndexedAdmitted(m: Memory, all: set<Envelope>, e: Envelope)
    requires IdIndex(m, all) && KeyIndex(m, all) && SeqIndex(m, all) && e !in all
    ensures Unindexed(m, e)
  {
    hide IdIndex, KeyIndex, SeqIndex, SeqId;
    IdAdmitted(m, all, e.id);
    KeyAdmitted(m, all, e.key);
    SeqAdmitted(m, all, SeqId(e));
  }

  /** No index holds this very envelope. */
  ghost predicate Unindexed(m: Memory, e: Envelope) {
    && (e.id in m.byId ==> m.byId[e.id] != e)
    && (e.key in m.byKey ==> m.byKey[e.key] != e)
    && (SeqId(e) in m.bySeq ==> m.bySeq[SeqId(e)] != e)
  }

  lemma IdAdmitted(m: Memory, all: set<Envelope>, id: string)
    requires IdIndex(m, all)
    ensures id in m.byId ==> m.byId[id] in all
  {
    hide SeqId;
  }

  lemma KeyAdmitted(m: Memory, all: set<Envelope>, key: string)
    requires KeyIndex(m, all)
    ensures key in m.byKey ==> m.byKey[key] in all
  {}

  lemma SeqAdmitted(m: Memory, all: set<Envelope>, q: (StreamId, nat))
    requires SeqIndex(m, all)
    ensures q in m.bySeq ==> m.bySeq[q] in all
  {
    hide SeqId;
  }

  // ---------------------------------------------------------------- the compact summary

  /** With the pending envelope applied, the frontier and gap set of every stream are
      exactly the sequences admitted on it; on a trusted stream the frontier is as
      far as it can go, so the summary is determined by that set alone. */
  lemma SummaryIsExact(cfg: Config, s: Sys, sid: StreamId)
    requires cfg.prims.Lawful() && Reachable(cfg, s) && s.client.Some?
    ensures var after := Caught(s.client.value);
      && (forall n: nat :: Reserves(StreamOf(after.streams, sid), n) <==> exists e ::
          e in s.admitted && Sid(e) == sid && e.seqno == n)
      && (sid !in after.untrusted ==> Settled(StreamOf(after.streams, sid)))
      && (forall t | sid !in after.untrusted && Settled(t) && Covers(t, Seqs(s.admitted, sid)) ::
          t == StreamOf(after.streams, sid))
  {
    hide *;
    ReachableInv(cfg, s);
    InvParts(cfg, s);
    InboundClient(cfg, s);
    var sc, m, after := Session(cfg, s), s.client.value, Caught(s.client.value);
    CatchUp(sc, m, s.disk, s.admitted - s.unsaved, s.unsaved);
    CaughtState(sc, m, s.admitted, s.unsaved);
    StateParts(sc, View(after), s.admitted, {});
    ViewOf(after);
    CoversMeans(sc, after, s.admitted, sid);
  }

  lemma CaughtState(cfg: Config, m: Memory, all: set<Envelope>, open: set<Envelope>)
    requires CaughtUp(cfg, m, all, open)
    ensures StateInv(cfg, View(Caught(m)), all, {})
  {
    hide StateInv, Caught;
  }

  lemma CoversMeans(cfg: Config, st: State, all: set<Envelope>, sid: StreamId)
    requires Summaries(View(st), all) && Shapes(cfg, View(st))
    ensures forall n: nat :: Reserves(StreamOf(st.streams, sid), n) <==> exists e ::
        e in all && Sid(e) == sid && e.seqno == n
    ensures sid !in st.untrusted ==> Settled(StreamOf(st.streams, sid))
    ensures forall t | sid !in st.untrusted && Settled(t) && Covers(t, Seqs(all, sid)) :: t == StreamOf(st.streams, sid)
  {
    if sid !in st.untrusted { StreamSettled(cfg, View(st), sid); }
    hide Settled, Reserves, OnRoute;
    assert Covers(StreamOf(View(st).streams, sid), Seqs(all, sid));
    forall n: nat ensures Reserves(StreamOf(st.streams, sid), n) <==> exists e ::
        e in all && Sid(e) == sid && e.seqno == n {
      assert n in Seqs(all, sid) <==> exists e :: e in all && Sid(e) == sid && e.seqno == n;
    }
    forall t | sid !in st.untrusted && Settled(t) && Covers(t, Seqs(all, sid)) ensures t == StreamOf(st.streams, sid) {
      SummaryUnique(t, StreamOf(st.streams, sid), Seqs(all, sid));
    }
  }

  // ---------------------------------------------------------------- crash and Open

  /** A crash at any point followed by an Open under the same keys gives exactly the
      inbound state the running client would have had after saving what was pending;
      at most one envelope ever is. That Open succeeds if its save does, unless the
      client has written rows under a configuration that Open rejects. */
  lemma CrashLosesNothing(cfg: Config, s: Sys, save: bool)
    requires cfg.prims.Lawful() && Reachable(cfg, s) && s.client.Some?
    ensures |s.client.value.pending| <= 1
    ensures var t := Next(cfg, Next(cfg, s, Crashes), Opens(s.keys, save));
      t.client.Some? ==>
        && View(t.client.value.state) == View(Caught(s.client.value)) && t.unsaved == {}
        && t.client.value.pending == map[]
    ensures var t := Next(cfg, Next(cfg, s, Crashes), Opens(s.keys, save));
      && (t.client.Some? ==> s.disk.outbox == [] || ConfigFieldsOk(cfg))
      && (save && (s.disk.outbox == [] || ConfigFieldsOk(cfg)) ==> t.client.Some?)
  {
    hide *;
    ReachableInv(cfg, s);
    InvParts(cfg, s);
    InboundClient(cfg, s);
    OpenRefusesExactly(cfg, s, s.keys);
    ClientNamed(cfg, s);
    RowsVerify(Session(cfg, s), s.client.value, s.disk, s.admitted - s.unsaved, s.unsaved);
    SessionIs(cfg, s);
    OpenWhen(Session(cfg, s), s.disk, save);
    var sc, m := Session(cfg, s), s.client.value;
    ClientParts(sc, m, s.disk, s.admitted - s.unsaved, s.unsaved);
    OnePending(m, s.disk, s.admitted - s.unsaved, s.unsaved);
    RecoveryIsApplyingPending(sc, m, s.disk, s.admitted - s.unsaved, s.unsaved);
    CrashThenOpen(cfg, s, save);
    SessionKeys(cfg, s);
    if Open(sc, s.disk, save).0.Some? {
      OpenedStep(sc, s.disk, save);
      OpenedMaps(sc, Loaded(sc, s.disk), s.disk.inbox);
    }
  }

  lemma SessionIs(cfg: Config, s: Sys)
    ensures var sc := Session(cfg, s); sc == cfg.(trusted := s.keys) && sc.trusted == s.keys && sc.prims == cfg.prims
  {}

  lemma OpenWhen(cfg: Config, d: Disk, save: bool)
    ensures Open(cfg, d, save).0.Some? ==> OpenOk(cfg, d)
    ensures OpenOk(cfg, d) && save ==> Open(cfg, d, save).0.Some?
  {
    hide OpenOk, Opened, Loaded;
  }

  /** The keys a client was opened under verify every row it retains. */
  lemma RowsVerify(cfg: Config, m: Memory, d: Disk, done: set<Envelope>, open: set<Envelope>)
    requires ClientInv(cfg, m, d, done, open)
    ensures forall id | id in d.inbox ::
        d.inbox[id].keyId in cfg.trusted ==> Verify(cfg.prims, d.inbox[id], cfg.trusted)
  {
    hide *;
    ClientParts(cfg, m, d, done, open);
    KnownRows(cfg, m, d.inbox, open);
  }

  lemma KnownRows(cfg: Config, m: Memory, inbox: map<string, Envelope>, open: set<Envelope>)
    requires KeysKnown(cfg, m, inbox, open)
    ensures forall id | id in inbox :: inbox[id].keyId in cfg.trusted ==> Verify(cfg.prims, inbox[id], cfg.trusted)
  {
    hide Verify;
  }

  predicate Named(cfg: Config) { cfg.tenant != "" && cfg.project != "" && cfg.keyId != "" }

  /** There is no client without a route and a key id. */
  lemma ClientNamed(cfg: Config, s: Sys)
    requires Reachable(cfg, s) && s.client.Some?
    ensures Named(cfg) && cfg.tenant != "" && cfg.project != "" && cfg.keyId != ""
  {
    var states, actions :| Run(cfg, states, actions) && states[|actions|] == s;
    RunNamed(cfg, states, actions, |actions|);
  }

  lemma {:induction false} RunNamed(cfg: Config, states: seq<Sys>, actions: seq<Action>, n: nat)
    requires Run(cfg, states, actions) && n <= |actions| && states[n].client.Some?
    ensures Named(cfg)
    decreases n
  {
    hide Next, Enabled, Named;
    if n > 0 {
      var s, a := states[n - 1], actions[n - 1];
      assert Enabled(s, a) && states[n] == Next(cfg, s, a);
      StepNamed(cfg, s, a);
      if s.client.Some? { RunNamed(cfg, states, actions, n - 1); }
    }
  }

  lemma StepNamed(cfg: Config, s: Sys, a: Action)
    requires Enabled(s, a) && Next(cfg, s, a).client.Some?
    ensures s.client.Some? || Named(cfg)
  {
    hide Opened, Loaded, SyncState.ProducerOk, InboxOk, Receive, Enqueue, Acknowledge, ServeAll, Sign;
  }

  lemma CrashThenOpen(cfg: Config, s: Sys, save: bool)
    ensures Enabled(s, Crashes) && Enabled(Next(cfg, s, Crashes), Opens(s.keys, save))
    ensures var (o, d) := Open(cfg.(trusted := s.keys), s.disk, save);
      var t := Next(cfg, Next(cfg, s, Crashes), Opens(s.keys, save));
      t.client == o && (o.Some? ==> t.unsaved == {})
  {
    hide Open;
  }

  /** Open refuses a reachable disk in two cases and no other: the producer has rows
      and was configured with a route, key id or version too long or empty, or a
      retained inbound row names a configured key that does not verify it. */
  lemma OpenRefusesExactly(cfg: Config, s: Sys, keys: map<string, string>)
    requires cfg.prims.Lawful() && Reachable(cfg, s)
    ensures OpenOk(cfg.(trusted := keys), s.disk) <==>
      && cfg.tenant != "" && cfg.project != "" && cfg.keyId != ""
      && (s.disk.outbox == [] || ConfigFieldsOk(cfg))
      && (forall id | id in s.disk.inbox ::
          s.disk.inbox[id].keyId in keys ==> Verify(cfg.prims, s.disk.inbox[id], keys))
  {
    hide *;
    ReachableInv(cfg, s);
    InvParts(cfg, s);
    var c := cfg.(trusted := keys);
    OutboxHalf(cfg, s, keys);
    InboxHalf(cfg, s, keys);
    OpenHalves(cfg, s, keys);
  }

  lemma OpenHalves(cfg: Config, s: Sys, keys: map<string, string>)
    ensures var c := cfg.(trusted := keys);
      OpenOk(c, s.disk) <==>
        && cfg.tenant != "" && cfg.project != "" && cfg.keyId != "" && SyncState.ProducerOk(c, s.disk)
        && InboxOk(c, Loaded(c, s.disk), s.disk.inbox)
  {
    hide InboxOk, SyncState.ProducerOk, Loaded;
  }

  lemma OutboxHalf(cfg: Config, s: Sys, keys: map<string, string>)
    requires Producer(cfg, s)
    ensures var c := cfg.(trusted := keys);
        SyncState.ProducerOk(c, s.disk) <==> s.disk.outbox == [] || ConfigFieldsOk(cfg)
  {
    hide OutboxOk, OutboxInv;
    var c := cfg.(trusted := keys);
    OutboxAnyKeys(cfg, keys, s.disk.outbox);
    OwnOutboxAccepted(c, s.disk.outbox);
  }

  lemma OutboxAnyKeys(cfg: Config, keys: map<string, string>, rows: seq<Envelope>)
    ensures OutboxInv(cfg.(trusted := keys), rows) <==> OutboxInv(cfg, rows)
  {
    hide Outbox, Deliverable;
    assert DeviceOf(cfg.(trusted := keys)) == DeviceOf(cfg);
    assert forall e :: Signed(cfg.(trusted := keys), e) <==> Signed(cfg, e);
  }

  lemma InboxHalf(cfg: Config, s: Sys, keys: map<string, string>)
    requires Inbound(cfg, s)
    ensures var c := cfg.(trusted := keys);
      InboxOk(c, Loaded(c, s.disk), s.disk.inbox)
      <==> forall id | id in s.disk.inbox ::
          s.disk.inbox[id].keyId in keys ==> Verify(cfg.prims, s.disk.inbox[id], keys)
  {
    hide *;
    var c := cfg.(trusted := keys);
    var done := s.admitted - s.unsaved;
    InboundDisk(cfg, s);
    DiskInvAnyKeys(cfg, keys, s.disk, done, s.unsaved);
    DiskParts(c, s.disk, done, s.unsaved);
    StateParts(c, Base(c, s.disk), done, s.unsaved);
    InboxSplit(c, s.disk, done, s.unsaved);
  }

  lemma InboundDisk(cfg: Config, s: Sys)
    requires Inbound(cfg, s)
    ensures DiskInv(cfg, s.disk, s.admitted - s.unsaved, s.unsaved)
  {
    hide DiskInv, ClientInv;
  }

  lemma InboxSplit(c: Config, d: Disk, done: set<Envelope>, open: set<Envelope>)
    requires Rows(d.inbox, done, open) && Distinct(done + open)
    requires forall e | e in done + open :: RowFacts(c, Base(c, d), e)
    ensures InboxOk(c, Loaded(c, d), d.inbox)
      <==> forall id | id in d.inbox :: d.inbox[id].keyId in c.trusted ==> Verify(c.prims, d.inbox[id], c.trusted)
  {
    hide Verify, Canonical, ValidFields, SeqId, Loaded;
    assert d.inbox.Values <= done + open;
    assert Distinct(d.inbox.Values);
    hide Distinct;
    forall id | id in d.inbox
      ensures InboxRowOk(c, Loaded(c, d), d.inbox[id])
          <==> (d.inbox[id].keyId in c.trusted ==> Verify(c.prims, d.inbox[id], c.trusted))
    {
      assert RowFacts(c, Base(c, d), d.inbox[id]);
    }
  }
}
