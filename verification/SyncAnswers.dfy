/** Which of its answers Receive gives, in terms of the envelope, of what the client
    retains and of everything it ever admitted. */
module SyncAnswers {
  import opened Wrappers
  import opened Envelopes
  import opened SyncState
  import opened SyncInbound
  import opened SyncRuns
  import opened SyncTheorems
  import opened SyncReceiving
  import SyncTransport
  import SC = SyncClient

  /** From this tenant and project, under a configured key and with its signature. */
  ghost predicate Authentic(cfg: Config, e: Envelope) {
    (e.tenant, e.project) == (cfg.tenant, cfg.project) && Verify(cfg.prims, e, cfg.trusted)
  }

  predicate InRange(m: Memory, e: Envelope) { m.state.cursor.minSchema <= e.schema <= m.state.cursor.maxSchema }

  /** No field is empty, too long or out of range, the id is 26 characters of the alphabet,
      and the payload is on the allowlist. */
  ghost predicate WellFormed(cfg: Config, e: Envelope) {
    && (forall text | text in [e.tenant, e.project, e.keyId] :: text != "" && |text| <= 128)
    && e.key != "" && |e.key| <= 256 && e.producer != "" && |e.producer| <= 64
    && |e.id| == 26 && (forall c | c in e.id :: c in CROCKFORD)
    && e.seqno > 0 && e.seqno < 0x20_0000_0000_0000 && e.occurred != "0001-01-01T00:00:00Z"
    && cfg.prims.payloadOk(e.kind, e.payload)
  }

  /** Another envelope is retained under one of its identities, or one of them is held by
      an envelope whose row is gone. */
  ghost predicate Collides(m: Memory, e: Envelope) {
    e.id in m.heldIds || e.key in m.heldKeys || exists f :: f in m.byId.Values && SharesIdentity(e, f)
  }

  /** Its number is below the floor, or was used before on its stream. */
  ghost predicate Replayed(m: Memory, all: set<Envelope>, e: Envelope) {
    e.seqno < m.state.cursor.floor || exists f :: f in all && SeqId(f) == SeqId(e)
  }

  /** A client that has only the scalar cursor of an older version: nothing has been
      admitted on any stream since, and nothing is waiting to be. */
  ghost predicate Legacy(m: Memory) { m.pending == map[] && m.state.streams == map[] }

  /** The answer to an envelope, given everything admitted before it. */
  ghost function Answer(cfg: Config, m: Memory, all: set<Envelope>, e: Envelope): Outcome {
    if !Authentic(cfg, e) || (InRange(m, e) && !WellFormed(cfg, e)) then Tampered
    else if !InRange(m, e) then Incompatible
    else if Sid(e) in m.state.untrusted then Untrusted
    else if e in m.byId.Values then Duplicate
    else if Collides(m, e) then Collision
    else if Replayed(m, all, e) then Replay
    else if Legacy(m) && e.seqno <= m.state.cursor.last then Reordered
    else Accepted
  }

  // ---------------------------------------------------------------- the checks

  lemma WellFormedIs(cfg: Config, e: Envelope)
    ensures WellFormed(cfg, e) <==> ValidFields(e) && cfg.prims.payloadOk(e.kind, e.payload)
  {
    hide CrockfordChar;
    forall c: char ensures CrockfordChar(c) <==> c in CROCKFORD { CrockfordIs(c); }
    assert (forall c | c in e.id :: c in CROCKFORD) <==> forall i | 0 <= i < |e.id| :: CrockfordChar(e.id[i]);
    var texts := [e.tenant, e.project, e.keyId];
    assert texts[0] in texts && texts[1] in texts && texts[2] in texts;
  }

  /** Some index holds an identity of the envelope. */
  predicate Held(m: Memory, e: Envelope) { e.id in m.byId || e.key in m.byKey || SeqId(e) in m.bySeq }

  lemma HeldMeans(m: Memory, inbox: map<string, Envelope>, all: set<Envelope>, e: Envelope)
    requires Indexes(m, inbox, all) && Distinct(all)
    ensures Held(m, e) <==> exists f :: f in m.byId.Values && SharesIdentity(e, f)
  {
    hide *;
    IndexParts(m, inbox, all);
    forall f ensures f in m.byId.Values && SharesIdentity(e, f) ==> Held(m, e) {
      if f in m.byId.Values && SharesIdentity(e, f) { RetainedHolds(m, all, e, f); }
    }
    if Held(m, e) {
      var f := Holder(m, all, e);
    }
  }

  lemma IndexParts(m: Memory, inbox: map<string, Envelope>, all: set<Envelope>)
    requires Indexes(m, inbox, all)
    ensures IdIndex(m, all) && KeyIndex(m, all) && SeqIndex(m, all)
  {
    hide IdIndex, KeyIndex, SeqIndex;
  }

  lemma RetainedHolds(m: Memory, all: set<Envelope>, e: Envelope, f: Envelope)
    requires IdIndex(m, all) && f in m.byId.Values && SharesIdentity(e, f)
    ensures Held(m, e)
  {
    hide SeqId;
    var id :| id in m.byId && m.byId[id] == f;
  }

  lemma Holder(m: Memory, all: set<Envelope>, e: Envelope) returns (f: Envelope)
    requires IdIndex(m, all) && KeyIndex(m, all) && SeqIndex(m, all) && Distinct(all) && Held(m, e)
    ensures f in m.byId.Values && SharesIdentity(e, f)
  {
    hide IdIndex, KeyIndex, SeqIndex, Distinct, SeqId, SharesIdentity;
    if e.id in m.byId {
      SharedId(m, all, e);
      f := m.byId[e.id];
      IdNamed(m, all, e.id);
      IdEntry(m, all, e.id, f);
    } else if e.key in m.byKey {
      SharedKey(m, all, e);
      f := m.byKey[e.key];
      KeyEntry(m, all, e.key);
      IdEntry(m, all, f.id, f);
    } else {
      SharedSeq(m, all, e);
      f := m.bySeq[SeqId(e)];
      SeqEntry(m, all, SeqId(e));
      IdEntry(m, all, f.id, f);
    }
  }

  lemma IdNamed(m: Memory, all: set<Envelope>, id: string)
    requires IdIndex(m, all) && id in m.byId
    ensures m.byId[id].id == id
  {
    hide SeqId;
  }

  lemma IdEntry(m: Memory, all: set<Envelope>, id: string, f: Envelope)
    requires IdIndex(m, all) && Distinct(all) && id in m.byId && f in all && f.id == id
    ensures m.byId[id] == f && f in m.byId.Values
  {
    hide SeqId;
    if m.byId[id] != f { DistinctPair(all, m.byId[id], f); }
  }

  lemma KeyEntry(m: Memory, all: set<Envelope>, k: string)
    requires KeyIndex(m, all) && k in m.byKey
    ensures m.byKey[k].id in m.byId && m.byKey[k] in all
  {}

  lemma SeqEntry(m: Memory, all: set<Envelope>, q: (StreamId, nat))
    requires SeqIndex(m, all) && q in m.bySeq
    ensures m.bySeq[q].id in m.byId && m.bySeq[q] in all
  {
    hide SeqId;
  }

  /** The order in which Receive looks at its indexes does not show. */
  lemma ClassifiedWhen(cfg: Config, m: Memory, inbox: map<string, Envelope>, all: set<Envelope>, e: Envelope)
    requires Indexes(m, inbox, all) && Distinct(all)
    ensures Classify(cfg, m, e) ==
      if !Authentic(cfg, e) || (InRange(m, e) && !WellFormed(cfg, e)) then Refuse(Tampered)
      else if !InRange(m, e) then Refuse(Incompatible)
      else if Sid(e) in m.state.untrusted then Refuse(Untrusted)
      else if e in m.byId.Values then Known
      else if Collides(m, e) then Refuse(Collision)
      else if e.seqno < m.state.cursor.floor || Reserves(StreamOf(m.state.streams, Sid(e)), e.seqno) then Refuse(Replay)
      else Fresh
  {
    hide *;
    WellFormedIs(cfg, e);
    IndexValues(m, inbox, all, e);
    HeldMeans(m, inbox, all, e);
    CollidesIs(m, e);
    IdHeld(m, e);
    PassesIs(cfg, m, e);
    if Passes(cfg, m, e) { ClassifyPassed(cfg, m, e); } else { ClassifyRefused(cfg, m, e); }
  }

  lemma CollidesIs(m: Memory, e: Envelope)
    ensures Collides(m, e) <==>
      e.id in m.heldIds || e.key in m.heldKeys || exists f :: f in m.byId.Values && SharesIdentity(e, f)
  {
    hide SharesIdentity;
  }

  lemma IdHeld(m: Memory, e: Envelope)
    ensures Held(m, e) <==> e.id in m.byId || e.key in m.byKey || SeqId(e) in m.bySeq
  {
    hide SeqId;
  }

  ghost predicate Passes(cfg: Config, m: Memory, e: Envelope) {
    Authentic(cfg, e) && InRange(m, e) && ValidFields(e) && cfg.prims.payloadOk(e.kind, e.payload)
    && Sid(e) !in m.state.untrusted
  }

  lemma PassesIs(cfg: Config, m: Memory, e: Envelope)
    ensures Passes(cfg, m, e) <==>
      Authentic(cfg, e) && InRange(m, e) && ValidFields(e) && cfg.prims.payloadOk(e.kind, e.payload)
      && Sid(e) !in m.state.untrusted
  {
    hide Authentic, InRange, ValidFields;
  }

  lemma ClassifyRefused(cfg: Config, m: Memory, e: Envelope)
    requires !Passes(cfg, m, e)
    ensures Classify(cfg, m, e) ==
      if !Authentic(cfg, e) then Refuse(Tampered)
      else if !InRange(m, e) then Refuse(Incompatible)
      else if !ValidFields(e) || !cfg.prims.payloadOk(e.kind, e.payload) then Refuse(Tampered)
      else Refuse(Untrusted)
  {
    hide Verify, ValidFields, Reserves, SeqId;
  }

  lemma ClassifyPassed(cfg: Config, m: Memory, e: Envelope)
    requires Passes(cfg, m, e)
    ensures Classify(cfg, m, e) ==
      if e.id in m.byId then (if m.byId[e.id] == e then Known else Refuse(Collision))
      else if e.key in m.byKey then (if m.byKey[e.key] == e then Known else Refuse(Collision))
      else if SeqId(e) in m.bySeq then (if m.bySeq[SeqId(e)] == e then Known else Refuse(Collision))
      else if e.id in m.heldIds || e.key in m.heldKeys then Refuse(Collision)
      else if e.seqno < m.state.cursor.floor || Reserves(StreamOf(m.state.streams, Sid(e)), e.seqno) then Refuse(Replay)
      else Fresh
  {
    hide Verify, ValidFields, Reserves, SeqId;
  }

  /** With no envelope retained under its identities, a number is reserved exactly when an
      admitted envelope had it. */
  lemma ReservedMeans(m: Memory, d: Disk, done: set<Envelope>, open: set<Envelope>, e: Envelope)
    requires Summaries(View(m.state), done) && Rows(d.inbox, done, open) && Indexes(m, d.inbox, done + open)
    requires !Collides(m, e)
    ensures Reserves(StreamOf(m.state.streams, Sid(e)), e.seqno) <==> exists f ::
        f in done + open && SeqId(f) == SeqId(e)
  {
    hide *;
    NumbersDone(m, done, e);
    forall f | f in open ensures SeqId(f) != SeqId(e) {
      OpenIsIndexed(m, d.inbox, done, open, f);
      OpenRetained(m, d.inbox, done, open, f);
      IdentityMeans(e, f);
      CollidesIs(m, e);
    }
  }

  lemma OpenRetained(m: Memory, inbox: map<string, Envelope>, done: set<Envelope>, open: set<Envelope>, f: Envelope)
    requires Rows(inbox, done, open) && Indexes(m, inbox, done + open) && f in open
    ensures f in m.byId.Values
  {
    hide IdIndex, KeyIndex, SeqIndex;
    assert m.byId[f.id] == f;
  }

  lemma NumbersDone(m: Memory, done: set<Envelope>, e: Envelope)
    requires Summaries(View(m.state), done)
    ensures Reserves(StreamOf(m.state.streams, Sid(e)), e.seqno) <==> exists f :: f in done && SeqId(f) == SeqId(e)
  {
    hide Reserves;
    assert Covers(StreamOf(View(m.state).streams, Sid(e)), Seqs(done, Sid(e)));
    forall f | f in done && SeqId(f) == SeqId(e) ensures e.seqno in Seqs(done, Sid(e)) { SeqIdParts(e, f); }
    if e.seqno in Seqs(done, Sid(e)) {
      var f :| f in done && Sid(f) == Sid(e) && f.seqno == e.seqno;
      assert SeqId(f) == SeqId(e);
    }
  }

  // ---------------------------------------------------------------- the answer

  /** The fallback is the scalar cursor as long as nothing was admitted on a stream. */
  lemma FreshOutcome(cfg: Config, m: Memory, d: Disk, e: Envelope, io: Io)
    requires Classify(cfg, m, e) == Fresh && e.id !in d.inbox && e.seqno > 0
    requires m.pendingSave <==> m.pending != map[]
    requires m.fallback == if m.state.streams == map[] then m.state.cursor.last else 0
    ensures var outcome := if Legacy(m) && e.seqno <= m.state.cursor.last then Reordered else Accepted;
      Receive(cfg, m, d, e, io).verdict == if Fails(m, outcome, io) then IoError else Done(outcome)
  {
    CommittedFallback(m, d, io.commit);
    var (m', d') := Commit(m, d, io.commit);
    AdmitVerdict(m, d, e, io);
    AdmitVerdict(m', d', e, io);
    hide Classify, Commit, Admit;
  }

  lemma CommittedFallback(m: Memory, d: Disk, ok: bool)
    ensures Commit(m, d, ok).1.inbox == d.inbox && (m.pending != map[] && ok ==> Commit(m, d, ok).0.fallback == 0)
  {
    hide ApplyPending;
  }

  lemma AdmitVerdict(m: Memory, d: Disk, e: Envelope, io: Io)
    requires e.id !in d.inbox
    ensures forall outcome ::
      Admit(m, d, e, outcome, io).verdict == if io.create && io.save then Done(outcome) else IoError
  {
    hide Settle;
  }

  lemma KnownOutcome(cfg: Config, m: Memory, d: Disk, e: Envelope, io: Io)
    requires Classify(cfg, m, e) == Known && (m.pendingSave <==> m.pending != map[])
    ensures Receive(cfg, m, d, e, io).verdict == if Fails(m, Duplicate, io) then IoError else Done(Duplicate)
  {
    hide Classify, Commit;
  }

  lemma RefusedWith(cfg: Config, m: Memory, d: Disk, e: Envelope, io: Io)
    requires Classify(cfg, m, e).Refuse?
    ensures Receive(cfg, m, d, e, io) == Received(m, d, Done(Classify(cfg, m, e).why))
  {
    hide Classify;
  }

  lemma ClientFacts(cfg: Config, m: Memory, d: Disk, done: set<Envelope>, open: set<Envelope>)
    requires ClientInv(cfg, m, d, done, open)
    ensures m.pendingSave <==> m.pending != map[]
    ensures m.fallback == if m.state.streams == map[] then m.state.cursor.last else 0
    ensures Distinct(done + open)
  {
    hide Distinct, StateInv, Rows, IdIndex, KeyIndex, SeqIndex, KeysKnown, Base;
  }

  /** A write that the answer needs fails: what is pending has to be saved before a
      repeat is answered, a new row has to be written and saved as well. */
  predicate Fails(m: Memory, answer: Outcome, io: Io) {
    var commit := m.pending != map[] && !io.commit;
    (answer == Duplicate && commit) || (answer in {Accepted, Reordered} && (commit || !io.create || !io.save))
  }

  /** What Receive answers to any envelope in any reachable state, whatever is written. */
  lemma AnswersExactly(cfg: Config, s: Sys, e: Envelope, io: Io)
    requires Inv(cfg, s) && s.client.Some?
    ensures var sc, m := Session(cfg, s), s.client.value;
      var answer := Answer(sc, m, s.admitted, e);
      && Receive(sc, m, s.disk, e, io).verdict == (if Fails(m, answer, io) then IoError else Done(answer))
      && (answer !in {Accepted, Reordered, Duplicate}
          ==> Receive(sc, m, s.disk, e, io) == Received(m, s.disk, Done(answer)))
  {
    hide *;
    var sc, m, d, all := Session(cfg, s), s.client.value, s.disk, s.admitted;
    var done, open := s.admitted - s.unsaved, s.unsaved;
    InvParts(cfg, s);
    InboundClient(cfg, s);
    ClientParts(sc, m, d, done, open);
    ClientFacts(sc, m, d, done, open);
    StateParts(sc, View(m.state), done, open);
    ClassifiedWhen(sc, m, d.inbox, all, e);
    AnswerIs(sc, m, all, e);
    match Classify(sc, m, e)
    case Refuse(why) =>
      RefusedWith(sc, m, d, e, io);
      NeverFails(m, why, io);
      if !Collides(m, e) { ReservedMeans(m, d, done, open, e); }
    case Known =>
      KnownOutcome(sc, m, d, e, io);
    case Fresh =>
      ReservedMeans(m, d, done, open, e);
      ClassifiedExactly(sc, m, d, done, open, e);
      NotInInbox(m, d.inbox, done, open, e);
      SeqPositive(sc, e);
      FreshOutcome(sc, m, d, e, io);
  }

  lemma NeverFails(m: Memory, why: Outcome, io: Io)
    ensures why !in {Accepted, Reordered, Duplicate} ==> !Fails(m, why, io)
  {}

  lemma SeqPositive(cfg: Config, e: Envelope)
    requires WellFormed(cfg, e)
    ensures e.seqno > 0
  {}

  lemma AnswerIs(cfg: Config, m: Memory, all: set<Envelope>, e: Envelope)
    ensures Answer(cfg, m, all, e) ==
      if !Authentic(cfg, e) || (InRange(m, e) && !WellFormed(cfg, e)) then Tampered
      else if !InRange(m, e) then Incompatible
      else if Sid(e) in m.state.untrusted then Untrusted
      else if e in m.byId.Values then Duplicate
      else if Collides(m, e) then Collision
      else if e.seqno < m.state.cursor.floor || exists f :: f in all && SeqId(f) == SeqId(e) then Replay
      else if Legacy(m) && e.seqno <= m.state.cursor.last then Reordered
      else Accepted
  {
    hide Authentic, InRange, WellFormed, Collides, Legacy, SeqId;
  }

  // ---------------------------------------------------------------- opening any directory

  /** A row of the outbox as Open wants it: the next number, this route, version 1, and a
      good signature under the own key or a configured one. */
  ghost predicate OwnRow(cfg: Config, e: Envelope, n: nat) {
    && e.seqno == n && e.schema == 1 && WellFormed(cfg, e)
    && Authentic(cfg.(trusted := cfg.trusted[cfg.keyId := cfg.prims.public(cfg.secret)]), e)
  }

  /** The schema versions a directory takes: what its state says, else what is configured,
      else version 1. */
  function Version(saved: int, configured: int): int {
    if saved != 0 then saved else if configured != 0 then configured else 1
  }

  function LowOf(cfg: Config, d: Disk): int {
    Version(if d.state.Some? then d.state.value.cursor.minSchema else 0, cfg.cursor.minSchema)
  }

  function HighOf(cfg: Config, d: Disk): int {
    Version(if d.state.Some? then d.state.value.cursor.maxSchema else 0, cfg.cursor.maxSchema)
  }

  /** A row of the inbox as Open wants it; its signature is looked at if its key is
      configured. */
  ghost predicate KeptRow(cfg: Config, e: Envelope, low: int, high: int) {
    && (e.tenant, e.project) == (cfg.tenant, cfg.project) && WellFormed(cfg, e) && low <= e.schema <= high
    && e.algorithm == "Ed25519" && cfg.prims.wellFormed(e.signature) && Canonical(e).Some?
    && (e.keyId in cfg.trusted ==> Verify(cfg.prims, e, cfg.trusted))
  }

  /** The directory is one that this client could have written or received. */
  ghost predicate Sound(cfg: Config, d: Disk) {
    && "" !in {cfg.tenant, cfg.project, cfg.keyId}
    && (forall i | 0 <= i < |d.outbox| :: OwnRow(cfg, d.outbox[i], i + 1))
    && (d.state.Some? ==> d.state.value.acked <= |d.outbox| && d.state.value.next <= |d.outbox| + 1)
    && (forall id | id in d.inbox :: d.inbox[id].id == id && KeptRow(cfg, d.inbox[id], LowOf(cfg, d), HighOf(cfg, d)))
    && (forall id, other | id in d.inbox && other in d.inbox && id != other ::
        !SharesIdentity(d.inbox[id], d.inbox[other]))
  }

  lemma OwnRowIs(cfg: Config, e: Envelope, n: nat)
    ensures OutboxRowOk(cfg, e, n) <==> OwnRow(cfg, e, n)
  {
    WellFormedIs(cfg, e);
    hide Verify, ValidFields, WellFormed;
  }

  lemma KeptRowIs(cfg: Config, st: State, e: Envelope)
    ensures InboxRowOk(cfg, st, e) <==> KeptRow(cfg, e, st.cursor.minSchema, st.cursor.maxSchema)
  {
    WellFormedIs(cfg, e);
    hide Verify, ValidFields, WellFormed, Canonical;
  }

  lemma DistinctIs(inbox: map<string, Envelope>)
    requires forall id | id in inbox :: inbox[id].id == id
    ensures Distinct(inbox.Values) <==>
      forall id, other | id in inbox && other in inbox && id != other :: !SharesIdentity(inbox[id], inbox[other])
  {
    hide SeqId;
    if Distinct(inbox.Values) {
      forall id, other | id in inbox && other in inbox && id != other ensures !SharesIdentity(inbox[id], inbox[other]) {
        assert inbox[id] in inbox.Values && inbox[other] in inbox.Values && inbox[id] != inbox[other];
      }
    }
    if forall id, other | id in inbox && other in inbox && id != other :: !SharesIdentity(inbox[id], inbox[other]) {
      forall e, f | e in inbox.Values && f in inbox.Values && e != f
        ensures e.id != f.id && e.key != f.key && SeqId(e) != SeqId(f)
      {
        var id :| id in inbox && inbox[id] == e;
        var other :| other in inbox && inbox[other] == f;
        assert id != other && !SharesIdentity(inbox[id], inbox[other]);
      }
    }
  }

  /** Open takes a directory, whatever wrote it, if and only if it is sound and the state it
      arrives at is saved or need not be. The client goes on behind the last row. */
  lemma OpensExactly(cfg: Config, d: Disk, save: bool)
    ensures var r, after := Open(cfg, d, save).0, Open(cfg, d, save).1;
      && (r.Some? ==> Sound(cfg, d)) && (Sound(cfg, d) && save ==> r.Some?)
      && (r.Some? ==>
            && r.value.state.next == |d.outbox| + 1 && r.value.pending == map[] && r.value.byId == d.inbox
            && after.outbox == d.outbox && after.inbox == d.inbox)
  {
    OpenWhen(cfg, d, save);
    OpenOkIs(cfg, d);
    hide OpenOk, Sound, Loaded, RebuiltStreams, Listing, AppendNew, Frontier, Distrusted;
    assert Loaded(cfg, d).next == |d.outbox| + 1 by { NextLoaded(cfg, d); }
  }

  lemma NextLoaded(cfg: Config, d: Disk)
    ensures Loaded(cfg, d).next == |d.outbox| + 1
    ensures Loaded(cfg, d).cursor.minSchema == LowOf(cfg, d) && Loaded(cfg, d).cursor.maxSchema == HighOf(cfg, d)
  {}

  lemma OpenOkIs(cfg: Config, d: Disk)
    ensures OpenOk(cfg, d) <==> Sound(cfg, d)
  {
    NextLoaded(cfg, d);
    var st := Loaded(cfg, d);
    forall e, n: nat ensures OutboxRowOk(cfg, e, n) <==> OwnRow(cfg, e, n) { OwnRowIs(cfg, e, n); }
    forall e ensures InboxRowOk(cfg, st, e) <==> KeptRow(cfg, e, st.cursor.minSchema, st.cursor.maxSchema) {
      KeptRowIs(cfg, st, e);
    }
    if forall id | id in d.inbox :: d.inbox[id].id == id { DistinctIs(d.inbox); }
    hide OutboxRowOk, InboxRowOk, OwnRow, KeptRow, Distinct, SharesIdentity, Loaded;
  }

  /** What the state of a directory, or the configuration without one, had of streams. */
  function PriorStreams(d: Disk): map<StreamId, Stream> { if d.state.Some? then d.state.value.streams else map[] }

  function PriorDistrust(d: Disk): set<StreamId> { if d.state.Some? then d.state.value.untrusted else {} }

  /** A stream of this route, with a key named. */
  predicate Named(cfg: Config, s: StreamId) { (s.tenant, s.project) == (cfg.tenant, cfg.project) && s.keyId != "" }

  ghost predicate HasRow(d: Disk, s: StreamId) { exists e :: e in d.inbox.Values && Sid(e) == s }

  ghost predicate RowNumbered(d: Disk, s: StreamId, n: nat) {
    exists e :: e in d.inbox.Values && Sid(e) == s && e.seqno == n
  }

  /** What Open makes of any directory: the streams are those of this route that were there
      and those that have rows; distrusted are those that were, and those whose key is
      not configured; a number is reserved if it was, or if a row has it. */
  lemma OpenedStreams(cfg: Config, d: Disk, save: bool, s: StreamId)
    requires Open(cfg, d, save).0.Some?
    ensures var st := Open(cfg, d, save).0.value.state;
      && (s in st.streams <==> (s in PriorStreams(d) && Named(cfg, s)) || HasRow(d, s))
      && (s in st.untrusted <==>
            || (Named(cfg, s) && (s in PriorDistrust(d) || (s in PriorStreams(d) && s.keyId !in cfg.trusted)))
            || (HasRow(d, s) && s.keyId !in cfg.trusted))
      && (s in st.streams ==> forall n: nat | n > 0 ::
            Reserves(st.streams[s], n) <==> Reserves(StreamOf(PriorStreams(d), s), n) || RowNumbered(d, s, n))
      && (s in st.streams && s !in st.untrusted ==> st.streams[s].last + 1 !in st.streams[s].gaps)
  {
    hide *;
    StateOpened(cfg, d, save);
    var st := Loaded(cfg, d);
    LoadedStreams(cfg, d);
    RebuiltParts(cfg, st, d.inbox);
    StreamsMean(cfg, st, d, s);
    DistrustMeans(cfg, st, d, s);
    if s in RebuiltStreams(cfg, st, d.inbox.Values) {
      StreamAt(cfg, st, d.inbox.Values, s);
      NumbersMean(st, d, Distrusted(cfg, st, d.inbox.Values), s);
    }
  }

  lemma StateOpened(cfg: Config, d: Disk, save: bool)
    requires Open(cfg, d, save).0.Some?
    ensures Open(cfg, d, save).0.value.state == RebuiltState(cfg, Loaded(cfg, d), d.inbox)
  {
    hide OpenOk, RebuiltState, Loaded, ByKey, BySeq;
  }

  lemma LoadedStreams(cfg: Config, d: Disk)
    ensures Loaded(cfg, d).streams == PriorStreams(d) && Loaded(cfg, d).untrusted == PriorDistrust(d)
  {}

  lemma RebuiltParts(cfg: Config, st: State, inbox: map<string, Envelope>)
    ensures var r := RebuiltState(cfg, st, inbox);
      && r.streams == RebuiltStreams(cfg, st, inbox.Values) && r.untrusted == Distrusted(cfg, st, inbox.Values)
      && (r.streams != map[] ==> r.cursor.last == Frontier(r.streams, r.untrusted))
      && (r.streams == map[] && inbox == map[] ==> r.cursor.last == st.cursor.last)
  {
    var rows := Listing(inbox);
    assert rows != [] ==> rows[0] in rows;
    hide RebuiltStreams, Distrusted, Frontier, Listing, AppendNew;
  }

  lemma StreamsMean(cfg: Config, st: State, d: Disk, s: StreamId)
    ensures s in RebuiltStreams(cfg, st, d.inbox.Values) <==> (s in st.streams && Named(cfg, s)) || HasRow(d, s)
  {
    hide RebuiltStream, Distrusted, Sid;
    var rows := set e | e in d.inbox.Values :: Sid(e);
    assert s in rows <==> HasRow(d, s);
    assert s in RebuiltStreams(cfg, st, d.inbox.Values) <==> (s in st.streams && OnRoute(cfg, s)) || s in rows;
  }

  lemma DistrustMeans(cfg: Config, st: State, d: Disk, s: StreamId)
    ensures s in Distrusted(cfg, st, d.inbox.Values) <==>
      || (Named(cfg, s) && (s in st.untrusted || (s in st.streams && s.keyId !in cfg.trusted)))
      || (HasRow(d, s) && s.keyId !in cfg.trusted)
  {
    assert forall e: Envelope :: Sid(e).keyId == e.keyId;
    hide Sid;
    if HasRow(d, s) {
      var e :| e in d.inbox.Values && Sid(e) == s;
    }
  }

  lemma StreamAt(cfg: Config, st: State, rows: set<Envelope>, s: StreamId)
    requires s in RebuiltStreams(cfg, st, rows)
    ensures RebuiltStreams(cfg, st, rows)[s] == RebuiltStream(st, rows, Distrusted(cfg, st, rows), s)
  {
    hide RebuiltStream, Distrusted, Sid;
  }

  lemma NumbersMean(st: State, d: Disk, untrusted: set<StreamId>, s: StreamId)
    ensures var t := RebuiltStream(st, d.inbox.Values, untrusted, s);
      && (forall n: nat | n > 0 ::
            Reserves(t, n) <==> Reserves(StreamOf(st.streams, s), n) || RowNumbered(d, s, n))
      && (s !in untrusted ==> t.last + 1 !in t.gaps)
  {
    var prior := StreamOf(st.streams, s);
    var joined := prior.(gaps := prior.gaps + RowGaps(d.inbox.Values, s, prior.last));
    SettleKeeps(joined);
    hide Settle, Sid;
    forall n: nat | n > 0
      ensures Reserves(joined, n) <==> Reserves(prior, n) || RowNumbered(d, s, n)
    {
      assert n in RowGaps(d.inbox.Values, s, prior.last) <==> n > prior.last && RowNumbered(d, s, n);
    }
  }

  /** The scalar cursor of an opened client is the furthest frontier of its trusted streams;
      without streams it is what it was. */
  lemma OpenedCursor(cfg: Config, d: Disk, save: bool)
    requires Open(cfg, d, save).0.Some?
    ensures var st := Open(cfg, d, save).0.value.state;
      if st.streams == map[] then
        st.cursor.last == (if d.state.Some? then d.state.value.cursor.last else cfg.cursor.last)
      else
        && (forall s | s in st.streams && s !in st.untrusted :: st.streams[s].last <= st.cursor.last)
        && (st.cursor.last == 0
            || exists s :: s in st.streams && s !in st.untrusted && st.streams[s].last == st.cursor.last)
  {
    hide *;
    StateOpened(cfg, d, save);
    var st := Loaded(cfg, d);
    RebuiltParts(cfg, st, d.inbox);
    CursorLoaded(cfg, d);
    var r := RebuiltState(cfg, st, d.inbox);
    if r.streams == map[] {
      if d.inbox != map[] {
        var id :| id in d.inbox;
        HasOne(d, id);
        StreamsMean(cfg, st, d, Sid(d.inbox[id]));
      }
    } else {
      FrontierBounds(r.streams, r.untrusted);
    }
  }

  lemma HasOne(d: Disk, id: string)
    requires id in d.inbox
    ensures HasRow(d, Sid(d.inbox[id]))
  {}

  lemma CursorLoaded(cfg: Config, d: Disk)
    ensures Loaded(cfg, d).cursor.last == if d.state.Some? then d.state.value.cursor.last else cfg.cursor.last
  {}

  // ---------------------------------------------------------------- rows

  /** Whatever the client remembers and whatever fails, Receive takes no row out of the inbox
      and overwrites none; the only row it may add is the envelope under its own id. */
  lemma RowsStay(cfg: Config, m: Memory, d: Disk, e: Envelope, io: Io)
    ensures var after := Receive(cfg, m, d, e, io).disk;
      && after.outbox == d.outbox
      && (forall id | id in d.inbox :: id in after.inbox && after.inbox[id] == d.inbox[id])
      && (forall id | id in after.inbox && id !in d.inbox :: id == e.id && after.inbox[id] == e)
  {
    CommitInbox(m, d, io.commit);
    var (m', d') := Commit(m, d, io.commit);
    var first, second := FreshEnds(cfg, m, d, e, io);
    AdmitInbox(m, d, e, first, io);
    AdmitInbox(m', d', e, second, io);
    hide Classify, Commit, Admit;
  }

  /** The outcomes with which Receive admits an envelope, without a commit and behind one. */
  lemma FreshEnds(cfg: Config, m: Memory, d: Disk, e: Envelope, io: Io) returns (first: Outcome, second: Outcome)
    ensures var r := Receive(cfg, m, d, e, io); var c := Commit(m, d, io.commit);
      r.disk == d || r.disk == c.1 || r == Admit(m, d, e, first, io) || r == Admit(c.0, c.1, e, second, io)
  {
    hide Classify, Commit, Admit;
    var c := Commit(m, d, io.commit);
    var last := StreamOf(m.state.streams, Sid(e)).last;
    first := if last == 0 && m.fallback > 0 && e.seqno <= m.fallback then Reordered else Accepted;
    second := if last == 0 && c.0.fallback > 0 && e.seqno <= c.0.fallback then Reordered else Accepted;
  }

  lemma CommitInbox(m: Memory, d: Disk, ok: bool)
    ensures Commit(m, d, ok).1.inbox == d.inbox && Commit(m, d, ok).1.outbox == d.outbox
  {
    hide ApplyPending;
  }

  lemma AdmitInbox(m: Memory, d: Disk, e: Envelope, outcome: Outcome, io: Io)
    ensures var after := Admit(m, d, e, outcome, io).disk;
      && after.outbox == d.outbox
      && (forall id | id in d.inbox :: id in after.inbox && after.inbox[id] == d.inbox[id])
      && (forall id | id in after.inbox && id !in d.inbox :: id == e.id && after.inbox[id] == e)
  {
    hide Settle;
  }

  // ---------------------------------------------------------------- acknowledgements

  lemma {:induction false} AllCounters(cfg: Config, m: Memory, d: Disk, inbound: seq<Envelope>, ios: seq<Io>)
    requires |ios| == |inbound|
    ensures var r := SC.ReceiveAll(cfg, m, d, inbound, ios);
      && r.memory.state.acked == m.state.acked && r.memory.state.next == m.state.next && r.disk.outbox == d.outbox
      && (r.disk.state == d.state || (r.disk.state.Some? && r.disk.state.value.acked == m.state.acked))
    decreases |inbound|
  {
    hide Receive;
    if inbound != [] {
      ReceiveCounters(cfg, m, d, inbound[0], ios[0]);
      var r := Receive(cfg, m, d, inbound[0], ios[0]);
      if SC.Fine(r.verdict) { AllCounters(cfg, r.memory, r.disk, inbound[1..], ios[1..]); }
    }
  }

  /** Whatever acknowledgement the transport starts from and whatever it is answered, a Sync
      never takes back an acknowledgement and never takes one for a row that was not
      pending, and it leaves the rows and their numbers alone. A new acknowledgement is on
      disk exactly if it could be saved, and only then is the Sync a success. */
  lemma AcksOnlyPending(cfg: Config, m: Memory, d: Disk, base: nat, out: Option<SyncTransport.ExchangeResponse>,
                        ios: seq<Io>, save: bool)
    requires out.Some? ==> |ios| == |out.value.inbound|
    ensures var end, rows := SC.SyncOnce(cfg, m, d, base, out, ios, save), Pending(d.outbox, m.state.acked);
      && end.memory.state.acked >= m.state.acked && end.memory.state.next == m.state.next && end.disk.outbox == d.outbox
      && (end.memory.state.acked > m.state.acked ==>
            && rows != [] && end.memory.state.acked <= rows[|rows| - 1].seqno && (end.ok <==> save)
            && (save ==> end.disk.state == Some(end.memory.state)))
      && (!save || end.memory.state.acked == m.state.acked ==>
            end.disk.state == d.state || (end.disk.state.Some? && end.disk.state.value.acked == m.state.acked))
  {
    if out.Some? { AllCounters(cfg, m, d, out.value.inbound, ios); }
    hide SC.ReceiveAll, Pending, Settle, SyncTransport.AckedSet, SyncTransport.Acceptable;
  }
}
