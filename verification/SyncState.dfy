/** The state of the offline sync client and what each of its operations computes
    on it (internal/cloudsync/client.go). SyncClient proves the operations, as
    Go writes them, against these functions; SyncInbound, SyncOutbound and
    SyncRuns prove the properties of the protocol about them. */
module SyncState {
  import opened Wrappers
  import opened Envelopes
  import CanonicalJson

  // ---------------------------------------------------------------- data

  datatype StreamId = StreamId(tenant: string, project: string, keyId: string)

  /** Progress of one inbound producer: everything up to `last`, and the `gaps`
      accepted beyond it (accepted_sequences in state.json). */
  datatype Stream = Stream(last: nat, gaps: set<nat>)

  datatype Cursor = Cursor(
    last: nat, seenIds: seq<string>, seenKeys: seq<string>,
    minSchema: int, maxSchema: int, floor: nat)

  /** state.json. */
  datatype State = State(
    next: nat, acked: nat, cursor: Cursor,
    streams: map<StreamId, Stream>, untrusted: set<StreamId>)

  /** The durable directory: outbox files in name order, which is sequence order,
      inbox files by the event id that names them, and state.json. */
  datatype Disk = Disk(outbox: seq<Envelope>, inbox: map<string, Envelope>, state: Option<State>)

  datatype Config = Config(
    tenant: string, project: string, producer: string, keyId: string, secret: string,
    trusted: map<string, string>, cursor: Cursor, prims: Primitives)

  /** An open client. The three indexes keep the envelope where Go keeps its
      canonical text (Envelopes.CanonicalInjective); `held` are the reserved
      identities whose rows are gone, `fallback` the legacy scalar cursor. */
  datatype Memory = Memory(
    state: State,
    byId: map<string, Envelope>, byKey: map<string, Envelope>, bySeq: map<(StreamId, nat), Envelope>,
    heldIds: set<string>, heldKeys: set<string>,
    pending: map<string, Envelope>, pendingSave: bool, fallback: nat)

  datatype Outcome = Accepted | Reordered | Duplicate | Incompatible | Replay | Tampered | Collision | Untrusted

  /** What Receive returns: an outcome, or a failed read or write and no outcome. */
  datatype Verdict = Done(outcome: Outcome) | IoError

  /** Which of the writes of one operation succeed. */
  datatype Io = Io(commit: bool, create: bool, save: bool)

  // ---------------------------------------------------------------- streams

  function Sid(e: Envelope): StreamId { StreamId(e.tenant, e.project, e.keyId) }

  function SeqId(e: Envelope): (StreamId, nat) { (Sid(e), e.seqno) }

  /** inboundStreamKeyID: a stream name of this route. */
  predicate OnRoute(cfg: Config, s: StreamId) {
    s.tenant == cfg.tenant && s.project == cfg.project && s.keyId != ""
  }

  function StreamOf(streams: map<StreamId, Stream>, s: StreamId): Stream {
    if s in streams then streams[s] else Stream(0, {})
  }

  /** A sequence number the summary reserves. */
  predicate Reserves(s: Stream, n: nat) { 1 <= n <= s.last || n in s.gaps }

  /** The contiguous frontier moved up over the gap set. */
  function Settle(s: Stream): Stream
    decreases |s.gaps|
  {
    if s.last + 1 in s.gaps then Settle(Stream(s.last + 1, s.gaps - {s.last + 1})) else s
  }

  // ---------------------------------------------------------------- applying and saving

  function ApplyInbound(st: State, fallback: nat, e: Envelope): State {
    var prior := StreamOf(st.streams, Sid(e));
    var stream := Settle(prior.(gaps := prior.gaps + {e.seqno}));
    var last := if fallback > 0 || stream.last > st.cursor.last then stream.last else st.cursor.last;
    st.(cursor :=
        st.cursor.(seenIds := st.cursor.seenIds + [e.id], seenKeys := st.cursor.seenKeys + [e.key], last := last),
        streams := st.streams[Sid(e) := stream])
  }

  /** Every pending envelope applied; their order is not specified by Go. */
  ghost function ApplyPending(st: State, fallback: nat, pending: map<string, Envelope>): State
    decreases pending.Keys
  {
    if pending == map[] then st
    else
      var id :| id in pending;
      ApplyPending(ApplyInbound(st, fallback, pending[id]), fallback, pending - {id})
  }

  function Saved(d: Disk, st: State): Disk { d.(state := Some(st)) }

  /** commitPendingInbound. */
  ghost function Commit(m: Memory, d: Disk, ok: bool): (Memory, Disk) {
    if m.pending == map[] then (m.(pendingSave := false), d)
    else if ok then
      var st := ApplyPending(m.state, m.fallback, m.pending);
      (m.(state := st, pending := map[], pendingSave := false, fallback := 0), Saved(d, st))
    else (m, d)
  }

  predicate CommitFails(m: Memory, ok: bool) { m.pending != map[] && !ok }

  // ---------------------------------------------------------------- Receive

  /** What the checks of Receive, in their order, make of an envelope. */
  datatype Class = Refuse(why: Outcome) | Known | Fresh

  ghost function Classify(cfg: Config, m: Memory, e: Envelope): Class {
    if e.tenant != cfg.tenant || e.project != cfg.project || !Verify(cfg.prims, e, cfg.trusted) then Refuse(Tampered)
    else if e.schema < m.state.cursor.minSchema || e.schema > m.state.cursor.maxSchema then Refuse(Incompatible)
    else if !ValidFields(e) || !cfg.prims.payloadOk(e.kind, e.payload) then Refuse(Tampered)
    else if Sid(e) in m.state.untrusted then Refuse(Untrusted)
    else if e.id in m.byId then (if m.byId[e.id] == e then Known else Refuse(Collision))
    else if e.key in m.byKey then (if m.byKey[e.key] == e then Known else Refuse(Collision))
    else if SeqId(e) in m.bySeq then (if m.bySeq[SeqId(e)] == e then Known else Refuse(Collision))
    else if e.id in m.heldIds || e.key in m.heldKeys then Refuse(Collision)
    else if e.seqno < m.state.cursor.floor then Refuse(Replay)
    else if Reserves(StreamOf(m.state.streams, Sid(e)), e.seqno) then Refuse(Replay)
    else Fresh
  }

  function Indexed(m: Memory, e: Envelope): Memory {
    m.(byId := m.byId[e.id := e], byKey := m.byKey[e.key := e], bySeq := m.bySeq[SeqId(e) := e])
  }

  datatype Received = Received(memory: Memory, disk: Disk, verdict: Verdict)

  /** persistInbound: an existing file with the same content is as good as a new one. */
  predicate Persists(d: Disk, e: Envelope, create: bool) {
    if e.id in d.inbox then d.inbox[e.id] == e else create
  }

  /** The tail of Receive: the row is written, indexed, marked pending and applied. */
  ghost function Admit(m: Memory, d: Disk, e: Envelope, outcome: Outcome, io: Io): Received {
    if !Persists(d, e, io.create) then Received(m, d, IoError)
    else
      var written := d.(inbox := d.inbox[e.id := e]);
      var marked := Indexed(m, e).(pending := m.pending[e.id := e], pendingSave := true);
      if !io.save then Received(marked, written, IoError)
      else
        var st := ApplyInbound(m.state, m.fallback, e);
        var left := m.pending - {e.id};
        Received(marked.(state := st, pending := left, pendingSave := left != map[], fallback := 0), Saved(written, st),
            Done(outcome))
  }

  ghost function Receive(cfg: Config, m: Memory, d: Disk, e: Envelope, io: Io): Received {
    match Classify(cfg, m, e)
    case Refuse(why) => Received(m, d, Done(why))
    case Known =>
      if !m.pendingSave then Received(m, d, Done(Duplicate))
      else
        var (m', d') := Commit(m, d, io.commit);
        Received(m', d', if CommitFails(m, io.commit) then IoError else Done(Duplicate))
    case Fresh =>
      var (m', d') := if m.pendingSave then Commit(m, d, io.commit) else (m, d);
      if m.pendingSave && CommitFails(m, io.commit) then Received(m', d', IoError)
      else
        var before := StreamOf(m.state.streams, Sid(e));
        var outcome := if before.last == 0 && m'.fallback > 0 && e.seqno <= m'.fallback then Reordered else Accepted;
        Admit(m', d', e, outcome, io)
  }

  // ---------------------------------------------------------------- the outbox

  /** The envelope Enqueue signs, before it is signed. */
  function Draft(cfg: Config, st: State, kind: string, key: string, payload: CanonicalJson.Json, id: string,
      now: string): Envelope {
    Envelope(1, kind, cfg.tenant, cfg.project, id, st.next, now, key, cfg.producer, payload, ED25519, cfg.keyId, "")
  }

  /** findIdempotency. */
  ghost function WithKey(outbox: seq<Envelope>, key: string): Option<Envelope> {
    if outbox == [] then None
    else if outbox[0].key == key then Some(outbox[0])
    else WithKey(outbox[1..], key)
  }

  datatype Enqueued = Enqueued(memory: Memory, disk: Disk, result: Option<Envelope>)

  /** Enqueue; `io.create` and `io.save` say whether its two writes succeed. */
  ghost function Enqueue(cfg: Config, m: Memory, d: Disk, kind: string, key: string, payload: CanonicalJson.Json,
                         id: string, now: string, io: Io): Enqueued {
    if !cfg.prims.payloadOk(kind, payload) || key == "" || |key| > 256 || m.state.next > MAX_SEQUENCE
        then Enqueued(m, d, None)
    else if WithKey(d.outbox, key).Some? then Enqueued(m, d, WithKey(d.outbox, key))
    else
      match Sign(cfg.prims, Draft(cfg, m.state, kind, key, payload, id, now), cfg.secret)
      case None => Enqueued(m, d, None)
      case Some(e) =>
        if !io.create then Enqueued(m, d, None)
        else
          var m' := m.(state := m.state.(next := m.state.next + 1));
          var d' := d.(outbox := d.outbox + [e]);
          if io.save then Enqueued(m', Saved(d', m'.state), Some(e)) else Enqueued(m', d', None)
  }

  /** pending: the rows above the acknowledged sequence, in order. */
  function Pending(outbox: seq<Envelope>, acked: nat): seq<Envelope> {
    if outbox == [] then []
    else if outbox[0].seqno > acked then [outbox[0]] + Pending(outbox[1..], acked)
    else Pending(outbox[1..], acked)
  }

  /** The end of Sync: the acknowledged sequence moves up and is saved. */
  function Acknowledge(m: Memory, d: Disk, acked: nat, save: bool): (Memory, Disk) {
    if acked <= m.state.acked then (m, d)
    else
      var st := m.state.(acked := acked);
      (m.(state := st), if save then Saved(d, st) else d)
  }

  // ---------------------------------------------------------------- Open

  /** What Open demands of one outbox row at position `n`. */
  ghost predicate OutboxRowOk(cfg: Config, e: Envelope, n: nat) {
    && e.seqno == n && e.tenant == cfg.tenant && e.project == cfg.project && e.schema == 1
    && ValidFields(e) && Verify(cfg.prims, e, cfg.trusted[cfg.keyId := cfg.prims.public(cfg.secret)])
    && cfg.prims.payloadOk(e.kind, e.payload)
  }

  ghost predicate OutboxOk(cfg: Config, outbox: seq<Envelope>) {
    forall i | 0 <= i < |outbox| :: OutboxRowOk(cfg, outbox[i], i + 1)
  }

  /** What Open demands of one inbox row, given the schema bounds of the state. */
  ghost predicate InboxRowOk(cfg: Config, st: State, e: Envelope) {
    && e.tenant == cfg.tenant && e.project == cfg.project && ValidFields(e)
    && st.cursor.minSchema <= e.schema <= st.cursor.maxSchema
    && cfg.prims.payloadOk(e.kind, e.payload)
    && e.algorithm == ED25519 && cfg.prims.wellFormed(e.signature)
    && (e.keyId in cfg.trusted ==> Verify(cfg.prims, e, cfg.trusted))
    && Canonical(e).Some?
  }

  /** No two different envelopes of the set share an identity. */
  ghost predicate Distinct(rows: set<Envelope>) {
    forall e, f | e in rows && f in rows && e != f :: e.id != f.id && e.key != f.key && SeqId(e) != SeqId(f)
  }

  ghost predicate InboxOk(cfg: Config, st: State, inbox: map<string, Envelope>) {
    && (forall id | id in inbox :: inbox[id].id == id && InboxRowOk(cfg, st, inbox[id]))
    && Distinct(inbox.Values)
  }

  /** The inbox rows in file name order. */
  ghost function Listing(inbox: map<string, Envelope>): (r: seq<Envelope>)
    ensures forall e :: e in r <==> e in inbox.Values
  {
    hide CanonicalJson.SortedKeys;
    var names := CanonicalJson.SortedKeys(inbox.Keys);
    var rows := seq(|names|, i requires 0 <= i < |names| => assert names[i] in names; inbox[names[i]]);
    RowsListed(inbox, names, rows);
    rows
  }

  lemma RowsListed(inbox: map<string, Envelope>, names: seq<string>, rows: seq<Envelope>)
    requires |rows| == |names| && forall id :: id in names <==> id in inbox
    requires forall i | 0 <= i < |names| :: names[i] in inbox && rows[i] == inbox[names[i]]
    ensures forall e :: e in rows <==> e in inbox.Values
  {
    forall e | e in inbox.Values ensures e in rows {
      var id :| id in inbox && inbox[id] == e;
      assert id in names;
      var i :| 0 <= i < |names| && names[i] == id;
      assert rows[i] == e;
    }
    forall e | e in rows ensures e in inbox.Values {
      var i :| 0 <= i < |rows| && rows[i] == e;
      assert inbox[names[i]] == e;
    }
  }

  /** The elements of `more` not yet listed, appended in order. */
  function AppendNew(list: seq<string>, more: seq<string>): seq<string>
    decreases |more|
  {
    if more == [] then list
    else AppendNew(if more[0] in list then list else list + [more[0]], more[1..])
  }

  function Ids(rows: seq<Envelope>): seq<string> { seq(|rows|, i requires 0 <= i < |rows| => rows[i].id) }

  function Keys(rows: seq<Envelope>): seq<string> { seq(|rows|, i requires 0 <= i < |rows| => rows[i].key) }

  /** The streams a new Open distrusts: those latched before, those whose key is
      not configured, and those of rows whose key is not configured. */
  ghost function Distrusted(cfg: Config, st: State, rows: set<Envelope>): set<StreamId> {
    (set s | s in st.untrusted && OnRoute(cfg, s))
    + (set s | s in st.streams && OnRoute(cfg, s) && s.keyId !in cfg.trusted)
    + (set e | e in rows && e.keyId !in cfg.trusted :: Sid(e))
  }

  /** The sequence numbers the retained rows of a stream hold beyond `last`. */
  ghost function RowGaps(rows: set<Envelope>, s: StreamId, last: nat): set<nat> {
    set e | e in rows && Sid(e) == s && e.seqno > last :: e.seqno
  }

  ghost function RebuiltStream(st: State, rows: set<Envelope>, untrusted: set<StreamId>, s: StreamId): Stream {
    var prior := StreamOf(st.streams, s);
    var joined := prior.(gaps := prior.gaps + RowGaps(rows, s, prior.last));
    if s in untrusted then joined else Settle(joined)
  }

  ghost function RebuiltStreams(cfg: Config, st: State, rows: set<Envelope>): map<StreamId, Stream> {
    var untrusted := Distrusted(cfg, st, rows);
    map s | s in (set t | t in st.streams && OnRoute(cfg, t)) + (set e | e in rows :: Sid(e))
      :: RebuiltStream(st, rows, untrusted, s)
  }

  /** The highest frontier among the trusted streams, 0 when there is none. */
  ghost function Frontier(streams: map<StreamId, Stream>, untrusted: set<StreamId>): nat
  {
    if streams == map[] then 0
    else
      var s :| s in streams;
      var rest := Frontier(streams - {s}, untrusted);
      if s !in untrusted && streams[s].last > rest then streams[s].last else rest
  }

  /** The state that rebuildInboundIndexes leaves. */
  ghost function RebuiltState(cfg: Config, st: State, inbox: map<string, Envelope>): State {
    var rows := Listing(inbox);
    var streams := RebuiltStreams(cfg, st, inbox.Values);
    var untrusted := Distrusted(cfg, st, inbox.Values);
    var last := if streams != map[] then Frontier(streams, untrusted) else if rows != [] then 0 else st.cursor.last;
    st.(streams := streams, untrusted := untrusted,
        cursor := st.cursor.(seenIds := AppendNew(st.cursor.seenIds, Ids(rows)),
                             seenKeys := AppendNew(st.cursor.seenKeys, Keys(rows)), last := last))
  }

  ghost function KeySet(rows: set<Envelope>): set<string> { set e | e in rows :: e.key }

  ghost function SeqSet(rows: set<Envelope>): set<(StreamId, nat)> { set e | e in rows :: SeqId(e) }

  ghost function RowByKey(rows: set<Envelope>, k: string): (e: Envelope)
    requires k in KeySet(rows)
    ensures e in rows && e.key == k
  {
    var e :| e in rows && e.key == k; e
  }

  ghost function RowBySeq(rows: set<Envelope>, k: (StreamId, nat)): (e: Envelope)
    requires k in SeqSet(rows)
    ensures e in rows && SeqId(e) == k
  {
    var e :| e in rows && SeqId(e) == k; e
  }

  ghost function ByKey(rows: set<Envelope>): map<string, Envelope> {
    map k | k in KeySet(rows) :: RowByKey(rows, k)
  }

  ghost function BySeq(rows: set<Envelope>): map<(StreamId, nat), Envelope> {
    map k | k in SeqSet(rows) :: RowBySeq(rows, k)
  }

  /** The indexes, reservations and fallback that go with a rebuilt state. */
  ghost function Opened(cfg: Config, st: State, inbox: map<string, Envelope>): Memory {
    var rebuilt := RebuiltState(cfg, st, inbox);
    var byKey := ByKey(inbox.Values);
    Memory(rebuilt, inbox, byKey, BySeq(inbox.Values),
           (set id | id in st.cursor.seenIds && id !in inbox), (set k | k in st.cursor.seenKeys && k !in byKey),
           map[], false, if rebuilt.streams == map[] then rebuilt.cursor.last else 0)
  }

  /** The schema bounds a configuration stands for. */
  function Bounded(c: Cursor): Cursor {
    c.(minSchema := if c.minSchema == 0 then 1 else c.minSchema,
       maxSchema := if c.maxSchema == 0 then 1 else c.maxSchema)
  }

  /** The state Open works on once state.json is read and the sequence recovered
      from the outbox. */
  function Loaded(cfg: Config, d: Disk): State {
    var st := if d.state.Some? then d.state.value else State(1, 0, Bounded(cfg.cursor), map[], {});
    var c := st.cursor;
    st.(next := |d.outbox| + 1,
        cursor := c.(minSchema := if c.minSchema == 0 then Bounded(cfg.cursor).minSchema else c.minSchema,
                     maxSchema := if c.maxSchema == 0 then Bounded(cfg.cursor).maxSchema else c.maxSchema))
  }

  ghost predicate ProducerOk(cfg: Config, d: Disk) {
    && OutboxOk(cfg, d.outbox)
    && (d.state.Some? ==> d.state.value.acked <= |d.outbox| && d.state.value.next <= |d.outbox| + 1)
  }

  /** Every check of Open that a disk can fail. */
  ghost predicate OpenOk(cfg: Config, d: Disk) {
    cfg.tenant != "" && cfg.project != "" && cfg.keyId != "" && ProducerOk(cfg, d)
        && InboxOk(cfg, Loaded(cfg, d), d.inbox)
  }

  /** Open: refused or not saved, it returns no client. */
  ghost function Open(cfg: Config, d: Disk, save: bool): (Option<Memory>, Disk) {
    if !OpenOk(cfg, d) then (None, d)
    else
      var m := Opened(cfg, Loaded(cfg, d), d.inbox);
      if d.state == Some(m.state) then (Some(m), d)
      else if save then (Some(m), Saved(d, m.state))
      else (None, d)
  }
}
