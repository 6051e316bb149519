/** The whole protocol as one step system: an offline client that may crash at any
    moment and whose saves may fail, a network that loses, repeats, delays and
    tampers, and the reference server; and what every run of it keeps. */
module SyncRuns {
  import opened Wrappers
  import opened Envelopes
  import opened SyncState
  import opened SyncInbound
  import opened SyncRecovery
  import opened SyncServer
  import opened SyncTransport
  import opened SyncOutbound
  import CanonicalJson

  /** One Sync on its way: the acknowledged sequence it started from, the rows it
      sent and the last pending sequence it knew of. */
  datatype Request = Request(base: nat, batch: seq<Envelope>, last: nat)

  datatype Reply = Reply(request: Request, acks: seq<Ack>)

  /** `client` is None while the process is down. `admitted` are all envelopes whose
      row was ever durable in the inbox, `unsaved` those of them state.json does not
      account for, `accepted` what Receive has reported accepted or reordered. */
  datatype Sys = Sys(
    disk: Disk, client: Option<Memory>, keys: map<string, string>,
    ledger: Ledger, sent: set<Request>, replies: set<Reply>,
    admitted: set<Envelope>, unsaved: set<Envelope>, accepted: seq<Envelope>)

  datatype Fault = Deliver | Lose | Tamper(id: string)

  datatype Action =
    | Enqueues(kind: string, key: string, payload: CanonicalJson.Json, id: string, now: string, io: Io)
    | Receives(e: Envelope, io: Io)
    | Sends
    | Serves(request: Request, fault: Fault)
    | Applies(reply: Reply, save: bool)
    | Crashes
    | Opens(keys: map<string, string>, save: bool)
    | Expires(id: string)

  function Session(cfg: Config, s: Sys): Config { cfg.(trusted := s.keys) }

  const START: Sys :=
    Sys(Disk([], map[], None), None, map[], EMPTY_LEDGER, {}, {}, {}, {}, [])

  /** Steps of the client need a running client, responses need a request, and only
      rows that are accounted for expire. */
  ghost predicate Enabled(s: Sys, a: Action) {
    match a
    case Enqueues(_, _, _, id, now, _) => s.client.Some? && FreshName(s.disk, id, now)
    case Receives(_, _) => s.client.Some?
    case Sends => s.client.Some?
    case Serves(request, _) => request in s.sent
    case Applies(reply, _) => s.client.Some? && reply in s.replies
    case Crashes => true
    case Opens(_, _) => s.client.None?
    case Expires(id) => id in s.disk.inbox && s.disk.inbox[id] !in s.unsaved
  }

  ghost function LastPending(s: Sys, m: Memory): nat {
    var pending := Pending(s.disk.outbox, m.state.acked);
    if pending == [] then m.state.acked else pending[|pending| - 1].seqno
  }

  /** The acknowledged run that Exchange computes for a reply; None is a refusal. */
  ghost function Exchanged(reply: Reply): Option<nat> {
    var r := reply.request;
    if |reply.acks| <= |r.batch| && AllMatch(r.batch, reply.acks)
    then Some(Settle(Stream(r.base, AckedSet(reply.acks))).last)
    else None
  }

  /** Every reply that can come back for a served request. */
  ghost function Answers(request: Request, served: Served, fault: Fault): set<Reply> {
    if served.acks.None? || fault == Lose then {}
    else if fault.Tamper? && served.acks.value != [] then
      {Reply(request, served.acks.value[0 := served.acks.value[0].(id := fault.id)])}
    else {Reply(request, served.acks.value)}
  }

  ghost function Next(cfg: Config, s: Sys, a: Action): Sys
    requires Enabled(s, a)
  {
    match a
    case Enqueues(kind, key, payload, id, now, io) =>
      var r := Enqueue(Session(cfg, s), s.client.value, s.disk, kind, key, payload, id, now, io);
      s.(disk := r.disk, client := Some(r.memory))
    case Receives(e, io) =>
      var r := Receive(Session(cfg, s), s.client.value, s.disk, e, io);
      s.(disk := r.disk, client := Some(r.memory), admitted := AllAfter(s.admitted, r.disk), unsaved :=
          r.memory.pending.Values,
         accepted := if r.verdict == Done(Accepted) || r.verdict == Done(Reordered) then s.accepted + [e]
             else s.accepted)
    case Sends =>
      var m := s.client.value;
      s.(sent := s.sent + {Request(m.state.acked, Batch(Pending(s.disk.outbox, m.state.acked)), LastPending(s, m))})
    case Serves(request, fault) =>
      var served := ServeAll(DeviceOf(cfg), s.ledger, request.batch);
      s.(ledger := served.ledger, replies := s.replies + Answers(request, served, fault))
    case Applies(reply, save) =>
      var k := Exchanged(reply);
      if k.None? || k.value > reply.request.last then s
      else
        var (m, d) := Acknowledge(s.client.value, s.disk, k.value, save);
        s.(client := Some(m), disk := d)
    case Crashes => s.(client := None)
    case Opens(keys, save) =>
      var (o, d) := Open(cfg.(trusted := keys), s.disk, save);
      if o.None? then s.(disk := d) else s.(disk := d, client := o, keys := keys, unsaved := {})
    case Expires(id) => s.(disk := s.disk.(inbox := s.disk.inbox - {id}))
  }

  // ---------------------------------------------------------------- invariants

  ghost predicate Inbound(cfg: Config, s: Sys) {
    && s.unsaved <= s.admitted
    && DiskInv(cfg, s.disk, s.admitted - s.unsaved, s.unsaved)
    && (s.client.Some? ==> ClientInv(Session(cfg, s), s.client.value, s.disk, s.admitted - s.unsaved, s.unsaved))
  }

  ghost predicate Producer(cfg: Config, s: Sys) {
    ProducerInv(cfg, s.disk) && (s.client.Some? ==> Tracks(s.client.value, s.disk))
  }

  /** The ledger is a prefix of the outbox, at least as long as any acknowledgement. */
  ghost predicate Ledgers(s: Sys) {
    && s.ledger.frontier <= |s.disk.outbox|
    && Records(s.ledger, s.disk.outbox[..s.ledger.frontier])
    && (s.disk.state.Some? ==> s.disk.state.value.acked <= s.ledger.frontier)
    && (s.client.Some? ==> s.client.value.state.acked <= s.ledger.frontier)
  }

  /** A request in flight is a run of the outbox that starts no later than the ledger ends. */
  ghost predicate Honest(s: Sys, r: Request) {
    && r.base <= s.ledger.frontier && r.base + |r.batch| <= |s.disk.outbox|
    && r.batch == s.disk.outbox[r.base..r.base + |r.batch|]
    && r.base + |r.batch| <= r.last
  }

  ghost predicate Network(s: Sys) {
    && (forall r | r in s.sent :: Honest(s, r))
    && (forall p | p in s.replies :: Honest(s, p.request) && forall i | 0 <= i < |p.acks| ::
        p.acks[i].seqno <= s.ledger.frontier)
  }

  ghost predicate History(s: Sys) {
    && (forall i | 0 <= i < |s.accepted| :: s.accepted[i] in s.admitted)
    && (forall i, j | 0 <= i < j < |s.accepted| :: s.accepted[i] != s.accepted[j])
  }

  ghost predicate Inv(cfg: Config, s: Sys) {
    Inbound(cfg, s) && Producer(cfg, s) && Ledgers(s) && Network(s) && History(s)
  }

  /** A run from the start: each step enabled. */
  ghost predicate Run(cfg: Config, states: seq<Sys>, actions: seq<Action>) {
    && |states| == |actions| + 1 && states[0] == START
    && forall i | 0 <= i < |actions| ::
        Enabled(states[i], actions[i]) && states[i + 1] == Next(cfg, states[i], actions[i])
  }

  ghost predicate Reachable(cfg: Config, s: Sys) {
    exists states, actions :: Run(cfg, states, actions) && states[|actions|] == s
  }

  // ---------------------------------------------------------------- every step keeps the invariant

  lemma StartInv(cfg: Config)
    ensures Inv(cfg, START)
  {
    var st := Base(cfg, START.disk);
    forall s: StreamId ensures Covers(StreamOf(st.streams, s), Seqs({}, s)) {
      assert StreamOf(st.streams, s) == Stream(0, {});
    }
    assert START.admitted - START.unsaved == {};
    hide Loaded;
  }

  /** Growing the outbox at its end disturbs neither the ledger nor what is in flight. */
  lemma OutboxExtends(s: Sys, t: Sys)
    requires Ledgers(s) && Network(s)
    requires t.ledger == s.ledger && t.sent == s.sent && t.replies == s.replies
    requires |t.disk.outbox| >= |s.disk.outbox| && t.disk.outbox[..|s.disk.outbox|] == s.disk.outbox
    requires t.disk.state.Some? ==> t.disk.state.value.acked <= s.ledger.frontier
    requires t.client.Some? ==> t.client.value.state.acked <= s.ledger.frontier
    ensures Ledgers(t) && Network(t)
  {
    hide Records;
    assert t.disk.outbox[..s.ledger.frontier] == s.disk.outbox[..s.ledger.frontier];
    forall r | Honest(s, r) ensures Honest(t, r) {
      assert t.disk.outbox[r.base..r.base + |r.batch|] == s.disk.outbox[r.base..r.base + |r.batch|];
    }
  }

  lemma EnqueueStep(cfg: Config, s: Sys, a: Action)
    requires Inv(cfg, s) && a.Enqueues? && Enabled(s, a) && cfg.prims.Lawful()
    ensures Inv(cfg, Next(cfg, s, a))
  {
    var sc, m := Session(cfg, s), s.client.value;
    var r := Enqueue(sc, m, s.disk, a.kind, a.key, a.payload, a.id, a.now, a.io);
    var t := Next(cfg, s, a);
    hide Enqueue, Inbound, ProducerInv, Tracks, Ledgers, Network, History, FreshName;
    ProducerAnyKeys(cfg, s.keys, s.disk);
    EnqueueKeeps(sc, m, s.disk, a.kind, a.key, a.payload, a.id, a.now, a.io);
    ProducerAnyKeys(cfg, s.keys, r.disk);
    EnqueueNetwork(s, t, r);
    InboundCounters(cfg, s, t);
    HistoryMoves(s, t);
  }

  lemma ProducerAnyKeys(cfg: Config, keys: map<string, string>, d: Disk)
    ensures ProducerInv(cfg.(trusted := keys), d) <==> ProducerInv(cfg, d)
  {
    hide Outbox, Deliverable;
    assert DeviceOf(cfg.(trusted := keys)) == DeviceOf(cfg);
    assert forall e :: Signed(cfg.(trusted := keys), e) <==> Signed(cfg, e);
  }

  lemma EnqueueNetwork(s: Sys, t: Sys, r: Enqueued)
    requires Ledgers(s) && Network(s) && s.client.Some? && t == s.(disk := r.disk, client := Some(r.memory))
    requires r.disk.outbox == s.disk.outbox
        || (|r.disk.outbox| == |s.disk.outbox| + 1 && r.disk.outbox[..|s.disk.outbox|] == s.disk.outbox)
    requires r.memory == s.client.value.(state := s.client.value.state.(next := r.memory.state.next))
    requires r.disk.state == s.disk.state || r.disk.state == Some(r.memory.state)
    ensures Ledgers(t) && Network(t)
  {
    hide Records, Network;
    assert s.disk.outbox[..|s.disk.outbox|] == s.disk.outbox;
    OutboxExtends(s, t);
  }

  lemma InboundCounters(cfg: Config, s: Sys, t: Sys)
    requires Inbound(cfg, s) && s.client.Some? && t.client.Some?
    requires t.client.value == s.client.value.(state := t.client.value.state)
        && View(t.client.value.state) == View(s.client.value.state)
    requires t.disk.inbox == s.disk.inbox
        && (t.disk.state == s.disk.state || t.disk.state == Some(t.client.value.state))
    requires t.admitted == s.admitted && t.unsaved == s.unsaved && t.keys == s.keys
    ensures Inbound(cfg, t)
  {
    hide ClientInv, DiskInv;
    CountersKeep(Session(cfg, s), s.client.value, s.disk, t.client.value, t.disk, s.admitted - s.unsaved, s.unsaved);
    ClientDisk(cfg, t);
  }

  /** The disk part of the invariant, freed of the keys of the session. */
  lemma ClientDisk(cfg: Config, t: Sys)
    requires t.client.Some?
    requires ClientInv(Session(cfg, t), t.client.value, t.disk, t.admitted - t.unsaved, t.unsaved)
    ensures DiskInv(cfg, t.disk, t.admitted - t.unsaved, t.unsaved)
  {
    hide *;
    ClientParts(Session(cfg, t), t.client.value, t.disk, t.admitted - t.unsaved, t.unsaved);
    SessionKeys(cfg, t);
    DiskInvAnyKeys(cfg, t.keys, t.disk, t.admitted - t.unsaved, t.unsaved);
  }

  lemma SessionKeys(cfg: Config, t: Sys)
    ensures Session(cfg, t) == cfg.(trusted := t.keys)
  {}

  lemma HistoryMoves(s: Sys, t: Sys)
    requires History(s) && t.accepted == s.accepted && s.admitted <= t.admitted
    ensures History(t)
  {}

  lemma ReceiveStep(cfg: Config, s: Sys, a: Action)
    requires Inv(cfg, s) && a.Receives? && Enabled(s, a)
    ensures Inv(cfg, Next(cfg, s, a))
  {
    hide *;
    InvParts(cfg, s);
    ReceiveNext(cfg, s, a);
    var r := Receive(Session(cfg, s), s.client.value, s.disk, a.e, a.io);
    var t := Next(cfg, s, a);
    ReceiveInbound(cfg, s, a.e, a.io, t, r);
    ReceiveCounters(Session(cfg, s), s.client.value, s.disk, a.e, a.io);
    ReceiveOutbound(cfg, s, t, s.client.value, r);
    InvFits(cfg, t);
  }

  lemma InvParts(cfg: Config, s: Sys)
    requires Inv(cfg, s)
    ensures Inbound(cfg, s) && Producer(cfg, s) && Ledgers(s) && Network(s) && History(s)
  {}

  lemma InvFits(cfg: Config, s: Sys)
    requires Inbound(cfg, s) && Producer(cfg, s) && Ledgers(s) && Network(s) && History(s)
    ensures Inv(cfg, s)
  {}

  lemma ReceiveNext(cfg: Config, s: Sys, a: Action)
    requires a.Receives? && Enabled(s, a)
    ensures s.client.Some?
    ensures var r := Receive(Session(cfg, s), s.client.value, s.disk, a.e, a.io);
      Next(cfg, s, a) == s.(disk := r.disk, client := Some(r.memory), admitted := AllAfter(s.admitted, r.disk),
        unsaved := r.memory.pending.Values,
        accepted := if r.verdict == Done(Accepted) || r.verdict == Done(Reordered) then s.accepted + [a.e]
            else s.accepted)
  {
    hide Receive;
  }

  lemma ReceiveInbound(cfg: Config, s: Sys, e: Envelope, io: Io, t: Sys, r: Received)
    requires Inbound(cfg, s) && History(s) && s.client.Some?
    requires r == Receive(Session(cfg, s), s.client.value, s.disk, e, io)
    requires t == s.(disk := r.disk, client := Some(r.memory), admitted := AllAfter(s.admitted, r.disk),
      unsaved := r.memory.pending.Values,
      accepted := if r.verdict == Done(Accepted) || r.verdict == Done(Reordered) then s.accepted + [e] else s.accepted)
    ensures Inbound(cfg, t) && History(t)
  {
    hide Receive, ClientInv, DiskInv, Holds;
    var done := s.admitted - s.unsaved;
    ReceiveKeeps(Session(cfg, s), s.client.value, s.disk, done, s.unsaved, e, io);
    assert done + s.unsaved == s.admitted;
    HoldsParts(Session(cfg, s), r.memory, r.disk, s.admitted);
    assert Session(cfg, t) == Session(cfg, s);
    ClientDisk(cfg, t);
    PendingAdmitted(Session(cfg, s), r.memory, r.disk, s.admitted);
    InboxAdmitted(s.admitted, r.disk);
  }

  lemma HoldsParts(cfg: Config, m: Memory, d: Disk, all: set<Envelope>)
    requires Holds(cfg, m, d, all)
    ensures ClientInv(cfg, m, d, AllAfter(all, d) - m.pending.Values, m.pending.Values)
  {
    hide ClientInv;
  }

  lemma PendingAdmitted(cfg: Config, m: Memory, d: Disk, all: set<Envelope>)
    requires Holds(cfg, m, d, all)
    ensures m.pending.Values <= AllAfter(all, d)
  {
    hide *;
    HoldsParts(cfg, m, d, all);
    ClientParts(cfg, m, d, AllAfter(all, d) - m.pending.Values, m.pending.Values);
    OpenInInbox(d.inbox, AllAfter(all, d) - m.pending.Values, m.pending.Values);
    InboxAdmitted(all, d);
  }

  lemma OpenInInbox(inbox: map<string, Envelope>, done: set<Envelope>, open: set<Envelope>)
    requires Rows(inbox, done, open)
    ensures open <= inbox.Values
  {
    forall e | e in open ensures e in inbox.Values { assert inbox[e.id] == e; }
  }

  lemma InboxAdmitted(all: set<Envelope>, d: Disk)
    ensures d.inbox.Values <= AllAfter(all, d) && all <= AllAfter(all, d)
  {}

  /** Receiving moves no sequence counter of the producer. */
  lemma ReceiveCounters(cfg: Config, m: Memory, d: Disk, e: Envelope, io: Io)
    ensures var r := Receive(cfg, m, d, e, io);
      && r.memory.state.next == m.state.next && r.memory.state.acked == m.state.acked && r.disk.outbox == d.outbox
      && (r.disk.state == d.state
          || (r.disk.state.Some? && r.disk.state.value.next == m.state.next
          && r.disk.state.value.acked == m.state.acked))
  {
    ApplyPendingCounters(m.state, m.fallback, m.pending);
    hide Classify, ApplyPending, ApplyInbound;
    var (m', d') := Commit(m, d, io.commit);
    AdmitCounters(m, d, e, Accepted, io);
    AdmitCounters(m, d, e, Reordered, io);
    AdmitCounters(m', d', e, Accepted, io);
    AdmitCounters(m', d', e, Reordered, io);
    hide Admit;
  }

  lemma AdmitCounters(m: Memory, d: Disk, e: Envelope, outcome: Outcome, io: Io)
    ensures var r := Admit(m, d, e, outcome, io);
      && r.memory.state.next == m.state.next && r.memory.state.acked == m.state.acked && r.disk.outbox == d.outbox
      && (r.disk.state == d.state
          || (r.disk.state.Some? && r.disk.state.value.next == m.state.next
          && r.disk.state.value.acked == m.state.acked))
  {
    hide Settle;
  }

  lemma {:induction false} ApplyPendingCounters(st: State, fallback: nat, pending: map<string, Envelope>)
    ensures ApplyPending(st, fallback, pending).next == st.next && ApplyPending(st, fallback, pending).acked == st.acked
    decreases pending.Keys
  {
    hide ApplyInbound;
    if pending != map[] {
      var id :| id in pending
          && ApplyPending(st, fallback, pending)
          == ApplyPending(ApplyInbound(st, fallback, pending[id]), fallback, pending - {id});
      InboundCountersStay(st, fallback, pending[id]);
      ApplyPendingCounters(ApplyInbound(st, fallback, pending[id]), fallback, pending - {id});
    }
  }

  lemma InboundCountersStay(st: State, fallback: nat, e: Envelope)
    ensures ApplyInbound(st, fallback, e).next == st.next && ApplyInbound(st, fallback, e).acked == st.acked
  {
    hide Settle;
  }

  lemma ReceiveOutbound(cfg: Config, s: Sys, t: Sys, m: Memory, r: Received)
    requires Producer(cfg, s) && Ledgers(s) && Network(s) && s.client == Some(m)
    requires t.disk == r.disk && t.client == Some(r.memory) && t.ledger == s.ledger && t.sent == s.sent
        && t.replies == s.replies
    requires r.memory.state.next == m.state.next && r.memory.state.acked == m.state.acked
        && r.disk.outbox == s.disk.outbox
    requires r.disk.state == s.disk.state
        || (r.disk.state.Some? && r.disk.state.value.next == m.state.next && r.disk.state.value.acked == m.state.acked)
    ensures Producer(cfg, t) && Ledgers(t) && Network(t)
  {
    hide Records, OutboxInv, Network;
    assert s.disk.outbox[..|s.disk.outbox|] == s.disk.outbox;
    OutboxExtends(s, t);
  }

  lemma SendStep(cfg: Config, s: Sys, a: Action)
    requires Inv(cfg, s) && a.Sends? && Enabled(s, a)
    ensures Inv(cfg, Next(cfg, s, a))
  {
    hide *;
    var t := Next(cfg, s, a);
    InvParts(cfg, s);
    SendNext(cfg, s, a);
    SentIsHonest(cfg, s);
    SendNetwork(s, t);
    SendRest(cfg, s, t);
    InvFits(cfg, t);
  }

  ghost function Sent(s: Sys): Request
    requires s.client.Some?
  {
    var m := s.client.value;
    Request(m.state.acked, Batch(Pending(s.disk.outbox, m.state.acked)), LastPending(s, m))
  }

  lemma SendNext(cfg: Config, s: Sys, a: Action)
    requires a.Sends? && Enabled(s, a)
    ensures s.client.Some? && Next(cfg, s, a) == s.(sent := s.sent + {Sent(s)})
  {
    hide LastPending, Pending, Batch;
  }

  /** What Sync sends is the bounded run of the outbox right after its acknowledgement. */
  lemma SentIsHonest(cfg: Config, s: Sys)
    requires Producer(cfg, s) && Ledgers(s) && s.client.Some?
    ensures Honest(s, Sent(s))
    ensures var acked, n := s.client.value.state.acked, |s.disk.outbox|;
      Sent(s).batch == s.disk.outbox[acked..if n - acked > BATCH_LIMIT then acked + BATCH_LIMIT else n]
          && Sent(s).last == n
  {
    hide Signed, Records, Pending;
    var acked, rows := s.client.value.state.acked, s.disk.outbox;
    OutboxNumbers(rows);
    PendingIsSuffix(rows, acked, 0);
    hide Outbox;
    assert Pending(rows, acked) == rows[acked..];
    BatchOf(rows, acked);
  }

  lemma BatchOf(rows: seq<Envelope>, acked: nat)
    requires acked <= |rows|
    ensures var end := if |rows| - acked > BATCH_LIMIT then acked + BATCH_LIMIT else |rows|;
      Batch(rows[acked..]) == rows[acked..end] && |Batch(rows[acked..])| == end - acked
  {}

  lemma SendNetwork(s: Sys, t: Sys)
    requires Network(s) && s.client.Some? && Honest(s, Sent(s)) && t == s.(sent := s.sent + {Sent(s)})
    ensures Network(t)
  {
    hide Sent;
    forall r | Honest(s, r) ensures Honest(t, r) {}
    hide Honest;
  }

  lemma SendRest(cfg: Config, s: Sys, t: Sys)
    requires Inbound(cfg, s) && Producer(cfg, s) && Ledgers(s) && History(s)
    requires t == s.(sent := t.sent, replies := t.replies)
    ensures Inbound(cfg, t) && Producer(cfg, t) && Ledgers(t) && History(t)
  {
    hide ClientInv, DiskInv, ProducerInv, Records;
  }

  lemma ServeStep(cfg: Config, s: Sys, a: Action)
    requires Inv(cfg, s) && a.Serves? && Enabled(s, a)
    ensures Inv(cfg, Next(cfg, s, a))
    ensures ServeAll(DeviceOf(cfg), s.ledger, a.request.batch).acks.Some?
  {
    hide *;
    var t := Next(cfg, s, a);
    var served := ServeAll(DeviceOf(cfg), s.ledger, a.request.batch);
    InvParts(cfg, s);
    ServeNext(cfg, s, a);
    SentAreHonest(s, a.request);
    ServedPrefix(cfg, s, a.request);
    ServeLedgers(cfg, s, t, served, a.request);
    ServeNetwork(s, t, served, a.request, a.fault);
    ServeRest(cfg, s, t);
    InvFits(cfg, t);
  }

  lemma ServeNext(cfg: Config, s: Sys, a: Action)
    requires a.Serves? && Enabled(s, a)
    ensures a.request in s.sent
    ensures var served := ServeAll(DeviceOf(cfg), s.ledger, a.request.batch);
      Next(cfg, s, a) == s.(ledger := served.ledger, replies := s.replies + Answers(a.request, served, a.fault))
  {
    hide ServeAll, Answers;
  }

  lemma SentAreHonest(s: Sys, r: Request)
    requires Network(s) && r in s.sent
    ensures Honest(s, r)
  {
    hide Honest;
  }

  /** Serving any request in flight, however old and however often, leaves the ledger
      a prefix of the outbox and refuses nothing. */
  lemma ServedPrefix(cfg: Config, s: Sys, r: Request)
    requires Producer(cfg, s) && Ledgers(s) && Honest(s, r)
    ensures var served := ServeAll(DeviceOf(cfg), s.ledger, r.batch);
      var end := r.base + |r.batch|;
      && served.acks.Some?
      && served.ledger.frontier == (if end > s.ledger.frontier then end else s.ledger.frontier)
      && Records(served.ledger, s.disk.outbox[..served.ledger.frontier])
      && forall i | 0 <= i < |served.acks.value| :: served.acks.value[i].seqno <= served.ledger.frontier
  {
    hide ServeAll, KeysRecorded, IdsRecorded, Outbox, Deliverable;
    var rows := s.disk.outbox;
    assert forall i | 0 <= i < |rows| :: Signed(cfg, rows[i]);
    HonestNeverRefused(DeviceOf(cfg), s.ledger, rows, s.ledger.frontier, r.base, r.base + |r.batch|);
    assert Outbox(rows);
    OutboxNumbers(rows);
  }

  lemma OutboxNumbers(rows: seq<Envelope>)
    requires Outbox(rows)
    ensures forall i | 0 <= i < |rows| :: rows[i].seqno == i + 1
  {}

  lemma ServeLedgers(cfg: Config, s: Sys, t: Sys, served: Served, r: Request)
    requires Ledgers(s) && Honest(s, r) && t == s.(ledger := served.ledger, replies := t.replies)
    requires served.ledger.frontier
        == (if r.base + |r.batch| > s.ledger.frontier then r.base + |r.batch| else s.ledger.frontier)
    requires Records(served.ledger, s.disk.outbox[..served.ledger.frontier])
    ensures Ledgers(t)
  {
    hide Records;
  }

  lemma ServeNetwork(s: Sys, t: Sys, served: Served, r: Request, fault: Fault)
    requires Network(s) && Honest(s, r)
        && t == s.(ledger := served.ledger, replies := s.replies + Answers(r, served, fault))
    requires served.ledger.frontier >= s.ledger.frontier && served.acks.Some?
    requires forall i | 0 <= i < |served.acks.value| :: served.acks.value[i].seqno <= served.ledger.frontier
    ensures Network(t)
  {
    AnswersBounded(r, served, fault);
    hide Answers;
    forall q | Honest(s, q) ensures Honest(t, q) {}
    hide Honest;
  }

  lemma AnswersBounded(r: Request, served: Served, fault: Fault)
    requires served.acks.Some? && forall i | 0 <= i < |served.acks.value| ::
        served.acks.value[i].seqno <= served.ledger.frontier
    ensures forall p | p in Answers(r, served, fault) :: p.request == r && forall i | 0 <= i < |p.acks| ::
        p.acks[i].seqno <= served.ledger.frontier
  {}

  lemma ServeRest(cfg: Config, s: Sys, t: Sys)
    requires Inbound(cfg, s) && Producer(cfg, s) && History(s) && t == s.(ledger := t.ledger, replies := t.replies)
    ensures Inbound(cfg, t) && Producer(cfg, t) && History(t)
  {
    hide ClientInv, DiskInv, ProducerInv;
  }

  lemma ApplyStep(cfg: Config, s: Sys, a: Action)
    requires Inv(cfg, s) && a.Applies? && Enabled(s, a)
    ensures Inv(cfg, Next(cfg, s, a))
  {
    hide *;
    var t := Next(cfg, s, a);
    InvParts(cfg, s);
    ApplyNext(cfg, s, a);
    if t != s {
      AckIsServed(s, a.reply);
      AcknowledgedRest(cfg, s, t, Exchanged(a.reply).value, a.save);
      InvFits(cfg, t);
    }
  }

  lemma ApplyNext(cfg: Config, s: Sys, a: Action)
    requires a.Applies? && Enabled(s, a)
    ensures s.client.Some? && a.reply in s.replies
    ensures var t := Next(cfg, s, a);
      t == s || (Exchanged(a.reply).Some? && Exchanged(a.reply).value <= a.reply.request.last
        && t == s.(client := Some(Acknowledge(s.client.value, s.disk, Exchanged(a.reply).value, a.save).0),
                   disk := Acknowledge(s.client.value, s.disk, Exchanged(a.reply).value, a.save).1))
  {
    hide Exchanged;
  }

  /** An accepted acknowledgement never runs ahead of the ledger. */
  lemma AckIsServed(s: Sys, p: Reply)
    requires Network(s) && p in s.replies && Exchanged(p).Some?
    ensures Exchanged(p).value <= s.ledger.frontier
  {
    hide AllMatch, Settle;
    var r := p.request;
    var from := Stream(r.base, AckedSet(p.acks));
    SettleKeeps(from);
    assert Honest(s, r);
    var k := Settle(from).last;
    if k > r.base {
      assert Reserves(Settle(from), k);
      assert Reserves(from, k) && k in AckedSet(p.acks);
    }
  }

  lemma AcknowledgedRest(cfg: Config, s: Sys, t: Sys, k: nat, save: bool)
    requires Inbound(cfg, s) && Producer(cfg, s) && Ledgers(s) && Network(s) && History(s) && s.client.Some?
    requires k <= s.ledger.frontier
    requires var (m, d) := Acknowledge(s.client.value, s.disk, k, save); t == s.(client := Some(m), disk := d)
    ensures Inbound(cfg, t) && Producer(cfg, t) && Ledgers(t) && Network(t) && History(t)
  {
    hide Inbound, Records, Network, OutboxInv;
    InboundCounters(cfg, s, t);
    assert s.disk.outbox[..|s.disk.outbox|] == s.disk.outbox;
    OutboxExtends(s, t);
  }

  lemma CrashStep(cfg: Config, s: Sys, a: Action)
    requires Inv(cfg, s) && a.Crashes?
    ensures Inv(cfg, Next(cfg, s, a))
  {
    hide ClientInv, DiskInv, ProducerInv, Records;
    forall r | Honest(s, r) ensures Honest(Next(cfg, s, a), r) {}
  }

  lemma OpenStep(cfg: Config, s: Sys, a: Action)
    requires Inv(cfg, s) && a.Opens? && Enabled(s, a)
    ensures Inv(cfg, Next(cfg, s, a))
  {
    hide *;
    InvParts(cfg, s);
    var t := Next(cfg, s, a);
    OpenNext(cfg, s, a);
    if t != s {
      OpenInbound(cfg, s, a, t);
      OpenOutbound(cfg, s, a, t);
      InvFits(cfg, t);
    }
  }

  lemma OpenNext(cfg: Config, s: Sys, a: Action)
    requires a.Opens? && Enabled(s, a)
    ensures var (o, d) := Open(cfg.(trusted := a.keys), s.disk, a.save);
      Next(cfg, s, a) == if o.None? then s else s.(disk := d, client := o, keys := a.keys, unsaved := {})
  {
    hide OpenOk, Opened, Loaded;
  }

  lemma OpenInbound(cfg: Config, s: Sys, a: Action, t: Sys)
    requires Inbound(cfg, s) && History(s) && a.Opens?
    requires var (o, d) := Open(cfg.(trusted := a.keys), s.disk, a.save);
      o.Some? && t == s.(disk := d, client := o, keys := a.keys, unsaved := {})
    ensures Inbound(cfg, t) && History(t)
  {
    hide Open, ClientInv, DiskInv;
    var done := s.admitted - s.unsaved;
    DiskInvAnyKeys(cfg, a.keys, s.disk, done, s.unsaved);
    OpenKeeps(cfg.(trusted := a.keys), s.disk, done, s.unsaved, a.save);
    assert done + s.unsaved == t.admitted - t.unsaved;
    ClientDisk(cfg, t);
  }

  lemma OpenOutbound(cfg: Config, s: Sys, a: Action, t: Sys)
    requires Producer(cfg, s) && Ledgers(s) && Network(s) && a.Opens?
    requires var (o, d) := Open(cfg.(trusted := a.keys), s.disk, a.save);
      o.Some? && t == s.(disk := d, client := o, keys := a.keys, unsaved := {})
    ensures Producer(cfg, t) && Ledgers(t) && Network(t)
  {
    hide Open, Records, Network, OutboxInv;
    OpenCounters(cfg.(trusted := a.keys), s.disk, a.save);
    assert s.disk.outbox[..|s.disk.outbox|] == s.disk.outbox;
    OutboxExtends(s, t);
  }

  /** Open recovers the next sequence from the outbox and keeps the acknowledgement. */
  lemma OpenCounters(cfg: Config, d: Disk, save: bool)
    requires Open(cfg, d, save).0.Some?
    ensures var (o, d') := Open(cfg, d, save);
      && d'.outbox == d.outbox && d'.state == Some(o.value.state) && o.value.state.next == |d.outbox| + 1
      && o.value.state.acked == (if d.state.Some? then d.state.value.acked else 0)
  {
    hide OpenOk, RebuiltStreams, Distrusted, Frontier, Listing, AppendNew, ByKey, BySeq;
  }

  lemma ExpireStep(cfg: Config, s: Sys, a: Action)
    requires Inv(cfg, s) && a.Expires? && Enabled(s, a)
    ensures Inv(cfg, Next(cfg, s, a))
  {
    hide ClientInv, DiskInv, OutboxInv, Records;
    var t := Next(cfg, s, a);
    var done := s.admitted - s.unsaved;
    assert t.disk == Without(s.disk, a.id);
    ExpiryKeepsDisk(cfg, s.disk, a.id, done, s.unsaved);
    if s.client.Some? { ExpiryKeeps(Session(cfg, s), s.client.value, s.disk, a.id, done, s.unsaved); }
    forall r | Honest(s, r) ensures Honest(t, r) {}
  }

  lemma StepKeeps(cfg: Config, s: Sys, a: Action)
    requires Inv(cfg, s) && Enabled(s, a) && cfg.prims.Lawful()
    ensures Inv(cfg, Next(cfg, s, a))
  {
    hide *;
    match a
    case Enqueues(_, _, _, _, _, _) => EnqueueStep(cfg, s, a);
    case Receives(_, _) => ReceiveStep(cfg, s, a);
    case Sends => SendStep(cfg, s, a);
    case Serves(_, _) => ServeStep(cfg, s, a);
    case Applies(_, _) => ApplyStep(cfg, s, a);
    case Crashes => CrashStep(cfg, s, a);
    case Opens(_, _) => OpenStep(cfg, s, a);
    case Expires(_) => ExpireStep(cfg, s, a);
  }

  lemma {:induction false} RunKeeps(cfg: Config, states: seq<Sys>, actions: seq<Action>, n: nat)
    requires cfg.prims.Lawful() && Run(cfg, states, actions) && n <= |actions|
    ensures Inv(cfg, states[n])
  {
    hide Inv, Next, Enabled;
    if n == 0 {
      StartInv(cfg);
    } else {
      RunKeeps(cfg, states, actions, n - 1);
      assert Enabled(states[n - 1], actions[n - 1]);
      StepKeeps(cfg, states[n - 1], actions[n - 1]);
    }
  }

  /** In every run, whatever fails. */
  lemma ReachableInv(cfg: Config, s: Sys)
    requires cfg.prims.Lawful() && Reachable(cfg, s)
    ensures Inv(cfg, s)
  {
    hide Inv, Next, Enabled;
    var states, actions :| Run(cfg, states, actions) && states[|actions|] == s;
    RunKeeps(cfg, states, actions, |actions|);
  }
}
