/** The sync client as internal/cloudsync/client.go writes it: an object whose
    methods update its fields in loops, proved to compute the functions of
    SyncState, which the properties of the protocol are about. */
module SyncClient {
  import opened Wrappers
  import opened Envelopes
  import opened SyncState
  import opened SyncInbound
  import opened SyncServer
  import opened SyncTransport
  import SyncRuns
  import CanonicalJson

  // ---------------------------------------------------------------- loops over values

  /** The loop that moves a frontier up through its gap set. */
  method Advance(s: Stream) returns (r: Stream)
    ensures r == Settle(s)
  {
    r := s;
    while r.last + 1 in r.gaps
      invariant Settle(r) == Settle(s)
      decreases |r.gaps|
    {
      r := Stream(r.last + 1, r.gaps - {r.last + 1});
    }
  }

  /** findIdempotency. */
  method FindIdempotency(outbox: seq<Envelope>, key: string) returns (row: Option<Envelope>)
    ensures row == WithKey(outbox, key)
  {
    assert outbox[0..] == outbox;
    for i := 0 to |outbox|
      invariant WithKey(outbox, key) == WithKey(outbox[i..], key)
    {
      assert outbox[i..][1..] == outbox[i + 1..];
      if outbox[i].key == key { return Some(outbox[i]); }
    }
    assert outbox[|outbox|..] == [];
    return None;
  }

  /** pending: the rows above the acknowledged sequence. */
  method PendingRows(outbox: seq<Envelope>, acked: nat) returns (result: seq<Envelope>)
    ensures result == Pending(outbox, acked)
  {
    result := [];
    assert outbox[0..] == outbox;
    for i := 0 to |outbox|
      invariant Pending(outbox, acked) == result + Pending(outbox[i..], acked)
    {
      assert outbox[i..][1..] == outbox[i + 1..];
      if outbox[i].seqno > acked {
        assert result + ([outbox[i]] + Pending(outbox[i + 1..], acked))
            == result + [outbox[i]] + Pending(outbox[i + 1..], acked);
        result := result + [outbox[i]];
      }
    }
    assert outbox[|outbox|..] == [];
    assert result + [] == result;
  }

  /** The identities of the inbox rows appended to a seen list, each once. */
  method AppendSeen(list: seq<string>, more: seq<string>) returns (r: seq<string>)
    ensures r == AppendNew(list, more)
  {
    r := list;
    var seen := set x | x in list;
    assert more[0..] == more;
    for i := 0 to |more|
      invariant AppendNew(list, more) == AppendNew(r, more[i..])
      invariant forall x :: x in seen <==> x in r
    {
      assert more[i..][0] == more[i] && more[i..][1..] == more[i + 1..];
      if more[i] !in seen {
        r := r + [more[i]];
        seen := seen + {more[i]};
      }
    }
    assert more[|more|..] == [];
  }

  /** The greatest frontier among the trusted streams. */
  method MaxFrontier(streams: map<StreamId, Stream>, untrusted: set<StreamId>) returns (max: nat)
    ensures max == Frontier(streams, untrusted)
  {
    hide Frontier;
    max := 0;
    var left := streams.Keys;
    while left != {}
      invariant left <= streams.Keys
      invariant forall s | s in streams && s !in left && s !in untrusted :: streams[s].last <= max
      invariant max == 0 || exists s :: s in streams && s !in untrusted && streams[s].last == max
      decreases left
    {
      var s :| s in left;
      left := left - {s};
      if s in untrusted { continue; }
      if streams[s].last > max { max := streams[s].last; }
    }
    FrontierBounds(streams, untrusted);
  }

  // ---------------------------------------------------------------- the three indexes

  ghost predicate IdsOf(byId: map<string, Envelope>, rows: set<Envelope>) {
    && (forall e | e in rows :: e.id in byId && byId[e.id] == e)
    && (forall k | k in byId :: byId[k] in rows && byId[k].id == k)
  }

  ghost predicate KeysOf(byKey: map<string, Envelope>, rows: set<Envelope>) {
    && (forall e | e in rows :: e.key in byKey && byKey[e.key] == e)
    && (forall k | k in byKey :: byKey[k] in rows && byKey[k].key == k)
  }

  ghost predicate SeqsOf(bySeq: map<(StreamId, nat), Envelope>, rows: set<Envelope>) {
    && (forall e | e in rows :: SeqId(e) in bySeq && bySeq[SeqId(e)] == e)
    && (forall k | k in bySeq :: bySeq[k] in rows && SeqId(bySeq[k]) == k)
  }

  ghost predicate Indexing(m: Memory, rows: set<Envelope>) {
    IdsOf(m.byId, rows) && KeysOf(m.byKey, rows) && SeqsOf(m.bySeq, rows)
  }

  /** Another row under one of the identities of `e`. */
  predicate Collides(m: Memory, e: Envelope) {
    || (e.id in m.byId && m.byId[e.id] != e)
    || (e.key in m.byKey && m.byKey[e.key] != e)
    || (SeqId(e) in m.bySeq && m.bySeq[SeqId(e)] != e)
  }

  lemma CollisionMeans(m: Memory, rows: set<Envelope>, e: Envelope)
    requires Indexing(m, rows)
    ensures Collides(m, e) <==> exists f ::
        f in rows && f != e && (f.id == e.id || f.key == e.key || SeqId(f) == SeqId(e))
  {
    hide SeqId;
  }

  lemma IndexGrows(m: Memory, rows: set<Envelope>, e: Envelope)
    requires Indexing(m, rows) && !Collides(m, e)
    ensures Indexing(Indexed(m, e), rows + {e})
  {
    hide SeqId, IdsOf, KeysOf, SeqsOf;
    IdsGrow(m.byId, rows, e);
    KeysGrow(m.byKey, rows, e);
    SeqsGrow(m.bySeq, rows, e);
  }

  lemma IdsGrow(byId: map<string, Envelope>, rows: set<Envelope>, e: Envelope)
    requires IdsOf(byId, rows) && (e.id in byId ==> byId[e.id] == e)
    ensures IdsOf(byId[e.id := e], rows + {e})
  {}

  lemma KeysGrow(byKey: map<string, Envelope>, rows: set<Envelope>, e: Envelope)
    requires KeysOf(byKey, rows) && (e.key in byKey ==> byKey[e.key] == e)
    ensures KeysOf(byKey[e.key := e], rows + {e})
  {}

  lemma SeqsGrow(bySeq: map<(StreamId, nat), Envelope>, rows: set<Envelope>, e: Envelope)
    requires SeqsOf(bySeq, rows) && (SeqId(e) in bySeq ==> bySeq[SeqId(e)] == e)
    ensures SeqsOf(bySeq[SeqId(e) := e], rows + {e})
  {
    hide SeqId;
  }

  /** Rows that were indexed without a collision have no identity in common, and
      the indexes are the ones SyncState describes. */
  lemma IndexedRows(m: Memory, inbox: map<string, Envelope>)
    requires Indexing(m, inbox.Values) && forall id | id in inbox :: inbox[id].id == id
    ensures Distinct(inbox.Values) && m.byId == inbox && m.byKey == ByKey(inbox.Values)
        && m.bySeq == BySeq(inbox.Values)
  {
    hide IdsOf, KeysOf, SeqsOf, SeqId;
    SameIds(m.byId, inbox);
    SameKeys(m.byKey, inbox.Values);
    SameSeqs(m.bySeq, inbox.Values);
    forall e, f | e in inbox.Values && f in inbox.Values && e != f
        ensures e.id != f.id && e.key != f.key && SeqId(e) != SeqId(f) {
      assert m.byId[e.id] == e && m.byId[f.id] == f;
      assert m.byKey[e.key] == e && m.byKey[f.key] == f;
      assert m.bySeq[SeqId(e)] == e && m.bySeq[SeqId(f)] == f;
    }
  }

  lemma SameIds(byId: map<string, Envelope>, inbox: map<string, Envelope>)
    requires IdsOf(byId, inbox.Values) && forall id | id in inbox :: inbox[id].id == id
    ensures byId == inbox && forall e | e in inbox.Values :: e.id in byId && byId[e.id] == e
  {
    forall id | id in inbox ensures id in byId && byId[id] == inbox[id] { assert inbox[id] in inbox.Values; }
  }

  lemma SameKeys(byKey: map<string, Envelope>, rows: set<Envelope>)
    requires KeysOf(byKey, rows)
    ensures byKey == ByKey(rows) && forall e | e in rows :: e.key in byKey && byKey[e.key] == e
  {}

  lemma SameSeqs(bySeq: map<(StreamId, nat), Envelope>, rows: set<Envelope>)
    requires SeqsOf(bySeq, rows)
    ensures bySeq == BySeq(rows) && forall e | e in rows :: SeqId(e) in bySeq && bySeq[SeqId(e)] == e
  {
    hide SeqId;
  }

  // ---------------------------------------------------------------- the streams of a rebuild

  /** The streams kept from the state, with the sequences of the rows read so far. */
  ghost function Joined(cfg: Config, st: State, rows: set<Envelope>): map<StreamId, Stream> {
    map s | s in (set t | t in st.streams && OnRoute(cfg, t)) + (set e | e in rows :: Sid(e))
      :: var prior := StreamOf(st.streams, s); prior.(gaps := prior.gaps + RowGaps(rows, s, prior.last))
  }

  function WithRow(streams: map<StreamId, Stream>, e: Envelope): map<StreamId, Stream> {
    var s := StreamOf(streams, Sid(e));
    streams[Sid(e) := if e.seqno > s.last then s.(gaps := s.gaps + {e.seqno}) else s]
  }

  lemma JoinRow(cfg: Config, st: State, rows: set<Envelope>, e: Envelope)
    requires OnRoute(cfg, Sid(e)) || Sid(e) !in st.streams
    ensures WithRow(Joined(cfg, st, rows), e) == Joined(cfg, st, rows + {e})
  {
    hide OnRoute, RowGaps;
    var before, after := Joined(cfg, st, rows), Joined(cfg, st, rows + {e});
    var grown := WithRow(before, e);
    JoinedKeys(cfg, st, rows, e);
    JoinedAt(cfg, st, rows, Sid(e));
    forall s | s in after ensures grown[s] == after[s] {
      GapsGrow(rows, e, s, StreamOf(st.streams, s).last);
      JoinedIn(cfg, st, rows, s);
      JoinedIn(cfg, st, rows + {e}, s);
    }
  }

  lemma JoinedKeys(cfg: Config, st: State, rows: set<Envelope>, e: Envelope)
    ensures WithRow(Joined(cfg, st, rows), e).Keys == Joined(cfg, st, rows + {e}).Keys
  {
    hide OnRoute, RowGaps;
  }

  lemma JoinedIn(cfg: Config, st: State, rows: set<Envelope>, s: StreamId)
    ensures var prior := StreamOf(st.streams, s);
      s in Joined(cfg, st, rows) ==>
        Joined(cfg, st, rows)[s] == prior.(gaps := prior.gaps + RowGaps(rows, s, prior.last))
  {
    hide OnRoute, RowGaps;
  }

  lemma JoinedAt(cfg: Config, st: State, rows: set<Envelope>, s: StreamId)
    requires OnRoute(cfg, s) || s !in st.streams
    ensures var prior := StreamOf(st.streams, s);
      StreamOf(Joined(cfg, st, rows), s) == prior.(gaps := prior.gaps + RowGaps(rows, s, prior.last))
  {
    hide OnRoute;
  }

  lemma GapsGrow(rows: set<Envelope>, e: Envelope, s: StreamId, last: nat)
    ensures RowGaps(rows + {e}, s, last) == RowGaps(rows, s, last) + if s == Sid(e) && e.seqno > last then {e.seqno}
        else {}
  {}

  // ---------------------------------------------------------------- small steps

  /** With at most one envelope pending there is no order to choose. */
  lemma OnlyPending(st: State, fallback: nat, pending: map<string, Envelope>, id: string)
    requires id in pending && |pending| <= 1
    ensures pending - {id} == map[]
    ensures ApplyPending(st, fallback, pending) == ApplyInbound(st, fallback, pending[id])
  {
    hide ApplyInbound;
    assert (pending - {id}).Keys == pending.Keys - {id};
    assert |pending.Keys - {id}| == 0;
    forall k | k in pending ensures k == id { assert k == id || k in pending.Keys - {id}; }
    assert ApplyPending(ApplyInbound(st, fallback, pending[id]), fallback, map[])
        == ApplyInbound(st, fallback, pending[id]);
  }

  lemma RowRefused(cfg: Config, st: State, inbox: map<string, Envelope>, e: Envelope)
    requires e in inbox.Values && !InboxRowOk(cfg, st, e)
    ensures !InboxOk(cfg, st, inbox)
  {
    hide InboxRowOk;
    var id :| id in inbox && inbox[id] == e;
  }

  lemma CollisionRefused(cfg: Config, st: State, m: Memory, inbox: map<string, Envelope>, rows: set<Envelope>,
      e: Envelope)
    requires Indexing(m, rows) && rows <= inbox.Values && e in inbox.Values && Collides(m, e)
    ensures !InboxOk(cfg, st, inbox)
  {
    hide *;
    CollisionMeans(m, rows, e);
    var f :| f in rows && f != e && (f.id == e.id || f.key == e.key || SeqId(f) == SeqId(e));
    NotDistinct(inbox.Values, e, f);
    AcceptedDistinct(cfg, st, inbox);
  }

  lemma NotDistinct(rows: set<Envelope>, e: Envelope, f: Envelope)
    requires e in rows && f in rows && f != e && (f.id == e.id || f.key == e.key || SeqId(f) == SeqId(e))
    ensures !Distinct(rows)
  {
    hide SeqId;
  }

  lemma AcceptedDistinct(cfg: Config, st: State, inbox: map<string, Envelope>)
    ensures InboxOk(cfg, st, inbox) ==> Distinct(inbox.Values)
  {
    hide InboxRowOk, Distinct;
  }

  lemma RowsAccepted(cfg: Config, st: State, inbox: map<string, Envelope>)
    requires forall id | id in inbox :: inbox[id].id == id
    requires forall e | e in inbox.Values :: InboxRowOk(cfg, st, e)
    requires Distinct(inbox.Values)
    ensures InboxOk(cfg, st, inbox)
  {
    hide InboxRowOk, Distinct;
  }

  ghost function SetOf(rows: seq<Envelope>): set<Envelope> { set i | 0 <= i < |rows| :: rows[i] }

  /** The rows read so far, and one more. */
  lemma Prefix(rows: seq<Envelope>, i: nat)
    requires i < |rows|
    ensures SetOf(rows[..i + 1]) == SetOf(rows[..i]) + {rows[i]}
  {
    var before, after := rows[..i], rows[..i + 1];
    assert after == before + [rows[i]];
    assert forall k | 0 <= k < i :: after[k] == before[k];
  }

  lemma RowOnRoute(cfg: Config, st: State, e: Envelope)
    requires InboxRowOk(cfg, st, e)
    ensures OnRoute(cfg, Sid(e))
  {
    hide Canonical, Verify, ValidUlid;
  }

  // ---------------------------------------------------------------- the client

  class Client {
    const cfg: Config
    var state: State
    var byId: map<string, Envelope>
    var byKey: map<string, Envelope>
    var bySeq: map<(StreamId, nat), Envelope>
    var heldIds: set<string>
    var heldKeys: set<string>
    var pending: map<string, Envelope>
    var pendingSave: bool
    var fallback: nat
    /** The directory. */
    var disk: Disk

    function Mem(): Memory
      reads this
    {
      Memory(state, byId, byKey, bySeq, heldIds, heldKeys, pending, pendingSave, fallback)
    }

    ghost predicate Valid()
      reads this
    {
      |pending| <= 1 && (pendingSave <==> pending != map[])
    }

    constructor (cfg: Config, disk: Disk, state: State)
      ensures this.cfg == cfg && this.disk == disk
      ensures Mem() == Memory(state, map[], map[], map[], {}, {}, map[], false, 0)
    {
      this.cfg, this.disk, this.state := cfg, disk, state;
      byId, byKey, bySeq, heldIds, heldKeys := map[], map[], map[], {}, {};
      pending, pendingSave, fallback := map[], false, 0;
    }

    /** save: state.json is replaced as a whole or not at all. */
    method Save(ok: bool)
      modifies this`disk
      ensures disk == if ok then Saved(old(disk), state) else old(disk)
    {
      if ok { disk := disk.(state := Some(state)); }
    }

    method ApplyInbound(e: Envelope)
      modifies this`state
      ensures state == SyncState.ApplyInbound(old(state), fallback, e)
    {
      hide Settle;
      state := state.(cursor :=
          state.cursor.(seenIds := state.cursor.seenIds + [e.id], seenKeys := state.cursor.seenKeys + [e.key]));
      var stream := StreamOf(state.streams, Sid(e));
      stream := Advance(stream.(gaps := stream.gaps + {e.seqno}));
      state := state.(streams := state.streams[Sid(e) := stream]);
      if fallback > 0 {
        state := state.(cursor := state.cursor.(last := stream.last));
      } else if stream.last > state.cursor.last {
        state := state.(cursor := state.cursor.(last := stream.last));
      }
    }

    method CommitPendingInbound(save: bool) returns (ok: bool)
      requires Valid()
      modifies this`state, this`pending, this`pendingSave, this`fallback, this`disk
      ensures Valid()
      ensures (Mem(), disk) == SyncState.Commit(old(Mem()), old(disk), save)
      ensures ok <==> !CommitFails(old(Mem()), save)
    {
      hide SyncState.ApplyInbound, ApplyPending;
      if |pending| == 0 {
        pendingSave := false;
        return true;
      }
      var before := state;
      var left := pending;
      while left != map[]
        invariant |left| <= 1 && pending == old(pending) && fallback == old(fallback) && pendingSave == old(pendingSave)
        invariant disk == old(disk) && ApplyPending(state, fallback, left) == ApplyPending(before, fallback, pending)
        invariant unchanged(`byId) && unchanged(`byKey) && unchanged(`bySeq) && unchanged(`heldIds)
            && unchanged(`heldKeys)
        decreases left.Keys
      {
        var id :| id in left;
        OnlyPending(state, fallback, left, id);
        ApplyInbound(left[id]);
        left := left - {id};
        NonePending(state, fallback);
      }
      NonePending(state, fallback);
      Save(save);
      if !save {
        state := before;
        return false;
      }
      pending := map[];
      pendingSave := false;
      fallback := 0;
      return true;
    }

    /** persistInbound: creates the row, or finds the same one there. */
    method PersistInbound(e: Envelope, create: bool) returns (ok: bool)
      modifies this`disk
      ensures ok <==> Persists(old(disk), e, create)
      ensures disk == if ok then old(disk).(inbox := old(disk).inbox[e.id := e]) else old(disk)
    {
      if e.id in disk.inbox {
        assert disk.inbox[e.id] == e ==> disk.inbox[e.id := e] == disk.inbox;
        return disk.inbox[e.id] == e;
      }
      if !create { return false; }
      disk := disk.(inbox := disk.inbox[e.id := e]);
      return true;
    }

    method AddInboundIndex(e: Envelope)
      modifies this`byId, this`byKey, this`bySeq
      ensures Mem() == Indexed(old(Mem()), e)
    {
      byId := byId[e.id := e];
      byKey := byKey[e.key := e];
      bySeq := bySeq[SeqId(e) := e];
    }

    /** A row that is already indexed under some identity: a duplicate, or a collision. */
    method Retained(prior: Envelope, e: Envelope, save: bool) returns (verdict: Verdict)
      requires Valid()
      modifies this`state, this`pending, this`pendingSave, this`fallback, this`disk
      ensures Valid()
      ensures Received(Mem(), disk, verdict) ==
        if prior != e then Received(old(Mem()), old(disk), Done(Collision))
        else if !old(pendingSave) then Received(old(Mem()), old(disk), Done(Duplicate))
        else
          var (m', d') := SyncState.Commit(old(Mem()), old(disk), save);
          Received(m', d', if CommitFails(old(Mem()), save) then IoError else Done(Duplicate))
    {
      hide SyncState.Commit;
      if prior != e { return Done(Collision); }
      if pendingSave {
        var ok := CommitPendingInbound(save);
        if !ok { return IoError; }
      }
      return Done(Duplicate);
    }

    method Receive(e: Envelope, io: Io) returns (verdict: Verdict)
      requires Valid()
      modifies this
      ensures Valid()
      ensures Received(Mem(), disk, verdict) == SyncState.Receive(cfg, old(Mem()), old(disk), e, io)
    {
      hide Verify, ValidFields, SyncState.Commit, Admit, Reserves, SeqId;
      var verified := VerifyEnvelope(cfg.prims, e, cfg.trusted);
      if e.tenant != cfg.tenant || e.project != cfg.project || !verified { return Done(Tampered); }
      if e.schema < state.cursor.minSchema || e.schema > state.cursor.maxSchema { return Done(Incompatible); }
      if !ValidFields(e) { return Done(Tampered); }
      if !cfg.prims.payloadOk(e.kind, e.payload) { return Done(Tampered); }
      if Sid(e) in state.untrusted { return Done(Untrusted); }
      if e.id in byId { verdict := Retained(byId[e.id], e, io.commit); return; }
      if e.key in byKey { verdict := Retained(byKey[e.key], e, io.commit); return; }
      if SeqId(e) in bySeq { verdict := Retained(bySeq[SeqId(e)], e, io.commit); return; }
      if e.id in heldIds || e.key in heldKeys { return Done(Collision); }
      if e.seqno < state.cursor.floor { return Done(Replay); }
      var stream := StreamOf(state.streams, Sid(e));
      if Reserves(stream, e.seqno) { return Done(Replay); }
      assert Classify(cfg, Mem(), e) == Fresh;
      CommitClears(Mem(), disk, io.commit);
      if pendingSave {
        var ok := CommitPendingInbound(io.commit);
        if !ok { return IoError; }
      }
      var outcome := Accepted;
      if stream.last == 0 && fallback > 0 && e.seqno <= fallback { outcome := Reordered; }
      verdict := AdmitRow(e, outcome, io);
    }

    /** The end of Receive. */
    method AdmitRow(e: Envelope, outcome: Outcome, io: Io) returns (verdict: Verdict)
      requires Valid() && pending == map[]
      modifies this
      ensures Valid()
      ensures Received(Mem(), disk, verdict) == Admit(old(Mem()), old(disk), e, outcome, io)
    {
      AdmitSteps(Mem(), disk, e, outcome, io);
      hide Admit, Persists, SyncState.ApplyInbound;
      var ok := PersistInbound(e, io.create);
      if !ok { return IoError; }
      MarkRow(e);
      var saved := ApplyRow(e, io.save);
      if !saved { return IoError; }
      return Done(outcome);
    }

    /** The durable row enters the indexes and is pending until the state is saved. */
    method MarkRow(e: Envelope)
      requires pending == map[]
      modifies this`byId, this`byKey, this`bySeq, this`pending, this`pendingSave
      ensures Mem() == Indexed(old(Mem()), e).(pending := map[e.id := e], pendingSave := true)
    {
      AddInboundIndex(e);
      pending := pending[e.id := e];
      pendingSave := true;
    }

    /** The row is applied and the state saved, or the old state put back. */
    method ApplyRow(e: Envelope, save: bool) returns (saved: bool)
      requires pending == map[e.id := e] && pendingSave
      modifies this`state, this`pending, this`pendingSave, this`fallback, this`disk
      ensures saved == save
      ensures var st := SyncState.ApplyInbound(old(state), old(fallback), e);
        && (saved ==>
              && Mem() == old(Mem()).(state := st, pending := map[], pendingSave := false, fallback := 0)
              && disk == Saved(old(disk), st))
        && (!saved ==> Mem() == old(Mem()) && disk == old(disk))
    {
      hide SyncState.ApplyInbound;
      var before := state;
      ApplyInbound(e);
      Save(save);
      if !save {
        state := before;
        return false;
      }
      pending := pending - {e.id};
      assert pending == map[];
      pendingSave := |pending| > 0;
      fallback := 0;
      return true;
    }

    method Enqueue(kind: string, key: string, payload: CanonicalJson.Json, id: string, now: string, io: Io)
      returns (row: Option<Envelope>)
      modifies this`state, this`disk
      ensures Enqueued(Mem(), disk, row)
          == SyncState.Enqueue(cfg, old(Mem()), old(disk), kind, key, payload, id, now, io)
    {
      hide Sign, WithKey;
      if !cfg.prims.payloadOk(kind, payload) { return None; }
      if key == "" || |key| > 256 { return None; }
      if state.next > MAX_SEQUENCE { return None; }
      var found := FindIdempotency(disk.outbox, key);
      if found.Some? { return found; }
      var signed := SignEnvelope(cfg.prims, Draft(cfg, state, kind, key, payload, id, now), cfg.secret);
      if signed.None? { return None; }
      if !io.create { return None; }
      disk := disk.(outbox := disk.outbox + [signed.value]);
      state := state.(next := state.next + 1);
      Save(io.save);
      if !io.save { return None; }
      return signed;
    }

    // -------------------------------------------------------------- Sync

    /** The loop of Sync over the envelopes of a response. */
    method ReceiveEach(inbound: seq<Envelope>, ios: seq<Io>) returns (ok: bool)
      requires Valid() && |ios| == |inbound|
      modifies this
      ensures Valid()
      ensures Synced(Mem(), disk, ok) == ReceiveAll(cfg, old(Mem()), old(disk), inbound, ios)
    {
      hide SyncState.Receive, Fine;
      assert inbound[0..] == inbound && ios[0..] == ios;
      for i := 0 to |inbound|
        invariant Valid()
        invariant ReceiveAll(cfg, old(Mem()), old(disk), inbound, ios)
            == ReceiveAll(cfg, Mem(), disk, inbound[i..], ios[i..])
      {
        assert inbound[i..][1..] == inbound[i + 1..] && ios[i..][1..] == ios[i + 1..];
        var verdict := Receive(inbound[i], ios[i]);
        if !Fine(verdict) { return false; }
      }
      assert inbound[|inbound|..] == [];
      return true;
    }

    /** Sync with the transport of SyncTransport; `out` is the decoded response, if
        any, and `ios` say which writes succeed while its envelopes are received. */
    method Sync(transport: HTTPTransport, out: Option<ExchangeResponse>, ios: seq<Io>, save: bool) returns (ok: bool)
      requires Valid() && (out.Some? ==> |ios| == |out.value.inbound|)
      modifies this, transport
      ensures Valid()
      ensures Synced(Mem(), disk, ok) == SyncOnce(cfg, old(Mem()), old(disk), transport.acknowledged, out, ios, save)
      ensures transport.acknowledged == old(transport.acknowledged)
    {
      hide ReceiveAll, Acceptable, Pending, Settle, AckedSet;
      var rows := PendingRows(disk.outbox, state.acked);
      var result := transport.Exchange(rows, out);
      if result.None? { return false; }
      SettledIsFrontier(transport.acknowledged, AckedSet(out.value.acks), result.value.acked);
      if result.value.acked > MaxSent(rows, state.acked) { return false; }
      var received := ReceiveEach(result.value.inbound, ios);
      if !received { return false; }
      if result.value.acked > state.acked {
        state := state.(acked := result.value.acked);
        Save(save);
        return save;
      }
      return true;
    }

    // -------------------------------------------------------------- Open

    /** inbox: the rows in file name order, each under its own event id. */
    method Inbox() returns (rows: Option<seq<Envelope>>)
      ensures rows.Some? <==> forall id | id in disk.inbox :: disk.inbox[id].id == id
      ensures rows.Some? ==> rows.value == Listing(disk.inbox)
    {
      var names := CanonicalJson.SortStrings(disk.inbox.Keys);
      var listed := [];
      for i := 0 to |names|
        invariant |listed| == i && forall k | 0 <= k < i ::
            names[k] in disk.inbox && listed[k] == disk.inbox[names[k]] && listed[k].id == names[k]
      {
        var row := disk.inbox[names[i]];
        if row.id != names[i] { return None; }
        listed := listed + [row];
      }
      return Some(listed);
    }

    method DistrustedStreams() returns (untrusted: set<StreamId>)
      ensures untrusted == Distrusted(cfg, state, {})
    {
      hide OnRoute;
      untrusted := {};
      var left := state.untrusted;
      while left != {}
        invariant left <= state.untrusted && untrusted == set s | s in state.untrusted - left && OnRoute(cfg, s)
        decreases left
      {
        var s :| s in left;
        left := left - {s};
        if OnRoute(cfg, s) { untrusted := untrusted + {s}; }
      }
      left := state.streams.Keys;
      ghost var latched := untrusted;
      while left != {}
        invariant left <= state.streams.Keys
        invariant untrusted == latched + set s | s in state.streams.Keys - left && OnRoute(cfg, s)
            && s.keyId !in cfg.trusted
        decreases left
      {
        var s :| s in left;
        left := left - {s};
        if OnRoute(cfg, s) && s.keyId !in cfg.trusted { untrusted := untrusted + {s}; }
      }
    }

    method KeptStreams() returns (streams: map<StreamId, Stream>)
      ensures streams == Joined(cfg, state, {})
    {
      streams := map[];
      var left := state.streams.Keys;
      while left != {}
        invariant left <= state.streams.Keys
        invariant streams == map s | s in state.streams && s !in left && OnRoute(cfg, s) :: state.streams[s]
        decreases left
      {
        var s :| s in left;
        left := left - {s};
        if OnRoute(cfg, s) { streams := streams[s := state.streams[s]]; }
      }
      KeptIsJoined(cfg, state, streams);
    }

    /** The checks on one inbox row by itself. */
    method CheckRow(row: Envelope) returns (ok: bool)
      ensures ok <==> InboxRowOk(cfg, state, row)
    {
      hide Verify, Canonical, ValidFields;
      if row.tenant != cfg.tenant || row.project != cfg.project || !ValidFields(row)
          || row.schema < state.cursor.minSchema
         || row.schema > state.cursor.maxSchema || !cfg.prims.payloadOk(row.kind, row.payload) { return false; }
      if row.algorithm != ED25519 || !cfg.prims.wellFormed(row.signature) { return false; }
      if row.keyId in cfg.trusted {
        var verified := VerifyEnvelope(cfg.prims, row, cfg.trusted);
        if !verified { return false; }
      }
      var canonical := CanonicalEnvelope(row);
      return canonical.Some?;
    }

    /** The loop over the inbox rows: every row is checked, indexed and joined to
        the summary of its stream. */
    method ReadRows(rows: seq<Envelope>, distrusted: set<StreamId>, kept: map<StreamId, Stream>)
      returns (ok: bool, untrusted: set<StreamId>, streams: map<StreamId, Stream>)
      requires byId == map[] && byKey == map[] && bySeq == map[]
      requires rows == Listing(disk.inbox) && forall id | id in disk.inbox :: disk.inbox[id].id == id
      requires distrusted == Distrusted(cfg, state, {}) && kept == Joined(cfg, state, {})
      modifies this`byId, this`byKey, this`bySeq
      ensures ok <==> InboxOk(cfg, state, disk.inbox)
      ensures ok ==> Indexing(Mem(), disk.inbox.Values)
      ensures ok ==>
        && untrusted == Distrusted(cfg, state, disk.inbox.Values)
        && streams == Joined(cfg, state, disk.inbox.Values)
    {
      hide InboxOk, InboxRowOk, Listing, Distrusted, Joined, Indexing, Collides, WithRow, SeqId, SetOf;
      ghost var all := disk.inbox.Values;
      untrusted, streams := distrusted, kept;
      NoRows(Mem(), rows);
      for i := 0 to |rows|
        invariant Indexing(Mem(), SetOf(rows[..i])) && SetOf(rows[..i]) <= all
        invariant untrusted == Distrusted(cfg, state, SetOf(rows[..i]))
            && streams == Joined(cfg, state, SetOf(rows[..i]))
        invariant forall k | 0 <= k < i :: InboxRowOk(cfg, state, rows[k])
      {
        var row := rows[i];
        assert row in rows;
        Prefix(rows, i);
        var good := CheckRow(row);
        if !good {
          RowRefused(cfg, state, disk.inbox, row);
          return false, untrusted, streams;
        }
        if Collides(Mem(), row) {
          CollisionRefused(cfg, state, Mem(), disk.inbox, SetOf(rows[..i]), row);
          return false, untrusted, streams;
        }
        IndexGrows(Mem(), SetOf(rows[..i]), row);
        AddInboundIndex(row);
        DistrustRow(cfg, state, SetOf(rows[..i]), row);
        if row.keyId !in cfg.trusted { untrusted := untrusted + {Sid(row)}; }
        RowOnRoute(cfg, state, row);
        JoinRow(cfg, state, SetOf(rows[..i]), row);
        streams := WithRow(streams, row);
      }
      AllRows(rows, all);
      IndexedRows(Mem(), disk.inbox);
      RowsAccepted(cfg, state, disk.inbox);
      return true, untrusted, streams;
    }

    /** The loop that settles every trusted stream. */
    method SettleStreams(joined: map<StreamId, Stream>, untrusted: set<StreamId>)
        returns (streams: map<StreamId, Stream>)
      ensures streams == SettledAll(joined, untrusted)
    {
      hide Settle;
      streams := joined;
      var left := joined.Keys;
      while left != {}
        invariant left <= joined.Keys && streams.Keys == joined.Keys
        invariant forall s | s in joined ::
            streams[s] == if s in left || s in untrusted then joined[s] else Settle(joined[s])
        decreases left
      {
        var s :| s in left;
        left := left - {s};
        if s in untrusted { continue; }
        var settled := Advance(streams[s]);
        streams := streams[s := settled];
      }
    }

    /** The reservations of listed identities whose rows are gone. */
    static method Unretained(listed: seq<string>, retained: set<string>) returns (held: set<string>)
      ensures held == set x | x in listed && x !in retained
    {
      held := {};
      for i := 0 to |listed|
        invariant held == set x | x in listed[..i] && x !in retained
      {
        assert listed[..i + 1] == listed[..i] + [listed[i]];
        if listed[i] !in retained { held := held + {listed[i]}; }
      }
      assert listed[..|listed|] == listed;
    }

    method RebuildInboundIndexes() returns (ok: bool)
      requires byId == map[] && byKey == map[] && bySeq == map[]
      modifies this`byId, this`byKey, this`bySeq, this`heldIds, this`heldKeys, this`state
      ensures ok <==> InboxOk(cfg, old(state), disk.inbox)
      ensures ok ==>
        && byId == disk.inbox && byKey == ByKey(disk.inbox.Values) && bySeq == BySeq(disk.inbox.Values)
        && state == RebuiltState(cfg, old(state), disk.inbox)
        && heldIds == (set id | id in old(state).cursor.seenIds && id !in disk.inbox)
        && heldKeys == (set k | k in old(state).cursor.seenKeys && k !in ByKey(disk.inbox.Values))
    {
      hide InboxOk, Listing, Distrusted, Joined, Indexing, SettledAll, RebuiltState, ByKey, BySeq, AppendNew, Ids, Keys,
          Frontier;
      var rows := Inbox();
      if rows.None? {
        MisnamedRefused(cfg, state, disk.inbox);
        return false;
      }
      var distrusted := DistrustedStreams();
      var kept := KeptStreams();
      var good, untrusted, joined := ReadRows(rows.value, distrusted, kept);
      if !good { return false; }
      IndexedRows(Mem(), disk.inbox);
      var streams := SettleStreams(joined, untrusted);
      var ids := AppendSeen(state.cursor.seenIds, Ids(rows.value));
      heldIds := Unretained(state.cursor.seenIds, byId.Keys);
      var keys := AppendSeen(state.cursor.seenKeys, Keys(rows.value));
      heldKeys := Unretained(state.cursor.seenKeys, byKey.Keys);
      var last := state.cursor.last;
      if |streams| > 0 {
        last := MaxFrontier(streams, untrusted);
      } else if |rows.value| > 0 {
        last := 0;
      }
      RebuiltFrom(cfg, state, disk.inbox, streams, ids, keys, last);
      state := state.(streams := streams, untrusted := untrusted, cursor :=
          state.cursor.(seenIds := ids, seenKeys := keys, last := last));
      return true;
    }

    /** The loop of Open over the outbox. */
    method CheckOutbox() returns (ok: bool)
      ensures ok <==> OutboxOk(cfg, disk.outbox)
    {
      hide Verify, ValidFields;
      var keys := cfg.trusted[cfg.keyId := cfg.prims.public(cfg.secret)];
      var last := 0;
      for i := 0 to |disk.outbox|
        invariant last == i && forall k | 0 <= k < i :: OutboxRowOk(cfg, disk.outbox[k], k + 1)
      {
        var row := disk.outbox[i];
        var verified := VerifyEnvelope(cfg.prims, row, keys);
        assert OutboxRowOk(cfg, row, i + 1) <==>
          (row.seqno == last + 1 && row.tenant == cfg.tenant && row.project == cfg.project && row.schema == 1
           && ValidFields(row) && verified && cfg.prims.payloadOk(row.kind, row.payload));
        if row.seqno != last + 1 || row.tenant != cfg.tenant || row.project != cfg.project || row.schema != 1
           || !ValidFields(row) || !verified || !cfg.prims.payloadOk(row.kind, row.payload) { return false; }
        last := row.seqno;
      }
      return true;
    }

    /** What Open makes of the state it has read, given the outbox. */
    method RecoverState(bounds: Cursor)
      requires bounds == Bounded(cfg.cursor)
      requires state == if disk.state.Some? then disk.state.value else State(1, 0, bounds, map[], {})
      modifies this`state
      ensures state == Loaded(cfg, disk)
    {
      if state.next != |disk.outbox| + 1 { state := state.(next := |disk.outbox| + 1); }
      if state.cursor.minSchema == 0 { state := state.(cursor := state.cursor.(minSchema := bounds.minSchema)); }
      if state.cursor.maxSchema == 0 { state := state.(cursor := state.cursor.(maxSchema := bounds.maxSchema)); }
    }

    /** The rest of Open: the indexes, the legacy cursor and the save. */
    method Start(save: bool) returns (ok: bool)
      requires Mem() == Memory(Loaded(cfg, disk), map[], map[], map[], {}, {}, map[], false, 0)
      modifies this
      ensures ok ==> Valid()
      ensures var after := Opened(cfg, Loaded(cfg, old(disk)), old(disk).inbox);
        && (ok <==>
              && InboxOk(cfg, Loaded(cfg, old(disk)), old(disk).inbox)
              && (old(disk).state == Some(after.state) || save))
        && (ok ==> Mem() == after && disk == if old(disk).state == Some(after.state) then old(disk)
            else Saved(old(disk), after.state))
        && (!ok ==> disk == old(disk))
    {
      hide InboxOk, RebuiltState, ByKey, BySeq, Loaded;
      var rebuilt := RebuildInboundIndexes();
      if !rebuilt { return false; }
      if |state.streams| == 0 { fallback := state.cursor.last; }
      if disk.state != Some(state) {
        Save(save);
        if !save { return false; }
      }
      return true;
    }

    /** Open, up to the directories it creates. */
    static method Open(cfg: Config, disk: Disk, save: bool) returns (c: Client?, left: Disk)
      ensures c != null ==> fresh(c) && c.Valid() && c.cfg == cfg && c.disk == left
      ensures (if c == null then None else Some(c.Mem()), left) == SyncState.Open(cfg, disk, save)
    {
      hide OutboxOk, InboxOk, Opened, Loaded, Bounded;
      if cfg.tenant == "" || cfg.project == "" || cfg.keyId == "" { return null, disk; }
      var bounds := Bounded(cfg.cursor);
      var client :=
          new Client(cfg, disk, if disk.state.Some? then disk.state.value else State(1, 0, bounds, map[], {}));
      var producer := client.CheckOutbox();
      if !producer { return null, disk; }
      if client.state.acked > |disk.outbox| { return null, disk; }
      FreshNext(cfg, disk);
      if client.state.next > |disk.outbox| + 1 { return null, disk; }
      client.RecoverState(bounds);
      var started := client.Start(save);
      if !started { return null, disk; }
      return client, client.disk;
    }
  }

  lemma FreshNext(cfg: Config, d: Disk)
    ensures ProducerOk(cfg, d) <==>
      && OutboxOk(cfg, d.outbox)
      && var st := if d.state.Some? then d.state.value else State(1, 0, Bounded(cfg.cursor), map[], {});
         st.acked <= |d.outbox| && st.next <= |d.outbox| + 1
  {
    hide OutboxOk;
  }

  // ---------------------------------------------------------------- Sync as a function

  datatype Synced = Synced(memory: Memory, disk: Disk, ok: bool)

  /** The outcomes Receive returns without an error. */
  predicate Fine(v: Verdict) { v == Done(Accepted) || v == Done(Reordered) || v == Done(Duplicate) }

  ghost function ReceiveAll(cfg: Config, m: Memory, d: Disk, inbound: seq<Envelope>, ios: seq<Io>): Synced
    requires |ios| == |inbound|
    decreases |inbound|
  {
    if inbound == [] then Synced(m, d, true)
    else
      var r := SyncState.Receive(cfg, m, d, inbound[0], ios[0]);
      if !Fine(r.verdict) then Synced(r.memory, r.disk, false)
      else ReceiveAll(cfg, r.memory, r.disk, inbound[1..], ios[1..])
  }

  /** The last row known to be pending when the exchange began. */
  function MaxSent(pending: seq<Envelope>, acked: nat): nat {
    if |pending| > 0 then pending[|pending| - 1].seqno else acked
  }

  ghost function SyncOnce(cfg: Config, m: Memory, d: Disk, base: nat, out: Option<ExchangeResponse>, ios: seq<Io>,
      save: bool): Synced
    requires out.Some? ==> |ios| == |out.value.inbound|
  {
    var rows := Pending(d.outbox, m.state.acked);
    if out.None? || !Acceptable(Batch(rows), out.value) then Synced(m, d, false)
    else
      var acked := Settle(Stream(base, AckedSet(out.value.acks))).last;
      if acked > MaxSent(rows, m.state.acked) then Synced(m, d, false)
      else
        var r := ReceiveAll(cfg, m, d, out.value.inbound, ios);
        if !r.ok then r
        else
          var (m', d') := Acknowledge(r.memory, r.disk, acked, save);
          Synced(m', d', acked <= r.memory.state.acked || save)
  }

  lemma SettledIsFrontier(base: nat, acked: set<nat>, k: nat)
    requires IsFrontier(base, acked, k)
    ensures k == Settle(Stream(base, acked)).last
  {
    var s := Stream(base, acked);
    SettleKeeps(s);
    hide Settle;
    var j := Settle(s).last;
    assert j + 1 !in acked by { assert Reserves(Settle(s), j + 1) <==> Reserves(s, j + 1); SettleStops(s); }
    forall n | base < n <= j ensures n in acked { assert Reserves(Settle(s), n) <==> Reserves(s, n); }
    FrontierUnique(base, acked, j, k);
  }

  lemma {:induction false} SettleStops(s: Stream)
    ensures Settle(s).last + 1 !in s.gaps
    decreases |s.gaps|
  {
    if s.last + 1 in s.gaps {
      SettleKeeps(Stream(s.last + 1, s.gaps - {s.last + 1}));
      SettleStops(Stream(s.last + 1, s.gaps - {s.last + 1}));
    }
  }

  /** What a Sync that gets that far does at its end is the Applies step of the
      protocol: same rows sent, same reply, same acknowledgement. */
  lemma SyncEndIsStep(cfg: Config, m: Memory, d: Disk, out: ExchangeResponse, ios: seq<Io>, save: bool, s: SyncRuns.Sys)
    requires |ios| == |out.inbound|
    requires var rows := Pending(d.outbox, m.state.acked);
      Acceptable(Batch(rows), out)
          && Settle(Stream(m.state.acked, AckedSet(out.acks))).last <= MaxSent(rows, m.state.acked)
    requires var r := ReceiveAll(cfg, m, d, out.inbound, ios);
      r.ok && s.client == Some(r.memory) && s.disk == r.disk
    requires var rows := Pending(d.outbox, m.state.acked);
      SyncRuns.Reply(SyncRuns.Request(m.state.acked, Batch(rows), MaxSent(rows, m.state.acked)), out.acks) in s.replies
    ensures var rows := Pending(d.outbox, m.state.acked);
      var reply := SyncRuns.Reply(SyncRuns.Request(m.state.acked, Batch(rows), MaxSent(rows, m.state.acked)), out.acks);
      var t := SyncRuns.Next(cfg, s, SyncRuns.Applies(reply, save));
      var end := SyncOnce(cfg, m, d, m.state.acked, Some(out), ios, save);
      t.client == Some(end.memory) && t.disk == end.disk
  {
    hide ReceiveAll, AllMatch, Settle, Pending, Batch;
  }

  lemma MisnamedRefused(cfg: Config, st: State, inbox: map<string, Envelope>)
    requires !(forall id | id in inbox :: inbox[id].id == id)
    ensures !InboxOk(cfg, st, inbox)
  {
    hide InboxRowOk, Distinct;
  }

  /** The parts computed one after the other are the rebuilt state. */
  lemma RebuiltFrom(cfg: Config, st: State, inbox: map<string, Envelope>, streams: map<StreamId, Stream>,
                    ids: seq<string>, keys: seq<string>, last: nat)
    requires streams == SettledAll(Joined(cfg, st, inbox.Values), Distrusted(cfg, st, inbox.Values))
    requires ids == AppendNew(st.cursor.seenIds, Ids(Listing(inbox)))
        && keys == AppendNew(st.cursor.seenKeys, Keys(Listing(inbox)))
    requires last == if streams != map[] then Frontier(streams, Distrusted(cfg, st, inbox.Values))
        else if Listing(inbox) != [] then 0 else st.cursor.last
    ensures RebuiltState(cfg, st, inbox) ==
      st.(streams := streams, untrusted := Distrusted(cfg, st, inbox.Values),
          cursor := st.cursor.(seenIds := ids, seenKeys := keys, last := last))
  {
    SameRebuild(cfg, st, inbox.Values);
    hide Joined, Distrusted, SettledAll, Listing, AppendNew, Ids, Keys, Frontier, RebuiltStreams;
  }

  lemma SameRebuild(cfg: Config, st: State, rows: set<Envelope>)
    ensures SettledAll(Joined(cfg, st, rows), Distrusted(cfg, st, rows)) == RebuiltStreams(cfg, st, rows)
  {
    hide Distrusted, OnRoute, Settle, RowGaps;
  }

  lemma KeptIsJoined(cfg: Config, st: State, streams: map<StreamId, Stream>)
    requires streams == map s | s in st.streams && OnRoute(cfg, s) :: st.streams[s]
    ensures streams == Joined(cfg, st, {})
  {
    hide OnRoute;
    var joined := Joined(cfg, st, {});
    assert (set e: Envelope | e in {} :: Sid(e)) == {};
    assert streams.Keys == joined.Keys;
    forall s | s in joined ensures joined[s] == st.streams[s] {
      assert RowGaps({}, s, st.streams[s].last) == {};
    }
  }

  lemma NoRows(m: Memory, rows: seq<Envelope>)
    requires m.byId == map[] && m.byKey == map[] && m.bySeq == map[]
    ensures SetOf(rows[..0]) == {} && Indexing(m, {})
  {}

  lemma AllRows(rows: seq<Envelope>, all: set<Envelope>)
    requires forall e :: e in rows <==> e in all
    ensures SetOf(rows[..|rows|]) == all
  {
    assert rows[..|rows|] == rows;
  }

  lemma DistrustRow(cfg: Config, st: State, rows: set<Envelope>, e: Envelope)
    ensures Distrusted(cfg, st, rows + {e}) == Distrusted(cfg, st, rows) + if e.keyId !in cfg.trusted then {Sid(e)}
        else {}
  {
    hide OnRoute;
  }

  ghost function SettledAll(joined: map<StreamId, Stream>, untrusted: set<StreamId>): map<StreamId, Stream> {
    map s | s in joined :: if s in untrusted then joined[s] else Settle(joined[s])
  }

  lemma CommitClears(m: Memory, d: Disk, ok: bool)
    ensures !CommitFails(m, ok) ==> SyncState.Commit(m, d, ok).0.pending == map[]
  {
    hide ApplyPending;
  }

  /** The three ends of an admission on which nothing was pending. */
  lemma AdmitSteps(m: Memory, d: Disk, e: Envelope, outcome: Outcome, io: Io)
    requires m.pending == map[]
    ensures var written := d.(inbox := d.inbox[e.id := e]);
      var marked := Indexed(m, e).(pending := map[e.id := e], pendingSave := true);
      var st := SyncState.ApplyInbound(m.state, m.fallback, e);
      Admit(m, d, e, outcome, io) ==
        if !Persists(d, e, io.create) then Received(m, d, IoError)
        else if !io.save then Received(marked, written, IoError)
        else Received(marked.(state := st, pending := map[], pendingSave := false, fallback := 0), Saved(written, st),
            Done(outcome))
  {
    hide SyncState.ApplyInbound, SeqId, Persists;
    assert m.pending - {e.id} == map[];
  }

  lemma NonePending(st: State, fallback: nat)
    ensures ApplyPending(st, fallback, map[]) == st
  {}
}
