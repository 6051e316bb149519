/** The producer side: the outbox is a gapless, immutable prefix of signed rows,
    and Open accepts every one of them exactly when the configuration they were
    signed under has fields of acceptable length. */
module SyncOutbound {
  import opened Wrappers
  import opened Envelopes
  import opened SyncState
  import opened SyncServer
  import CanonicalJson

  /** The device session of the client's own route and signing key. */
  function DeviceOf(cfg: Config): Device {
    Device(cfg.tenant, cfg.project, cfg.keyId, cfg.prims.public(cfg.secret), cfg.prims)
  }

  /** What Enqueue guarantees of a row: everything the server asks for, and every
      field Open will check that does not come from the configuration. */
  ghost predicate Signed(cfg: Config, e: Envelope) {
    && Deliverable(DeviceOf(cfg), e)
    && e.producer == cfg.producer && |e.key| <= 256 && 1 <= e.seqno <= MAX_SEQUENCE && e.occurred != ZERO_TIME
  }

  ghost predicate OutboxInv(cfg: Config, rows: seq<Envelope>) {
    Outbox(rows) && forall i | 0 <= i < |rows| :: Signed(cfg, rows[i])
  }

  /** The part of a configuration that Enqueue copies into a row without a check and
      Open checks in every row. */
  predicate ConfigFieldsOk(cfg: Config) {
    1 <= |cfg.tenant| <= 128 && 1 <= |cfg.project| <= 128 && 1 <= |cfg.producer| <= 64 && 1 <= |cfg.keyId| <= 128
  }

  ghost predicate ProducerInv(cfg: Config, d: Disk) {
    && OutboxInv(cfg, d.outbox)
    && (d.state.Some? ==> d.state.value.acked <= |d.outbox| && d.state.value.next <= |d.outbox| + 1)
  }

  /** An open client has seen the whole outbox, and its acknowledgement is at least
      the saved one. */
  ghost predicate Tracks(m: Memory, d: Disk) {
    && m.state.next == |d.outbox| + 1 && m.state.acked <= |d.outbox|
    && d.state.Some? && d.state.value.acked <= m.state.acked
  }

  // ---------------------------------------------------------------- Open and the outbox

  lemma SignedIsOk(cfg: Config, e: Envelope, n: nat)
    requires Signed(cfg, e) && e.seqno == n
    ensures OutboxRowOk(cfg, e, n) <==> ConfigFieldsOk(cfg)
  {
    VerifyDepends(cfg.prims, e, map[cfg.keyId := cfg.prims.public(cfg.secret)],
        cfg.trusted[cfg.keyId := cfg.prims.public(cfg.secret)]);
    hide Verify;
    assert ValidUlid(e.id);
  }

  /** Verification looks up one key and no other. */
  lemma VerifyDepends(p: Primitives, e: Envelope, a: map<string, string>, b: map<string, string>)
    requires e.keyId in a && e.keyId in b && a[e.keyId] == b[e.keyId]
    ensures Verify(p, e, a) <==> Verify(p, e, b)
  {
    hide Canonical;
  }

  /** Open accepts a produced outbox exactly when it is empty or the lengths of the
      configured route, key id and producer version are ones Open accepts: Enqueue
      signs rows without looking at them. */
  lemma OwnOutboxAccepted(cfg: Config, rows: seq<Envelope>)
    requires OutboxInv(cfg, rows)
    ensures OutboxOk(cfg, rows) <==> rows == [] || ConfigFieldsOk(cfg)
  {
    hide Signed, OutboxRowOk, ConfigFieldsOk;
    forall i | 0 <= i < |rows| ensures OutboxRowOk(cfg, rows[i], i + 1) <==> ConfigFieldsOk(cfg) {
      SignedIsOk(cfg, rows[i], i + 1);
    }
    if rows != [] && OutboxOk(cfg, rows) { assert OutboxRowOk(cfg, rows[0], 0 + 1); }
  }

  // ---------------------------------------------------------------- Enqueue

  lemma {:induction false} WithKeyFinds(rows: seq<Envelope>, key: string)
    ensures WithKey(rows, key).Some? ==> WithKey(rows, key).value in rows && WithKey(rows, key).value.key == key
    ensures WithKey(rows, key).None? ==> forall i | 0 <= i < |rows| :: rows[i].key != key
  {
    if rows != [] && rows[0].key != key {
      WithKeyFinds(rows[1..], key);
      forall i | 0 <= i < |rows| && WithKey(rows, key).None? ensures rows[i].key != key {
        if i > 0 { assert rows[i] == rows[1..][i - 1]; }
      }
    }
  }

  /** What Enqueue needs of its clock and its id generator. */
  ghost predicate FreshName(d: Disk, id: string, now: string) {
    ProviderUlid(id) && now != ZERO_TIME && forall i | 0 <= i < |d.outbox| :: d.outbox[i].id != id
  }

  lemma DraftIsSigned(cfg: Config, st: State, kind: string, key: string, payload: CanonicalJson.Json, id: string,
      now: string)
    requires cfg.prims.Lawful() && cfg.prims.payloadOk(kind, payload) && 1 <= |key| <= 256
        && 1 <= st.next <= MAX_SEQUENCE
    requires ProviderUlid(id) && now != ZERO_TIME
    ensures var s := Sign(cfg.prims, Draft(cfg, st, kind, key, payload, id, now), cfg.secret);
      s.Some? ==> Signed(cfg, s.value) && s.value.seqno == st.next && s.value.id == id && s.value.key == key
  {
    hide Canonical;
    var draft := Draft(cfg, st, kind, key, payload, id, now);
    if Sign(cfg.prims, draft, cfg.secret).Some? {
      SignVerifies(cfg.prims, draft, cfg.secret, map[cfg.keyId := cfg.prims.public(cfg.secret)]);
    }
    hide Verify, ProviderUlid;
  }

  lemma OutboxGrows(cfg: Config, rows: seq<Envelope>, e: Envelope)
    requires OutboxInv(cfg, rows) && Signed(cfg, e) && e.seqno == |rows| + 1
    requires forall i | 0 <= i < |rows| :: rows[i].id != e.id && rows[i].key != e.key
    ensures OutboxInv(cfg, rows + [e])
  {
    hide Signed;
  }

  /** Enqueue never rewrites a row: the outbox stays or gains one row with the next
      sequence. A key that has a row yields that row, whatever fails. */
  lemma EnqueueKeeps(cfg: Config, m: Memory, d: Disk, kind: string, key: string, payload: CanonicalJson.Json,
                     id: string, now: string, io: Io)
    requires cfg.prims.Lawful() && ProducerInv(cfg, d) && Tracks(m, d) && FreshName(d, id, now)
    ensures var r := Enqueue(cfg, m, d, kind, key, payload, id, now, io);
      && ProducerInv(cfg, r.disk) && Tracks(r.memory, r.disk)
      && (r.disk.outbox == d.outbox
          || (|r.disk.outbox| == |d.outbox| + 1 && r.disk.outbox[..|d.outbox|] == d.outbox
          && r.disk.outbox[|d.outbox|].key == key))
      && (r.result.Some? ==> r.result.value in r.disk.outbox && r.result.value.key == key)
      && r.memory == m.(state := m.state.(next := r.memory.state.next))
      && r.disk.inbox == d.inbox && (r.disk.state == d.state || r.disk.state == Some(r.memory.state))
  {
    hide Sign, Signed, Outbox;
    WithKeyFinds(d.outbox, key);
    hide WithKey;
    var signed := Sign(cfg.prims, Draft(cfg, m.state, kind, key, payload, id, now), cfg.secret);
    if cfg.prims.payloadOk(kind, payload) && 1 <= |key| <= 256 && m.state.next <= MAX_SEQUENCE && signed.Some? {
      DraftIsSigned(cfg, m.state, kind, key, payload, id, now);
      if WithKey(d.outbox, key).None? { OutboxGrows(cfg, d.outbox, signed.value); }
    }
  }

  /** Asking again for a key that has a row returns the row and writes nothing. */
  lemma EnqueueIdempotent(cfg: Config, m: Memory, d: Disk, kind: string, key: string, payload: CanonicalJson.Json,
                          id: string, now: string, io: Io, n: nat)
    requires ProducerInv(cfg, d) && n < |d.outbox| && d.outbox[n].key == key
    requires cfg.prims.payloadOk(kind, payload) && m.state.next <= MAX_SEQUENCE
    ensures Enqueue(cfg, m, d, kind, key, payload, id, now, io) == Enqueued(m, d, Some(d.outbox[n]))
  {
    WithKeyFinds(d.outbox, key);
    hide WithKey, Sign, Verify, ProviderUlid;
    assert Signed(cfg, d.outbox[n]);
    var found := WithKey(d.outbox, key).value;
    var i :| 0 <= i < |d.outbox| && d.outbox[i] == found;
    assert i == n;
  }

  /** The row says what it was asked to say, when, under which number and for whom. */
  predicate Carries(cfg: Config, e: Envelope, kind: string, key: string, payload: CanonicalJson.Json, id: string,
                    now: string, n: nat) {
    && (e.kind, e.key, e.payload) == (kind, key, payload) && (e.id, e.occurred, e.seqno) == (id, now, n)
    && (e.tenant, e.project, e.producer) == (cfg.tenant, cfg.project, cfg.producer)
    && (e.schema, e.algorithm, e.keyId) == (1, "Ed25519", cfg.keyId)
  }

  /** A new key gets a new row if the payload is on the allowlist and can be written, the
      key is neither empty nor too long, and there is a number left; the row is signed
      and carries what was given, and it is there even if saving the counter fails. */
  lemma EnqueueWrites(cfg: Config, m: Memory, d: Disk, kind: string, key: string, payload: CanonicalJson.Json,
                      id: string, now: string, io: Io)
    requires cfg.prims.Lawful() && forall i | 0 <= i < |d.outbox| :: d.outbox[i].key != key
    ensures var r := Enqueue(cfg, m, d, kind, key, payload, id, now, io);
      if !(cfg.prims.payloadOk(kind, payload) && 0 < |key| <= 256 && m.state.next < 0x20_0000_0000_0000
           && CanonicalJson.Encodable(payload) && io.create)
      then r == Enqueued(m, d, None)
      else
        && |r.disk.outbox| == |d.outbox| + 1 && r.disk.outbox[..|d.outbox|] == d.outbox
        && var e := r.disk.outbox[|d.outbox|];
        && Carries(cfg, e, kind, key, payload, id, now, m.state.next)
        && Verify(cfg.prims, e, map[cfg.keyId := cfg.prims.public(cfg.secret)])
        && r.memory == m.(state := m.state.(next := m.state.next + 1))
        && r.result == (if io.save then Some(e) else None)
        && r.disk.inbox == d.inbox && r.disk.state == (if io.save then Some(r.memory.state) else d.state)
  {
    hide *;
    WithKeyFinds(d.outbox, key);
    var draft := Draft(cfg, m.state, kind, key, payload, id, now);
    EnqueueNew(cfg, m, d, kind, key, payload, id, now, io);
    DraftIs(cfg, m.state, kind, key, payload, id, now);
    SequenceLimit();
    if m.state.next <= MAX_SEQUENCE { SignedWhen(cfg.prims, draft, cfg.secret); }
    if m.state.next <= MAX_SEQUENCE && Sign(cfg.prims, draft, cfg.secret).Some? {
      SignVerifies(cfg.prims, draft, cfg.secret, map[cfg.keyId := cfg.prims.public(cfg.secret)]);
      DraftCarries(cfg, Sign(cfg.prims, draft, cfg.secret).value, m.state, kind, key, payload, id, now);
    }
  }

  lemma SequenceLimit()
    ensures MAX_SEQUENCE + 1 == 0x20_0000_0000_0000
  {}

  lemma DraftIs(cfg: Config, st: State, kind: string, key: string, payload: CanonicalJson.Json, id: string, now: string)
    ensures var e := Draft(cfg, st, kind, key, payload, id, now);
      e.schema == 1 && e.seqno == st.next && e.payload == payload && e.keyId == cfg.keyId
  {}

  lemma DraftCarries(cfg: Config, e: Envelope, st: State, kind: string, key: string, payload: CanonicalJson.Json,
                     id: string, now: string)
    requires var draft := Draft(cfg, st, kind, key, payload, id, now);
      e == draft.(algorithm := ED25519, signature := e.signature)
    ensures Carries(cfg, e, kind, key, payload, id, now, st.next)
  {}

  /** Enqueue under a key that no row has. */
  lemma EnqueueNew(cfg: Config, m: Memory, d: Disk, kind: string, key: string, payload: CanonicalJson.Json,
                   id: string, now: string, io: Io)
    requires WithKey(d.outbox, key).None?
    ensures var signed := Sign(cfg.prims, Draft(cfg, m.state, kind, key, payload, id, now), cfg.secret);
      var r := Enqueue(cfg, m, d, kind, key, payload, id, now, io);
      if !cfg.prims.payloadOk(kind, payload) || key == "" || |key| > 256 || m.state.next > MAX_SEQUENCE
         || signed.None? || !io.create
      then r == Enqueued(m, d, None)
      else
        && r.memory == m.(state := m.state.(next := m.state.next + 1))
        && r.result == (if io.save then Some(signed.value) else None)
        && r.disk.outbox == d.outbox + [signed.value] && r.disk.inbox == d.inbox
        && r.disk.state == (if io.save then Some(r.memory.state) else d.state)
  {
    hide WithKey, Sign, Draft;
  }

  lemma SignedWhen(prims: Primitives, draft: Envelope, secret: string)
    requires draft.schema == 1 && draft.seqno <= MAX_SEQUENCE
    ensures Sign(prims, draft, secret).Some? <==> CanonicalJson.Encodable(draft.payload)
    ensures Sign(prims, draft, secret).Some? ==>
      var e := Sign(prims, draft, secret).value; e == draft.(algorithm := ED25519, signature := e.signature)
  {
    var unsigned := draft.(algorithm := ED25519, signature := "");
    EncodableFields(unsigned);
    CanonicalWhen(unsigned);
    assert CanonicalJson.Encodable(CanonicalJson.Int(1)) && CanonicalJson.Encodable(CanonicalJson.Int(draft.seqno));
    hide Canonical, CanonicalJson.Encodable;
  }

  // ---------------------------------------------------------------- pending rows

  /** What is pending is the outbox above the acknowledged sequence, in order. */
  lemma {:induction false} PendingIsSuffix(rows: seq<Envelope>, acked: nat, first: nat)
    requires forall i | 0 <= i < |rows| :: rows[i].seqno == first + i + 1
    ensures Pending(rows, acked) ==
      if acked <= first then rows else if acked >= first + |rows| then [] else rows[acked - first..]
    decreases |rows|
  {
    if rows != [] {
      PendingIsSuffix(rows[1..], acked, first + 1);
      assert rows == [rows[0]] + rows[1..];
    }
  }
}
