/** The ledger of the reference server (exchange in
    scripts/device-identity-qualification-provider.go), for one bound route. */
module SyncServer {
  import opened Wrappers
  import opened Envelopes
  import opened SyncState

  datatype Ack = Ack(id: string, key: string, seqno: nat, outcome: Outcome)

  /** What the server keeps of a route: acknowledgements by idempotency key and by
      event id, the last accepted sequence, and the accepted ids in order. */
  datatype Ledger = Ledger(accepted: map<string, Ack>, eventIds: map<string, Ack>, frontier: nat, log: seq<string>)

  /** The device session a request is authorized by. */
  datatype Device = Device(tenant: string, project: string, keyId: string, public: string, prims: Primitives)

  const EMPTY_LEDGER := Ledger(map[], map[], 0, [])

  predicate ProviderUlid(s: string) { |s| == 26 && s[0] <= '7' && forall i | 0 <= i < |s| :: CrockfordChar(s[i]) }

  ghost predicate Deliverable(dev: Device, e: Envelope) {
    && e.schema == 1 && e.tenant == dev.tenant && e.project == dev.project && e.seqno != 0
    && ProviderUlid(e.id) && e.key != "" && e.keyId == dev.keyId
    && Verify(dev.prims, e, map[dev.keyId := dev.public])
    && dev.prims.payloadOk(e.kind, e.payload)
  }

  /** One envelope: a repeat, a new row at the frontier, or a refusal. */
  ghost function Serve(dev: Device, l: Ledger, e: Envelope): Option<(Ledger, Ack)> {
    if !Deliverable(dev, e) then None
    else if e.key in l.accepted then
      var prior := l.accepted[e.key];
      if prior.id != e.id || prior.seqno != e.seqno then None else Some((l, prior.(outcome := Duplicate)))
    else if e.id in l.eventIds || e.seqno != l.frontier + 1 then None
    else
      var ack := Ack(e.id, e.key, e.seqno, Accepted);
      Some((Ledger(l.accepted[e.key := ack], l.eventIds[e.id := ack], e.seqno, l.log + [e.id]), ack))
  }

  datatype Served = Served(ledger: Ledger, acks: Option<seq<Ack>>)

  /** A whole request; a refusal in the middle keeps what was accepted before it. */
  ghost function ServeAll(dev: Device, l: Ledger, batch: seq<Envelope>): Served
    decreases |batch|
  {
    if batch == [] then Served(l, Some([]))
    else
      match Serve(dev, l, batch[0])
      case None => Served(l, None)
      case Some((l', ack)) =>
        var rest := ServeAll(dev, l', batch[1..]);
        Served(rest.ledger, match rest.acks case Some(acks) => Some([ack] + acks) case None => None)
  }

  // ---------------------------------------------------------------- ledger and outbox

  ghost predicate AckOf(a: Ack, e: Envelope) { a.id == e.id && a.key == e.key && a.seqno == e.seqno }

  /** No two rows share an event id or an idempotency key, and row `i` has sequence
      `i + 1`. */
  ghost predicate Outbox(rows: seq<Envelope>) {
    && (forall i | 0 <= i < |rows| :: rows[i].seqno == i + 1)
    && (forall i, j | 0 <= i < j < |rows| :: rows[i].id != rows[j].id && rows[i].key != rows[j].key)
  }

  /** The ledger records exactly these rows: in order, without repeats. */
  ghost predicate Records(l: Ledger, rows: seq<Envelope>) {
    && l.frontier == |rows| == |l.log|
    && (forall i | 0 <= i < |rows| :: l.log[i] == rows[i].id)
    && KeysRecorded(l.accepted, rows) && IdsRecorded(l.eventIds, rows)
  }

  ghost predicate KeysRecorded(accepted: map<string, Ack>, rows: seq<Envelope>) {
    && (forall i | 0 <= i < |rows| :: rows[i].key in accepted && AckOf(accepted[rows[i].key], rows[i]))
    && (forall k | k in accepted :: exists i :: 0 <= i < |rows| && rows[i].key == k)
  }

  ghost predicate IdsRecorded(eventIds: map<string, Ack>, rows: seq<Envelope>) {
    forall id | id in eventIds :: exists i :: 0 <= i < |rows| && rows[i].id == id
  }

  lemma RecordKey(accepted: map<string, Ack>, rows: seq<Envelope>, e: Envelope, ack: Ack)
    requires KeysRecorded(accepted, rows) && AckOf(ack, e) && forall i | 0 <= i < |rows| :: rows[i].key != e.key
    ensures KeysRecorded(accepted[e.key := ack], rows + [e])
  {
    var after := rows + [e];
    assert after[|rows|] == e && forall i | 0 <= i < |rows| :: after[i] == rows[i];
    var recorded := accepted[e.key := ack];
    forall k | k in recorded ensures exists i :: 0 <= i < |after| && after[i].key == k {
      if k == e.key { assert after[|rows|].key == k; }
          else { var i :| 0 <= i < |rows| && rows[i].key == k; assert after[i].key == k; }
    }
  }

  lemma RecordId(eventIds: map<string, Ack>, rows: seq<Envelope>, e: Envelope, ack: Ack)
    requires IdsRecorded(eventIds, rows)
    ensures IdsRecorded(eventIds[e.id := ack], rows + [e])
  {
    var after := rows + [e];
    assert after[|rows|] == e && forall i | 0 <= i < |rows| :: after[i] == rows[i];
    var recorded := eventIds[e.id := ack];
    forall id | id in recorded ensures exists i :: 0 <= i < |after| && after[i].id == id {
      if id == e.id { assert after[|rows|].id == id; }
          else { var i :| 0 <= i < |rows| && rows[i].id == id; assert after[i].id == id; }
    }
  }

  /** Row `n` of the outbox against a ledger that has the first `f` rows. */
  lemma ServeRow(dev: Device, l: Ledger, outbox: seq<Envelope>, f: nat, n: nat)
    requires Outbox(outbox) && n < |outbox| && n <= f <= |outbox| && Records(l, outbox[..f])
        && Deliverable(dev, outbox[n])
    ensures var r := Serve(dev, l, outbox[n]);
      r.Some? && AckOf(r.value.1, outbox[n]) && Records(r.value.0, outbox[..if n < f then f else n + 1])
      && r.value.1.outcome in {Accepted, Duplicate}
  {
    hide Deliverable;
    var e := outbox[n];
    if n < f {
      assert outbox[..f][n] == e;
    } else {
      assert e.key !in l.accepted;
      assert e.id !in l.eventIds;
      ServeNext(dev, l, outbox, n);
    }
  }

  lemma ServeNext(dev: Device, l: Ledger, outbox: seq<Envelope>, n: nat)
    requires Outbox(outbox) && n < |outbox| && Records(l, outbox[..n]) && Deliverable(dev, outbox[n])
    requires outbox[n].key !in l.accepted && outbox[n].id !in l.eventIds
    ensures Serve(dev, l, outbox[n]).Some? && Records(Serve(dev, l, outbox[n]).value.0, outbox[..n + 1])
    ensures AckOf(Serve(dev, l, outbox[n]).value.1, outbox[n]) && Serve(dev, l, outbox[n]).value.1.outcome == Accepted
  {
    hide Deliverable, KeysRecorded, IdsRecorded;
    var before, e := outbox[..n], outbox[n];
    var ack := Ack(e.id, e.key, e.seqno, Accepted);
    assert outbox[..n + 1] == before + [e];
    assert forall i | 0 <= i < |before| :: before[i] == outbox[i];
    RecordKey(l.accepted, before, e, ack);
    RecordId(l.eventIds, before, e, ack);
  }

  /** An honest request, sent whenever, is never refused: a contiguous run of the
      outbox that starts no later than the frontier ends with every one of its
      rows acknowledged and the ledger one prefix of the outbox. */
  lemma {:induction false} HonestNeverRefused(dev: Device, l: Ledger, outbox: seq<Envelope>, f: nat, a: nat, b: nat)
    requires Outbox(outbox) && a <= f <= |outbox| && a <= b <= |outbox| && Records(l, outbox[..f])
    requires forall i | 0 <= i < |outbox| :: Deliverable(dev, outbox[i])
    ensures var r := ServeAll(dev, l, outbox[a..b]);
      && Records(r.ledger, outbox[..if b > f then b else f])
      && r.acks.Some? && |r.acks.value| == b - a
      && forall i | 0 <= i < b - a ::
          AckOf(r.acks.value[i], outbox[a + i]) && r.acks.value[i].outcome in {Accepted, Duplicate}
    decreases b - a
  {
    hide Deliverable, Outbox, Records, Serve, AckOf;
    if a == b {
      assert outbox[a..b] == [];
    } else {
      assert outbox[a..b][0] == outbox[a] && outbox[a..b][1..] == outbox[a + 1..b];
      ServeRow(dev, l, outbox, f, a);
      var f' := if a < f then f else a + 1;
      var l' := Serve(dev, l, outbox[a]).value.0;
      HonestNeverRefused(dev, l', outbox, f', a + 1, b);
      var r, rest := ServeAll(dev, l, outbox[a..b]), ServeAll(dev, l', outbox[a + 1..b]);
      assert r.acks.value == [Serve(dev, l, outbox[a]).value.1] + rest.acks.value;
      forall i | 0 <= i < b - a
          ensures AckOf(r.acks.value[i], outbox[a + i]) && r.acks.value[i].outcome in {Accepted, Duplicate} {
        if i > 0 { assert r.acks.value[i] == rest.acks.value[i - 1] && outbox[a + i] == outbox[a + 1 + (i - 1)]; }
      }
    }
  }

  // ---------------------------------------------------------------- the provider

  /** The rest of a request served after some acknowledgements were collected. */
  ghost function After(sofar: seq<Ack>, rest: Served): Served {
    Served(rest.ledger, match rest.acks case Some(acks) => Some(sofar + acks) case None => None)
  }

  lemma ServeStep(dev: Device, l: Ledger, batch: seq<Envelope>, sofar: seq<Ack>)
    ensures batch == [] ==> After(sofar, ServeAll(dev, l, batch)) == Served(l, Some(sofar))
    ensures batch != [] && Serve(dev, l, batch[0]).None? ==> After(sofar, ServeAll(dev, l, batch)) == Served(l, None)
    ensures batch != [] && Serve(dev, l, batch[0]).Some? ==>
      After(sofar, ServeAll(dev, l, batch))
      == After(sofar + [Serve(dev, l, batch[0]).value.1], ServeAll(dev, Serve(dev, l, batch[0]).value.0, batch[1..]))
    ensures After([], ServeAll(dev, l, batch)) == ServeAll(dev, l, batch)
  {
    hide Serve;
    if batch == [] {
      assert sofar + [] == sofar;
    } else if Serve(dev, l, batch[0]).Some? {
      var (l', ack) := Serve(dev, l, batch[0]).value;
      var rest := ServeAll(dev, l', batch[1..]);
      if rest.acks.Some? { assert sofar + ([ack] + rest.acks.value) == sofar + [ack] + rest.acks.value; }
    }
    if ServeAll(dev, l, batch).acks.Some? {
        assert [] + ServeAll(dev, l, batch).acks.value == ServeAll(dev, l, batch).acks.value; }
  }

  class Provider {
    var accepted: map<string, Ack>
    var eventIds: map<string, Ack>
    var frontier: nat
    var log: seq<string>

    function Book(): Ledger
      reads this
    {
      Ledger(accepted, eventIds, frontier, log)
    }

    constructor ()
      ensures Book() == EMPTY_LEDGER
    {
      accepted, eventIds, frontier, log := map[], map[], 0, [];
    }

    /** The checks of one envelope. A registration that passes the payload allowlist
        always decodes, so nothing is refused for it later on. */
    method Check(dev: Device, e: Envelope) returns (ok: bool)
      ensures ok <==> Deliverable(dev, e)
    {
      hide Verify;
      if e.schema != 1 || e.tenant != dev.tenant || e.project != dev.project || e.seqno == 0 { return false; }
      if !ProviderUlid(e.id) || e.key == "" || e.keyId != dev.keyId { return false; }
      var verified := VerifyEnvelope(dev.prims, e, map[dev.keyId := dev.public]);
      return verified && dev.prims.payloadOk(e.kind, e.payload);
    }

    /** The request loop of exchange, for an authorized session. */
    method Exchange(dev: Device, batch: seq<Envelope>) returns (acks: Option<seq<Ack>>)
      modifies this
      ensures Served(Book(), acks) == ServeAll(dev, old(Book()), batch)
    {
      hide Deliverable, ServeAll, After;
      var sofar: seq<Ack> := [];
      ServeStep(dev, Book(), batch, sofar);
      assert batch[0..] == batch;
      for n := 0 to |batch|
        invariant ServeAll(dev, old(Book()), batch) == After(sofar, ServeAll(dev, Book(), batch[n..]))
      {
        ServeStep(dev, Book(), batch[n..], sofar);
        var e := batch[n];
        assert batch[n..][0] == e && batch[n..][1..] == batch[n + 1..];
        var deliverable := Check(dev, e);
        if !deliverable { return None; }
        if e.key in accepted {
          var prior := accepted[e.key];
          if prior.id != e.id || prior.seqno != e.seqno { return None; }
          sofar := sofar + [prior.(outcome := Duplicate)];
        } else {
          if e.id in eventIds || e.seqno != frontier + 1 { return None; }
          var ack := Ack(e.id, e.key, e.seqno, Accepted);
          accepted := accepted[e.key := ack];
          eventIds := eventIds[e.id := ack];
          frontier := e.seqno;
          log := log + [e.id];
          sofar := sofar + [ack];
        }
      }
      ServeStep(dev, Book(), batch[|batch|..], sofar);
      assert batch[|batch|..] == [];
      return Some(sofar);
    }
  }
}
