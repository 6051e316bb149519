/** What the reference server answers to any requests at all, honest or not: its ledger,
    built from nothing by whatever devices send, never holds an event twice, and every
    answer is about the row it answers. */
module SyncLedger {
  import opened Wrappers
  import opened Envelopes
  import opened SyncState
  import opened SyncServer

  /** One request of some device on the route. */
  datatype Call = Call(device: Device, batch: seq<Envelope>)

  /** The ledger after a series of requests. */
  ghost function Built(calls: seq<Call>): Ledger {
    if calls == [] then EMPTY_LEDGER
    else ServeAll(calls[|calls| - 1].device, Built(calls[..|calls| - 1]), calls[|calls| - 1].batch).ledger
  }

  /** The entry says what the log says: row `seqno` of it has this id. */
  ghost predicate Entered(l: Ledger, a: Ack) {
    && a.outcome == Accepted && 1 <= a.seqno <= |l.log| && l.log[a.seqno - 1] == a.id
    && a.key in l.accepted && l.accepted[a.key] == a && a.id in l.eventIds && l.eventIds[a.id] == a
  }

  ghost predicate Good(l: Ledger) {
    && l.frontier == |l.log|
    && (forall i | 0 <= i < |l.log| ::
          l.log[i] in l.eventIds && l.eventIds[l.log[i]].seqno == i + 1 && l.eventIds[l.log[i]].id == l.log[i])
    && (forall k | k in l.accepted :: l.accepted[k].key == k && Entered(l, l.accepted[k]))
    && (forall id | id in l.eventIds :: l.eventIds[id].id == id && Entered(l, l.eventIds[id]))
  }

  /** The row is in the ledger: same event id, key and sequence. */
  ghost predicate Recorded(l: Ledger, e: Envelope) { e.key in l.accepted && AckOf(l.accepted[e.key], e) }

  /** What the server asks of any row, whatever its ledger: the schema, the route and the
      key are those of the session, the id is 26 characters of the alphabet and fits 128
      bits, and signature and payload are good. */
  ghost predicate Admissible(dev: Device, e: Envelope) {
    && e.schema == 1 && (e.tenant, e.project, e.keyId) == (dev.tenant, dev.project, dev.keyId)
    && |e.id| == 26 && (forall c | c in e.id :: c in CROCKFORD) && e.id[0] in "01234567"
    && e.key != "" && e.seqno > 0
    && Verify(dev.prims, e, map[dev.keyId := dev.public]) && dev.prims.payloadOk(e.kind, e.payload)
  }

  /** The row goes behind the last one, under an id and a key that are not in the ledger. */
  ghost predicate Follows(l: Ledger, e: Envelope) {
    e.seqno == |l.log| + 1 && e.id !in l.log && e.key !in l.accepted
  }

  // ---------------------------------------------------------------- one row

  lemma LogHasIds(l: Ledger, id: string)
    requires Good(l)
    ensures id in l.eventIds <==> id in l.log
  {
    if id in l.log { var i :| 0 <= i < |l.log| && l.log[i] == id; }
    if id in l.eventIds { assert Entered(l, l.eventIds[id]); }
  }

  lemma AdmissibleIs(dev: Device, e: Envelope)
    ensures Deliverable(dev, e) <==> Admissible(dev, e)
  {
    UlidIs(e.id);
    hide Verify, ProviderUlid;
  }

  lemma UlidIs(id: string)
    ensures ProviderUlid(id) <==> |id| == 26 && (forall c | c in id :: c in CROCKFORD) && id[0] in "01234567"
  {
    hide CrockfordChar;
    forall c: char ensures CrockfordChar(c) <==> c in CROCKFORD { CrockfordIs(c); }
    if id != "" { FirstDigit(id[0]); }
    assert (forall c | c in id :: c in CROCKFORD) <==> forall i | 0 <= i < |id| :: CrockfordChar(id[i]);
  }

  lemma FirstDigit(c: char)
    ensures c in CROCKFORD && c <= '7' <==> c in "01234567"
  {}

  /** What the answer to a row is worth: it is about that row, a repeat changes nothing, a
      new row is the last one of the log, and nothing else becomes recorded. */
  ghost predicate RowServed(l: Ledger, e: Envelope, n: Ledger, ack: Ack) {
    && Good(n) && AckOf(ack, e)
    && (if Recorded(l, e) then n == l && ack.outcome == Duplicate
        else ack.outcome == Accepted && n.log == l.log + [e.id] && Recorded(n, e))
    && (forall f :: Recorded(n, f) <==> Recorded(l, f) || AckOf(ack, f))
  }

  /** A row is answered if and only if it is recorded or follows. */
  lemma RowAnswered(dev: Device, l: Ledger, e: Envelope)
    requires Good(l)
    ensures Serve(dev, l, e).Some? <==> Admissible(dev, e) && (Recorded(l, e) || Follows(l, e))
    ensures Serve(dev, l, e).Some? ==>
      RowServed(l, e, Serve(dev, l, e).value.0, Serve(dev, l, e).value.1)
  {
    AdmissibleIs(dev, e);
    hide Deliverable, Admissible;
    LogHasIds(l, e.id);
    if Serve(dev, l, e).Some? {
      if Recorded(l, e) {
        RowRepeated(l, e);
      } else {
        RowAdded(l, e);
      }
    }
  }

  lemma RowRepeated(l: Ledger, e: Envelope)
    requires Good(l) && Recorded(l, e)
    ensures RowServed(l, e, l, l.accepted[e.key].(outcome := Duplicate))
  {
    var ack := l.accepted[e.key].(outcome := Duplicate);
    assert forall f :: AckOf(ack, f) ==> Recorded(l, f);
  }

  lemma RowAdded(l: Ledger, e: Envelope)
    requires Good(l) && Follows(l, e) && e.id !in l.eventIds
    ensures var ack := Ack(e.id, e.key, e.seqno, Accepted);
      RowServed(l, e, Ledger(l.accepted[e.key := ack], l.eventIds[e.id := ack], e.seqno, l.log + [e.id]), ack)
  {
    var ack := Ack(e.id, e.key, e.seqno, Accepted);
    var n := Ledger(l.accepted[e.key := ack], l.eventIds[e.id := ack], e.seqno, l.log + [e.id]);
    assert forall i | 0 <= i < |l.log| :: n.log[i] == l.log[i];
    forall k | k in n.accepted ensures n.accepted[k].key == k && Entered(n, n.accepted[k]) {
      if k != e.key { assert Entered(l, l.accepted[k]); }
    }
    forall id | id in n.eventIds ensures n.eventIds[id].id == id && Entered(n, n.eventIds[id]) {
      if id != e.id { assert Entered(l, l.eventIds[id]); }
    }
    forall i | 0 <= i < |n.log|
      ensures n.log[i] in n.eventIds && n.eventIds[n.log[i]].seqno == i + 1 && n.eventIds[n.log[i]].id == n.log[i]
    {
      if i < |l.log| { assert l.log[i] in l.eventIds && l.log[i] != e.id; }
    }
    assert forall f :: Recorded(n, f) <==> Recorded(l, f) || AckOf(ack, f);
  }

  /** A used key or event id is good for the row that used it and for no other. */
  lemma UsedIdentityConflicts(dev: Device, l: Ledger, e: Envelope, f: Envelope)
    requires Good(l) && Recorded(l, f) && (e.key == f.key || e.id == f.id)
    requires (e.id, e.key, e.seqno) != (f.id, f.key, f.seqno)
    ensures Serve(dev, l, e).None?
  {
    RowAnswered(dev, l, e);
    assert Entered(l, l.accepted[f.key]);
    if Recorded(l, e) { assert Entered(l, l.accepted[e.key]); }
    hide Serve, Admissible;
  }

  // ---------------------------------------------------------------- any series of requests

  lemma EmptyGood()
    ensures Good(EMPTY_LEDGER) && forall e :: !Recorded(EMPTY_LEDGER, e)
  {}

  lemma {:induction false} ServedGood(dev: Device, l: Ledger, batch: seq<Envelope>)
    requires Good(l)
    ensures Good(ServeAll(dev, l, batch).ledger)
    decreases |batch|
  {
    hide *;
    RequestCases(dev, l, batch);
    if batch != [] && Serve(dev, l, batch[0]).Some? {
      RowAnswered(dev, l, batch[0]);
      GoodServed(l, batch[0], Serve(dev, l, batch[0]).value.0, Serve(dev, l, batch[0]).value.1);
      ServedGood(dev, Serve(dev, l, batch[0]).value.0, batch[1..]);
    }
  }

  lemma {:induction false} BuiltGood(calls: seq<Call>)
    ensures Good(Built(calls))
  {
    EmptyGood();
    hide Good, ServeAll;
    if calls != [] {
      BuiltGood(calls[..|calls| - 1]);
      var c := calls[|calls| - 1];
      ServedGood(c.device, Built(calls[..|calls| - 1]), c.batch);
    }
  }

  /** Whatever was sent by whomever, the log holds no event twice. */
  lemma NothingTwice(calls: seq<Call>, i: nat, j: nat)
    requires i < j < |Built(calls).log|
    ensures Built(calls).log[i] != Built(calls).log[j]
  {
    BuiltGood(calls);
    var l := Built(calls);
    hide Built;
    assert l.eventIds[l.log[i]].seqno == i + 1 && l.eventIds[l.log[j]].seqno == j + 1;
  }

  // ---------------------------------------------------------------- one request

  /** The ledger after the first `i` rows of a request. */
  ghost function Before(dev: Device, l: Ledger, batch: seq<Envelope>, i: nat): Ledger
    requires i <= |batch|
  {
    ServeAll(dev, l, batch[..i]).ledger
  }

  /** Row `i` of a request is one the server can answer when its turn comes. */
  ghost predicate RowOk(dev: Device, l: Ledger, batch: seq<Envelope>, i: nat)
    requires i < |batch|
  {
    var now := Before(dev, l, batch, i);
    Admissible(dev, batch[i]) && (Recorded(now, batch[i]) || Follows(now, batch[i]))
  }

  /** A row of the request, and of those before it, is answered about itself: accepted if
      it is new when its turn comes, and then it is the last of the log; otherwise
      duplicate, and nothing changes. */
  ghost predicate RowAnswer(dev: Device, l: Ledger, batch: seq<Envelope>, i: nat, ack: Ack)
    requires i < |batch|
  {
    var now, next := Before(dev, l, batch, i), Before(dev, l, batch, i + 1);
    && AckOf(ack, batch[i])
    && (if Recorded(now, batch[i]) then ack.outcome == Duplicate && next == now
        else ack.outcome == Accepted && next.log == now.log + [batch[i].id])
  }

  ghost predicate AllOk(dev: Device, l: Ledger, batch: seq<Envelope>) {
    forall i | 0 <= i < |batch| :: RowOk(dev, l, batch, i)
  }

  ghost predicate AllAnswered(dev: Device, l: Ledger, batch: seq<Envelope>, acks: seq<Ack>) {
    |acks| == |batch| && forall i | 0 <= i < |batch| :: RowAnswer(dev, l, batch, i, acks[i])
  }

  /** Row `i` is the first that cannot be answered, and the ledger is as it was then. */
  ghost predicate StopsAt(dev: Device, l: Ledger, batch: seq<Envelope>, i: nat, after: Ledger) {
    && i < |batch| && !RowOk(dev, l, batch, i) && after == Before(dev, l, batch, i)
    && forall j | 0 <= j < i :: RowOk(dev, l, batch, j)
  }

  lemma BeforeFirst(dev: Device, l: Ledger, batch: seq<Envelope>)
    ensures Before(dev, l, batch, 0) == l
  {
    assert batch[..0] == [];
  }

  lemma BeforeLater(dev: Device, l: Ledger, batch: seq<Envelope>, i: nat)
    requires batch != [] && Serve(dev, l, batch[0]).Some? && i < |batch|
    ensures Before(dev, l, batch, i + 1) == Before(dev, Serve(dev, l, batch[0]).value.0, batch[1..], i)
  {
    hide Serve;
    assert batch[..i + 1][0] == batch[0] && batch[..i + 1][1..] == batch[1..][..i];
  }

  /** The request as a whole: it succeeds if and only if every row can be answered when its
      turn comes; then every row is answered about itself. Otherwise it is refused, and
      the rows in front of the first that cannot be answered have been recorded. */
  lemma {:induction false} RequestAnswered(dev: Device, l: Ledger, batch: seq<Envelope>)
    requires Good(l)
    ensures var r := ServeAll(dev, l, batch);
      && Good(r.ledger)
      && (r.acks.Some? <==> AllOk(dev, l, batch))
      && (r.acks.Some? ==> AllAnswered(dev, l, batch, r.acks.value))
      && (r.acks.None? ==> exists i :: StopsAt(dev, l, batch, i, r.ledger))
    decreases |batch|
  {
    hide *;
    ServedGood(dev, l, batch);
    RequestCases(dev, l, batch);
    if batch == [] {
      NothingAsked(dev, l);
    } else {
      var n := Serve(dev, l, batch[0]);
      FirstOk(dev, l, batch);
      if n.Some? {
        RowAnswered(dev, l, batch[0]);
        GoodServed(l, batch[0], n.value.0, n.value.1);
        RequestAnswered(dev, n.value.0, batch[1..]);
        RestOk(dev, l, batch);
        var more := ServeAll(dev, n.value.0, batch[1..]);
        if more.acks.Some? {
          RestAnswered(dev, l, batch, more.acks.value);
        } else {
          var i :| StopsAt(dev, n.value.0, batch[1..], i, more.ledger);
          RestStops(dev, l, batch, i, more.ledger);
        }
      } else {
        StopsFirst(dev, l, batch);
      }
    }
  }

  lemma NothingAsked(dev: Device, l: Ledger)
    ensures AllOk(dev, l, []) && AllAnswered(dev, l, [], [])
  {}

  lemma GoodServed(l: Ledger, e: Envelope, n: Ledger, ack: Ack)
    requires RowServed(l, e, n, ack)
    ensures Good(n)
  {
    hide Good, Recorded, AckOf;
  }

  lemma ServedIs(l: Ledger, e: Envelope, n: Ledger, ack: Ack)
    requires RowServed(l, e, n, ack)
    ensures AckOf(ack, e)
    ensures if Recorded(l, e) then n == l && ack.outcome == Duplicate
            else ack.outcome == Accepted && n.log == l.log + [e.id]
  {
    hide Good, Recorded, AckOf;
  }

  lemma StopsFirst(dev: Device, l: Ledger, batch: seq<Envelope>)
    requires batch != [] && !RowOk(dev, l, batch, 0)
    ensures !AllOk(dev, l, batch) && StopsAt(dev, l, batch, 0, l)
  {
    BeforeFirst(dev, l, batch);
    hide RowOk, Before;
  }

  lemma RestOk(dev: Device, l: Ledger, batch: seq<Envelope>)
    requires batch != [] && Serve(dev, l, batch[0]).Some? && RowOk(dev, l, batch, 0)
    ensures AllOk(dev, l, batch) <==> AllOk(dev, Serve(dev, l, batch[0]).value.0, batch[1..])
  {
    hide RowOk, Serve;
    var n, rest := Serve(dev, l, batch[0]).value.0, batch[1..];
    forall i | 0 <= i < |rest| ensures RowOk(dev, l, batch, i + 1) <==> RowOk(dev, n, rest, i) {
      LaterOk(dev, l, batch, i);
    }
    if AllOk(dev, n, rest) {
      forall i | 0 <= i < |batch| ensures RowOk(dev, l, batch, i) {
        if i > 0 { assert RowOk(dev, n, rest, i - 1); assert RowOk(dev, l, batch, (i - 1) + 1); }
      }
    }
    if AllOk(dev, l, batch) {
      forall i | 0 <= i < |rest| ensures RowOk(dev, n, rest, i) { assert RowOk(dev, l, batch, i + 1); }
    }
  }

  lemma RestAnswered(dev: Device, l: Ledger, batch: seq<Envelope>, acks: seq<Ack>)
    requires Good(l) && batch != [] && Serve(dev, l, batch[0]).Some?
    requires AllAnswered(dev, Serve(dev, l, batch[0]).value.0, batch[1..], acks)
    ensures AllAnswered(dev, l, batch, [Serve(dev, l, batch[0]).value.1] + acks)
  {
    hide Good, Serve, RowAnswer;
    FirstAnswer(dev, l, batch);
    var n, all := Serve(dev, l, batch[0]).value.0, [Serve(dev, l, batch[0]).value.1] + acks;
    forall i | 0 <= i < |batch| ensures RowAnswer(dev, l, batch, i, all[i]) {
      if i > 0 {
        assert RowAnswer(dev, n, batch[1..], i - 1, acks[i - 1]) && all[i] == acks[i - 1];
        LaterAnswer(dev, l, batch, i - 1, acks[i - 1]);
      }
    }
  }

  lemma RestStops(dev: Device, l: Ledger, batch: seq<Envelope>, i: nat, after: Ledger)
    requires batch != [] && Serve(dev, l, batch[0]).Some? && RowOk(dev, l, batch, 0)
    requires StopsAt(dev, Serve(dev, l, batch[0]).value.0, batch[1..], i, after)
    ensures StopsAt(dev, l, batch, i + 1, after)
  {
    hide RowOk, Serve, Before;
    var n := Serve(dev, l, batch[0]).value.0;
    LaterOk(dev, l, batch, i);
    BeforeLater(dev, l, batch, i);
    forall j | 0 <= j < i + 1 ensures RowOk(dev, l, batch, j) {
      if j > 0 {
        assert RowOk(dev, n, batch[1..], j - 1);
        LaterOk(dev, l, batch, j - 1);
      }
    }
  }

  lemma RequestCases(dev: Device, l: Ledger, batch: seq<Envelope>)
    ensures batch == [] ==> ServeAll(dev, l, batch) == Served(l, Some([]))
    ensures batch != [] && Serve(dev, l, batch[0]).None? ==> ServeAll(dev, l, batch) == Served(l, None)
    ensures batch != [] && Serve(dev, l, batch[0]).Some? ==>
      var r, more := ServeAll(dev, l, batch), ServeAll(dev, Serve(dev, l, batch[0]).value.0, batch[1..]);
      r.ledger == more.ledger && (r.acks.Some? <==> more.acks.Some?)
      && (r.acks.Some? ==> r.acks.value == [Serve(dev, l, batch[0]).value.1] + more.acks.value)
  {
    hide Serve;
  }

  lemma FirstOk(dev: Device, l: Ledger, batch: seq<Envelope>)
    requires Good(l) && batch != []
    ensures RowOk(dev, l, batch, 0) <==> Serve(dev, l, batch[0]).Some?
  {
    hide *;
    RowAnswered(dev, l, batch[0]);
    BeforeFirst(dev, l, batch);
    RowOkIs(dev, l, batch, 0);
  }

  lemma RowOkIs(dev: Device, l: Ledger, batch: seq<Envelope>, i: nat)
    requires i < |batch|
    ensures RowOk(dev, l, batch, i) <==>
      var now := Before(dev, l, batch, i);
      Admissible(dev, batch[i]) && (Recorded(now, batch[i]) || Follows(now, batch[i]))
  {
    hide Before, Admissible, Recorded, Follows;
  }

  lemma LaterOk(dev: Device, l: Ledger, batch: seq<Envelope>, i: nat)
    requires batch != [] && Serve(dev, l, batch[0]).Some? && i < |batch[1..]|
    ensures RowOk(dev, l, batch, i + 1) <==> RowOk(dev, Serve(dev, l, batch[0]).value.0, batch[1..], i)
  {
    hide *;
    var n := Serve(dev, l, batch[0]).value.0;
    RowOkIs(dev, l, batch, i + 1);
    RowOkIs(dev, n, batch[1..], i);
    BeforeLater(dev, l, batch, i);
    assert batch[1..][i] == batch[i + 1];
  }

  lemma RowAnswerIs(dev: Device, l: Ledger, batch: seq<Envelope>, i: nat, ack: Ack)
    requires i < |batch|
    ensures RowAnswer(dev, l, batch, i, ack) <==>
      var now, next := Before(dev, l, batch, i), Before(dev, l, batch, i + 1);
      && AckOf(ack, batch[i])
      && (if Recorded(now, batch[i]) then ack.outcome == Duplicate && next == now
          else ack.outcome == Accepted && next.log == now.log + [batch[i].id])
  {
    hide Before, Recorded, AckOf;
  }

  lemma FirstAnswer(dev: Device, l: Ledger, batch: seq<Envelope>)
    requires Good(l) && batch != [] && Serve(dev, l, batch[0]).Some?
    ensures RowAnswer(dev, l, batch, 0, Serve(dev, l, batch[0]).value.1)
  {
    hide *;
    RowAnswered(dev, l, batch[0]);
    BeforeFirst(dev, l, batch);
    BeforeLater(dev, l, batch, 0);
    BeforeFirst(dev, Serve(dev, l, batch[0]).value.0, batch[1..]);
    ServedIs(l, batch[0], Serve(dev, l, batch[0]).value.0, Serve(dev, l, batch[0]).value.1);
    RowAnswerIs(dev, l, batch, 0, Serve(dev, l, batch[0]).value.1);
  }

  lemma LaterAnswer(dev: Device, l: Ledger, batch: seq<Envelope>, i: nat, ack: Ack)
    requires batch != [] && Serve(dev, l, batch[0]).Some? && i < |batch[1..]|
    requires RowAnswer(dev, Serve(dev, l, batch[0]).value.0, batch[1..], i, ack)
    ensures RowAnswer(dev, l, batch, i + 1, ack)
  {
    hide *;
    var n := Serve(dev, l, batch[0]).value.0;
    RowAnswerIs(dev, l, batch, i + 1, ack);
    RowAnswerIs(dev, n, batch[1..], i, ack);
    BeforeLater(dev, l, batch, i);
    BeforeLater(dev, l, batch, i + 1);
    assert batch[1..][i] == batch[i + 1];
  }
}
