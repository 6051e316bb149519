/** What Sync does for the backlog, whatever the responses carry: a round in which the
    response arrives and every envelope of it is received acknowledges the next
    hundred rows, any other round acknowledges nothing. */
module SyncDraining {
  import opened Wrappers
  import opened Envelopes
  import opened SyncState
  import opened SyncInbound
  import opened SyncServer
  import opened SyncTransport
  import opened SyncOutbound
  import opened SyncRuns
  import SC = SyncClient

  /** One call of Sync: its response is lost, or it arrives with some envelopes, whose
      writes succeed or fail, and the final save succeeds or fails. */
  datatype Round = Lost | Answered(inbound: seq<Envelope>, cursor: string, ios: seq<Io>, save: bool)

  predicate Sendable(r: Round) {
    r.Answered? ==> |r.ios| == |r.inbound| <= 100 && |r.cursor| <= CURSOR_LIMIT
  }

  predicate AllSendable(rounds: seq<Round>) { forall i | 0 <= i < |rounds| :: Sendable(rounds[i]) }

  /** The request is sent and served. */
  ghost function Served(cfg: Config, s: Sys, fault: Fault): Sys
    requires s.client.Some?
  {
    Next(cfg, Next(cfg, s, Sends), Serves(Sent(s), fault))
  }

  /** The envelopes of a response are received one by one, up to the first failure. */
  ghost function Receiving(cfg: Config, s: Sys, inbound: seq<Envelope>, ios: seq<Io>): (Sys, bool)
    requires s.client.Some? && |ios| == |inbound|
    ensures Receiving(cfg, s, inbound, ios).0.client.Some?
    decreases |inbound|
  {
    if inbound == [] then (s, true)
    else
      var a := Receives(inbound[0], ios[0]);
      var t := Next(cfg, s, a);
      if SC.Fine(Receive(Session(cfg, s), s.client.value, s.disk, a.e, a.io).verdict)
      then Receiving(cfg, t, inbound[1..], ios[1..]) else (t, false)
  }

  ghost function Acks(cfg: Config, s: Sys): seq<Ack>
    requires s.client.Some?
  {
    var acks := ServeAll(DeviceOf(cfg), s.ledger, Sent(s).batch).acks;
    if acks.Some? then acks.value else []
  }

  /** A round is a run of steps of the system. */
  ghost function After(cfg: Config, s: Sys, r: Round): Sys
    requires s.client.Some? && Sendable(r) && cfg.prims.Lawful() && Inv(cfg, s)
  {
    match r
    case Lost => Served(cfg, s, Lose)
    case Answered(inbound, _, ios, save) =>
      var t := Served(cfg, s, Deliver);
      ServedKeeps(cfg, s, Deliver);
      var (u, ok) := Receiving(cfg, t, inbound, ios);
      if !ok then u
      else
        ReceivingKeeps(cfg, t, inbound, ios);
        Next(cfg, u, Applies(Reply(Sent(s), Acks(cfg, s)), save))
  }

  /** The response is not lost and everything in it is received. */
  ghost predicate Useful(cfg: Config, s: Sys, r: Round)
    requires s.client.Some? && Sendable(r)
  {
    r.Answered? && SC.ReceiveAll(Session(cfg, s), s.client.value, s.disk, r.inbound, r.ios).ok
  }

  // ---------------------------------------------------------------- one round

  lemma ServedKeeps(cfg: Config, s: Sys, fault: Fault)
    requires Inv(cfg, s) && s.client.Some? && cfg.prims.Lawful()
    ensures var t := Served(cfg, s, fault);
      && Inv(cfg, t) && t.client == s.client && t.disk == s.disk && t.keys == s.keys
      && (fault == Deliver ==> Reply(Sent(s), Acks(cfg, s)) in t.replies)
      && ServeAll(DeviceOf(cfg), s.ledger, Sent(s).batch).acks.Some?
  {
    hide Inv, ServeAll, Sent;
    assert Enabled(s, Sends);
    SendNext(cfg, s, Sends);
    StepKeeps(cfg, s, Sends);
    var t := Next(cfg, s, Sends);
    assert Sent(s) in t.sent;
    SyncRuns.ServeStep(cfg, t, Serves(Sent(s), fault));
    SyncRuns.ServeNext(cfg, t, Serves(Sent(s), fault));
  }

  /** Receiving as steps is the loop of Sync, and moves no counter of the producer. */
  lemma {:induction false} ReceivingKeeps(cfg: Config, s: Sys, inbound: seq<Envelope>, ios: seq<Io>)
    requires Inv(cfg, s) && s.client.Some? && |ios| == |inbound|
    ensures var (t, ok) := Receiving(cfg, s, inbound, ios);
      var r := SC.ReceiveAll(Session(cfg, s), s.client.value, s.disk, inbound, ios);
      && Inv(cfg, t) && t.client == Some(r.memory) && t.disk == r.disk && ok == r.ok
      && t.replies == s.replies && t.disk.outbox == s.disk.outbox
      && t.client.value.state.acked == s.client.value.state.acked && t.keys == s.keys
    decreases |inbound|
  {
    hide *;
    ReceivingCases(cfg, s, inbound, ios);
    if inbound != [] {
      var a := Receives(inbound[0], ios[0]);
      ReceiveStep(cfg, s, a);
      ReceiveNext(cfg, s, a);
      ReceiveCounters(Session(cfg, s), s.client.value, s.disk, a.e, a.io);
      var t := Next(cfg, s, a);
      SameSession(cfg, s, t);
      if SC.Fine(Receive(Session(cfg, s), s.client.value, s.disk, a.e, a.io).verdict) {
        ReceivingKeeps(cfg, t, inbound[1..], ios[1..]);
      }
    }
  }

  lemma ReceivingCases(cfg: Config, s: Sys, inbound: seq<Envelope>, ios: seq<Io>)
    requires s.client.Some? && |ios| == |inbound|
    ensures var m := s.client.value;
      if inbound == [] then
        && Receiving(cfg, s, inbound, ios) == (s, true)
        && SC.ReceiveAll(Session(cfg, s), m, s.disk, inbound, ios) == SC.Synced(m, s.disk, true)
      else
        var a := Receives(inbound[0], ios[0]);
        var r := Receive(Session(cfg, s), m, s.disk, a.e, a.io);
        && Enabled(s, a) && Next(cfg, s, a).client.Some?
        && Receiving(cfg, s, inbound, ios)
           == (if SC.Fine(r.verdict) then Receiving(cfg, Next(cfg, s, a), inbound[1..], ios[1..])
               else (Next(cfg, s, a), false))
        && SC.ReceiveAll(Session(cfg, s), m, s.disk, inbound, ios)
           == (if SC.Fine(r.verdict) then SC.ReceiveAll(Session(cfg, s), r.memory, r.disk, inbound[1..], ios[1..])
               else SC.Synced(r.memory, r.disk, false))
  {
    if inbound != [] { ReceiveNext(cfg, s, Receives(inbound[0], ios[0])); }
    hide Receive, Next, SC.Fine, Session;
  }

  /** The acknowledgements of a fully served batch amount to its last row. */
  lemma FullBatchAcked(rows: seq<Envelope>, a: nat, b: nat, acks: seq<Ack>)
    requires Outbox(rows) && a <= b <= |rows| && |acks| == b - a
    requires forall i | 0 <= i < b - a :: AckOf(acks[i], rows[a + i]) && acks[i].outcome in {Accepted, Duplicate}
    ensures Exchanged(Reply(Request(a, rows[a..b], |rows|), acks)) == Some(b)
  {
    hide Settle;
    var batch := rows[a..b];
    forall i | 0 <= i < |acks| ensures Matches(batch, acks[i]) {
      ExpectedAt(batch, a, i);
      assert batch[i] == rows[a + i];
    }
    assert forall i | 0 <= i < b - a :: acks[i].seqno == a + i + 1;
    var acked := AckedSet(acks);
    assert forall n | a < n <= b :: n in acked by {
      forall n | a < n <= b ensures n in acked { assert acks[n - a - 1].seqno == n; }
    }
    SettleRun(a, b, acked);
  }

  lemma {:induction false} ExpectedAt(batch: seq<Envelope>, a: nat, i: nat)
    requires i < |batch| && forall k | 0 <= k < |batch| :: batch[k].seqno == a + k + 1
    ensures Expected(batch, a + i + 1) == Some(batch[i])
  {
    if i < |batch| - 1 { ExpectedAt(batch[..|batch| - 1], a, i); }
  }

  lemma SettleRun(a: nat, b: nat, acked: set<nat>)
    requires a <= b && (forall n | a < n <= b :: n in acked) && (forall n | n in acked :: a < n <= b)
    ensures Settle(Stream(a, acked)).last == b
  {
    var s := Stream(a, acked);
    SettleKeeps(s);
    hide Settle;
    var k := Settle(s).last;
    assert Reserves(Settle(s), k) <==> Reserves(s, k);
    assert Reserves(Settle(s), k + 1) <==> Reserves(s, k + 1);
  }

  lemma ServedFully(cfg: Config, s: Sys)
    requires Producer(cfg, s) && Ledgers(s) && s.client.Some? && Honest(s, Sent(s))
    ensures Sent(s).last == |s.disk.outbox| && Sent(s).base == s.client.value.state.acked <= |s.disk.outbox|
    ensures var acks := ServeAll(DeviceOf(cfg), s.ledger, Sent(s).batch).acks;
      acks.Some? && Exchanged(Reply(Sent(s), acks.value)) == Some(s.client.value.state.acked + |Sent(s).batch|)
  {
    SentIsHonest(cfg, s);
    hide Sent, ServeAll, Records, Deliverable, Outbox, Exchanged, AckOf;
    var rows, a := s.disk.outbox, s.client.value.state.acked;
    assert Sent(s).base == a by { SentBase(s); }
    var b := a + |Sent(s).batch|;
    assert forall i | 0 <= i < |rows| :: Signed(cfg, rows[i]);
    HonestNeverRefused(DeviceOf(cfg), s.ledger, rows, s.ledger.frontier, a, b);
    var acks := ServeAll(DeviceOf(cfg), s.ledger, rows[a..b]).acks.value;
    FullBatchAcked(rows, a, b, acks);
    assert Sent(s) == Request(a, rows[a..b], |rows|);
  }

  lemma SentBase(s: Sys)
    requires s.client.Some?
    ensures Sent(s).base == s.client.value.state.acked
  {}

  /** A useful round acknowledges the next hundred rows, or all that are left, whether or
      not the final save succeeds; a useless one acknowledges nothing. */
  lemma SyncAdvances(cfg: Config, s: Sys, r: Round)
    requires Inv(cfg, s) && s.client.Some? && Sendable(r) && cfg.prims.Lawful()
    ensures var t := After(cfg, s, r);
      var acked, n := s.client.value.state.acked, |s.disk.outbox|;
      && Inv(cfg, t) && t.client.Some? && t.disk.outbox == s.disk.outbox
      && t.client.value.state.acked ==
           if !Useful(cfg, s, r) then acked else if n - acked > BATCH_LIMIT then acked + BATCH_LIMIT else n
  {
    hide *;
    AfterIs(cfg, s, r);
    ServedKeeps(cfg, s, if r.Lost? then Lose else Deliver);
    var t := Served(cfg, s, if r.Lost? then Lose else Deliver);
    SameSession(cfg, s, t);
    UsefulIs(cfg, s, r);
    if r.Answered? {
      ReceivingKeeps(cfg, t, r.inbound, r.ios);
      var (u, ok) := Receiving(cfg, t, r.inbound, r.ios);
      if ok {
        InvParts(cfg, s);
        SentIsHonest(cfg, s);
        ServedFully(cfg, s);
        AcksAre(cfg, s);
        BacklogLeft(cfg, s);
        SentLength(s);
        var p := Reply(Sent(s), Acks(cfg, s));
        ApplyEnabled(u, p, r.save);
        StepKeeps(cfg, u, Applies(p, r.save));
        Applied(cfg, u, p, r.save);
      }
    }
  }

  lemma AfterIs(cfg: Config, s: Sys, r: Round)
    requires Inv(cfg, s) && s.client.Some? && Sendable(r) && cfg.prims.Lawful()
    ensures r.Lost? ==> After(cfg, s, r) == Served(cfg, s, Lose)
    ensures r.Answered? ==>
      && |r.ios| == |r.inbound| && Served(cfg, s, Deliver).client.Some?
      && var (u, ok) := Receiving(cfg, Served(cfg, s, Deliver), r.inbound, r.ios);
         var a := Applies(Reply(Sent(s), Acks(cfg, s)), r.save);
         if ok then Enabled(u, a) && After(cfg, s, r) == Next(cfg, u, a) else After(cfg, s, r) == u
  {
    hide Inv, Served, Receiving, Next, Acks, Sent, Session, SC.ReceiveAll;
    if r.Answered? {
      ServedKeeps(cfg, s, Deliver);
      ReceivingKeeps(cfg, Served(cfg, s, Deliver), r.inbound, r.ios);
    }
  }

  lemma SameSession(cfg: Config, s: Sys, t: Sys)
    requires t.keys == s.keys
    ensures Session(cfg, t) == Session(cfg, s)
  {}

  lemma UsefulIs(cfg: Config, s: Sys, r: Round)
    requires s.client.Some? && Sendable(r)
    ensures r.Answered? ==> |r.ios| == |r.inbound|
    ensures Useful(cfg, s, r)
        <==> r.Answered? && SC.ReceiveAll(Session(cfg, s), s.client.value, s.disk, r.inbound, r.ios).ok
  {
    hide SC.ReceiveAll;
  }

  lemma AcksAre(cfg: Config, s: Sys)
    requires s.client.Some?
    ensures var acks := ServeAll(DeviceOf(cfg), s.ledger, Sent(s).batch).acks; acks.Some? ==> Acks(cfg, s) == acks.value
  {
    hide ServeAll, Sent;
  }

  lemma ApplyEnabled(u: Sys, p: Reply, save: bool)
    requires u.client.Some? && p in u.replies
    ensures Enabled(u, Applies(p, save))
  {}

  lemma Applied(cfg: Config, u: Sys, p: Reply, save: bool)
    requires Enabled(u, Applies(p, save)) && u.client.Some?
    requires Exchanged(p) == Some(u.client.value.state.acked + |p.request.batch|)
    requires u.client.value.state.acked + |p.request.batch| <= p.request.last
    ensures var t := Next(cfg, u, Applies(p, save));
      t.client.Some? && t.disk.outbox == u.disk.outbox
          && t.client.value.state.acked == u.client.value.state.acked + |p.request.batch|
  {
    hide Exchanged;
  }

  /** And it is the Sync of the client: same memory, same disk. */
  lemma RoundIsSync(cfg: Config, s: Sys, r: Round)
    requires Inv(cfg, s) && s.client.Some? && Sendable(r) && cfg.prims.Lawful()
    ensures var t, acked := After(cfg, s, r), s.client.value.state.acked;
      var out := if r.Lost? then None else Some(ExchangeResponse(1, Acks(cfg, s), r.inbound, r.cursor));
      var ios, save := if r.Lost? then [] else r.ios, r.Answered? && r.save;
      var end := SC.SyncOnce(Session(cfg, s), s.client.value, s.disk, acked, out, ios, save);
      t.client == Some(end.memory) && t.disk == end.disk
  {
    hide *;
    AfterIs(cfg, s, r);
    ServedKeeps(cfg, s, if r.Lost? then Lose else Deliver);
    if r.Answered? {
      var t := Served(cfg, s, Deliver);
      SameSession(cfg, s, t);
      ReceivingKeeps(cfg, t, r.inbound, r.ios);
      InvParts(cfg, s);
      SentIsHonest(cfg, s);
      ServedFully(cfg, s);
      AcksAre(cfg, s);
      BacklogLeft(cfg, s);
      SentLength(s);
      SendableIs(r);
      var (u, ok) := Receiving(cfg, t, r.inbound, r.ios);
      SyncIs(cfg, s, r, u);
    } else {
      LostSync(cfg, s);
    }
  }

  lemma SentLength(s: Sys)
    requires s.client.Some? && s.client.value.state.acked <= |s.disk.outbox|
    requires var acked, n := s.client.value.state.acked, |s.disk.outbox|;
      Sent(s).batch == s.disk.outbox[acked..if n - acked > BATCH_LIMIT then acked + BATCH_LIMIT else n]
    ensures var acked, n := s.client.value.state.acked, |s.disk.outbox|;
      acked + |Sent(s).batch| == if n - acked > BATCH_LIMIT then acked + BATCH_LIMIT else n
  {
    hide Sent;
  }

  lemma SendableIs(r: Round)
    requires Sendable(r) && r.Answered?
    ensures |r.ios| == |r.inbound| <= 100 && |r.cursor| <= CURSOR_LIMIT
  {}

  lemma LostSync(cfg: Config, s: Sys)
    requires s.client.Some?
    ensures var m := s.client.value;
      SC.SyncOnce(Session(cfg, s), m, s.disk, m.state.acked, None, [], false) == SC.Synced(m, s.disk, false)
  {
    hide Pending;
  }

  lemma SyncIs(cfg: Config, s: Sys, r: Round, u: Sys)
    requires s.client.Some? && r.Answered? && |r.ios| == |r.inbound| <= 100 && |r.cursor| <= CURSOR_LIMIT
    requires var p := Reply(Sent(s), Acks(cfg, s));
      Exchanged(p) == Some(s.client.value.state.acked + |Sent(s).batch|)
          && s.client.value.state.acked + |Sent(s).batch| <= Sent(s).last
    requires var b := SC.ReceiveAll(Session(cfg, s), s.client.value, s.disk, r.inbound, r.ios);
      u.client == Some(b.memory) && u.disk == b.disk
    ensures var acked, p := s.client.value.state.acked, Reply(Sent(s), Acks(cfg, s));
      var b := SC.ReceiveAll(Session(cfg, s), s.client.value, s.disk, r.inbound, r.ios);
      var out := ExchangeResponse(1, Acks(cfg, s), r.inbound, r.cursor);
      var end := SC.SyncOnce(Session(cfg, s), s.client.value, s.disk, acked, Some(out), r.ios, r.save);
      && (!b.ok ==> u.client == Some(end.memory) && u.disk == end.disk)
      && (b.ok && Enabled(u, Applies(p, r.save)) ==>
            Next(cfg, u, Applies(p, r.save)).client == Some(end.memory)
                && Next(cfg, u, Applies(p, r.save)).disk == end.disk)
  {
    hide SC.ReceiveAll, Pending, AllMatch, Settle, Acks;
  }

  // ---------------------------------------------------------------- many rounds

  lemma SendableFirst(rounds: seq<Round>)
    requires AllSendable(rounds) && rounds != []
    ensures Sendable(rounds[0]) && AllSendable(rounds[1..])
  {
    hide Sendable;
  }

  ghost function AfterAll(cfg: Config, s: Sys, rounds: seq<Round>): Sys
    requires Inv(cfg, s) && s.client.Some? && cfg.prims.Lawful() && AllSendable(rounds)
    ensures AfterAll(cfg, s, rounds).client.Some?
    decreases |rounds|
  {
    hide *;
    if rounds == [] then s
    else
      SendableFirst(rounds);
      SyncAdvances(cfg, s, rounds[0]);
      AfterAll(cfg, After(cfg, s, rounds[0]), rounds[1..])
  }

  /** How many of the rounds were useful when their turn came. */
  ghost function UsefulRounds(cfg: Config, s: Sys, rounds: seq<Round>): nat
    requires Inv(cfg, s) && s.client.Some? && cfg.prims.Lawful() && AllSendable(rounds)
    decreases |rounds|
  {
    hide *;
    if rounds == [] then 0
    else
      SendableFirst(rounds);
      SyncAdvances(cfg, s, rounds[0]);
      (if Useful(cfg, s, rounds[0]) then 1 else 0) + UsefulRounds(cfg, After(cfg, s, rounds[0]), rounds[1..])
  }

  /** Whatever the responses bring and whichever are lost, the acknowledgement is a
      hundred rows further for every useful round, and the backlog is drained as
      soon as there were enough of them. */
  lemma {:induction false} BacklogDrains(cfg: Config, s: Sys, rounds: seq<Round>)
    requires Inv(cfg, s) && s.client.Some? && cfg.prims.Lawful() && AllSendable(rounds)
    ensures var acked, n := s.client.value.state.acked, |s.disk.outbox|;
      var reached := acked + BATCH_LIMIT * UsefulRounds(cfg, s, rounds);
      && AfterAll(cfg, s, rounds).disk.outbox == s.disk.outbox
      && AfterAll(cfg, s, rounds).client.value.state.acked == if reached < n then reached else n
    decreases |rounds|
  {
    hide *;
    BacklogLeft(cfg, s);
    AllAfterIs(cfg, s, rounds);
    Limit();
    if rounds != [] {
      SendableFirst(rounds);
      SyncAdvances(cfg, s, rounds[0]);
      BacklogDrains(cfg, After(cfg, s, rounds[0]), rounds[1..]);
    }
  }

  lemma Limit()
    ensures BATCH_LIMIT == 100
  {}

  lemma BacklogLeft(cfg: Config, s: Sys)
    requires Inv(cfg, s) && s.client.Some?
    ensures s.client.value.state.acked <= |s.disk.outbox|
  {
    hide *;
    InvParts(cfg, s);
    TracksMeans(cfg, s);
  }

  lemma TracksMeans(cfg: Config, s: Sys)
    requires Producer(cfg, s) && s.client.Some?
    ensures s.client.value.state.acked <= |s.disk.outbox|
  {
    hide OutboxInv;
  }

  predicate Blocked(cfg: Config, r: Round) { r.Answered? ==> r.inbound != [] && r.inbound[0].tenant != cfg.tenant }

  predicate AllBlocked(cfg: Config, rounds: seq<Round>) { forall i | 0 <= i < |rounds| :: Blocked(cfg, rounds[i]) }

  lemma BlockedFirst(cfg: Config, rounds: seq<Round>)
    requires AllBlocked(cfg, rounds) && rounds != []
    ensures Blocked(cfg, rounds[0]) && AllBlocked(cfg, rounds[1..])
  {
    hide Blocked;
  }

  /** A response with an envelope of another tenant in front is never useful: as long as
      the server sends it, nothing is acknowledged. */
  lemma {:induction false} StrangerBlocks(cfg: Config, s: Sys, rounds: seq<Round>)
    requires Inv(cfg, s) && s.client.Some? && cfg.prims.Lawful() && AllSendable(rounds)
    requires AllBlocked(cfg, rounds)
    ensures AfterAll(cfg, s, rounds).client.value.state.acked == s.client.value.state.acked
    decreases |rounds|
  {
    hide *;
    AllAfterIs(cfg, s, rounds);
    if rounds != [] {
      SendableFirst(rounds);
      BlockedFirst(cfg, rounds);
      SyncAdvances(cfg, s, rounds[0]);
      StrangerUseless(cfg, s, rounds[0]);
      StrangerBlocks(cfg, After(cfg, s, rounds[0]), rounds[1..]);
    }
  }

  lemma AllAfterIs(cfg: Config, s: Sys, rounds: seq<Round>)
    requires Inv(cfg, s) && s.client.Some? && cfg.prims.Lawful() && AllSendable(rounds)
    ensures rounds == [] ==> AfterAll(cfg, s, rounds) == s && UsefulRounds(cfg, s, rounds) == 0
    ensures rounds != [] ==>
      && Sendable(rounds[0]) && AllSendable(rounds[1..])
      && var t := After(cfg, s, rounds[0]);
      && Inv(cfg, t) && t.client.Some? && AfterAll(cfg, s, rounds) == AfterAll(cfg, t, rounds[1..])
      && UsefulRounds(cfg, s, rounds)
         == (if Useful(cfg, s, rounds[0]) then 1 else 0) + UsefulRounds(cfg, t, rounds[1..])
  {
    hide Inv, After, Useful, Sendable, AllSendable;
    if rounds != [] {
      SendableFirst(rounds);
      SyncAdvances(cfg, s, rounds[0]);
    }
  }

  lemma StrangerUseless(cfg: Config, s: Sys, r: Round)
    requires s.client.Some? && Sendable(r) && Blocked(cfg, r)
    ensures !Useful(cfg, s, r)
  {
    hide Verify;
  }
}
