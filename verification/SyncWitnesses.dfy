/** Concrete runs of the sync protocol: two that end on a disk Open refuses, and one
    whose backlog a refused envelope keeps where it is. */
module SyncWitnesses {
  import opened Wrappers
  import opened Envelopes
  import opened SyncState
  import opened SyncServer
  import opened SyncOutbound
  import opened SyncRuns
  import opened SyncTheorems
  import opened SyncTransport
  import SyncDraining
  import SC = SyncClient
  import CanonicalJson

  // ---------------------------------------------------------------- a client that locks itself out

  lemma StartReachable(cfg: Config)
    ensures Reachable(cfg, START)
  {
    assert Run(cfg, [START], []);
  }

  lemma StepReachable(cfg: Config, s: Sys, a: Action)
    requires Reachable(cfg, s) && Enabled(s, a)
    ensures Reachable(cfg, Next(cfg, s, a))
  {
    hide Next, Enabled;
    var states, actions :| Run(cfg, states, actions) && states[|actions|] == s;
    var longer, more := states + [Next(cfg, s, a)], actions + [a];
    forall i | 0 <= i < |more| ensures Enabled(longer[i], more[i]) && longer[i + 1] == Next(cfg, longer[i], more[i]) {
      if i < |actions| { assert Enabled(states[i], actions[i]); }
    }
    assert Run(cfg, longer, more) && longer[|more|] == Next(cfg, s, a);
  }

  /** Any lawful primitives that accept one payload will do: what matters is that
      the producer version is empty. */
  function Nameless(prims: Primitives): Config {
    Config("t", "p", "", "k", "", map[], Cursor(0, [], [], 1, 1, 0), prims)
  }

  /** A client configured without a producer version opens, enqueues one row, and
      from then on no Open accepts its directory again, under any keys. */
  lemma EmptyProducerVersionLocksOut(prims: Primitives, kind: string, payload: CanonicalJson.Json) returns (s: Sys)
    requires prims.Lawful() && prims.payloadOk(kind, payload) && CanonicalJson.Encodable(payload)
    ensures Reachable(Nameless(prims), s) && s.client.Some? && |s.disk.outbox| == 1
    ensures forall keys :: !OpenOk(Nameless(prims).(trusted := keys), s.disk)
  {
    hide *;
    var cfg := Nameless(prims);
    NamelessFields(prims);
    StartReachable(cfg);
    FirstOpen(cfg);
    StepReachable(cfg, START, Opens(map[], true));
    var ready := Next(cfg, START, Opens(map[], true));
    FirstEnqueue(cfg, ready, kind, payload);
    var enqueues := FirstRow(kind, payload);
    StepReachable(cfg, ready, enqueues);
    s := Next(cfg, ready, enqueues);
    forall keys ensures !OpenOk(cfg.(trusted := keys), s.disk) { OpenRefusesExactly(cfg, s, keys); }
  }

  function FirstRow(kind: string, payload: CanonicalJson.Json): Action {
    Enqueues(kind, "x", payload, seq(26, _ => '0'), "now", Io(true, true, true))
  }

  lemma NamelessFields(prims: Primitives)
    ensures var cfg := Nameless(prims);
      && !ConfigFieldsOk(cfg) && cfg.prims == prims && cfg.tenant != "" && cfg.project != "" && cfg.keyId != ""
      && cfg.trusted == map[]
  {}

  /** Opening an empty directory. */
  lemma FirstOpen(cfg: Config)
    requires cfg.tenant != "" && cfg.project != "" && cfg.keyId != "" && cfg.trusted == map[]
    ensures Enabled(START, Opens(map[], true))
    ensures var s := Next(cfg, START, Opens(map[], true));
      && s.client.Some? && s.disk.outbox == [] && s.client.value.state.next == 1 && s.client.value.state.acked == 0
      && s.disk.inbox == map[]
  {
    assert cfg.(trusted := map[]) == cfg;
    assert START.disk.inbox.Values == {};
    assert OpenOk(cfg, START.disk);
    hide OpenOk;
    FirstCounters(cfg);
    hide Opened;
  }

  lemma FirstCounters(cfg: Config)
    ensures var m := Opened(cfg, Loaded(cfg, START.disk), START.disk.inbox); m.state.next == 1 && m.state.acked == 0
  {
    hide RebuiltStreams, Distrusted;
  }

  lemma FirstEnqueue(cfg: Config, s: Sys, kind: string, payload: CanonicalJson.Json)
    requires cfg.prims.payloadOk(kind, payload) && CanonicalJson.Encodable(payload)
    requires s.client.Some? && s.disk.outbox == [] && s.client.value.state.next == 1
    ensures Enabled(s, FirstRow(kind, payload))
    ensures var t := Next(cfg, s, FirstRow(kind, payload));
      t.client.Some? && |t.disk.outbox| == 1 && t.client.value.state.acked == s.client.value.state.acked
  {
    hide CanonicalJson.Encodable, CanonicalJson.Text, Canonical, Sign;
    var sc, m, a := Session(cfg, s), s.client.value, FirstRow(kind, payload);
    FirstSigned(sc, m.state, kind, payload, a.id);
    assert Enabled(s, a);
    assert |Enqueue(sc, m, s.disk, kind, "x", payload, a.id, "now", a.io).disk.outbox| == 1;
  }

  lemma FirstSigned(cfg: Config, st: State, kind: string, payload: CanonicalJson.Json, id: string)
    requires CanonicalJson.Encodable(payload) && st.next == 1
    ensures Sign(cfg.prims, Draft(cfg, st, kind, "x", payload, id, "now"), cfg.secret).Some?
  {
    DraftEncodable(Draft(cfg, st, kind, "x", payload, id, "now"));
    hide Canonical;
  }

  lemma DraftEncodable(e: Envelope)
    requires CanonicalJson.Encodable(e.payload) && e.schema == 1 && e.seqno == 1 && e.algorithm == ED25519
        && e.signature == ""
    ensures Canonical(e).Some?
  {
    hide CanonicalJson.Text;
    assert CanonicalJson.Encodable(IntegrityJson(e));
    assert CanonicalJson.Encodable(EnvelopeJson(e));
  }

  // ---------------------------------------------------------------- a key id that changes hands

  /** A signature scheme that only spells out what was signed, and by whom. */
  const ECHO := Primitives(
    (secret, text) => secret + text, (public, text, signature) => signature == public + text,
    secret => secret, signature => true, (kind, payload) => true)

  const HOME := Config("t", "p", "v", "k", "own", map[], Cursor(0, [], [], 1, 1, 0), ECHO)

  const UNSIGNED :=
    Envelope(1, "note", "t", "p", "00000000000000000000000000", 1, "now", "x", "v", CanonicalJson.Null, ED25519, "peer",
        "")

  const ONE: map<string, string> := map["peer" := "one"]
  const TWO: map<string, string> := map["peer" := "two"]

  const WORKS := Io(true, true, true)

  /** An envelope the peer signed under its first key. */
  ghost function Letter(): Envelope {
    var text := Canonical(UNSIGNED);
    UNSIGNED.(signature := "one" + if text.Some? then text.value else "")
  }

  /** A client that received one envelope and whose configuration then gives the same
      key id another key is refused its directory; with the old key, or with no key
      for that id at all, it is not. */
  lemma ReboundKeyRefused() returns (s: Sys)
    ensures Reachable(HOME, s) && |s.disk.inbox| == 1
    ensures OpenOk(HOME.(trusted := ONE), s.disk) && OpenOk(HOME.(trusted := map[]), s.disk)
    ensures !OpenOk(HOME.(trusted := TWO), s.disk)
  {
    hide *;
    StartReachable(HOME);
    FreshClient();
    StepReachable(HOME, START, Opens(ONE, true));
    var ready := Next(HOME, START, Opens(ONE, true));
    LetterArrives(ready);
    StepReachable(HOME, ready, Receives(Letter(), WORKS));
    s := Next(HOME, ready, Receives(Letter(), WORKS));
    HomeFields();
    LetterVerifies();
    KeysOf();
    OpenRefusesExactly(HOME, s, ONE);
    OpenRefusesExactly(HOME, s, TWO);
    OpenRefusesExactly(HOME, s, map[]);
  }

  lemma HomeFields()
    ensures HOME.prims.Lawful() && HOME.prims == ECHO && ConfigFieldsOk(HOME)
    ensures HOME.tenant != "" && HOME.project != "" && HOME.keyId != "" && HOME.trusted == map[]
  {}

  lemma KeysOf()
    ensures Letter().keyId == "peer" && Letter().id == UNSIGNED.id && "peer" in ONE && "peer" in TWO
  {
    hide Canonical;
  }

  lemma LetterVerifies()
    ensures Verify(ECHO, Letter(), ONE) && !Verify(ECHO, Letter(), TWO)
  {
    hide *;
    LetterSigned();
    var text := Canonical(UNSIGNED).value;
    EchoVerifies(Letter(), ONE, text);
    EchoVerifies(Letter(), TWO, text);
    TwoKeys(text);
  }

  lemma LetterSigned()
    ensures Canonical(UNSIGNED).Some? && Letter().(signature := "") == UNSIGNED
    ensures Letter().keyId == "peer" && Letter().algorithm == ED25519
        && Letter().signature == "one" + Canonical(UNSIGNED).value
  {
    DraftEncodable(UNSIGNED);
    hide Canonical;
  }

  lemma TwoKeys(text: string)
    ensures "peer" in ONE && "peer" in TWO && ONE["peer"] == "one" && TWO["peer"] == "two"
        && "one" + text != "two" + text
  {
    assert ("one" + text)[0] == 'o' && ("two" + text)[0] == 't';
  }

  lemma EchoVerifies(e: Envelope, keys: map<string, string>, text: string)
    requires e.algorithm == ED25519 && Canonical(e.(signature := "")) == Some(text)
    ensures Verify(ECHO, e, keys) <==> e.keyId in keys && e.signature == keys[e.keyId] + text
  {
    hide Canonical;
  }

  /** What Open makes of an empty directory. */
  lemma FreshClient()
    ensures Enabled(START, Opens(ONE, true))
    ensures var s := Next(HOME, START, Opens(ONE, true));
      && s.client.Some? && s.disk.outbox == [] && s.disk.inbox == map[] && s.keys == ONE
      && Blank(s.client.value)
  {
    var cfg := HOME.(trusted := ONE);
    assert START.disk.inbox.Values == {};
    assert OpenOk(cfg, START.disk);
    hide OpenOk;
    EmptyOpened(cfg);
  }

  /** Nothing was ever received. */
  ghost predicate Blank(m: Memory) {
    && m.byId == map[] && m.byKey == map[] && m.bySeq == map[] && m.heldIds == {} && m.heldKeys == {}
    && m.pending == map[] && !m.pendingSave && m.state.streams == map[] && m.state.untrusted == {}
    && m.state.cursor == Cursor(0, [], [], 1, 1, 0)
  }

  lemma EmptyOpened(cfg: Config)
    requires cfg == HOME.(trusted := ONE)
    ensures Blank(Opened(cfg, Loaded(cfg, START.disk), START.disk.inbox))
  {
    var none: map<string, Envelope> := map[];
    assert none.Values == {};
    assert KeySet({}) == {} && SeqSet({}) == {};
  }

  lemma LetterArrives(s: Sys)
    requires s.client.Some? && s.disk.outbox == [] && s.disk.inbox == map[] && s.keys == ONE && Blank(s.client.value)
    ensures Enabled(s, Receives(Letter(), WORKS))
    ensures var t := Next(HOME, s, Receives(Letter(), WORKS));
      t.disk.outbox == [] && t.disk.inbox == map[Letter().id := Letter()]
  {
    LetterIsFresh(s);
    hide Verify, Canonical, Letter, Classify, ApplyInbound;
    assert map[][Letter().id := Letter()] == map[Letter().id := Letter()];
  }

  lemma LetterIsFresh(s: Sys)
    requires s.client.Some? && s.keys == ONE && Blank(s.client.value)
    ensures Classify(Session(HOME, s), s.client.value, Letter()) == Fresh
  {
    hide *;
    LetterVerifies();
    LetterFields();
    SessionIs(s);
    FirstIsFresh(Session(HOME, s), s.client.value, Letter());
  }

  lemma SessionIs(s: Sys)
    requires s.keys == ONE
    ensures var cfg := Session(HOME, s);
        cfg.prims == ECHO && cfg.trusted == ONE && cfg.tenant == "t" && cfg.project == "p"
  {}

  lemma LetterFields()
    ensures var e := Letter(); e.tenant == "t" && e.project == "p" && e.schema == 1 && e.seqno == 1
    ensures ValidFields(Letter()) && ECHO.payloadOk(Letter().kind, Letter().payload)
  {
    hide Canonical;
  }

  /** The first envelope of all, if it is in order. */
  lemma FirstIsFresh(cfg: Config, m: Memory, e: Envelope)
    requires Blank(m) && e.tenant == cfg.tenant && e.project == cfg.project && Verify(cfg.prims, e, cfg.trusted)
    requires e.schema == 1 && e.seqno == 1 && ValidFields(e) && cfg.prims.payloadOk(e.kind, e.payload)
    ensures Classify(cfg, m, e) == Fresh
  {
    hide Verify, ValidFields;
  }

  // ---------------------------------------------------------------- a backlog that does not move

  /** An envelope of another tenant, and the two responses with it and without it. */
  const STRANGER := UNSIGNED.(tenant := "u")
  const STRANGE := SyncDraining.Answered([STRANGER], "", [WORKS], true)
  const PLAIN := SyncDraining.Answered([], "", [], true)

  /** One row is waiting. A response that opens with the stranger leaves it waiting,
      however well everything else goes, and one without acknowledges it. */
  lemma StrangerKeepsBacklog() returns (s: Sys)
    ensures HOME.prims.Lawful() && Reachable(HOME, s) && Inv(HOME, s) && SyncDraining.Sendable(STRANGE)
        && SyncDraining.Sendable(PLAIN)
    ensures s.client.Some? && |s.disk.outbox| == 1 && s.client.value.state.acked == 0
    ensures var t := SyncDraining.After(HOME, s, STRANGE); t.client.Some? && t.client.value.state.acked == 0
    ensures var t := SyncDraining.After(HOME, s, PLAIN); t.client.Some? && t.client.value.state.acked == 1
  {
    hide *;
    HomeFields();
    StartReachable(HOME);
    FirstOpen(HOME);
    StepReachable(HOME, START, Opens(map[], true));
    var ready := Next(HOME, START, Opens(map[], true));
    NotePayload();
    FirstEnqueue(HOME, ready, "note", CanonicalJson.Null);
    StepReachable(HOME, ready, FirstRow("note", CanonicalJson.Null));
    s := Next(HOME, ready, FirstRow("note", CanonicalJson.Null));
    ReachableInv(HOME, s);
    Responses(s);
    SyncDraining.SyncAdvances(HOME, s, STRANGE);
    SyncDraining.SyncAdvances(HOME, s, PLAIN);
    SyncDraining.StrangerUseless(HOME, s, STRANGE);
    SyncDraining.Limit();
  }

  lemma NotePayload()
    ensures HOME.prims.payloadOk("note", CanonicalJson.Null) && CanonicalJson.Encodable(CanonicalJson.Null)
  {}

  lemma Responses(s: Sys)
    requires s.client.Some?
    ensures SyncDraining.Sendable(STRANGE) && SyncDraining.Sendable(PLAIN) && SyncDraining.Blocked(HOME, STRANGE)
    ensures SyncDraining.Useful(HOME, s, PLAIN)
  {}
}
