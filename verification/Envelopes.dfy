/** Signed control-plane envelopes: their canonical text, Sign, Verify and the
    required v1 fields (internal/cloudsync/client.go). */
module Envelopes {
  import opened Wrappers
  import opened CanonicalJson

  datatype Envelope = Envelope(
    schema: int, kind: string, tenant: string, project: string, id: string, seqno: nat,
    occurred: string, key: string, producer: string, payload: Json,
    algorithm: string, keyId: string, signature: string)

  const MAX_SEQUENCE: nat := 9007199254740991
  const ZERO_TIME := "0001-01-01T00:00:00Z"
  const ED25519 := "Ed25519"

  /** The library calls the protocol leans on. `verifies` also says that public
      key and signature decode to the right sizes, `payloadOk` is the payload
      allowlist. Only the law below is ever assumed of them. */
  datatype Primitives = Primitives(
    sign: (string, string) -> string,
    verifies: (string, string, string) -> bool,
    public: string -> string,
    wellFormed: string -> bool,
    payloadOk: (string, Json) -> bool)
  {
    /** What Sign produces under a secret key, Verify accepts under its public key. */
    ghost predicate Lawful() {
      forall secret, text :: verifies(public(secret), text, sign(secret, text)) && wellFormed(sign(secret, text))
    }

    /** A signature fits one text only. */
    ghost predicate Binding() {
      forall key, signature, a, b | verifies(key, a, signature) && verifies(key, b, signature) :: a == b
    }
  }

  function IntegrityJson(e: Envelope): Json {
    Obj(map["algorithm" := Str(e.algorithm), "key_id" := Str(e.keyId), "signature" := Str(e.signature)])
  }

  function EnvelopeJson(e: Envelope): Json {
    Obj(map["schema_version" := Int(e.schema), "event_type" := Str(e.kind), "tenant_id" := Str(e.tenant),
            "project_id" := Str(e.project), "event_id" := Str(e.id), "producer_sequence" := Int(e.seqno),
            "occurred_at" := Str(e.occurred), "idempotency_key" := Str(e.key), "producer_version" := Str(e.producer),
            "payload" := e.payload, "integrity" := IntegrityJson(e)])
  }

  /** canonicalEnvelope. */
  ghost function Canonical(e: Envelope): Option<string> {
    var v := EnvelopeJson(e);
    if Encodable(v) then Some(Text(v)) else None
  }

  predicate HasField(v: Json, key: string, field: Json) { v.Obj? && key in v.fields && v.fields[key] == field }

  lemma EnvelopeNumbers(e: Envelope)
    ensures var v := EnvelopeJson(e);
        HasField(v, "schema_version", Int(e.schema)) && HasField(v, "producer_sequence", Int(e.seqno))
        && HasField(v, "payload", e.payload)
    ensures var v := EnvelopeJson(e);
        HasField(v, "integrity", IntegrityJson(e)) && HasField(v, "event_type", Str(e.kind))
  {
    hide IntegrityJson;
  }

  lemma EnvelopeNames(e: Envelope)
    ensures var v := EnvelopeJson(e);
        HasField(v, "tenant_id", Str(e.tenant)) && HasField(v, "project_id", Str(e.project))
        && HasField(v, "event_id", Str(e.id))
    ensures var v := EnvelopeJson(e);
        HasField(v, "occurred_at", Str(e.occurred)) && HasField(v, "idempotency_key", Str(e.key))
        && HasField(v, "producer_version", Str(e.producer))
  {
    hide IntegrityJson;
  }

  /** What is signed is one object with these members and no others. */
  lemma SignedMembers(e: Envelope)
    ensures EnvelopeJson(e).Obj? && EnvelopeJson(e).fields.Keys == {
      "schema_version", "event_type", "tenant_id", "project_id", "event_id", "producer_sequence", "occurred_at",
      "idempotency_key", "producer_version", "payload", "integrity"}
    ensures IntegrityJson(e) == Obj(map["algorithm" := Str(e.algorithm), "key_id" := Str(e.keyId),
                                        "signature" := Str(e.signature)])
    ensures var fields := EnvelopeJson(e).fields;
      && fields["schema_version"] == Int(e.schema) && fields["event_type"] == Str(e.kind)
      && fields["tenant_id"] == Str(e.tenant) && fields["project_id"] == Str(e.project)
      && fields["event_id"] == Str(e.id) && fields["producer_sequence"] == Int(e.seqno)
      && fields["occurred_at"] == Str(e.occurred) && fields["idempotency_key"] == Str(e.key)
      && fields["producer_version"] == Str(e.producer) && fields["payload"] == e.payload
      && fields["integrity"] == IntegrityJson(e)
  {
    EnvelopeNumbers(e);
    EnvelopeNames(e);
  }

  lemma FieldOne(v: Json, key: string, a: Json, b: Json)
    requires HasField(v, key, a) && HasField(v, key, b)
    ensures a == b
  {}

  lemma EnvelopeJsonInjective(e: Envelope, f: Envelope)
    requires EnvelopeJson(e) == EnvelopeJson(f)
    ensures e == f
  {
    hide *;
    var v := EnvelopeJson(e);
    EnvelopeNumbers(e);
    EnvelopeNumbers(f);
    EnvelopeNames(e);
    EnvelopeNames(f);
    FieldOne(v, "schema_version", Int(e.schema), Int(f.schema));
    FieldOne(v, "producer_sequence", Int(e.seqno), Int(f.seqno));
    FieldOne(v, "payload", e.payload, f.payload);
    FieldOne(v, "integrity", IntegrityJson(e), IntegrityJson(f));
    FieldOne(v, "event_type", Str(e.kind), Str(f.kind));
    FieldOne(v, "tenant_id", Str(e.tenant), Str(f.tenant));
    FieldOne(v, "project_id", Str(e.project), Str(f.project));
    FieldOne(v, "event_id", Str(e.id), Str(f.id));
    FieldOne(v, "occurred_at", Str(e.occurred), Str(f.occurred));
    FieldOne(v, "idempotency_key", Str(e.key), Str(f.key));
    FieldOne(v, "producer_version", Str(e.producer), Str(f.producer));
    IntegrityJsonInjective(e, f);
  }

  lemma IntegrityJsonInjective(e: Envelope, f: Envelope)
    requires IntegrityJson(e) == IntegrityJson(f)
    ensures e.algorithm == f.algorithm && e.keyId == f.keyId && e.signature == f.signature
  {
    var a, b := IntegrityJson(e).fields, IntegrityJson(f).fields;
    assert a["algorithm"] == b["algorithm"] && a["key_id"] == b["key_id"] && a["signature"] == b["signature"];
  }

  /** Comparing canonical texts is comparing envelopes. The client model keeps
      the envelope wherever the Go client keeps its canonical text. */
  lemma CanonicalInjective(e: Envelope, f: Envelope)
    requires Canonical(e).Some? && Canonical(f).Some?
    ensures Canonical(e) == Canonical(f) <==> e == f
  {
    if Canonical(e) == Canonical(f) {
      TextInjective(EnvelopeJson(e), EnvelopeJson(f));
      hide Text, Encodable;
      EnvelopeJsonInjective(e, f);
    }
  }

  ghost function Sign(p: Primitives, e: Envelope, secret: string): Option<Envelope> {
    var unsigned := e.(algorithm := ED25519, signature := "");
    match Canonical(unsigned)
    case Some(text) => Some(unsigned.(signature := p.sign(secret, text)))
    case None => None
  }

  ghost predicate Verify(p: Primitives, e: Envelope, keys: map<string, string>) {
    && e.algorithm == ED25519
    && e.keyId in keys
    && p.wellFormed(e.signature)
    && Canonical(e.(signature := "")).Some?
    && p.verifies(keys[e.keyId], Canonical(e.(signature := "")).value, e.signature)
  }

  /** Whatever Sign produced, Verify accepts under the matching public key, and
      changing any field but the signature changes the text that was signed. */
  lemma SignVerifies(p: Primitives, e: Envelope, secret: string, keys: map<string, string>)
    requires p.Lawful() && Sign(p, e, secret).Some?
    requires e.keyId in keys && keys[e.keyId] == p.public(secret)
    ensures Verify(p, Sign(p, e, secret).value, keys)
    ensures forall f: Envelope | Canonical(f).Some?
        && Canonical(f) == Canonical(e.(algorithm := ED25519, signature := "")) ::
      f == e.(algorithm := ED25519, signature := "")
  {
    hide Canonical;
    var unsigned := e.(algorithm := ED25519, signature := "");
    var signed := Sign(p, e, secret).value;
    assert signed.(signature := "") == unsigned;
    forall f: Envelope | Canonical(f).Some? && Canonical(f) == Canonical(unsigned) ensures f == unsigned {
      CanonicalInjective(f, unsigned);
    }
  }

  /** A signature is good for one envelope: no field of a verified envelope can be changed
      under the signature it carries, and none verifies without a configured key. */
  lemma TamperedFails(p: Primitives, e: Envelope, f: Envelope, keys: map<string, string>)
    requires p.Binding() && Verify(p, e, keys) && f.signature == e.signature && f.keyId == e.keyId && f != e
    ensures !Verify(p, f, keys) && e.keyId in keys && e.algorithm == "Ed25519"
  {
    var a, b := e.(signature := ""), f.(signature := "");
    if Verify(p, f, keys) {
      assert Canonical(a) == Canonical(b) by {
        hide Canonical;
        var key := keys[e.keyId];
        assert p.verifies(key, Canonical(a).value, e.signature) && p.verifies(key, Canonical(b).value, e.signature);
      }
      CanonicalInjective(a, b);
      assert false;
    }
  }

  /** Writing the signature into an envelope does not change whether it can be
      written: a verified envelope has a canonical text of its own. */
  lemma VerifiedHasText(p: Primitives, e: Envelope, keys: map<string, string>)
    requires Verify(p, e, keys)
    ensures Canonical(e).Some?
  {
    hide *;
    VerifiedParts(p, e, keys);
    EncodableFields(e.(signature := ""));
    EncodableFields(e);
    CanonicalWhen(e.(signature := ""));
    CanonicalWhen(e);
  }

  lemma VerifiedParts(p: Primitives, e: Envelope, keys: map<string, string>)
    requires Verify(p, e, keys)
    ensures Canonical(e.(signature := "")).Some?
  {
    hide Canonical;
  }

  lemma CanonicalWhen(e: Envelope)
    ensures Canonical(e).Some? <==> Encodable(EnvelopeJson(e))
  {
    hide Text, Encodable, EnvelopeJson;
  }

  /** Only numbers and the payload can keep an envelope from being written. */
  lemma EncodableFields(e: Envelope)
    ensures Encodable(EnvelopeJson(e)) <==> Encodable(Int(e.schema)) && Encodable(Int(e.seqno)) && Encodable(e.payload)
  {
    EncodableIntegrity(e);
    hide IntegrityJson;
    var v := EnvelopeJson(e);
    assert v.fields["schema_version"] == Int(e.schema) && v.fields["producer_sequence"] == Int(e.seqno)
        && v.fields["payload"] == e.payload;
  }

  lemma EncodableIntegrity(e: Envelope)
    ensures Encodable(IntegrityJson(e))
  {}

  // ---------------------------------------------------------------- the code

  /** canonicalEnvelope, running the writer. */
  method CanonicalEnvelope(e: Envelope) returns (text: Option<string>)
    ensures text == Canonical(e)
  {
    hide Text, Encodable;
    text := CanonicalJson.Canonical(EnvelopeJson(e));
  }

  method SignEnvelope(p: Primitives, e: Envelope, secret: string) returns (signed: Option<Envelope>)
    ensures signed == Sign(p, e, secret)
  {
    hide Canonical;
    var unsigned := e.(algorithm := ED25519, signature := "");
    var text := CanonicalEnvelope(unsigned);
    if text.None? { return None; }
    return Some(unsigned.(signature := p.sign(secret, text.value)));
  }

  method VerifyEnvelope(p: Primitives, e: Envelope, keys: map<string, string>) returns (ok: bool)
    ensures ok <==> Verify(p, e, keys)
  {
    hide Canonical;
    if e.algorithm != ED25519 { return false; }
    if e.keyId !in keys || !p.wellFormed(e.signature) { return false; }
    var text := CanonicalEnvelope(e.(signature := ""));
    return text.Some? && p.verifies(keys[e.keyId], text.value, e.signature);
  }

  // ---------------------------------------------------------------- required fields

  predicate CrockfordChar(c: char) {
    '0' <= c <= '9' || ('A' <= c <= 'Z' && c != 'I' && c != 'L' && c != 'O' && c != 'U')
  }

  /** The alphabet of Crockford's base 32. */
  const CROCKFORD := "0123456789ABCDEFGHJKMNPQRSTVWXYZ"

  lemma CrockfordIs(c: char)
    ensures CrockfordChar(c) <==> c in CROCKFORD
  {
    assert CROCKFORD == "0123456789" + "ABCDEFGH" + "JK" + "MN" + "PQRST" + "VWXYZ";
    DigitIs(c);
    LetterIs(c);
  }

  lemma DigitIs(c: char)
    ensures '0' <= c <= '9' <==> c in "0123456789"
  {}

  lemma LetterIs(c: char)
    ensures ('A' <= c <= 'Z' && c != 'I' && c != 'L' && c != 'O' && c != 'U')
      <==> c in "ABCDEFGH" || c in "JK" || c in "MN" || c in "PQRST" || c in "VWXYZ"
  {}

  predicate ValidUlid(s: string) { |s| == 26 && forall i | 0 <= i < |s| :: CrockfordChar(s[i]) }

  /** validateEnvelopeFields; the bounds count characters. */
  predicate ValidFields(e: Envelope) {
    && 1 <= |e.tenant| <= 128 && 1 <= |e.project| <= 128
    && ValidUlid(e.id)
    && 1 <= e.seqno <= MAX_SEQUENCE
    && e.occurred != ZERO_TIME
    && 1 <= |e.key| <= 256
    && 1 <= |e.producer| <= 64
    && 1 <= |e.keyId| <= 128
  }
}
