/** What a reader of the event log can rely on: what a query returns, and what the
    integrity fields of an event file are good for (ListReport and parseEvent in
    internal/eventlog/eventlog.go). */
module EventMeaning {
  import opened Wrappers
  import opened EventRecords
  import opened EventLog
  import MarkdownDoc

  // ---------------------------------------------------------------- queries

  /** The actor, the target, one of the kinds and the state that were asked for. */
  predicate Matches(q: Query, l: Listed) {
    && (q.actor != "" ==> l.event.actor == q.actor)
    && (q.about != "" ==> l.event.about == q.about)
    && (q.kinds != [] ==> l.event.kind in q.kinds)
    && (q.pending ==> l.event.pending && !l.dismissed)
  }

  lemma SelectedIs(q: Query, l: Listed)
    ensures Selected(q, l) <==> Matches(q, l)
  {}

  lemma {:induction false} FilterHas(q: Query, listed: seq<Listed>, l: Listed)
    ensures l in Filter(q, listed) <==> l in listed && Matches(q, l)
  {
    if listed != [] {
      FilterHas(q, listed[1..], l);
      SelectedIs(q, listed[0]);
      assert listed == [listed[0]] + listed[1..];
      hide Selected, Matches;
    }
  }

  /** A query returns events of the log that match it, the first of them up to its limit,
      and all of them when it has none or fewer match. */
  lemma QueryMeans(dg: Digest, t: Tree, q: Query)
    ensures var every, got := List(dg, t, EVERYTHING).out, List(dg, t, q).out;
      && (forall l | l in got :: l in every && Matches(q, l))
      && (q.limit <= 0 || |got| < q.limit ==> forall l | l in every && Matches(q, l) :: l in got)
      && (q.limit > 0 ==> |got| <= q.limit) && got <= List(dg, t, q.(limit := 0)).out
  {
    var every, got := List(dg, t, EVERYTHING).out, List(dg, t, q).out;
    QueryIsFilter(dg, Files(t), q, {}, 0);
    QueryIsFilter(dg, Files(t), q.(limit := 0), {}, 0);
    SameFilter(q, every);
    hide *;
    var all := Filter(q, every);
    forall l ensures l in all <==> l in every && Matches(q, l) { FilterHas(q, every, l); }
    assert got == if q.limit > 0 && |all| > q.limit then all[..q.limit] else all by { GotIs(dg, t, q); }
    GotIs(dg, t, q.(limit := 0));
  }

  lemma GotIs(dg: Digest, t: Tree, q: Query)
    ensures var all := Filter(q, List(dg, t, EVERYTHING).out);
      List(dg, t, q).out == if q.limit > 0 && |all| > q.limit then all[..q.limit] else all
  {
    QueryIsFilter(dg, Files(t), q, {}, 0);
    hide ListFrom, Files, Filter;
  }

  /** The limit is no part of what is selected. */
  lemma {:induction false} SameFilter(q: Query, listed: seq<Listed>)
    ensures Filter(q.(limit := 0), listed) == Filter(q, listed)
  {
    if listed != [] { SameFilter(q, listed[1..]); }
  }

  // ---------------------------------------------------------------- integrity

  function Front(raw: string, k: string): Option<string> {
    var d := MarkdownDoc.Parse(raw);
    if d.Some? then MarkdownDoc.Get(d.value.front, k) else None
  }

  /** Nothing that a checksum covers can be changed under it: two readable files with the
      same one agree on all of the event but its applied flag. */
  lemma SameChecksum(dg: Digest, raw: string, other: string)
    requires dg.Lawful() && ReadEvent(dg, raw).Some? && ReadEvent(dg, other).Some?
    requires ReadEvent(dg, raw).value.checksum == ReadEvent(dg, other).value.checksum != ""
    ensures var e, f := ReadEvent(dg, raw).value, ReadEvent(dg, other).value;
      f == e.(applied := f.applied, pending := f.pending)
    ensures Front(raw, "created").Some? && Front(other, "created").Some?
        ==> Front(raw, "created") == Front(other, "created")
  {
    var d, b := MarkdownDoc.Parse(raw).value, MarkdownDoc.Parse(other).value;
    Checked(dg, d);
    Checked(dg, b);
    hide ParseEvent, MarkdownDoc.Parse;
    assert PayloadOf(d, SCHEMA) == PayloadOf(b, SCHEMA);
    CreatedOf(raw);
    CreatedOf(other);
  }

  lemma CreatedOf(raw: string)
    requires MarkdownDoc.Parse(raw).Some?
    ensures Front(raw, "created").Some? ==>
      Front(raw, "created") == Some(PayloadOf(MarkdownDoc.Parse(raw).value, SCHEMA).created)
  {
    hide MarkdownDoc.Parse, MarkdownDoc.Get;
  }

  lemma Checked(dg: Digest, d: MarkdownDoc.Doc)
    requires ParseEvent(dg, d).Some? && ParseEvent(dg, d).value.checksum != ""
    ensures var e, p := ParseEvent(dg, d).value, PayloadOf(d, SCHEMA);
      && e.checksum == dg.checksum(p) && e.version == 1
      && (e.id, e.docKind, e.kind, e.actor, e.about, e.origin, e.against, e.body)
         == (p.id, p.docKind, p.kind, p.actor, p.about, p.origin, p.against, p.body)
  {
    hide MarkdownDoc.Get;
  }

  /** Half of the integrity fields, or a version other than 1, make a file unreadable. */
  lemma HalfRecordRefused(dg: Digest, raw: string)
    requires Front(raw, "schema_version").Some? != (Front(raw, "checksum").Some? && Front(raw, "checksum") != Some(""))
        || (Front(raw, "schema_version").Some? && dg.atoi(Front(raw, "schema_version").value) != Some(1))
    ensures ReadEvent(dg, raw).None?
  {
    hide MarkdownDoc.Parse, MarkdownDoc.Get;
  }

  /** Without either the event is read as one of the old format, whatever it says, and
      dismisses nothing. */
  lemma LegacyReads(dg: Digest, raw: string)
    requires MarkdownDoc.Parse(raw).Some? && Front(raw, "schema_version") == None
    requires Front(raw, "checksum") == None || Front(raw, "checksum") == Some("")
    ensures ReadEvent(dg, raw).Some? && ReadEvent(dg, raw).value.version == 0 && Dismisses(dg, raw) == None
    ensures Front(raw, "id").Some? ==> ReadEvent(dg, raw).value.id == Front(raw, "id").value
    ensures ReadEvent(dg, raw).value.applied <==> Front(raw, "applied") == Some("true")
    ensures ReadEvent(dg, raw).value.pending <==> Front(raw, "applied") == Some("false")
  {
    hide MarkdownDoc.Parse, MarkdownDoc.Get;
  }

  /** What a valid dismissal is: a checked event file that says so itself. */
  lemma DismissalNeeds(dg: Digest, raw: string, id: string)
    requires Dismisses(dg, raw) == Some(id)
    ensures id != "" && Front(raw, "kind") == Some("event") && Front(raw, "event_kind") == Some("dismissal")
    ensures Front(raw, "applied") == Some("true") && Front(raw, "id").Some? && Front(raw, "id") != Some("")
    ensures Front(raw, "about") in {Some(id), Some("[[" + id), Some(id + "]]"), Some("[[" + id + "]]")}
    ensures ReadEvent(dg, raw).Some? && ReadEvent(dg, raw).value.version == 1 && ReadEvent(dg, raw).value.checksum != ""
  {
    DismissesIs(dg, raw);
    hide MarkdownDoc.Parse, MarkdownDoc.Get;
    var about := Front(raw, "about").value;
    AboutIs(about);
  }

  lemma AboutIs(about: string)
    ensures var id := TrimSuffix(TrimPrefix(about, "[["), "]]");
      about == id || about == "[[" + id || about == id + "]]" || about == "[[" + id + "]]"
  {
    var rest := TrimPrefix(about, "[[");
    assert about == rest || about == "[[" + rest;
    var id := TrimSuffix(rest, "]]");
    assert rest == id || rest == id + "]]";
    assert "[[" + (id + "]]") == "[[" + id + "]]";
  }
}
