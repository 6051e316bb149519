/** Redaction of diagnostics (internal/commandresult/diagnostic.go): overlapping spans
    are merged and replaced, everything else is copied, and wherever a known secret
    stands the marker is put for it. Positions count characters. */
module Disclosure {
  import opened Wrappers

  datatype Span = Span(start: nat, end: nat, replacement: string)

  const REDACTED := "<redacted>"

  predicate InRange(s: Span, n: nat) { s.start <= s.end <= n }

  predicate AllInRange(spans: seq<Span>, n: nat) { forall i | 0 <= i < |spans| :: InRange(spans[i], n) }

  // ---------------------------------------------------------------- order

  /** By start, and of two with the same start the longer first. */
  predicate NotAfter(x: Span, y: Span) { x.start < y.start || (x.start == y.start && x.end >= y.end) }

  predicate Sorted(spans: seq<Span>) { forall i, j | 0 <= i < j < |spans| :: NotAfter(spans[i], spans[j]) }

  /** sort.Slice: any sorted rearrangement. */
  method SortSpans(spans: seq<Span>) returns (r: seq<Span>)
    ensures Sorted(r) && multiset(r) == multiset(spans)
  {
    r := [];
    assert spans[..0] == [];
    for n := 0 to |spans|
      invariant Sorted(r) && multiset(r) == multiset(spans[..n])
    {
      assert spans[..n + 1] == spans[..n] + [spans[n]];
      r := InsertSpan(r, spans[n]);
    }
    assert spans[..|spans|] == spans;
  }

  method InsertSpan(sorted: seq<Span>, s: Span) returns (r: seq<Span>)
    requires Sorted(sorted)
    ensures Sorted(r) && multiset(r) == multiset(sorted) + multiset{s}
  {
    var n := 0;
    while n < |sorted| && NotAfter(sorted[n], s)
      invariant n <= |sorted| && forall i | 0 <= i < n :: NotAfter(sorted[i], s)
    {
      n := n + 1;
    }
    r := sorted[..n] + [s] + sorted[n..];
    assert sorted == sorted[..n] + sorted[n..];
    assert forall i | n <= i < |sorted| :: NotAfter(s, sorted[i]) by {
      forall i | n <= i < |sorted| ensures NotAfter(s, sorted[i]) { assert i > n ==> NotAfter(sorted[n], sorted[i]); }
    }
  }

  // ---------------------------------------------------------------- clusters

  /** How many of the spans behind the first belong to a cluster that reaches `end`. */
  function Joined(rest: seq<Span>, end: nat): (n: nat)
    ensures n <= |rest|
  {
    if rest == [] || rest[0].start >= end then 0
    else 1 + Joined(rest[1..], if rest[0].end > end then rest[0].end else end)
  }

  /** The sorted spans cut into clusters. */
  function Clusters(spans: seq<Span>): seq<seq<Span>>
    decreases |spans|
  {
    if spans == [] then []
    else
      var n := 1 + Joined(spans[1..], spans[0].end);
      [spans[..n]] + Clusters(spans[n..])
  }

  function MaxEnd(cluster: seq<Span>): nat {
    if cluster == [] then 0
    else
      var rest := MaxEnd(cluster[..|cluster| - 1]);
      if cluster[|cluster| - 1].end > rest then cluster[|cluster| - 1].end else rest
  }

  /** What stands for a cluster: the replacement of its only span, or the marker. */
  function Replacement(cluster: seq<Span>): string
    requires cluster != []
  {
    if |cluster| == 1 then cluster[0].replacement else REDACTED
  }

  // ---------------------------------------------------------------- what clusters are

  /** Two spans overlap. A span without length overlaps one it stands in. */
  predicate Touch(x: Span, y: Span) { x.start <= y.start < x.end || y.start <= x.start < y.end }

  /** Each span of the cluster but the first overlaps an earlier one. */
  predicate Chained(cluster: seq<Span>) { cluster != [] && forall i | 0 < i < |cluster| :: Linked(cluster, i) }

  predicate Linked(cluster: seq<Span>, i: nat)
    requires i < |cluster|
  {
    exists j :: 0 <= j < i && Touch(cluster[j], cluster[i])
  }

  function Concat(clusters: seq<seq<Span>>): seq<Span> {
    if clusters == [] then [] else clusters[0] + Concat(clusters[1..])
  }

  /** No span of a cluster overlaps one of another. */
  ghost predicate Separate(clusters: seq<seq<Span>>) {
    forall i, j | 0 <= i < j < |clusters| :: forall x, y | x in clusters[i] && y in clusters[j] :: !Touch(x, y)
  }

  lemma {:induction false} MaxEndMeans(cluster: seq<Span>)
    requires cluster != []
    ensures forall i | 0 <= i < |cluster| :: cluster[i].end <= MaxEnd(cluster)
    ensures exists i :: 0 <= i < |cluster| && cluster[i].end == MaxEnd(cluster)
  {
    var init, last := cluster[..|cluster| - 1], cluster[|cluster| - 1];
    if init == [] {
      assert MaxEnd(init) == 0;
      assert cluster[0] == last;
    } else {
      MaxEndMeans(init);
      var i :| 0 <= i < |init| && init[i].end == MaxEnd(init);
      assert cluster[i] == init[i] && forall k | 0 <= k < |init| :: cluster[k] == init[k];
    }
  }

  lemma {:induction false} MaxEndConcat(a: seq<Span>, b: seq<Span>)
    ensures MaxEnd(a + b) == if MaxEnd(b) > MaxEnd(a) then MaxEnd(b) else MaxEnd(a)
    decreases |b|
  {
    if b == [] {
      assert a + b == a;
    } else {
      var init := b[..|b| - 1];
      assert (a + b)[..|a + b| - 1] == a + init;
      MaxEndConcat(a, init);
    }
  }

  /** After `head`, exactly `n` more spans start before the end reached so far. */
  ghost predicate Takes(head: seq<Span>, rest: seq<Span>, n: nat) {
    && n <= |rest|
    && (forall i | 0 <= i < n :: rest[i].start < MaxEnd(head + rest[..i]))
    && (n < |rest| ==> rest[n].start >= MaxEnd(head + rest[..n]))
  }

  lemma TakesStep(head: seq<Span>, rest: seq<Span>, n: nat)
    requires rest != [] && n > 0 && rest[0].start < MaxEnd(head) && Takes(head + [rest[0]], rest[1..], n - 1)
    ensures Takes(head, rest, n)
  {
    hide MaxEnd;
    var more, tail := head + [rest[0]], rest[1..];
    forall i | 0 < i <= n ensures head + rest[..i] == more + tail[..i - 1] {}
    forall i | 0 <= i < n ensures rest[i].start < MaxEnd(head + rest[..i]) {
      if i == 0 { assert head + rest[..0] == head; } else { assert rest[i] == tail[i - 1]; }
    }
    if n < |rest| { assert rest[n] == tail[n - 1]; }
  }

  lemma {:induction false} JoinedTakes(head: seq<Span>, rest: seq<Span>, end: nat)
    requires head != [] && end == MaxEnd(head)
    ensures Takes(head, rest, Joined(rest, end))
    decreases |rest|
  {
    if Joined(rest, end) > 0 {
      OneEnd(rest[0]);
      MaxEndConcat(head, [rest[0]]);
      hide MaxEnd, Takes;
      JoinedTakes(head + [rest[0]], rest[1..], MaxEnd(head + [rest[0]]));
      TakesStep(head, rest, Joined(rest, end));
    } else {
      assert head + rest[..0] == head;
    }
  }

  lemma OneEnd(s: Span)
    ensures MaxEnd([s]) == s.end
  {
    assert [s][..0] == [];
  }

  /** The first cluster of sorted spans: chained, and cleared by everything after it. */
  lemma FirstCluster(spans: seq<Span>)
    requires spans != [] && Sorted(spans)
    ensures var n := 1 + Joined(spans[1..], spans[0].end);
      && Chained(spans[..n])
      && (forall i | n <= i < |spans| :: spans[i].start >= MaxEnd(spans[..n]))
  {
    var head, rest := spans[..1], spans[1..];
    var n := 1 + Joined(rest, spans[0].end);
    assert head == [spans[0]];
    OneEnd(spans[0]);
    JoinedTakes(head, rest, spans[0].end);
    hide MaxEnd, Joined, Chained, Sorted;
    forall i | 0 <= i <= |rest| ensures head + rest[..i] == spans[..i + 1] {}
    SpansTaken(spans, n);
  }

  lemma SpansTaken(spans: seq<Span>, n: nat)
    requires Sorted(spans) && 1 <= n <= |spans|
    requires Takes(spans[..1], spans[1..], n - 1) && forall i | 0 <= i <= |spans[1..]| ::
        spans[..1] + spans[1..][..i] == spans[..i + 1]
    ensures Chained(spans[..n]) && (forall i | n <= i < |spans| :: spans[i].start >= MaxEnd(spans[..n]))
  {
    hide MaxEnd;
    var cluster, rest := spans[..n], spans[1..];
    forall i | 0 < i < n ensures Linked(cluster, i) {
      assert rest[i - 1] == spans[i] && spans[..1] + rest[..i - 1] == spans[..i];
      var j := Touched(spans, i);
      assert Touch(cluster[j], cluster[i]);
    }
    if n < |spans| {
      assert rest[n - 1] == spans[n] && spans[..1] + rest[..n - 1] == cluster;
    }
    forall i | n <= i < |spans| ensures spans[i].start >= MaxEnd(cluster) {
      assert i > n ==> NotAfter(spans[n], spans[i]);
    }
  }

  /** A span that starts before the end reached overlaps the span that reaches it. */
  lemma Touched(spans: seq<Span>, i: nat) returns (j: nat)
    requires Sorted(spans) && 0 < i < |spans| && spans[i].start < MaxEnd(spans[..i])
    ensures j < i && Touch(spans[j], spans[i])
  {
    MaxEndMeans(spans[..i]);
    hide MaxEnd;
    j :| 0 <= j < i && spans[..i][j].end == MaxEnd(spans[..i]);
    assert NotAfter(spans[j], spans[i]);
  }

  lemma SortedTail(spans: seq<Span>, n: nat)
    requires Sorted(spans) && n <= |spans|
    ensures Sorted(spans[n..]) && Sorted(spans[..n])
  {
    forall i, j | 0 <= i < j < |spans[n..]| ensures NotAfter(spans[n..][i], spans[n..][j]) {
      assert spans[n..][i] == spans[n + i] && spans[n..][j] == spans[n + j];
    }
  }

  /** The clusters are the connected groups of overlapping spans: every span is in one,
      a cluster hangs together, and no two clusters overlap. */
  lemma {:induction false} ClustersAreGroups(spans: seq<Span>)
    requires Sorted(spans)
    ensures Concat(Clusters(spans)) == spans
    ensures forall i | 0 <= i < |Clusters(spans)| :: Chained(Clusters(spans)[i])
    ensures Separate(Clusters(spans))
    decreases |spans|
  {
    hide *;
    if spans == [] {
      NoClusters();
    } else {
      var n := 1 + Joined(spans[1..], spans[0].end);
      var first, rest := spans[..n], Clusters(spans[n..]);
      FirstCluster(spans);
      SortedTail(spans, n);
      ClustersAreGroups(spans[n..]);
      ClustersStep(spans);
      assert Clusters(spans)[1..] == rest;
      ConcatStep(Clusters(spans));
      assert spans == first + spans[n..];
      FirstSeparate(spans, n, rest);
      SeparateCons(first, rest);
    }
  }

  lemma NoClusters()
    ensures Clusters([]) == [] && Concat([]) == [] && Separate([])
  {}

  lemma ClustersStep(spans: seq<Span>)
    requires spans != []
    ensures var n := 1 + Joined(spans[1..], spans[0].end); Clusters(spans) == [spans[..n]] + Clusters(spans[n..])
  {
    hide Joined;
  }

  lemma ConcatStep(clusters: seq<seq<Span>>)
    requires clusters != []
    ensures Concat(clusters) == clusters[0] + Concat(clusters[1..])
  {}

  lemma FirstSeparate(spans: seq<Span>, n: nat, rest: seq<seq<Span>>)
    requires Sorted(spans) && 0 < n <= |spans| && Concat(rest) == spans[n..]
    requires forall i | n <= i < |spans| :: spans[i].start >= MaxEnd(spans[..n])
    ensures forall j, x, y | 0 <= j < |rest| && x in spans[..n] && y in rest[j] :: !Touch(x, y)
  {
    hide Sorted, MaxEnd, Touch, Concat;
    forall j, x, y | 0 <= j < |rest| && x in spans[..n] && y in rest[j] ensures !Touch(x, y) {
      InConcat(rest, j, y);
      ClearOf(spans, n, x, y);
    }
  }

  lemma SeparateCons(first: seq<Span>, rest: seq<seq<Span>>)
    requires Separate(rest)
    requires forall j, x, y | 0 <= j < |rest| && x in first && y in rest[j] :: !Touch(x, y)
    ensures Separate([first] + rest)
  {
    hide Touch;
    var all := [first] + rest;
    forall i, j | 0 <= i < j < |all| ensures forall x, y | x in all[i] && y in all[j] :: !Touch(x, y) {
      assert all[j] == rest[j - 1];
      if i > 0 { assert all[i] == rest[i - 1]; }
    }
  }

  lemma {:induction false} InConcat(clusters: seq<seq<Span>>, j: nat, y: Span)
    requires j < |clusters| && y in clusters[j]
    ensures y in Concat(clusters)
  {
    if j > 0 { InConcat(clusters[1..], j - 1, y); }
  }

  lemma ClearOf(spans: seq<Span>, n: nat, x: Span, y: Span)
    requires n <= |spans| && n > 0 && x in spans[..n] && y in spans[n..] && Sorted(spans)
    requires forall i | n <= i < |spans| :: spans[i].start >= MaxEnd(spans[..n])
    ensures !Touch(x, y)
  {
    MaxEndMeans(spans[..n]);
    hide MaxEnd;
    var i :| 0 <= i < n && spans[..n][i] == x;
    var j :| 0 <= j < |spans[n..]| && spans[n..][j] == y;
    assert spans[n + j] == y && spans[i] == x;
    assert NotAfter(x, y);
  }

  // ---------------------------------------------------------------- the output

  /** A character of the input by its position, or the text that stands for a cluster. */
  datatype Piece = Copied(at: nat) | Put(text: string)

  function Run(from: nat, to: nat): seq<Piece>
    requires from <= to
  {
    seq(to - from, i requires 0 <= i < to - from => Copied(from + i))
  }

  /** Clusters that lie one after the other from `cursor` to `n`. */
  predicate Laid(clusters: seq<seq<Span>>, cursor: nat, n: nat) {
    if clusters == [] then cursor <= n
    else
      && clusters[0] != [] && cursor <= clusters[0][0].start <= MaxEnd(clusters[0]) <= n
      && Laid(clusters[1..], MaxEnd(clusters[0]), n)
  }

  function Pieces(clusters: seq<seq<Span>>, cursor: nat, n: nat): seq<Piece>
    requires Laid(clusters, cursor, n)
  {
    if clusters == [] then Run(cursor, n)
    else
      Run(cursor, clusters[0][0].start) + [Put(Replacement(clusters[0]))]
      + Pieces(clusters[1..], MaxEnd(clusters[0]), n)
  }

  predicate Within(pieces: seq<Piece>, n: nat) {
    forall i | 0 <= i < |pieces| :: pieces[i].Copied? ==> pieces[i].at < n
  }

  function Written(value: string, pieces: seq<Piece>): string
    requires Within(pieces, |value|)
  {
    if pieces == [] then ""
    else (if pieces[0].Copied? then [value[pieces[0].at]] else pieces[0].text) + Written(value, pieces[1..])
  }

  /** The positions copied, and the texts put in, in the order of the output. */
  function CopiedOf(pieces: seq<Piece>): seq<nat> {
    if pieces == [] then [] else CopiedOne(pieces[0]) + CopiedOf(pieces[1..])
  }

  function CopiedOne(p: Piece): seq<nat> { if p.Copied? then [p.at] else [] }

  function PutsOf(pieces: seq<Piece>): seq<string> {
    if pieces == [] then [] else PutOne(pieces[0]) + PutsOf(pieces[1..])
  }

  function PutOne(p: Piece): seq<string> { if p.Put? then [p.text] else [] }

  lemma Associates<T>(a: seq<T>, b: seq<T>, c: seq<T>)
    ensures a + (b + c) == a + b + c
  {}

  function Replacements(clusters: seq<seq<Span>>): seq<string>
    requires forall i | 0 <= i < |clusters| :: clusters[i] != []
  {
    if clusters == [] then [] else [Replacement(clusters[0])] + Replacements(clusters[1..])
  }

  predicate Covers(s: Span, p: nat) { s.start <= p < s.end }

  predicate Covered(spans: seq<Span>, p: nat) { exists i :: 0 <= i < |spans| && Covers(spans[i], p) }

  predicate InCluster(cluster: seq<Span>, p: nat) { cluster != [] && cluster[0].start <= p < MaxEnd(cluster) }

  predicate InSome(clusters: seq<seq<Span>>, p: nat) { exists i :: 0 <= i < |clusters| && InCluster(clusters[i], p) }

  lemma CopiedConcat(a: seq<Piece>, b: seq<Piece>)
    ensures CopiedOf(a + b) == CopiedOf(a) + CopiedOf(b) && PutsOf(a + b) == PutsOf(a) + PutsOf(b)
  {
    CopiedJoin(a, b);
    PutsJoin(a, b);
  }

  lemma {:induction false} CopiedJoin(a: seq<Piece>, b: seq<Piece>)
    ensures CopiedOf(a + b) == CopiedOf(a) + CopiedOf(b)
  {
    if a == [] {
      assert a + b == b;
    } else {
      assert (a + b)[1..] == a[1..] + b;
      hide CopiedOne;
      CopiedJoin(a[1..], b);
      Associates(CopiedOne(a[0]), CopiedOf(a[1..]), CopiedOf(b));
    }
  }

  lemma {:induction false} PutsJoin(a: seq<Piece>, b: seq<Piece>)
    ensures PutsOf(a + b) == PutsOf(a) + PutsOf(b)
  {
    if a == [] {
      assert a + b == b;
    } else {
      assert (a + b)[1..] == a[1..] + b;
      hide PutOne;
      PutsJoin(a[1..], b);
      Associates(PutOne(a[0]), PutsOf(a[1..]), PutsOf(b));
    }
  }

  lemma {:induction false} WrittenConcat(value: string, a: seq<Piece>, b: seq<Piece>)
    requires Within(a, |value|) && Within(b, |value|)
    ensures Within(a + b, |value|) && Written(value, a + b) == Written(value, a) + Written(value, b)
  {
    if a == [] {
      assert a + b == b;
    } else {
      assert (a + b)[1..] == a[1..] + b;
      WrittenConcat(value, a[1..], b);
      assert Within(a + b, |value|);
      var x := if a[0].Copied? then [value[a[0].at]] else a[0].text;
      assert x + (Written(value, a[1..]) + Written(value, b)) == x + Written(value, a[1..]) + Written(value, b);
    }
  }

  function Numbers(from: nat, to: nat): seq<nat>
    requires from <= to
  {
    seq(to - from, i requires 0 <= i < to - from => from + i)
  }

  lemma RunStep(from: nat, to: nat)
    requires from < to
    ensures Run(from, to) != [] && Run(from, to)[0] == Copied(from) && Run(from, to)[1..] == Run(from + 1, to)
    ensures Numbers(from, to) == [from] + Numbers(from + 1, to)
    ensures forall i | 0 <= i < to - from :: i < |Run(from, to)| && Run(from, to)[i] == Copied(from + i)
    ensures |Run(from, to)| == to - from
  {}

  lemma {:induction false} RunFacts(value: string, from: nat, to: nat)
    requires from <= to <= |value|
    ensures Within(Run(from, to), |value|) && Written(value, Run(from, to)) == value[from..to]
    ensures PutsOf(Run(from, to)) == [] && CopiedOf(Run(from, to)) == Numbers(from, to)
    decreases |value| - from
  {
    if from < to {
      RunFacts(value, from + 1, to);
      RunStep(from, to);
      assert value[from..to] == [value[from]] + value[from + 1..to];
      hide Run, Numbers;
    }
  }

  lemma {:induction false} PiecesWithin(value: string, clusters: seq<seq<Span>>, cursor: nat)
    requires Laid(clusters, cursor, |value|)
    ensures Within(Pieces(clusters, cursor, |value|), |value|)
  {
    if clusters == [] {
      RunFacts(value, cursor, |value|);
    } else {
      RunFacts(value, cursor, clusters[0][0].start);
      hide MaxEnd;
      PiecesWithin(value, clusters[1..], MaxEnd(clusters[0]));
    }
  }

  lemma {:induction false} LaidAll(clusters: seq<seq<Span>>, cursor: nat, n: nat)
    requires Laid(clusters, cursor, n)
    ensures cursor <= n && (forall i | 0 <= i < |clusters| :: clusters[i] != [] && cursor <= clusters[i][0].start)
  {
    hide MaxEnd;
    if clusters != [] {
      LaidAll(clusters[1..], MaxEnd(clusters[0]), n);
      assert forall i | 0 < i < |clusters| :: clusters[i] == clusters[1..][i - 1];
    }
  }

  /** A character is copied once, in order, exactly when it is in no cluster; each
      cluster puts in one text, in order. */
  lemma {:induction false} PiecesFaithful(clusters: seq<seq<Span>>, cursor: nat, n: nat)
    requires Laid(clusters, cursor, n)
    ensures forall i | 0 <= i < |clusters| :: clusters[i] != []
    ensures var copied := CopiedOf(Pieces(clusters, cursor, n));
      && (forall i, j | 0 <= i < j < |copied| :: copied[i] < copied[j])
      && (forall p: nat :: p in copied <==> cursor <= p < n && !InSome(clusters, p))
    ensures PutsOf(Pieces(clusters, cursor, n)) == Replacements(clusters)
  {
    hide *;
    LaidAll(clusters, cursor, n);
    var blank := seq(n, i => ' ');
    PiecesStep(clusters, cursor, n);
    if clusters == [] {
      RunFacts(blank, cursor, n);
      EndFacts(cursor, n);
    } else {
      var first, rest := clusters[0], clusters[1..];
      var run, put := Run(cursor, first[0].start), [Put(Replacement(first))];
      var later := Pieces(rest, MaxEnd(first), n);
      PiecesFaithful(rest, MaxEnd(first), n);
      RunFacts(blank, cursor, first[0].start);
      CopiedConcat(run, put);
      CopiedConcat(run + put, later);
      PutFacts(Replacement(first));
      assert [] + [Replacement(first)] + PutsOf(later) == [Replacement(first)] + PutsOf(later);
      CopiedSplit(clusters, cursor, n, CopiedOf(later));
    }
  }

  lemma PutFacts(text: string)
    ensures CopiedOf([Put(text)]) == [] && PutsOf([Put(text)]) == [text]
  {
    assert [Put(text)][1..] == [];
  }

  lemma EndFacts(cursor: nat, n: nat)
    requires cursor <= n
    ensures var copied := Numbers(cursor, n);
      && (forall i, j | 0 <= i < j < |copied| :: copied[i] < copied[j])
      && (forall p: nat :: p in copied <==> cursor <= p < n && !InSome([], p))
  {
    forall p: nat ensures p in Numbers(cursor, n) <==> cursor <= p < n {
      if cursor <= p < n { assert Numbers(cursor, n)[p - cursor] == p; }
    }
  }

  lemma PiecesStep(clusters: seq<seq<Span>>, cursor: nat, n: nat)
    requires Laid(clusters, cursor, n)
    ensures clusters == [] ==> cursor <= n && Pieces(clusters, cursor, n) == Run(cursor, n)
    ensures clusters != [] ==>
      && clusters[0] != [] && cursor <= clusters[0][0].start <= MaxEnd(clusters[0]) <= n
          && Laid(clusters[1..], MaxEnd(clusters[0]), n)
      && Pieces(clusters, cursor, n)
          == Run(cursor, clusters[0][0].start) + [Put(Replacement(clusters[0]))]
          + Pieces(clusters[1..], MaxEnd(clusters[0]), n)
    ensures (forall i | 0 <= i < |clusters| :: clusters[i] != []) ==>
      Replacements(clusters) == if clusters == [] then [] else [Replacement(clusters[0])] + Replacements(clusters[1..])
  {
    hide MaxEnd, Run, Replacement;
  }

  lemma CopiedSplit(clusters: seq<seq<Span>>, cursor: nat, n: nat, later: seq<nat>)
    requires Laid(clusters, cursor, n) && clusters != []
    requires (forall i, j | 0 <= i < j < |later| :: later[i] < later[j])
    requires forall p: nat :: p in later <==> MaxEnd(clusters[0]) <= p < n && !InSome(clusters[1..], p)
    ensures var copied := Numbers(cursor, clusters[0][0].start) + [] + later;
      && (forall i, j | 0 <= i < j < |copied| :: copied[i] < copied[j])
      && (forall p: nat :: p in copied <==> cursor <= p < n && !InSome(clusters, p))
  {
    var first, rest := clusters[0], clusters[1..];
    var run := Numbers(cursor, first[0].start);
    var copied := run + [] + later;
    LaidAll(rest, MaxEnd(first), n);
    hide MaxEnd;
    forall i | 0 <= i < |later| ensures later[i] >= MaxEnd(first) { assert later[i] in later; }
    forall p: nat ensures p in copied <==> cursor <= p < n && !InSome(clusters, p) {
      assert p in run <==> cursor <= p < first[0].start by {
        if cursor <= p < first[0].start { assert run[p - cursor] == p; }
      }
      SomeStep(clusters, p);
      assert p in copied <==> p in run || p in later;
      if InSome(rest, p) {
        var i :| 0 <= i < |rest| && InCluster(rest[i], p);
        assert p >= MaxEnd(first);
      }
    }
  }

  lemma SomeStep(clusters: seq<seq<Span>>, p: nat)
    requires clusters != []
    ensures InSome(clusters, p) <==> InCluster(clusters[0], p) || InSome(clusters[1..], p)
  {
    hide InCluster;
    assert forall i | 0 < i < |clusters| :: clusters[i] == clusters[1..][i - 1];
    if InSome(clusters[1..], p) {
      var i :| 0 <= i < |clusters[1..]| && InCluster(clusters[1..][i], p);
      assert clusters[i + 1] == clusters[1..][i];
    }
  }

  // ---------------------------------------------------------------- clusters and spans cover the same

  lemma {:induction false} ClusterCovers(cluster: seq<Span>, p: nat)
    requires Chained(cluster) && Sorted(cluster)
    ensures InCluster(cluster, p) <==> Covered(cluster, p)
  {
    MaxEndMeans(cluster);
    if Covered(cluster, p) {
      var i :| 0 <= i < |cluster| && Covers(cluster[i], p);
      assert i > 0 ==> NotAfter(cluster[0], cluster[i]);
    }
    if InCluster(cluster, p) && |cluster| > 1 {
      var init, last := cluster[..|cluster| - 1], cluster[|cluster| - 1];
      ChainedInit(cluster);
      ClusterCovers(init, p);
      MaxEndMeans(init);
      LinkedReaches(cluster);
      if p < MaxEnd(init) {
        var i :| 0 <= i < |init| && Covers(init[i], p);
        assert Covers(cluster[i], p);
      } else {
        assert Covers(cluster[|cluster| - 1], p);
      }
    } else if InCluster(cluster, p) {
      assert cluster[..0] == [];
      assert Covers(cluster[0], p);
    }
  }

  lemma ChainedInit(cluster: seq<Span>)
    requires Chained(cluster) && Sorted(cluster) && |cluster| > 1
    ensures Chained(cluster[..|cluster| - 1]) && Sorted(cluster[..|cluster| - 1])
  {
    var init := cluster[..|cluster| - 1];
    forall i | 0 < i < |init| ensures Linked(init, i) {
      assert Linked(cluster, i);
      var j :| 0 <= j < i && Touch(cluster[j], cluster[i]);
      assert Touch(init[j], init[i]);
    }
  }

  lemma LinkedReaches(cluster: seq<Span>)
    requires Chained(cluster) && Sorted(cluster) && |cluster| > 1
    ensures cluster[|cluster| - 1].start < MaxEnd(cluster[..|cluster| - 1])
  {
    var n := |cluster| - 1;
    assert Linked(cluster, n);
    MaxEndMeans(cluster[..n]);
    hide MaxEnd;
    var j :| 0 <= j < n && Touch(cluster[j], cluster[n]);
    assert NotAfter(cluster[j], cluster[n]) && cluster[..n][j] == cluster[j];
  }

  /** Every character is in a cluster exactly when some span covers it. */
  lemma {:induction false} ClustersCover(spans: seq<Span>, p: nat)
    requires Sorted(spans)
    ensures InSome(Clusters(spans), p) <==> Covered(spans, p)
    decreases |spans|
  {
    hide *;
    if spans == [] {
      NoClusters();
      NothingCovered(p);
    } else {
      var n := 1 + Joined(spans[1..], spans[0].end);
      FirstCluster(spans);
      SortedTail(spans, n);
      ClustersStep(spans);
      ClustersCover(spans[n..], p);
      ClusterCovers(spans[..n], p);
      SomeStep(Clusters(spans), p);
      assert Clusters(spans)[1..] == Clusters(spans[n..]);
      CoveredSplit(spans, n, p);
    }
  }

  lemma NothingCovered(p: nat)
    ensures !Covered([], p) && !InSome([], p)
  {}

  lemma CoveredSplit(spans: seq<Span>, n: nat, p: nat)
    requires n <= |spans|
    ensures Covered(spans, p) <==> Covered(spans[..n], p) || Covered(spans[n..], p)
  {
    hide Covers;
    var a, b := spans[..n], spans[n..];
    if Covered(spans, p) {
      var i :| 0 <= i < |spans| && Covers(spans[i], p);
      if i < n { assert a[i] == spans[i]; } else { assert b[i - n] == spans[i]; }
    }
    if Covered(a, p) {
      var i :| 0 <= i < |a| && Covers(a[i], p);
      assert spans[i] == a[i];
    }
    if Covered(b, p) {
      var i :| 0 <= i < |b| && Covers(b[i], p);
      assert spans[n + i] == b[i];
    }
  }

  /** The clusters of sorted spans in range lie one after the other. */
  lemma {:induction false} ClustersLaid(spans: seq<Span>, cursor: nat, n: nat)
    requires Sorted(spans) && AllInRange(spans, n) && cursor <= n && (spans != [] ==> cursor <= spans[0].start)
    ensures Laid(Clusters(spans), cursor, n)
    decreases |spans|
  {
    hide *;
    ClustersEnds(spans, cursor, n);
    if spans != [] {
      var k := 1 + Joined(spans[1..], spans[0].end);
      FirstCluster(spans);
      SortedTail(spans, k);
      ClustersStep(spans);
      TailInRange(spans, k, n);
      ClustersLaid(spans[k..], MaxEnd(spans[..k]), n);
      assert Clusters(spans)[0] == spans[..k] && Clusters(spans)[1..] == Clusters(spans[k..]);
      LaidCons(Clusters(spans), cursor, n);
    }
  }

  lemma ClustersEnds(spans: seq<Span>, cursor: nat, n: nat)
    requires cursor <= n
    ensures spans == [] ==> Laid(Clusters(spans), cursor, n)
  {}

  lemma LaidCons(clusters: seq<seq<Span>>, cursor: nat, n: nat)
    requires clusters != [] && clusters[0] != [] && cursor <= clusters[0][0].start <= MaxEnd(clusters[0]) <= n
        && Laid(clusters[1..], MaxEnd(clusters[0]), n)
    ensures Laid(clusters, cursor, n)
  {
    hide MaxEnd;
  }

  lemma TailInRange(spans: seq<Span>, k: nat, n: nat)
    requires AllInRange(spans, n) && 0 < k <= |spans|
    ensures AllInRange(spans[k..], n) && spans[0].start <= MaxEnd(spans[..k]) <= n
  {
    MaxEndMeans(spans[..k]);
    hide MaxEnd;
    var i :| 0 <= i < k && spans[..k][i].end == MaxEnd(spans[..k]);
    assert InRange(spans[i], n) && InRange(spans[0], n) && spans[..k][0] == spans[0];
  }

  // ---------------------------------------------------------------- what is rendered

  function Rendered(value: string, sorted: seq<Span>): string
    requires Sorted(sorted) && AllInRange(sorted, |value|)
  {
    ClustersLaid(sorted, 0, |value|);
    PiecesWithin(value, Clusters(sorted), 0);
    Written(value, Pieces(Clusters(sorted), 0, |value|))
  }

  lemma SameSpans(spans: seq<Span>, sorted: seq<Span>, n: nat)
    requires multiset(sorted) == multiset(spans)
    ensures forall s :: s in sorted <==> s in spans
    ensures AllInRange(spans, n) ==> AllInRange(sorted, n)
    ensures forall p: nat :: Covered(sorted, p) <==> Covered(spans, p)
  {
    forall s ensures s in sorted <==> s in spans {
      assert s in sorted <==> s in multiset(sorted);
      assert s in spans <==> s in multiset(spans);
    }
    hide Covers, InRange;
    if AllInRange(spans, n) {
      forall i | 0 <= i < |sorted| ensures InRange(sorted[i], n) {
        assert sorted[i] in spans;
        var j :| 0 <= j < |spans| && spans[j] == sorted[i];
      }
    }
    forall p: nat ensures Covered(sorted, p) <==> Covered(spans, p) {
      if Covered(sorted, p) {
        var i :| 0 <= i < |sorted| && Covers(sorted[i], p);
        assert sorted[i] in spans;
        var j :| 0 <= j < |spans| && spans[j] == sorted[i];
      }
      if Covered(spans, p) {
        var i :| 0 <= i < |spans| && Covers(spans[i], p);
        assert spans[i] in sorted;
        var j :| 0 <= j < |sorted| && sorted[j] == spans[i];
      }
    }
  }

  /** The output is the input in order without the characters that some span covers,
      each copied once, with one text for each connected group of spans: its own when
      the group is a single span, the marker otherwise. */
  lemma RenderedFaithful(value: string, spans: seq<Span>, sorted: seq<Span>)
    requires multiset(sorted) == multiset(spans) && Sorted(sorted) && AllInRange(spans, |value|)
    ensures AllInRange(sorted, |value|) && Laid(Clusters(sorted), 0, |value|)
    ensures Within(Pieces(Clusters(sorted), 0, |value|), |value|)
    ensures Rendered(value, sorted) == Written(value, Pieces(Clusters(sorted), 0, |value|))
    ensures var copied := CopiedOf(Pieces(Clusters(sorted), 0, |value|));
      && (forall i, j | 0 <= i < j < |copied| :: copied[i] < copied[j])
      && (forall p: nat :: p in copied <==> p < |value| && !Covered(spans, p))
    ensures forall i | 0 <= i < |Clusters(sorted)| :: Clusters(sorted)[i] != [] && Chained(Clusters(sorted)[i])
    ensures PutsOf(Pieces(Clusters(sorted), 0, |value|)) == Replacements(Clusters(sorted))
    ensures Concat(Clusters(sorted)) == sorted && Separate(Clusters(sorted))
  {
    hide *;
    SameSpans(spans, sorted, |value|);
    StartsAnywhere(sorted);
    ClustersLaid(sorted, 0, |value|);
    PiecesWithin(value, Clusters(sorted), 0);
    RenderedIs(value, sorted);
    PiecesFaithful(Clusters(sorted), 0, |value|);
    ClustersAreGroups(sorted);
    forall p: nat ensures InSome(Clusters(sorted), p) <==> Covered(spans, p) { ClustersCover(sorted, p); }
  }

  lemma StartsAnywhere(spans: seq<Span>)
    ensures spans != [] ==> 0 <= spans[0].start
  {}

  lemma RenderedIs(value: string, sorted: seq<Span>)
    requires Sorted(sorted) && AllInRange(sorted, |value|) && Laid(Clusters(sorted), 0, |value|)
        && Within(Pieces(Clusters(sorted), 0, |value|), |value|)
    ensures Rendered(value, sorted) == Written(value, Pieces(Clusters(sorted), 0, |value|))
  {
    hide Written, Pieces, Clusters, Laid, Within, AllInRange, Sorted;
  }

  // ---------------------------------------------------------------- the code

  /** The text from `cursor` on when the clusters of `left` are still to come. */
  ghost function RestText(value: string, left: seq<Span>, cursor: nat): string
    requires Laid(Clusters(left), cursor, |value|)
  {
    PiecesWithin(value, Clusters(left), cursor);
    Written(value, Pieces(Clusters(left), cursor, |value|))
  }

  lemma RestEnd(value: string, cursor: nat)
    requires Laid(Clusters([]), cursor, |value|)
    ensures cursor <= |value| && RestText(value, [], cursor) == value[cursor..]
  {
    RunFacts(value, cursor, |value|);
    assert value[cursor..|value|] == value[cursor..];
  }

  lemma RestStep(value: string, left: seq<Span>, cursor: nat, n: nat)
    requires Sorted(left) && left != [] && Laid(Clusters(left), cursor, |value|)
        && n == 1 + Joined(left[1..], left[0].end)
    ensures cursor <= left[0].start <= MaxEnd(left[..n]) <= |value|
        && Laid(Clusters(left[n..]), MaxEnd(left[..n]), |value|)
    ensures RestText(value, left, cursor)
      == value[cursor..left[0].start] + Replacement(left[..n]) + RestText(value, left[n..], MaxEnd(left[..n]))
  {
    hide *;
    ClustersStep(left);
    PiecesStep(Clusters(left), cursor, |value|);
    assert Clusters(left)[0] == left[..n] && Clusters(left)[1..] == Clusters(left[n..]);
    var run, put := Run(cursor, left[0].start), [Put(Replacement(left[..n]))];
    var later := Pieces(Clusters(left[n..]), MaxEnd(left[..n]), |value|);
    RunFacts(value, cursor, left[0].start);
    PiecesWithin(value, Clusters(left[n..]), MaxEnd(left[..n]));
    PutWritten(value, Replacement(left[..n]));
    WrittenConcat(value, run, put);
    WrittenConcat(value, run + put, later);
    RestIs(value, left, cursor);
    RestIs(value, left[n..], MaxEnd(left[..n]));
  }

  lemma RestIs(value: string, left: seq<Span>, cursor: nat)
    requires Laid(Clusters(left), cursor, |value|)
    ensures Within(Pieces(Clusters(left), cursor, |value|), |value|)
    ensures RestText(value, left, cursor) == Written(value, Pieces(Clusters(left), cursor, |value|))
  {
    PiecesWithin(value, Clusters(left), cursor);
    hide Laid, Clusters, Pieces, Written, Within;
  }

  lemma PutWritten(value: string, text: string)
    ensures Within([Put(text)], |value|) && Written(value, [Put(text)]) == text
  {
    assert [Put(text)][1..] == [];
    assert text + "" == text;
  }

  /** The inner loop: the cluster that starts at `from` and how far it reaches. */
  method TakeCluster(sorted: seq<Span>, from: nat) returns (i: nat, span: Span)
    requires from < |sorted|
    ensures i == from + 1 + Joined(sorted[from..][1..], sorted[from].end) && i <= |sorted|
    ensures span == Span(sorted[from].start, MaxEnd(sorted[from..i]), Replacement(sorted[from..i]))
  {
    hide MaxEnd;
    span := sorted[from];
    i := from + 1;
    assert sorted[from..][1..] == sorted[i..];
    OneEnd(sorted[from]);
    assert sorted[from..i] == [sorted[from]];
    while i < |sorted| && sorted[i].start < span.end
      invariant from < i <= |sorted| && span.start == sorted[from].start && span.end == MaxEnd(sorted[from..i])
      invariant span.replacement == Replacement(sorted[from..i])
      invariant from + 1 + Joined(sorted[from + 1..], sorted[from].end) == i + Joined(sorted[i..], span.end)
    {
      assert sorted[i..][0] == sorted[i] && sorted[i..][1..] == sorted[i + 1..];
      assert sorted[from..i + 1] == sorted[from..i] + [sorted[i]];
      MaxEndConcat(sorted[from..i], [sorted[i]]);
      OneEnd(sorted[i]);
      if sorted[i].end > span.end { span := span.(end := sorted[i].end); }
      span := span.(replacement := REDACTED);
      i := i + 1;
    }
    assert i < |sorted| ==> sorted[i..][0] == sorted[i];
  }

  /** `sorted` is the spans in rendering order. */
  predicate Ordered(sorted: seq<Span>, spans: seq<Span>) { Sorted(sorted) && multiset(sorted) == multiset(spans) }

  /** `out` is the value with the spans replaced, in some order of those that tie. */
  ghost predicate IsRendering(out: string, value: string, spans: seq<Span>) {
    exists sorted :: Ordered(sorted, spans) && AllInRange(sorted, |value|) && out == Rendered(value, sorted)
  }

  lemma RenderingIs(out: string, value: string, spans: seq<Span>, sorted: seq<Span>)
    requires Sorted(sorted) && multiset(sorted) == multiset(spans) && AllInRange(sorted, |value|)
        && out == Rendered(value, sorted)
    ensures IsRendering(out, value, spans)
  {
    hide Rendered, Sorted, AllInRange;
    assert Ordered(sorted, spans);
  }

  lemma SomeOrder(out: string, value: string, spans: seq<Span>) returns (sorted: seq<Span>)
    requires IsRendering(out, value, spans)
    ensures Sorted(sorted) && multiset(sorted) == multiset(spans) && AllInRange(sorted, |value|)
    ensures out == Rendered(value, sorted)
  {
    hide Rendered, Sorted, AllInRange;
    sorted :| Ordered(sorted, spans) && AllInRange(sorted, |value|) && out == Rendered(value, sorted);
  }

  /** renderDisclosure. */
  method RenderDisclosure(value: string, spans: seq<Span>) returns (out: string)
    requires AllInRange(spans, |value|)
    ensures IsRendering(out, value, spans)
  {
    hide *;
    var order := SortSpans(spans);
    SameSpans(spans, order, |value|);
    StartsAnywhere(order);
    ClustersLaid(order, 0, |value|);
    RestIs(value, order, 0);
    RenderedIs(value, order);
    out := "";
    var cursor: nat, i := 0, 0;
    assert order[0..] == order;
    while i < |order|
      invariant i <= |order| && cursor <= |value| && Laid(Clusters(order[i..]), cursor, |value|)
      invariant Rendered(value, order) == out + RestText(value, order[i..], cursor)
    {
      ghost var left := order[i..];
      SortedTail(order, i);
      var k, span := TakeCluster(order, i);
      ghost var n := k - i;
      assert left[0] == order[i] && left[..n] == order[i..k] && left[n..] == order[k..];
      RestStep(value, left, cursor, n);
      Regroup(out, value[cursor..span.start], span.replacement, RestText(value, left[n..], MaxEnd(left[..n])));
      out := out + value[cursor..span.start];
      out := out + span.replacement;
      cursor := span.end;
      i := k;
    }
    assert order[i..] == [];
    RestEnd(value, cursor);
    out := out + value[cursor..];
    RenderingIs(out, value, spans, order);
  }

  lemma Regroup(a: string, b: string, c: string, d: string)
    ensures a + (b + c + d) == a + b + c + d
  {}

  // ---------------------------------------------------------------- known secrets

  /** The span of the first of the secrets that stands at `i`. */
  function SecretAt(value: string, i: nat, secrets: seq<string>): Option<Span>
    requires i <= |value|
  {
    if secrets == [] then None
    else if secrets[0] <= value[i..] then Some(Span(i, i + |secrets[0]|, REDACTED))
    else SecretAt(value, i, secrets[1..])
  }

  predicate Occurs(value: string, i: nat, secret: string) { i <= |value| && secret <= value[i..] }

  predicate LongestFirst(secrets: seq<string>) { forall i, j | 0 <= i < j < |secrets| :: |secrets[i]| >= |secrets[j]| }

  /** The longest secret that stands at a position is the one that is taken. */
  lemma {:induction false} SecretAtLongest(value: string, i: nat, secrets: seq<string>, secret: string)
    requires LongestFirst(secrets) && secret in secrets && Occurs(value, i, secret)
    ensures var s := SecretAt(value, i, secrets);
        s.Some? && s.value.start == i && s.value.end >= i + |secret| && InRange(s.value, |value|)
  {
    if secrets[0] <= value[i..] {
      var k :| 0 <= k < |secrets| && secrets[k] == secret;
    } else {
      assert forall k | 0 <= k < |secrets[1..]| :: secrets[1..][k] == secrets[k + 1];
      SecretAtLongest(value, i, secrets[1..], secret);
    }
  }

  lemma {:induction false} SecretAtIsSecret(value: string, i: nat, secrets: seq<string>)
    requires i <= |value|
    ensures var s := SecretAt(value, i, secrets);
      s.Some? ==>
        && InRange(s.value, |value|) && s.value.replacement == REDACTED
        && value[s.value.start..s.value.end] in secrets
  {
    if secrets != [] {
      SecretAtIsSecret(value, i, secrets[1..]);
      if secrets[0] <= value[i..] { assert value[i..i + |secrets[0]|] == value[i..][..|secrets[0]|] == secrets[0]; }
    }
  }

  /** A span found by the scan. */
  ghost predicate Found(value: string, secrets: seq<string>, s: Span) {
    exists i :: 0 <= i < |value| && SecretAt(value, i, secrets) == Some(s)
  }

  /** The scan for known secrets adds to the structural spans one for each position where
      a secret stands, and no others. */
  method KnownSpans(value: string, secrets: seq<string>, structural: seq<Span>) returns (spans: seq<Span>)
    requires AllInRange(structural, |value|)
    ensures AllInRange(spans, |value|) && structural <= spans
    ensures forall i | 0 <= i < |value| && SecretAt(value, i, secrets).Some? ::
        SecretAt(value, i, secrets).value in spans
    ensures forall n | |structural| <= n < |spans| :: Found(value, secrets, spans[n])
  {
    spans := structural;
    for i := 0 to |value|
      invariant AllInRange(spans, |value|) && structural <= spans
      invariant forall n | |structural| <= n < |spans| :: Found(value, secrets, spans[n])
      invariant forall k | 0 <= k < i && SecretAt(value, k, secrets).Some? :: SecretAt(value, k, secrets).value in spans
    {
      SecretAtIsSecret(value, i, secrets);
      ghost var before := spans;
      assert secrets[0..] == secrets;
      for n := 0 to |secrets|
        invariant spans == before && SecretAt(value, i, secrets) == SecretAt(value, i, secrets[n..])
      {
        assert secrets[n..][0] == secrets[n] && secrets[n..][1..] == secrets[n + 1..];
        if secrets[n] <= value[i..] {
          spans := spans + [Span(i, i + |secrets[n]|, REDACTED)];
          assert spans[|before|] == SecretAt(value, i, secrets).value;
          assert Found(value, secrets, spans[|before|]);
          break;
        }
      }
      assert forall s | s in before :: s in spans;
    }
  }

  /** A span lies inside the cluster it is in. */
  lemma {:induction false} SpanInCluster(spans: seq<Span>, s: Span) returns (i: nat)
    requires Sorted(spans) && s in spans
    ensures i < |Clusters(spans)| && s in Clusters(spans)[i] && Clusters(spans)[i][0].start <= s.start
        && s.end <= MaxEnd(Clusters(spans)[i])
    decreases |spans|
  {
    hide *;
    var n := 1 + Joined(spans[1..], spans[0].end);
    FirstCluster(spans);
    SortedTail(spans, n);
    ClustersStep(spans);
    if s in spans[..n] {
      i := 0;
      MaxEndMeans(spans[..n]);
      var k :| 0 <= k < n && spans[..n][k] == s;
      FirstStarts(spans, k);
    } else {
      assert spans == spans[..n] + spans[n..];
      var j := SpanInCluster(spans[n..], s);
      i := j + 1;
    }
  }

  lemma FirstStarts(spans: seq<Span>, k: nat)
    requires Sorted(spans) && k < |spans|
    ensures spans[0].start <= spans[k].start
  {
    assert k > 0 ==> NotAfter(spans[0], spans[k]);
  }

  /** The cluster covers all that is between two positions, and the marker is put for it. */
  predicate Hides(cluster: seq<Span>, from: nat, to: nat) {
    cluster != [] && cluster[0].start <= from && to <= MaxEnd(cluster) && Replacement(cluster) == "<redacted>"
  }

  /** A cluster with a marked span is marked, whether it is alone or merged with others. */
  lemma MarkedCluster(cluster: seq<Span>, s: Span)
    requires s in cluster && s.replacement == REDACTED
    ensures Replacement(cluster) == REDACTED
  {}

  /** Wherever a known secret stands in the text, a cluster that is replaced by the marker
      contains all of it: no character of it is copied, and nothing else is put in its
      place, not even next to or inside another span. */
  lemma SecretsReplaced(value: string, secrets: seq<string>, spans: seq<Span>, sorted: seq<Span>, i: nat,
      secret: string) returns (k: nat)
    requires LongestFirst(secrets) && secret in secrets && secret != "" && Occurs(value, i, secret)
    requires Sorted(sorted) && multiset(sorted) == multiset(spans) && AllInRange(spans, |value|)
    requires forall j | 0 <= j < |value| && SecretAt(value, j, secrets).Some? ::
        SecretAt(value, j, secrets).value in spans
    ensures k < |Clusters(sorted)| && Hides(Clusters(sorted)[k], i, i + |secret|)
    ensures forall p | i <= p < i + |secret| :: Covered(spans, p)
  {
    SecretAtLongest(value, i, secrets, secret);
    SecretAtIsSecret(value, i, secrets);
    OccursShort(value, i, secret);
    hide SecretAt, Clusters, MaxEnd, Sorted, Occurs;
    var s := SecretAt(value, i, secrets).value;
    SameSpans(spans, sorted, |value|);
    k := SpanInCluster(sorted, s);
    MarkedCluster(Clusters(sorted)[k], s);
    var j :| 0 <= j < |spans| && spans[j] == s;
    assert forall p | i <= p < i + |secret| :: Covers(spans[j], p);
  }

  lemma OccursShort(value: string, i: nat, secret: string)
    requires Occurs(value, i, secret) && secret != ""
    ensures i < |value|
  {}

  // ---------------------------------------------------------------- secrets of the environment

  predicate Break(c: char) { c == '\n' || c == '\r' }

  function FieldEnd(s: string, i: nat): (j: nat)
    requires i <= |s|
    ensures i <= j <= |s| && (forall k | i <= k < j :: !Break(s[k])) && (j < |s| ==> Break(s[j]))
    decreases |s| - i
  {
    if i == |s| || Break(s[i]) then i else FieldEnd(s, i + 1)
  }

  /** strings.FieldsFunc at CR and LF: the nonempty lines of a text from `i` on. */
  function Fields(s: string, i: nat): seq<string>
    requires i <= |s|
    decreases |s| - i
  {
    if i == |s| then []
    else if Break(s[i]) then Fields(s, i + 1)
    else
      var j := FieldEnd(s, i);
      [s[i..j]] + Fields(s, j)
  }

  /** A whole line of a text is one of its fields. */
  lemma {:induction false} WholeLineIsField(s: string, i: nat, a: nat, b: nat)
    requires i <= a < b <= |s| && (a == i || Break(s[a - 1])) && (b == |s| || Break(s[b])) && forall k | a <= k < b ::
        !Break(s[k])
    ensures s[a..b] in Fields(s, i)
    decreases |s| - i
  {
    if Break(s[i]) {
      WholeLineIsField(s, i + 1, a, b);
    } else {
      var j := FieldEnd(s, i);
      if a == i {
        assert j == b;
      } else {
        WholeLineIsField(s, j, a, b);
      }
    }
  }

  lemma {:induction false} FieldsNonEmpty(s: string, i: nat)
    requires i <= |s|
    ensures forall f | f in Fields(s, i) :: f != ""
    decreases |s| - i
  {
    if i < |s| {
      if Break(s[i]) { FieldsNonEmpty(s, i + 1); } else { FieldsNonEmpty(s, FieldEnd(s, i)); }
    }
  }

  /** strings.Cut at the first '='. */
  function CutAt(entry: string, i: nat): nat
    requires i <= |entry|
    decreases |entry| - i
  {
    if i == |entry| || entry[i] == '=' then i else CutAt(entry, i + 1)
  }

  lemma {:induction false} CutInRange(entry: string, i: nat)
    requires i <= |entry|
    ensures i <= CutAt(entry, i) <= |entry|
    decreases |entry| - i
  {
    if i < |entry| && entry[i] != '=' { CutInRange(entry, i + 1); }
  }

  /** The values an environment entry contributes: the whole secret and its lines. */
  function ValuesOf(entry: string, secretName: string -> bool): seq<string> {
    CutInRange(entry, 0);
    var k := CutAt(entry, 0);
    if k == |entry| || |entry[k + 1..]| < 4 || !secretName(entry[..k]) then []
    else [entry[k + 1..]] + Fields(entry[k + 1..], 0)
  }

  lemma ValuesNonEmpty(entry: string, secretName: string -> bool)
    ensures forall v | v in ValuesOf(entry, secretName) :: v != ""
  {
    CutInRange(entry, 0);
    var k := CutAt(entry, 0);
    if k < |entry| { FieldsNonEmpty(entry[k + 1..], 0); }
  }

  /** A nonempty line of a text. */
  ghost predicate LineOf(s: string, v: string) { exists a: nat, b: nat :: LineAt(s, v, a, b) }

  predicate LineAt(s: string, v: string, a: nat, b: nat) {
    && a < b <= |s| && v == s[a..b] && (forall k | a <= k < b :: s[k] != '\n' && s[k] != '\r')
    && (a == 0 || s[a - 1] == '\n' || s[a - 1] == '\r') && (b == |s| || s[b] == '\n' || s[b] == '\r')
  }

  lemma {:induction false} FieldsAreLines(s: string, i: nat, v: string)
    requires i <= |s| && v in Fields(s, i) && (i == 0 || Break(s[i - 1]) || i == |s| || Break(s[i]))
    ensures LineOf(s, v)
    decreases |s| - i
  {
    if i < |s| {
      if Break(s[i]) {
        FieldsAreLines(s, i + 1, v);
      } else {
        var j := FieldEnd(s, i);
        if v == s[i..j] {
          assert LineAt(s, v, i, j);
        } else {
          FieldsAreLines(s, j, v);
        }
      }
    }
  }

  /** What an entry of the environment contributes: if it is a name that stands for a secret
      and a value of at least four characters, the value and its lines, and nothing else. */
  lemma ValuesMean(name: string, secret: string, secretName: string -> bool, v: string)
    requires '=' !in name
    ensures v in ValuesOf(name + "=" + secret, secretName)
      <==> secretName(name) && |secret| >= 4 && (v == secret || LineOf(secret, v))
    ensures ValuesOf(name, secretName) == []
  {
    var entry := name + "=" + secret;
    CutAfter(entry, 0, |name|);
    CutAfter(name, 0, |name|);
    assert entry[..|name|] == name && entry[|name| + 1..] == secret;
    if v in Fields(secret, 0) { FieldsAreLines(secret, 0, v); }
    if LineOf(secret, v) {
      var a: nat, b: nat :| LineAt(secret, v, a, b);
      WholeLineIsField(secret, 0, a, b);
    }
  }

  lemma {:induction false} CutAfter(entry: string, i: nat, n: nat)
    requires i <= n <= |entry| && (forall k | i <= k < n :: entry[k] != '=') && (n < |entry| ==> entry[n] == '=')
    ensures CutAt(entry, i) == n
    decreases n - i
  {
    if i < n { CutAfter(entry, i + 1, n); }
  }

  /** sort.Slice by length, the longest first. */
  method SortByLength(secrets: seq<string>) returns (r: seq<string>)
    ensures LongestFirst(r) && forall s :: s in r <==> s in secrets
  {
    r := [];
    for n := 0 to |secrets|
      invariant LongestFirst(r) && forall s :: s in r <==> s in secrets[..n]
    {
      assert secrets[..n + 1] == secrets[..n] + [secrets[n]];
      var k := 0;
      while k < |r| && |r[k]| >= |secrets[n]|
        invariant k <= |r| && forall i | 0 <= i < k :: |r[i]| >= |secrets[n]|
      {
        k := k + 1;
      }
      assert r == r[..k] + r[k..];
      r := r[..k] + [secrets[n]] + r[k..];
    }
    assert secrets[..|secrets|] == secrets;
  }

  method CollectSecrets(environment: seq<string>, secretName: string -> bool) returns (secrets: seq<string>)
    ensures LongestFirst(secrets) && (forall s | s in secrets :: s != "")
    ensures forall s :: s in secrets <==> exists e :: e in environment && s in ValuesOf(e, secretName)
  {
    hide ValuesOf, LongestFirst;
    var found: seq<string>, seen: set<string> := [], {};
    for n := 0 to |environment|
      invariant forall s :: s in found <==> s in seen
      invariant forall s :: s in seen <==> exists k :: 0 <= k < n && s in ValuesOf(environment[k], secretName)
    {
      var values := ValuesOf(environment[n], secretName);
      ghost var before := seen;
      for i := 0 to |values|
        invariant forall s :: s in found <==> s in seen
        invariant forall s :: s in seen <==> s in before || s in values[..i]
      {
        assert values[..i + 1] == values[..i] + [values[i]];
        if values[i] !in seen {
          found := found + [values[i]];
          seen := seen + {values[i]};
        }
      }
      assert values[..|values|] == values;
    }
    secrets := SortByLength(found);
    forall s | s in secrets ensures s != "" {
      var k :| 0 <= k < |environment| && s in ValuesOf(environment[k], secretName);
      ValuesNonEmpty(environment[k], secretName);
    }
  }

  /** A span over a value of the environment. */
  ghost predicate SecretSpan(value: string, environment: seq<string>, secretName: string -> bool, s: Span) {
    InRange(s, |value|) && s.replacement == "<redacted>" && exists e ::
        e in environment && value[s.start..s.end] in ValuesOf(e, secretName)
  }

  /** `out` is the rendering of the structural spans and of spans over secrets, and of nothing
      else, and wherever a secret of the environment, or a whole line of one, stands in
      the text, the marker is put for a cluster that contains all of it. */
  ghost predicate Redaction(out: string, value: string, environment: seq<string>, secretName: string -> bool,
      structural: seq<Span>, spans: seq<Span>, sorted: seq<Span>) {
    && Ordered(sorted, spans) && AllInRange(sorted, |value|) && out == Rendered(value, sorted)
    && structural <= spans
    && (forall n | |structural| <= n < |spans| :: SecretSpan(value, environment, secretName, spans[n]))
    && (forall e, v, i: nat | e in environment && v in ValuesOf(e, secretName) && Occurs(value, i, v) ::
          Hidden(Clusters(sorted), i, i + |v|))
  }

  ghost predicate Hidden(clusters: seq<seq<Span>>, from: nat, to: nat) {
    exists k :: 0 <= k < |clusters| && Hides(clusters[k], from, to)
  }

  /** redactEnvironment; `structural` are the spans found by pattern. */
  method RedactEnvironment(value: string, environment: seq<string>, secretName: string -> bool, structural: seq<Span>)
      returns (out: string)
    requires AllInRange(structural, |value|)
    ensures exists spans, sorted :: Redaction(out, value, environment, secretName, structural, spans, sorted)
  {
    hide *;
    var secrets := CollectSecrets(environment, secretName);
    var spans := KnownSpans(value, secrets, structural);
    out := RenderDisclosure(value, spans);
    ghost var sorted := SomeOrder(out, value, spans);
    forall e, v, i: nat | e in environment && v in ValuesOf(e, secretName) && Occurs(value, i, v)
      ensures Hidden(Clusters(sorted), i, i + |v|)
    {
      var k := SecretsReplaced(value, secrets, spans, sorted, i, v);
      HiddenBy(Clusters(sorted), k, i, i + |v|);
    }
    forall n | |structural| <= n < |spans| ensures SecretSpan(value, environment, secretName, spans[n]) {
      FoundIsSecret(value, secrets, spans[n]);
      SecretSpanIs(value, environment, secretName, secrets, spans[n]);
    }
    RedactionIs(out, value, environment, secretName, structural, spans, sorted);
  }

  lemma HiddenBy(clusters: seq<seq<Span>>, k: nat, from: nat, to: nat)
    requires k < |clusters| && Hides(clusters[k], from, to)
    ensures Hidden(clusters, from, to)
  {
    hide Hides;
  }

  lemma FoundIsSecret(value: string, secrets: seq<string>, s: Span)
    requires Found(value, secrets, s)
    ensures InRange(s, |value|) && s.replacement == REDACTED && value[s.start..s.end] in secrets
  {
    var i :| 0 <= i < |value| && SecretAt(value, i, secrets) == Some(s);
    SecretAtIsSecret(value, i, secrets);
  }

  lemma SecretSpanIs(value: string, environment: seq<string>, secretName: string -> bool, secrets: seq<string>, s: Span)
    requires InRange(s, |value|) && s.replacement == REDACTED && value[s.start..s.end] in secrets
    requires forall v :: v in secrets <==> exists e :: e in environment && v in ValuesOf(e, secretName)
    ensures SecretSpan(value, environment, secretName, s)
  {}

  lemma RedactionIs(out: string, value: string, environment: seq<string>, secretName: string -> bool,
      structural: seq<Span>, spans: seq<Span>, sorted: seq<Span>)
    requires Sorted(sorted) && multiset(sorted) == multiset(spans) && AllInRange(sorted, |value|)
    requires out == Rendered(value, sorted) && structural <= spans
    requires forall n | |structural| <= n < |spans| :: SecretSpan(value, environment, secretName, spans[n])
    requires forall e, v, i: nat | e in environment && v in ValuesOf(e, secretName) && Occurs(value, i, v) ::
        Hidden(Clusters(sorted), i, i + |v|)
    ensures Redaction(out, value, environment, secretName, structural, spans, sorted)
  {
    hide SecretSpan, Hidden, Occurs, ValuesOf, Rendered, Sorted, AllInRange;
  }

  // ---------------------------------------------------------------- quoted paths

  predicate Quote(c: char) { c == '\'' || c == '"' }

  predicate OpensPath(value: string, i: nat) { i + 1 < |value| && Quote(value[i]) && value[i + 1] == '/' }

  function PathEnd(value: string, i: nat, quote: char): (j: nat)
    requires i <= |value|
    ensures i <= j <= |value|
    ensures forall k | i <= k < j :: value[k] != quote && !Break(value[k])
    ensures j < |value| ==> value[j] == quote || Break(value[j])
    decreases |value| - i
  {
    if i == |value| || value[i] == quote || Break(value[i]) then i else PathEnd(value, i + 1, quote)
  }

  function QuotedFrom(value: string, i: nat, disclosed: string -> string): seq<Span>
    requires i <= |value|
    decreases |value| - i
  {
    if i == |value| then []
    else if !OpensPath(value, i) then QuotedFrom(value, i + 1, disclosed)
    else
      var end := PathEnd(value, i + 1, value[i]);
      [Span(i + 1, end, disclosed(value[i + 1..end]))]
      + QuotedFrom(value, if end < |value| && value[end] == value[i] then end + 1 else end, disclosed)
  }

  /** A span of a quoted path: from the slash to the closing quote or the end of line. */
  predicate QuotedSpan(value: string, s: Span) {
    && 1 <= s.start < s.end <= |value| && OpensPath(value, s.start - 1)
    && (forall k | s.start <= k < s.end :: value[k] != value[s.start - 1] && !Break(value[k]))
    && (s.end < |value| ==> value[s.end] == value[s.start - 1] || Break(value[s.end]))
  }

  /** A position that some span accounts for. */
  predicate Accounted(spans: seq<Span>, p: nat) {
    exists i :: 0 <= i < |spans| && (spans[i].start == p + 1 || spans[i].start <= p <= spans[i].end)
  }

  lemma AccountedLater(first: Span, rest: seq<Span>, p: nat)
    ensures Accounted(rest, p) ==> Accounted([first] + rest, p)
    ensures first.start == p + 1 || first.start <= p <= first.end ==> Accounted([first] + rest, p)
  {
    var spans := [first] + rest;
    assert spans[0] == first;
    if Accounted(rest, p) {
      var i :| 0 <= i < |rest| && (rest[i].start == p + 1 || rest[i].start <= p <= rest[i].end);
      assert spans[i + 1] == rest[i];
    }
  }

  /** Every span found is that of a quoted path. */
  lemma {:induction false} QuotedSpansOnly(value: string, i: nat, disclosed: string -> string)
    requires i <= |value|
    ensures forall s | s in QuotedFrom(value, i, disclosed) :: QuotedSpan(value, s)
    decreases |value| - i
  {
    if i < |value| {
      if !OpensPath(value, i) {
        QuotedSpansOnly(value, i + 1, disclosed);
        assert QuotedFrom(value, i, disclosed) == QuotedFrom(value, i + 1, disclosed);
      } else {
        var end := PathEnd(value, i + 1, value[i]);
        var next := if end < |value| && value[end] == value[i] then end + 1 else end;
        var first := Span(i + 1, end, disclosed(value[i + 1..end]));
        assert end > i + 1;
        assert QuotedSpan(value, first);
        QuotedSpansOnly(value, next, disclosed);
        assert QuotedFrom(value, i, disclosed) == [first] + QuotedFrom(value, next, disclosed);
      }
    }
  }

  /** Every quoted absolute path starts a span, lies in one, or its quote closes one. */
  lemma {:induction false} QuotedPathsFound(value: string, i: nat, disclosed: string -> string)
    requires i <= |value|
    ensures forall p | i <= p < |value| && OpensPath(value, p) :: Accounted(QuotedFrom(value, i, disclosed), p)
    decreases |value| - i
  {
    if i < |value| {
      if !OpensPath(value, i) {
        hide OpensPath, Accounted;
        QuotedPathsFound(value, i + 1, disclosed);
      } else {
        var end := PathEnd(value, i + 1, value[i]);
        var first := Span(i + 1, end, disclosed(value[i + 1..end]));
        var next := if end < |value| && value[end] == value[i] then end + 1 else end;
        assert end > i + 1;
        hide OpensPath, Accounted;
        QuotedPathsFound(value, next, disclosed);
        forall p | i <= p < |value| && OpensPath(value, p) ensures Accounted(QuotedFrom(value, i, disclosed), p) {
          AccountedLater(first, QuotedFrom(value, next, disclosed), p);
        }
      }
    }
  }

  /** The first quoted path of a text, in characters: behind a text without quotes, a single
      or double quote and a slash start it, and it runs up to the same quote or the end of
      the line. Its span is replaced by what is disclosed of it. */
  lemma {:induction false} FirstQuotedPath(before: string, q: char, path: string, after: string,
                                           disclosed: string -> string)
    requires forall c | c in before :: c !in "'\""
    requires q in "'\"" && path != "" && path[0] == '/' && forall c | c in path :: c != q && c !in "\r\n"
    requires after == "" || after[0] == q || after[0] in "\r\n"
    ensures var spans := QuotedFrom(before + [q] + path + after, 0, disclosed);
      spans != [] && spans[0] == Span(|before| + 1, |before| + 1 + |path|, disclosed(path))
  {
    var value, i := before + [q] + path + after, |before|;
    forall k | 0 <= k < i ensures !OpensPath(value, k) {
      assert value[k] == before[k] && before[k] in before;
      var quotes := "'\"";
      assert quotes[0] == '\'' && quotes[1] == '"';
    }
    NoPathBefore(value, 0, i, disclosed);
    assert value[i] == q && value[i + 1] == path[0];
    forall k | i + 1 <= k < i + 1 + |path| ensures value[k] != q && !Break(value[k]) {
      assert value[k] == path[k - i - 1] && path[k - i - 1] in path;
      var breaks := "\r\n";
      assert breaks[0] == '\r' && breaks[1] == '\n';
    }
    if after != "" { assert value[i + 1 + |path|] == after[0]; }
    assert PathEnd(value, i + 1, q) == i + 1 + |path|;
    assert value[i + 1..i + 1 + |path|] == path;
    hide PathEnd;
  }

  lemma {:induction false} NoPathBefore(value: string, i: nat, n: nat, disclosed: string -> string)
    requires i <= n < |value| && forall k | i <= k < n :: !OpensPath(value, k)
    ensures QuotedFrom(value, i, disclosed) == QuotedFrom(value, n, disclosed)
    decreases n - i
  {
    hide OpensPath;
    if i < n { NoPathBefore(value, i + 1, n, disclosed); }
  }

  /** Every span is replaced by what is disclosed of the path it covers. */
  lemma {:induction false} QuotedDisclosed(value: string, i: nat, disclosed: string -> string)
    requires i <= |value|
    ensures forall s | s in QuotedFrom(value, i, disclosed) ::
      s.start <= s.end <= |value| && s.replacement == disclosed(value[s.start..s.end])
    decreases |value| - i
  {
    if i < |value| {
      if !OpensPath(value, i) {
        QuotedDisclosed(value, i + 1, disclosed);
      } else {
        var end := PathEnd(value, i + 1, value[i]);
        QuotedDisclosed(value, if end < |value| && value[end] == value[i] then end + 1 else end, disclosed);
      }
    }
  }

  /** quotedPathSpans. */
  method QuotedPathSpans(value: string, disclosed: string -> string) returns (spans: seq<Span>)
    ensures spans == QuotedFrom(value, 0, disclosed)
  {
    spans := [];
    var i := 0;
    while i < |value|
      invariant i <= |value| && QuotedFrom(value, 0, disclosed) == spans + QuotedFrom(value, i, disclosed)
    {
      var quote := value[i];
      if !Quote(quote) || i + 1 >= |value| || value[i + 1] != '/' {
        i := i + 1;
        continue;
      }
      var end := i + 1;
      while end < |value| && value[end] != quote && value[end] != '\n' && value[end] != '\r'
        invariant i + 1 <= end <= |value| && PathEnd(value, i + 1, quote) == PathEnd(value, end, quote)
      {
        end := end + 1;
      }
      spans := spans + [Span(i + 1, end, disclosed(value[i + 1..end]))];
      i := if end < |value| && value[end] == quote then end + 1 else end;
    }
  }
}
