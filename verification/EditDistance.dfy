/** editDistance (internal/cli/suggestions.go): two rows of a table compute the length
    of a shortest edit script. */
module EditDistance {
  import opened Wrappers

  // ---------------------------------------------------------------- scripts

  datatype Edit = Insert(at: nat, c: char) | Delete(at: nat) | Substitute(at: nat, c: char)

  predicate Fits(e: Edit, s: string) { if e.Insert? then e.at <= |s| else e.at < |s| }

  function Edited(e: Edit, s: string): string
    requires Fits(e, s)
  {
    match e
    case Insert(at, c) => s[..at] + [c] + s[at..]
    case Delete(at) => s[..at] + s[at + 1..]
    case Substitute(at, c) => s[..at] + [c] + s[at + 1..]
  }

  /** The result of the edits one after the other; None when one does not fit. */
  function Apply(script: seq<Edit>, s: string): Option<string>
    decreases |script|
  {
    if script == [] then Some(s)
    else if !Fits(script[0], s) then None
    else Apply(script[1..], Edited(script[0], s))
  }

  ghost predicate Turns(script: seq<Edit>, a: string, b: string) { Apply(script, a) == Some(b) }

  /** `n` edits are enough to turn `a` into `b` and fewer are not. */
  ghost predicate IsDistance(a: string, b: string, n: nat) {
    && (exists script :: Turns(script, a, b) && |script| == n)
    && (forall script | Turns(script, a, b) :: |script| >= n)
  }

  // ---------------------------------------------------------------- the table

  function Min(x: nat, y: nat): nat { if x < y then x else y }

  function Cost(x: char, y: char): nat { if x == y then 0 else 1 }

  function Init(s: string): string
    requires s != ""
  {
    s[..|s| - 1]
  }

  function Last(s: string): char
    requires s != ""
  {
    s[|s| - 1]
  }

  /** The entry of the table for two prefixes. */
  function Entry(a: string, b: string): nat
    decreases |a| + |b|
  {
    if a == "" then |b|
    else if b == "" then |a|
    else Min(Entry(Init(a), b) + 1, Min(Entry(a, Init(b)) + 1, Entry(Init(a), Init(b)) + Cost(Last(a), Last(b))))
  }

  // ---------------------------------------------------------------- a script of that length exists

  lemma {:induction false} ApplyConcat(p: seq<Edit>, q: seq<Edit>, s: string)
    ensures Apply(p + q, s) == if Apply(p, s).Some? then Apply(q, Apply(p, s).value) else None
    decreases |p|
  {
    if p == [] {
      assert p + q == q;
    } else if Fits(p[0], s) {
      assert (p + q)[1..] == p[1..] + q;
      ApplyConcat(p[1..], q, Edited(p[0], s));
    }
  }

  /** A script leaves text behind the part it works on alone. */
  lemma {:induction false} ApplyPrefix(script: seq<Edit>, s: string, tail: string)
    requires Apply(script, s).Some?
    ensures Apply(script, s + tail) == Some(Apply(script, s).value + tail)
    decreases |script|
  {
    if script != [] {
      var e := script[0];
      assert Edited(e, s + tail) == Edited(e, s) + tail by { EditPrefix(e, s, tail); }
      ApplyPrefix(script[1..], Edited(e, s), tail);
    }
  }

  lemma EditPrefix(e: Edit, s: string, tail: string)
    requires Fits(e, s)
    ensures Edited(e, s + tail) == Edited(e, s) + tail
  {
    assert (s + tail)[..e.at] == s[..e.at];
    assert (s + tail)[e.at..] == s[e.at..] + tail;
    if !e.Insert? { assert (s + tail)[e.at + 1..] == s[e.at + 1..] + tail; }
  }

  /** Removing everything, and writing everything. */
  lemma {:induction false} EraseScript(a: string) returns (script: seq<Edit>)
    ensures Turns(script, a, "") && |script| == |a|
  {
    if a == "" {
      script := [];
    } else {
      var rest := EraseScript(Init(a));
      script := [Delete(|a| - 1)] + rest;
      assert Edited(Delete(|a| - 1), a) == Init(a);
      assert script[1..] == rest;
    }
  }

  lemma {:induction false} WriteScript(b: string) returns (script: seq<Edit>)
    ensures Turns(script, "", b) && |script| == |b|
  {
    if b == "" {
      script := [];
    } else {
      var rest := WriteScript(Init(b));
      assert Init(b) + [Last(b)] == b;
      script := AppendStep(rest, "", Init(b), Last(b));
    }
  }

  /** One more insertion at the end. */
  lemma AppendStep(script: seq<Edit>, a: string, b: string, c: char) returns (more: seq<Edit>)
    requires Turns(script, a, b)
    ensures Turns(more, a, b + [c]) && |more| == |script| + 1
  {
    more := script + [Insert(|b|, c)];
    ApplyConcat(script, [Insert(|b|, c)], a);
    assert [Insert(|b|, c)][1..] == [];
    assert Edited(Insert(|b|, c), b) == b + [c];
  }

  /** The last characters handled by a substitution, or by nothing when they agree. */
  lemma SubstituteStep(script: seq<Edit>, a: string, b: string, x: char, y: char) returns (more: seq<Edit>)
    requires Turns(script, a, b)
    ensures Turns(more, a + [x], b + [y]) && |more| == |script| + Cost(x, y)
  {
    ApplyPrefix(script, a, [x]);
    if x == y {
      more := script;
    } else {
      var e := Substitute(|b|, y);
      more := script + [e];
      ApplyConcat(script, [e], a + [x]);
      assert [e][1..] == [];
      assert Edited(e, b + [x]) == b + [y];
    }
  }

  lemma {:induction false} ShortScript(a: string, b: string) returns (script: seq<Edit>)
    ensures Turns(script, a, b) && |script| == Entry(a, b)
    decreases |a| + |b|
  {
    if a == "" {
      script := WriteScript(b);
    } else if b == "" {
      script := EraseScript(a);
    } else {
      assert a == Init(a) + [Last(a)] && b == Init(b) + [Last(b)];
      var n := Entry(a, b);
      if n == Entry(Init(a), b) + 1 {
        var rest := ShortScript(Init(a), b);
        script := [Delete(|a| - 1)] + rest;
        assert Edited(Delete(|a| - 1), a) == Init(a) && script[1..] == rest;
      } else if n == Entry(a, Init(b)) + 1 {
        var rest := ShortScript(a, Init(b));
        script := AppendStep(rest, a, Init(b), Last(b));
      } else {
        var rest := ShortScript(Init(a), Init(b));
        script := SubstituteStep(rest, Init(a), Init(b), Last(a), Last(b));
      }
    }
  }

  // ---------------------------------------------------------------- no script is shorter

  lemma EntryBounds(a: string, b: string)
    requires a != "" && b != ""
    ensures Entry(a, b) <= Entry(Init(a), b) + 1 && Entry(a, b) <= Entry(a, Init(b)) + 1
    ensures Entry(a, b) <= Entry(Init(a), Init(b)) + Cost(Last(a), Last(b))
  {}

  lemma {:induction false} EntrySelf(a: string)
    ensures Entry(a, a) == 0
  {
    if a != "" { EntrySelf(Init(a)); }
  }

  lemma {:induction false} DropLast(s: string, c: char, t: string)
    ensures Entry(s, t) <= Entry(s + [c], t) + 1
    decreases |t|
  {
    var u := s + [c];
    assert Init(u) == s;
    if t != "" {
      DropLast(s, c, Init(t));
      if s != "" { EntryBounds(s, t); }
    }
  }

  lemma {:induction false} ChangeLast(s: string, x: char, y: char, t: string)
    ensures Entry(s + [x], t) <= Entry(s + [y], t) + 1
    decreases |t|
  {
    assert Init(s + [x]) == s && Init(s + [y]) == s;
    if t != "" {
      ChangeLast(s, x, y, Init(t));
      EntryBounds(s + [x], t);
    }
  }

  /** An edit before the last character. */
  lemma {:induction false} EditBeforeLast(u: string, v: string, x: char, t: string)
    requires forall k: nat | k <= |t| :: Entry(u, t[..k]) <= Entry(v, t[..k]) + 1
    requires |u| <= |v| + 1
    ensures Entry(u + [x], t) <= Entry(v + [x], t) + 1
    decreases |t|
  {
    assert Init(u + [x]) == u && Init(v + [x]) == v && t[..|t|] == t;
    if t != "" {
      assert t[..|t| - 1] == Init(t);
      forall k: nat | k <= |Init(t)| ensures Entry(u, Init(t)[..k]) <= Entry(v, Init(t)[..k]) + 1 {
        assert Init(t)[..k] == t[..k];
      }
      EditBeforeLast(u, v, x, Init(t));
      EntryBounds(u + [x], t);
    }
  }

  /** One edit changes the entry by at most one. */
  lemma {:induction false} EditCounts(e: Edit, s: string, t: string)
    requires Fits(e, s)
    ensures Entry(s, t) <= Entry(Edited(e, s), t) + 1
    decreases |s|
  {
    if e.Insert? && e.at == |s| {
      assert Edited(e, s) == s + [e.c];
      DropLast(s, e.c, t);
    } else if !e.Insert? && e.at == |s| - 1 {
      assert s == Init(s) + [Last(s)];
      if e.Delete? {
        assert Edited(e, s) == Init(s);
        if t != "" { EntryBounds(s, t); }
      } else {
        assert Edited(e, s) == Init(s) + [e.c];
        ChangeLast(Init(s), Last(s), e.c, t);
      }
    } else {
      var u, x := Init(s), Last(s);
      assert s == u + [x];
      EditPrefix(e, u, [x]);
      forall k: nat | k <= |t| ensures Entry(u, t[..k]) <= Entry(Edited(e, u), t[..k]) + 1 { EditCounts(e, u, t[..k]); }
      EditBeforeLast(u, Edited(e, u), x, t);
    }
  }

  lemma {:induction false} NoShorter(script: seq<Edit>, a: string, b: string)
    requires Turns(script, a, b)
    ensures |script| >= Entry(a, b)
    decreases |script|
  {
    if script == [] {
      EntrySelf(a);
    } else {
      EditCounts(script[0], a, b);
      NoShorter(script[1..], Edited(script[0], a), b);
    }
  }

  /** The table entry of two strings is the length of a shortest edit script. */
  lemma EntryIsDistance(a: string, b: string)
    ensures IsDistance(a, b, Entry(a, b))
  {
    var script := ShortScript(a, b);
    hide Entry, Apply;
    forall script | Turns(script, a, b) ensures |script| >= Entry(a, b) { NoShorter(script, a, b); }
  }

  // ---------------------------------------------------------------- it is a metric

  lemma {:induction false} EntrySymmetric(a: string, b: string)
    ensures Entry(a, b) == Entry(b, a)
    decreases |a| + |b|
  {
    if a != "" && b != "" {
      EntrySymmetric(Init(a), b);
      EntrySymmetric(a, Init(b));
      EntrySymmetric(Init(a), Init(b));
    }
  }

  /** Symmetric, zero exactly between equals, and subject to the triangle inequality. */
  lemma DistanceIsMetric(a: string, b: string, c: string)
    ensures Entry(a, b) == Entry(b, a)
    ensures Entry(a, b) == 0 <==> a == b
    ensures Entry(a, c) <= Entry(a, b) + Entry(b, c)
  {
    EntrySymmetric(a, b);
    EntrySelf(a);
    var p := ShortScript(a, b);
    var q := ShortScript(b, c);
    if Entry(a, b) == 0 { assert p == []; }
    ApplyConcat(p, q, a);
    NoShorter(p + q, a, c);
    hide Entry;
  }

  // ---------------------------------------------------------------- the code

  /** editDistance: one row of the table at a time. */
  method EditDistance(a: string, b: string) returns (n: nat)
    ensures IsDistance(a, b, n)
    ensures n == Entry(a, b)
  {
    hide Entry, Cost;
    var previous := new nat[|b| + 1](j => j);
    assert a[..0] == "";
    forall j | 0 <= j <= |b| ensures previous[j] == Entry(a[..0], b[..j]) { FirstRow(b[..j]); }
    for i := 0 to |a|
      invariant fresh(previous) && previous.Length == |b| + 1
      invariant forall j | 0 <= j <= |b| :: previous[j] == Entry(a[..i], b[..j])
    {
      var current := new nat[|b| + 1](_ => 0);
      current[0] := i + 1;
      FirstColumn(a[..i + 1]);
      assert b[..0] == "";
      for j := 0 to |b|
        invariant forall k | 0 <= k <= |b| :: previous[k] == Entry(a[..i], b[..k])
        invariant forall k | 0 <= k <= j :: current[k] == Entry(a[..i + 1], b[..k])
      {
        var cost := if a[i] != b[j] then 1 else 0;
        TableStep(a, b, i, j);
        current[j + 1] := Min(previous[j + 1] + 1, Min(current[j] + 1, previous[j] + cost));
      }
      previous := current;
    }
    assert a[..|a|] == a && b[..|b|] == b;
    EntryIsDistance(a, b);
    return previous[|b|];
  }

  lemma FirstRow(b: string)
    ensures Entry("", b) == |b|
  {}

  lemma FirstColumn(a: string)
    ensures Entry(a, "") == |a|
  {}

  lemma TableStep(a: string, b: string, i: nat, j: nat)
    requires i < |a| && j < |b|
    ensures Entry(a[..i + 1], b[..j + 1])
      == Min(Entry(a[..i], b[..j + 1])
          + 1, Min(Entry(a[..i + 1], b[..j]) + 1, Entry(a[..i], b[..j]) + if a[i] != b[j] then 1 else 0))
  {
    LastTaken(a, i);
    LastTaken(b, j);
    hide Init, Last;
    EntryStep(a[..i + 1], b[..j + 1]);
    hide Entry, Min;
  }

  lemma LastTaken(s: string, i: nat)
    requires i < |s|
    ensures Init(s[..i + 1]) == s[..i] && Last(s[..i + 1]) == s[i]
  {}

  lemma EntryStep(a: string, b: string)
    requires a != "" && b != ""
    ensures Entry(a, b)
        == Min(Entry(Init(a), b) + 1, Min(Entry(a, Init(b)) + 1, Entry(Init(a), Init(b)) + Cost(Last(a), Last(b))))
  {
    hide Init, Last, Min, Cost;
  }
}
