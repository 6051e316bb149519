/** Trimming a brief to its token budget (trim, sectionLen and render in
    internal/brief/brief.go). Lengths count characters; a token is four of them. */
module BriefTrim {

  datatype Section = Section(title: string, content: string, droppable: bool)

  // ---------------------------------------------------------------- rendering

  function SectionText(s: Section): string { "## " + s.title + "\n" + s.content + "\n" }

  function Render(sections: seq<Section>): string {
    if sections == [] then "" else SectionText(sections[0]) + Render(sections[1..])
  }

  /** sectionLen. */
  function SectionLen(s: Section): nat { 3 + |s.title| + 1 + |s.content| + 1 }

  function Total(sections: seq<Section>): nat {
    if sections == [] then 0 else SectionLen(sections[0]) + Total(sections[1..])
  }

  /** The sum over the sections is the length of the document. */
  lemma {:induction false} TotalIsLength(sections: seq<Section>)
    ensures Total(sections) == |Render(sections)|
  {
    if sections != [] { TotalIsLength(sections[1..]); }
  }

  // ---------------------------------------------------------------- what is kept

  /** All sections that must stay, and the first `k` of those that may go, in order. */
  function KeepFirst(sections: seq<Section>, k: nat): seq<Section>
    decreases |sections|
  {
    if sections == [] then []
    else if !sections[0].droppable then [sections[0]] + KeepFirst(sections[1..], k)
    else if k > 0 then [sections[0]] + KeepFirst(sections[1..], k - 1)
    else KeepFirst(sections[1..], 0)
  }

  function Droppables(sections: seq<Section>): seq<Section> {
    if sections == [] then []
    else (if sections[0].droppable then [sections[0]] else []) + Droppables(sections[1..])
  }

  function Essentials(sections: seq<Section>): seq<Section> {
    if sections == [] then []
    else (if sections[0].droppable then [] else [sections[0]]) + Essentials(sections[1..])
  }

  /** What is kept are all the essential sections and a prefix of the droppable ones. */
  lemma {:induction false} KeepFirstMeans(sections: seq<Section>, k: nat)
    ensures Essentials(KeepFirst(sections, k)) == Essentials(sections)
    ensures Droppables(KeepFirst(sections, k)) == if k <= |Droppables(sections)| then Droppables(sections)[..k]
        else Droppables(sections)
    decreases |sections|
  {
    if sections != [] {
      var s, rest := sections[0], sections[1..];
      var n := if s.droppable && k > 0 then k - 1 else k;
      KeepFirstMeans(rest, n);
      var kept := KeepFirst(sections, k);
      assert (s.droppable && k == 0) || kept == [s] + KeepFirst(rest, n);
      assert (s.droppable && k == 0) || kept[1..] == KeepFirst(rest, n);
    }
  }

  lemma {:induction false} KeepAll(sections: seq<Section>)
    ensures KeepFirst(sections, |Droppables(sections)|) == sections
  {
    if sections != [] {
      KeepAll(sections[1..]);
      assert sections == [sections[0]] + sections[1..];
    }
  }

  lemma {:induction false} KeepNone(sections: seq<Section>)
    ensures KeepFirst(sections, 0) == Essentials(sections)
  {
    if sections != [] { KeepNone(sections[1..]); }
  }

  /** Keeping one more is longer by exactly that section. */
  lemma {:induction false} KeepOneMore(sections: seq<Section>, k: nat)
    requires k < |Droppables(sections)|
    ensures Total(KeepFirst(sections, k + 1)) == Total(KeepFirst(sections, k)) + SectionLen(Droppables(sections)[k])
    decreases |sections|
  {
    var s, rest := sections[0], sections[1..];
    hide SectionLen;
    if !s.droppable {
      KeepOneMore(rest, k);
    } else if k > 0 {
      KeepOneMore(rest, k - 1);
    }
    assert KeepFirst(sections, k + 1)[1..] == KeepFirst(rest, if s.droppable then k else k + 1);
    assert (s.droppable && k == 0) || KeepFirst(sections, k)[1..] == KeepFirst(rest, if s.droppable then k - 1 else k);
  }

  lemma {:induction false} KeepMore(sections: seq<Section>, j: nat, k: nat)
    requires j < k <= |Droppables(sections)|
    ensures Total(KeepFirst(sections, j)) < Total(KeepFirst(sections, k))
    decreases k - j
  {
    KeepOneMore(sections, k - 1);
    if j < k - 1 { KeepMore(sections, j, k - 1); }
  }

  function Without(sections: seq<Section>, i: nat): seq<Section>
    requires i < |sections|
  {
    sections[..i] + sections[i + 1..]
  }

  /** Behind position `i` nothing may be dropped. */
  predicate NoneBehind(sections: seq<Section>, i: int) {
    forall j | 0 <= j < |sections| && i < j :: !sections[j].droppable
  }

  lemma NoneBehindStep(sections: seq<Section>, i: int)
    ensures i >= |sections| - 1 ==> NoneBehind(sections, i)
    ensures 0 <= i < |sections| && NoneBehind(sections, i) && !sections[i].droppable ==> NoneBehind(sections, i - 1)
  {}

  /** Removing the last droppable section of what is kept keeps one fewer. */
  lemma {:induction false} RemoveLast(sections: seq<Section>, k: nat, kept: seq<Section>, i: nat)
    requires kept == KeepFirst(sections, k) && 0 < k <= |Droppables(sections)| && i < |kept|
    requires kept[i].droppable && NoneBehind(kept, i)
    ensures Without(kept, i) == KeepFirst(sections, k - 1) && kept[i] == Droppables(sections)[k - 1]
    decreases |sections|
  {
    hide *;
    SomeSections(sections);
    var rest := sections[1..];
    var n := if sections[0].droppable then k - 1 else k;
    KeepStep(sections, k);
    var later := KeepFirst(rest, n);
    KeepFirstMeans(rest, n);
    CutShift(kept, sections[0], later, i);
    if i == 0 {
      NoneLeft(later);
      NoneTaken(Droppables(rest), n);
    } else {
      LaterSome(later, i - 1, Droppables(rest), n);
      RemoveLast(rest, n, later, i - 1);
    }
  }

  lemma LaterSome(later: seq<Section>, i: nat, all: seq<Section>, n: nat)
    requires i < |later| && later[i].droppable && n <= |all| && Droppables(later) == all[..n]
    ensures n > 0
  {
    SomeLeft(later, i);
  }

  lemma SomeSections(sections: seq<Section>)
    requires |Droppables(sections)| > 0
    ensures sections != []
  {}

  lemma TakenSome(all: seq<Section>, n: nat)
    requires n <= |all| && all[..n] != []
    ensures n > 0
  {}

  lemma CutShift(kept: seq<Section>, s: Section, later: seq<Section>, i: nat)
    requires kept == [s] + later && i < |kept|
    ensures NoneBehind(kept, i) ==> NoneBehind(later, i - 1)
    ensures i == 0 ==> kept[i] == s && Without(kept, i) == later
    ensures i > 0 ==> kept[i] == later[i - 1] && Without(kept, i) == [s] + Without(later, i - 1)
  {
    assert forall j | 0 <= j < |later| :: later[j] == kept[j + 1];
  }

  lemma NoneTaken(all: seq<Section>, n: nat)
    requires n <= |all| && all[..n] == []
    ensures n == 0
  {}

  /** What is kept of the first section and of the rest. */
  lemma KeepStep(sections: seq<Section>, k: nat)
    requires sections != [] && 0 < k <= |Droppables(sections)|
    ensures var s, rest := sections[0], sections[1..];
      var n := if s.droppable then k - 1 else k;
      && n <= |Droppables(rest)| && KeepFirst(sections, k) == [s] + KeepFirst(rest, n)
      && (n > 0 ==>
            && KeepFirst(sections, k - 1) == [s] + KeepFirst(rest, n - 1)
            && Droppables(sections)[k - 1] == Droppables(rest)[n - 1])
      && (n == 0 ==>
            && s.droppable && KeepFirst(sections, k - 1) == KeepFirst(rest, 0)
            && Droppables(sections)[k - 1] == s)
  {}

  lemma NoneLeft(sections: seq<Section>)
    requires NoneBehind(sections, -1)
    ensures Droppables(sections) == []
  {
    AllKept(sections);
    hide Droppables;
  }

  lemma {:induction false} AllKept(sections: seq<Section>)
    requires forall j | 0 <= j < |sections| :: !sections[j].droppable
    ensures Droppables(sections) == []
  {
    if sections != [] { AllKept(sections[1..]); }
  }

  lemma {:induction false} SomeLeft(sections: seq<Section>, i: nat)
    requires i < |sections| && sections[i].droppable
    ensures Droppables(sections) != []
  {
    if i > 0 { SomeLeft(sections[1..], i - 1); }
  }

  lemma {:induction false} NothingDroppable(sections: seq<Section>)
    requires Droppables(sections) == []
    ensures forall j | 0 <= j < |sections| :: !sections[j].droppable
  {
    if sections != [] {
      NothingDroppable(sections[1..]);
      assert forall j | 0 < j < |sections| :: sections[j] == sections[1..][j - 1];
    }
  }

  // ---------------------------------------------------------------- what is announced

  /** The note on one dropped section; `quoted` is the %q verb. */
  function Note(s: Section, quoted: string -> string): string { "section " + quoted(s.title) + " (budget)" }

  /** The notes on the droppable sections from the last down to number `k`. */
  function Notes(dropped: seq<Section>, k: nat, quoted: string -> string): seq<string>
    requires k <= |dropped|
    decreases |dropped|
  {
    if |dropped| == k then [] else [Note(dropped[|dropped| - 1], quoted)] + Notes(dropped[..|dropped| - 1], k, quoted)
  }

  lemma {:induction false} NotesMore(dropped: seq<Section>, k: nat, quoted: string -> string)
    requires 0 < k <= |dropped|
    ensures Notes(dropped, k - 1, quoted) == Notes(dropped, k, quoted) + [Note(dropped[k - 1], quoted)]
    decreases |dropped|
  {
    if |dropped| > k { NotesMore(dropped[..|dropped| - 1], k, quoted); }
  }

  /** The notes name the dropped sections from the bottom of the brief upwards. */
  lemma {:induction false} NotesMean(dropped: seq<Section>, k: nat, quoted: string -> string, n: nat)
    requires k <= |dropped| && n < |dropped| - k
    ensures |Notes(dropped, k, quoted)| == |dropped| - k
    ensures Notes(dropped, k, quoted)[n] == "section " + quoted(dropped[|dropped| - 1 - n].title) + " (budget)"
    decreases |dropped|
  {
    var less := dropped[..|dropped| - 1];
    if |less| > k {
      NotesMean(less, k, quoted, if n > 0 then n - 1 else 0);
    } else {
      assert Notes(less, k, quoted) == [];
    }
  }

  // ---------------------------------------------------------------- the budget

  /** `k` droppable sections fit and no more do. */
  ghost predicate Fitting(sections: seq<Section>, k: nat, budget: int) {
    && k <= |Droppables(sections)| && Total(KeepFirst(sections, k)) / 4 <= budget
    && forall j | k < j <= |Droppables(sections)| :: Total(KeepFirst(sections, j)) / 4 > budget
  }

  /** There is at most one such number, and there is one exactly when the essential
      sections fit on their own. */
  lemma FittingExists(sections: seq<Section>, budget: int)
    ensures (exists k :: Fitting(sections, k, budget)) <==> Total(Essentials(sections)) / 4 <= budget
    ensures forall j, k | Fitting(sections, j, budget) && Fitting(sections, k, budget) :: j == k
  {
    KeepNone(sections);
    if k :| Fitting(sections, k, budget) {
      if k > 0 { KeepMore(sections, 0, k); }
    }
    if Total(Essentials(sections)) / 4 <= budget { var k := LargestFitting(sections, |Droppables(sections)|, budget); }
  }

  lemma {:induction false} LargestFitting(sections: seq<Section>, n: nat, budget: int) returns (k: nat)
    requires n <= |Droppables(sections)| && Total(KeepFirst(sections, 0)) / 4 <= budget
    requires forall j | n < j <= |Droppables(sections)| :: Total(KeepFirst(sections, j)) / 4 > budget
    ensures Fitting(sections, k, budget)
    decreases n
  {
    if Total(KeepFirst(sections, n)) / 4 <= budget {
      k := n;
    } else {
      k := LargestFitting(sections, n - 1, budget);
    }
  }

  class Brief {
    var sections: seq<Section>
    var omitted: seq<string>

    constructor (sections: seq<Section>)
      ensures this.sections == sections && omitted == []
    {
      this.sections, omitted := sections, [];
    }

    /** `k` droppable sections of `before` are left and the others announced. */
    ghost predicate Left(before: seq<Section>, notes: seq<string>, k: nat, quoted: string -> string)
      reads this
    {
      && k <= |Droppables(before)| && sections == KeepFirst(before, k)
      && omitted == notes + Notes(Droppables(before), k, quoted)
    }

    /** trim: droppable sections go from the bottom, one at a time, until the document
        fits its budget. */
    method Trim(budget: int, quoted: string -> string) returns (ok: bool, ghost k: nat)
      modifies this
      ensures budget <= 0 ==> ok && sections == old(sections) && omitted == old(omitted)
      ensures budget > 0 ==> (ok <==> |Render(Essentials(old(sections)))| / 4 <= budget)
      ensures budget > 0
          ==> Left(old(sections), old(omitted), k, quoted) && if ok then Fitting(old(sections), k, budget) else k == 0
      ensures budget > 0 && ok ==> |Render(sections)| / 4 <= budget
    {
      k := |Droppables(sections)|;
      if budget <= 0 { return true, k; }
      hide *;
      ghost var before, notes := sections, omitted;
      var total := SumLengths();
      KeepAll(before);
      NoNotes(Droppables(before), quoted);
      assert notes + [] == notes;
      LeftWhen(this, before, notes, k, quoted);
      while total / 4 > budget
        invariant Left(before, notes, k, quoted) && total == Total(sections)
        invariant k <= |Droppables(before)| && forall j | k < j <= |Droppables(before)| ::
            Total(KeepFirst(before, j)) / 4 > budget
        decreases k
      {
        LeftMeans(this, before, notes, k, quoted);
        var dropped, after := DropLast(before, notes, k, quoted, total);
        if !dropped {
          NotFitting(before, budget);
          return false, k;
        }
        k := k - 1;
        total := after;
      }
      LeftMeans(this, before, notes, k, quoted);
      FittingWhen(before, k, budget);
      TotalIsLength(sections);
      TotalIsLength(Essentials(before));
      FittingExists(before, budget);
      return true, k;
    }

    /** One pass from the bottom: the last droppable section goes and is announced. */
    method DropLast(ghost before: seq<Section>, ghost notes: seq<string>, ghost k: nat, quoted: string -> string,
        total: nat)
      returns (dropped: bool, after: nat)
      requires Left(before, notes, k, quoted) && total == Total(sections)
      modifies this
      ensures dropped ==> k > 0 && Left(before, notes, k - 1, quoted) && after == Total(sections)
      ensures !dropped ==> k == 0 && sections == old(sections) && Left(before, notes, k, quoted)
    {
      hide *;
      LeftMeans(this, before, notes, k, quoted);
      after := total;
      KeepFirstMeans(before, k);
      var i := |sections| - 1;
      NoneBehindStep(sections, i);
      while i >= 0
        invariant -1 <= i < |sections| && sections == old(sections) && omitted == old(omitted) && after == total
        invariant NoneBehind(sections, i)
      {
        if sections[i].droppable {
          SomeLeft(sections, i);
          TakenSome(Droppables(before), k);
          RemoveLast(before, k, sections, i);
          NotesMore(Droppables(before), k, quoted);
          KeepOneMore(before, k - 1);
          NoteIs(sections[i], quoted);
          omitted := omitted + ["section " + quoted(sections[i].title) + " (budget)"];
          after := after - SectionLen(sections[i]);
          WithoutIs(sections, i);
          sections := sections[..i] + sections[i + 1..];
          LeftWhen(this, before, notes, k - 1, quoted);
          return true, after;
        }
        NoneBehindStep(sections, i);
        i := i - 1;
      }
      NoneLeft(sections);
      NoneTaken(Droppables(before), k);
      LeftWhen(this, before, notes, k, quoted);
      return false, after;
    }

    /** The running total before anything is dropped. */
    method SumLengths() returns (total: nat)
      ensures total == Total(sections)
    {
      hide SectionLen;
      total := 0;
      assert sections[0..] == sections;
      for i := 0 to |sections|
        invariant Total(sections) == total + Total(sections[i..])
      {
        assert sections[i..][0] == sections[i] && sections[i..][1..] == sections[i + 1..];
        total := total + SectionLen(sections[i]);
      }
      assert sections[|sections|..] == [];
    }
  }

  lemma LeftMeans(b: Brief, before: seq<Section>, notes: seq<string>, k: nat, quoted: string -> string)
    requires b.Left(before, notes, k, quoted)
    ensures k <= |Droppables(before)| && b.sections == KeepFirst(before, k)
        && b.omitted == notes + Notes(Droppables(before), k, quoted)
  {
    hide Droppables, KeepFirst, Notes;
  }

  lemma LeftWhen(b: Brief, before: seq<Section>, notes: seq<string>, k: nat, quoted: string -> string)
    requires k <= |Droppables(before)| && b.sections == KeepFirst(before, k)
        && b.omitted == notes + Notes(Droppables(before), k, quoted)
    ensures b.Left(before, notes, k, quoted)
  {
    hide Droppables, KeepFirst, Notes;
  }

  lemma WithoutIs(sections: seq<Section>, i: nat)
    requires i < |sections|
    ensures Without(sections, i) == sections[..i] + sections[i + 1..]
  {}

  lemma NoNotes(all: seq<Section>, quoted: string -> string)
    ensures Notes(all, |all|, quoted) == []
  {}

  lemma NoteIs(s: Section, quoted: string -> string)
    ensures Note(s, quoted) == "section " + quoted(s.title) + " (budget)"
  {}

  lemma FittingWhen(sections: seq<Section>, k: nat, budget: int)
    requires k <= |Droppables(sections)| && Total(KeepFirst(sections, k)) / 4 <= budget
    requires forall j | k < j <= |Droppables(sections)| :: Total(KeepFirst(sections, j)) / 4 > budget
    ensures Fitting(sections, k, budget)
  {
    hide Total, KeepFirst, Droppables;
  }

  lemma NotFitting(sections: seq<Section>, budget: int)
    requires Total(KeepFirst(sections, 0)) / 4 > budget
    ensures |Render(Essentials(sections))| / 4 > budget
  {
    KeepNone(sections);
    TotalIsLength(Essentials(sections));
    hide Total, KeepFirst, Render;
  }
}
