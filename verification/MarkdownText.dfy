/** The string functions that internal/mdstore/mdstore.go calls, and the laws of
    lines that its parser and printer rest on. */
module MarkdownText {

  // ---------------------------------------------------------------- trimming

  /** The ASCII white space of strings.TrimSpace. */
  predicate IsSpace(c: char) { 9 <= c as int <= 13 || c == ' ' }

  function TrimLeft(s: string): string {
    if s != "" && IsSpace(s[0]) then TrimLeft(s[1..]) else s
  }

  function TrimRight(s: string): string {
    if s != "" && IsSpace(s[|s| - 1]) then TrimRight(s[..|s| - 1]) else s
  }

  function TrimSpace(s: string): string { TrimRight(TrimLeft(s)) }

  predicate Blank(s: string) { TrimSpace(s) == "" }

  predicate Trimmed(s: string) { s == "" || (!IsSpace(s[0]) && !IsSpace(s[|s| - 1])) }

  predicate HasPrefix(s: string, p: string) { p <= s }

  predicate HasSuffix(s: string, p: string) { |p| <= |s| && s[|s| - |p|..] == p }

  lemma {:induction false} TrimLeftFacts(s: string)
    ensures TrimLeft(s) == "" || !IsSpace(TrimLeft(s)[0])
    ensures |TrimLeft(s)| <= |s| && TrimLeft(s) == s[|s| - |TrimLeft(s)|..]
    ensures forall i | 0 <= i < |s| - |TrimLeft(s)| :: IsSpace(s[i])
  {
    if s != "" && IsSpace(s[0]) {
      TrimLeftFacts(s[1..]);
      var t := TrimLeft(s);
      forall i | 0 <= i < |s| - |t| ensures IsSpace(s[i]) { assert i > 0 ==> s[i] == s[1..][i - 1]; }
    }
  }

  lemma {:induction false} TrimRightFacts(s: string)
    ensures TrimRight(s) == "" || !IsSpace(TrimRight(s)[|TrimRight(s)| - 1])
    ensures TrimRight(s) <= s
    ensures forall i | |TrimRight(s)| <= i < |s| :: IsSpace(s[i])
  {
    if s != "" && IsSpace(s[|s| - 1]) {
      TrimRightFacts(s[..|s| - 1]);
      forall i | |TrimRight(s)| <= i < |s| ensures IsSpace(s[i]) { assert i < |s| - 1 ==> s[i] == s[..|s| - 1][i]; }
    }
  }

  /** What is trimmed is white space at both ends and nothing else. */
  lemma TrimFacts(s: string) returns (i: nat)
    ensures Trimmed(TrimSpace(s)) && i + |TrimSpace(s)| <= |s| && TrimSpace(s) == s[i..i + |TrimSpace(s)|]
    ensures forall k | 0 <= k < i :: IsSpace(s[k])
    ensures forall k | i + |TrimSpace(s)| <= k < |s| :: IsSpace(s[k])
    ensures forall c | c in TrimSpace(s) :: c in s
  {
    TrimLeftFacts(s);
    TrimRightFacts(TrimLeft(s));
    var left, t := TrimLeft(s), TrimSpace(s);
    i := |s| - |left|;
    assert forall k | |t| <= k < |left| :: s[i + k] == left[k];
    forall k | i + |t| <= k < |s| ensures IsSpace(s[k]) { assert s[k] == left[k - i]; }
    hide TrimLeft, TrimRight;
  }

  lemma TrimmedStays(s: string)
    requires Trimmed(s)
    ensures TrimSpace(s) == s
  {}

  lemma {:induction false} TrimLeftAfter(pad: string, s: string)
    requires forall c | c in pad :: IsSpace(c)
    ensures TrimLeft(pad + s) == TrimLeft(s)
  {
    if pad == "" {
      assert pad + s == s;
    } else {
      assert (pad + s)[1..] == pad[1..] + s;
      TrimLeftAfter(pad[1..], s);
    }
  }

  /** Leading white space is ignored. */
  lemma TrimPadded(pad: string, s: string)
    requires (forall c | c in pad :: IsSpace(c)) && Trimmed(s)
    ensures TrimSpace(pad + s) == s
  {
    TrimLeftAfter(pad, s);
  }

  /** A string that starts with a visible character keeps it. */
  lemma TrimKeepsHead(s: string)
    requires s != "" && !IsSpace(s[0])
    ensures TrimSpace(s) != "" && TrimSpace(s)[0] == s[0]
  {
    var i := TrimFacts(s);
    assert i == 0;
  }

  /** The first character left is the first visible one. */
  lemma TrimHead(s: string, i: nat)
    requires i < |s| && !IsSpace(s[i]) && forall k | 0 <= k < i :: IsSpace(s[k])
    ensures TrimSpace(s) != "" && TrimSpace(s)[0] == s[i]
  {
    var j := TrimFacts(s);
    assert j <= i;
    assert !IsSpace(s[j]) || j >= i;
  }

  lemma BlankMeans(s: string)
    ensures Blank(s) <==> forall i | 0 <= i < |s| :: IsSpace(s[i])
  {
    var j := TrimFacts(s);
    if !Blank(s) { assert !IsSpace(s[j]); }
  }

  // ---------------------------------------------------------------- lines

  predicate NoBreak(s: string) { '\n' !in s }

  predicate Lines(lines: seq<string>) { forall i | 0 <= i < |lines| :: NoBreak(lines[i]) }

  /** strings.Split at line feeds. */
  function Split(s: string): (r: seq<string>)
    ensures r != []
  {
    if s == "" then [""]
    else if s[0] == '\n' then [""] + Split(s[1..])
    else
      var rest := Split(s[1..]);
      [[s[0]] + rest[0]] + rest[1..]
  }

  /** strings.Join with line feeds. */
  function Join(lines: seq<string>): string {
    if lines == [] then "" else if |lines| == 1 then lines[0] else lines[0] + "\n" + Join(lines[1..])
  }

  /** Every line followed by a line feed. */
  function Terminated(lines: seq<string>): string {
    if lines == [] then "" else lines[0] + "\n" + Terminated(lines[1..])
  }

  lemma {:induction false} SplitLines(s: string)
    ensures Lines(Split(s)) && Join(Split(s)) == s
    ensures forall i, c | 0 <= i < |Split(s)| && c in Split(s)[i] :: c in s
  {
    if s != "" {
      SplitLines(s[1..]);
      var rest := Split(s[1..]);
      if s[0] != '\n' {
        assert Split(s)[1..] == rest[1..];
        assert [s[0]] + Join(rest) == s;
        JoinHead([s[0]], rest);
      } else {
        assert Split(s)[1..] == rest;
      }
    }
  }

  lemma JoinHead(head: string, rest: seq<string>)
    requires rest != []
    ensures Join([head + rest[0]] + rest[1..]) == head + Join(rest)
  {
    var lines := [head + rest[0]] + rest[1..];
    assert lines[1..] == rest[1..];
    if |rest| > 1 {
      assert lines[1..] == rest[1..];
      assert head + rest[0] + "\n" + Join(rest[1..]) == head + (rest[0] + "\n" + Join(rest[1..]));
    }
  }

  lemma {:induction false} SplitLine(line: string, rest: string)
    requires NoBreak(line)
    ensures Split(line + "\n" + rest) == [line] + Split(rest)
  {
    var s := line + "\n" + rest;
    if line == "" {
      assert s[1..] == rest;
    } else {
      assert s[1..] == line[1..] + "\n" + rest;
      SplitLine(line[1..], rest);
      assert [line[0]] + line[1..] == line;
      assert ([line[1..]] + Split(rest))[1..] == Split(rest);
    }
  }

  lemma {:induction false} SplitOne(line: string)
    requires NoBreak(line)
    ensures Split(line) == [line]
  {
    if line != "" {
      SplitOne(line[1..]);
      assert [line[0]] + line[1..] == line;
    }
  }

  lemma {:induction false} SplitJoin(lines: seq<string>)
    requires lines != [] && Lines(lines)
    ensures Split(Join(lines)) == lines
  {
    if |lines| == 1 {
      SplitOne(lines[0]);
    } else {
      SplitJoin(lines[1..]);
      SplitLine(lines[0], Join(lines[1..]));
    }
  }

  lemma {:induction false} SplitTerminated(lines: seq<string>)
    requires Lines(lines)
    ensures Split(Terminated(lines)) == lines + [""]
  {
    if lines != [] {
      SplitTerminated(lines[1..]);
      SplitLine(lines[0], Terminated(lines[1..]));
    }
  }

  lemma {:induction false} TerminatedIsJoin(lines: seq<string>)
    requires lines != []
    ensures Terminated(lines) == Join(lines) + "\n"
  {
    if |lines| > 1 {
      TerminatedIsJoin(lines[1..]);
      assert lines[0] + "\n" + (Join(lines[1..]) + "\n") == lines[0] + "\n" + Join(lines[1..]) + "\n";
    } else {
      assert lines[0] + "\n" + "" == lines[0] + "\n";
    }
  }

  lemma {:induction false} TerminatedConcat(a: seq<string>, b: seq<string>)
    ensures Terminated(a + b) == Terminated(a) + Terminated(b)
  {
    if a == [] {
      assert a + b == b;
    } else {
      assert (a + b)[1..] == a[1..] + b;
      TerminatedConcat(a[1..], b);
      assert a[0] + "\n" + (Terminated(a[1..]) + Terminated(b)) == a[0] + "\n" + Terminated(a[1..]) + Terminated(b);
    }
  }

  lemma OneLine(line: string)
    ensures Terminated([line]) == line + "\n"
  {
    assert [line][1..] == [];
    assert line + "\n" + "" == line + "\n";
  }

  // ---------------------------------------------------------------- searching

  /** strings.Index; None for Go's -1. */
  function Index(s: string, sub: string): (r: int)
    ensures -1 <= r <= |s| - |sub| || r == -1
  {
    if |s| < |sub| then -1
    else if sub <= s then 0
    else if s == "" then -1
    else
      var k := Index(s[1..], sub);
      if k < 0 then -1 else k + 1
  }

  /** The first occurrence of a character, or none at all. */
  lemma {:induction false} IndexOf(s: string, c: char)
    ensures var k := Index(s, [c]);
      if k < 0 then c !in s else k < |s| && s[k] == c && c !in s[..k]
  {
    if s != "" && s[0] != c {
      IndexOf(s[1..], c);
      var k := Index(s[1..], [c]);
      assert [c][0] == c;
      if k < 0 {
        assert s == [s[0]] + s[1..];
      } else {
        assert s[..k + 1] == [s[0]] + s[1..][..k];
      }
    } else if s != "" {
      assert [c] <= s;
    }
  }

  lemma IndexAt(head: string, c: char, rest: string)
    requires c !in head
    ensures Index(head + [c] + rest, [c]) == |head|
  {
    var s := head + [c] + rest;
    IndexOf(s, c);
    var k := Index(s, [c]);
    assert s[|head|] == c;
    assert c in s;
    assert forall i | 0 <= i < |head| :: s[i] == head[i];
    assert forall i | 0 <= i < k :: s[..k][i] == s[i];
  }

  // ---------------------------------------------------------------- line ends

  /** strings.ReplaceAll of CRLF by LF: one pass. */
  function Normalize(raw: string): string {
    if raw == "" then ""
    else if "\r\n" <= raw then "\n" + Normalize(raw[2..])
    else [raw[0]] + Normalize(raw[1..])
  }

  predicate NoCr(s: string) { '\r' !in s }

  predicate NoCrs(lines: seq<string>) { forall i | 0 <= i < |lines| :: NoCr(lines[i]) }

  lemma {:induction false} NormalizeStays(s: string)
    requires NoCr(s)
    ensures Normalize(s) == s
  {
    if s != "" {
      assert s[0] in s && s[0] != '\r';
      NormalizeStays(s[1..]);
      assert [s[0]] + s[1..] == s;
    }
  }

  /** A CRLF line end somewhere in the text. */
  predicate Crlf(s: string) { exists i :: 0 <= i < |s| - 1 && s[i] == '\r' && s[i + 1] == '\n' }

  /** Normalizing works piece by piece unless a CRLF is cut in two. */
  lemma {:induction false} NormalizeConcat(a: string, b: string)
    requires a == "" || b == "" || a[|a| - 1] != '\r' || b[0] != '\n'
    ensures Normalize(a + b) == Normalize(a) + Normalize(b)
  {
    var s := a + b;
    if a == "" {
      assert s == b;
    } else if "\r\n" <= a {
      assert s[..2] == a[..2] && s[2..] == a[2..] + b;
      NormalizeConcat(a[2..], b);
      assert "\n" + (Normalize(a[2..]) + Normalize(b)) == "\n" + Normalize(a[2..]) + Normalize(b);
    } else {
      assert s[0] == a[0] && s[1..] == a[1..] + b;
      assert |a| >= 2 ==> s[1] == a[1] && a[..2] == [a[0], a[1]];
      NotCrlf(a, b);
      NormalizeConcat(a[1..], b);
      assert [a[0]] + (Normalize(a[1..]) + Normalize(b)) == [a[0]] + Normalize(a[1..]) + Normalize(b);
    }
  }

  lemma NotCrlf(a: string, b: string)
    requires a != "" && !("\r\n" <= a) && (b == "" || a[|a| - 1] != '\r' || b[0] != '\n')
    ensures !("\r\n" <= a + b)
  {
    var s := a + b;
    assert s[0] == a[0];
    if |a| >= 2 {
      assert s[1] == a[1];
      assert a[..2] == [a[0], a[1]];
    } else if b != "" {
      assert s[1] == b[0];
    }
  }

  lemma {:induction false} NormalizeSame(s: string)
    ensures |Normalize(s)| <= |s| && (Normalize(s) == s <==> !Crlf(s))
    ensures |Normalize(s)| < |s| <==> Crlf(s)
  {
    if s == "" {
    } else if "\r\n" <= s {
      assert s[0] == '\r' && s[1] == '\n';
      NormalizeSame(s[2..]);
    } else {
      NormalizeSame(s[1..]);
      assert s == [s[0]] + s[1..];
      CrlfTail(s);
    }
  }

  lemma CrlfTail(s: string)
    requires s != "" && !("\r\n" <= s)
    ensures Crlf(s) <==> Crlf(s[1..])
  {
    var t := s[1..];
    assert forall i | 0 <= i < |t| :: t[i] == s[i + 1];
    assert |s| >= 2 ==> s[..2] == [s[0], s[1]];
    if Crlf(s) {
      var i :| 0 <= i < |s| - 1 && s[i] == '\r' && s[i + 1] == '\n';
      assert t[i - 1] == '\r' && t[i] == '\n';
    }
    if Crlf(t) {
      var i :| 0 <= i < |t| - 1 && t[i] == '\r' && t[i + 1] == '\n';
      assert s[i + 1] == '\r' && s[i + 2] == '\n';
    }
  }

  /** Whether a line ends in CR, and the line without it. */
  predicate EndsCr(line: string) { line != "" && line[|line| - 1] == '\r' }

  function Chomp(line: string): string { if EndsCr(line) then line[..|line| - 1] else line }

  function Chomped(lines: seq<string>): seq<string> {
    if lines == [] then [] else [Chomp(lines[0])] + Chomped(lines[1..])
  }

  /** No line ends in CR. */
  predicate NoEndCr(lines: seq<string>) { forall i | 0 <= i < |lines| :: !EndsCr(lines[i]) }

  lemma NormalizeCases(s: string)
    ensures s == "" ==> Normalize(s) == ""
    ensures "\r\n" <= s ==> |s| >= 2 && Normalize(s) == "\n" + Normalize(s[2..])
    ensures s != "" && !("\r\n" <= s) ==> Normalize(s) == [s[0]] + Normalize(s[1..])
  {}

  lemma {:induction false} NormalizeLine(line: string, rest: string)
    requires NoBreak(line)
    ensures Normalize(line + "\n" + rest) == Chomp(line) + "\n" + Normalize(rest)
  {
    var text := line + "\n" + rest;
    NormalizeCases(text);
    hide Normalize;
    if line == "" {
      assert text == "\n" + rest && text[1..] == rest;
    } else if line == "\r" {
      assert text == "\r\n" + rest && text[2..] == rest;
      assert "\r\n" <= text;
    } else {
      NoPair(line, rest);
      assert text[1..] == line[1..] + "\n" + rest && text[0] == line[0];
      NormalizeLine(line[1..], rest);
      ChompMore(line);
      Regrouped([line[0]], Chomp(line[1..]), Normalize(rest));
    }
  }

  lemma NoPair(line: string, rest: string)
    requires NoBreak(line) && line != "" && line != "\r"
    ensures !("\r\n" <= line + "\n" + rest)
  {
    var text := line + "\n" + rest;
    assert text[0] == line[0];
    if |line| > 1 { assert text[1] == line[1] && line[1] in line; }
  }

  lemma ChompMore(line: string)
    requires line != "" && line != "\r"
    ensures [line[0]] + Chomp(line[1..]) == Chomp(line)
  {}

  lemma Regrouped(a: string, b: string, c: string)
    ensures a + (b + "\n" + c) == a + b + "\n" + c
  {}

  /** On whole lines normalizing takes one CR off the end of each. */
  lemma {:induction false} NormalizeLines(lines: seq<string>)
    requires Lines(lines)
    ensures Normalize(Terminated(lines)) == Terminated(Chomped(lines)) && Lines(Chomped(lines))
        && |Chomped(lines)| == |lines|
    ensures NoEndCr(lines) ==> Chomped(lines) == lines
  {
    if lines != [] {
      NormalizeLine(lines[0], Terminated(lines[1..]));
      NormalizeLines(lines[1..]);
      assert lines == [lines[0]] + lines[1..];
    }
  }

  lemma {:induction false} ChompedConcat(a: seq<string>, b: seq<string>)
    ensures Chomped(a + b) == Chomped(a) + Chomped(b)
  {
    if a == [] {
      assert a + b == b;
    } else {
      assert (a + b)[1..] == a[1..] + b;
      ChompedConcat(a[1..], b);
    }
  }

  lemma {:induction false} ChompedShorter(lines: seq<string>)
    requires Lines(lines)
    ensures |Terminated(Chomped(lines))| <= |Terminated(lines)|
    ensures |Terminated(Chomped(lines))| == |Terminated(lines)| <==> NoEndCr(lines)
  {
    if lines != [] {
      ChompedShorter(lines[1..]);
      assert lines == [lines[0]] + lines[1..];
    }
  }

  /** A text of whole lines has a CRLF where a line ends in CR, and nowhere else. */
  lemma CrlfLines(lines: seq<string>)
    requires Lines(lines)
    ensures Crlf(Terminated(lines)) <==> !NoEndCr(lines)
  {
    hide Crlf, NoEndCr, Normalize;
    NormalizeSame(Terminated(lines));
    NormalizeLines(lines);
    ChompedShorter(lines);
  }

  /** White space at the end, such as a CR, is trimmed anyway. */
  lemma ChompTrims(line: string)
    ensures TrimSpace(Chomp(line)) == TrimSpace(line)
  {
    if EndsCr(line) { TrimRightPad(line[..|line| - 1], "\r"); assert line == line[..|line| - 1] + "\r"; }
  }

  lemma {:induction false} TrimRightPad(s: string, pad: string)
    requires forall c | c in pad :: IsSpace(c)
    ensures TrimSpace(s + pad) == TrimSpace(s)
  {
    if s == "" {
      assert s + pad == pad + "";
      TrimLeftAfter(pad, "");
    } else if IsSpace(s[0]) {
      assert (s + pad)[1..] == s[1..] + pad;
      TrimRightPad(s[1..], pad);
    } else {
      assert (s + pad)[0] == s[0];
      TrimRightAfter(s, pad);
    }
  }

  lemma {:induction false} TrimRightAfter(s: string, pad: string)
    requires forall c | c in pad :: IsSpace(c)
    ensures TrimRight(s + pad) == TrimRight(s)
  {
    if pad == "" {
      assert s + pad == s;
    } else {
      var t := s + pad;
      assert t[|t| - 1] == pad[|pad| - 1] && t[..|t| - 1] == s + pad[..|pad| - 1];
      TrimRightAfter(s, pad[..|pad| - 1]);
    }
  }
}
