/** What hand-written frontmatter values read as (clean, unescapeDouble, splitTop and
    GetList in internal/mdstore/mdstore.go): values as a sequence of characters and
    quoted texts, where comments start, what quotes stand for, which commas split. */
module MarkdownValues {
  import opened Wrappers
  import opened MarkdownText
  import opened MarkdownCodec
  import MarkdownOutline

  /** A character in double quotes, or a backslash and the character after it. */
  datatype Char = Plain(c: char) | Escaped(c: char)

  /** A character outside quotes, or a text in single or double quotes. */
  datatype Token = Bare(c: char) | Single(text: string) | Double(chars: seq<Char>)

  predicate GoodChar(x: Char) { x.Plain? ==> x.c != '"' && x.c != '\\' }

  predicate Good(t: Token) {
    match t
    case Bare(c) => c != '"' && c != '\''
    case Single(text) => '\'' !in text
    case Double(chars) => forall i | 0 <= i < |chars| :: GoodChar(chars[i])
  }

  predicate AllGood(ts: seq<Token>) { forall i | 0 <= i < |ts| :: Good(ts[i]) }

  function CharText(x: Char): string { if x.Plain? then [x.c] else ['\\', x.c] }

  function CharsText(xs: seq<Char>): string { if xs == [] then "" else CharText(xs[0]) + CharsText(xs[1..]) }

  function TokenText(t: Token): string {
    match t
    case Bare(c) => [c]
    case Single(text) => "'" + text + "'"
    case Double(chars) => "\"" + CharsText(chars) + "\""
  }

  function Text(ts: seq<Token>): string { if ts == [] then "" else TokenText(ts[0]) + Text(ts[1..]) }

  /** A quote that is opened and never closed runs to the end of the value. */
  datatype Rest = Nothing | OpenSingle(text: string) | OpenDouble(chars: seq<Char>, last: string)

  predicate GoodRest(r: Rest) {
    match r
    case Nothing => true
    case OpenSingle(text) => '\'' !in text
    case OpenDouble(chars, last) => (last == "" || last == "\\") && forall i | 0 <= i < |chars| :: GoodChar(chars[i])
  }

  function RestText(r: Rest): string {
    match r
    case Nothing => ""
    case OpenSingle(text) => "'" + text
    case OpenDouble(chars, last) => "\"" + CharsText(chars) + last
  }

  /** Every value is tokens and a rest. */
  lemma {:induction false} Lexed(v: string) returns (ts: seq<Token>, r: Rest)
    ensures AllGood(ts) && GoodRest(r) && v == Text(ts) + RestText(r)
    decreases |v|
  {
    if v == "" {
      ts, r := [], Nothing;
    } else {
      var t, rest, n := LexedOne(v);
      hide Good, GoodRest, RestText, TokenText;
      if rest != Nothing {
        ts, r := [], rest;
        assert Text([]) + RestText(rest) == RestText(rest);
      } else {
        var more, last := Lexed(v[n..]);
        ts, r := [t] + more, last;
        assert v == v[..n] + v[n..];
        Prepended(t, more, last, v[n..]);
      }
    }
  }

  /** The first token, or a quote that is never closed. */
  ghost predicate First(v: string, t: Token, r: Rest, n: nat) {
    if r != Nothing then GoodRest(r) && v == RestText(r) else 0 < n <= |v| && Good(t) && v[..n] == TokenText(t)
  }

  lemma LexedOne(v: string) returns (t: Token, r: Rest, n: nat)
    requires v != ""
    ensures First(v, t, r, n)
  {
    if v[0] == '\'' {
      t, r, n := LexedSingle(v);
    } else if v[0] == '"' {
      t, r, n := LexedDouble(v);
    } else {
      t, r, n := Bare(v[0]), Nothing, 1;
    }
  }

  lemma LexedSingle(v: string) returns (t: Token, r: Rest, n: nat)
    requires v != "" && v[0] == '\''
    ensures First(v, t, r, n)
  {
    t, r, n := Bare(' '), Nothing, 0;
    IndexOf(v[1..], '\'');
    var k := Index(v[1..], "'");
    hide Index;
    if k < 0 {
      r := OpenSingle(v[1..]);
      assert v == "'" + v[1..];
    } else {
      t, n := Single(v[1..][..k]), k + 2;
      assert v[..n] == "'" + v[1..][..k] + "'";
    }
  }

  lemma LexedDouble(v: string) returns (t: Token, r: Rest, n: nat)
    requires v != "" && v[0] == '"'
    ensures First(v, t, r, n)
  {
    t, r, n := Bare(' '), Nothing, 0;
    var xs, k := LexedChars(v[1..]);
    hide CharsText, GoodChar;
    var after := v[1..][k..];
    if after == "" || after == "\\" {
      r := OpenDouble(xs, after);
      assert v == "\"" + v[1..][..k] + after;
    } else {
      t, n := Double(xs), k + 2;
      assert v[..n] == "\"" + v[1..][..k] + "\"";
    }
  }

  lemma Prepended(t: Token, more: seq<Token>, rest: Rest, tail: string)
    requires Good(t) && AllGood(more) && tail == Text(more) + RestText(rest)
    ensures AllGood([t] + more) && Text([t] + more) + RestText(rest) == TokenText(t) + tail
  {
    hide TokenText, RestText, Good;
    assert ([t] + more)[1..] == more;
    assert TokenText(t) + Text(more) + RestText(rest) == TokenText(t) + (Text(more) + RestText(rest));
  }

  /** Characters up to a double quote, the end or a last backslash. */
  lemma {:induction false} LexedChars(v: string) returns (xs: seq<Char>, k: nat)
    ensures k <= |v| && v[..k] == CharsText(xs) && forall i | 0 <= i < |xs| :: GoodChar(xs[i])
    ensures v[k..] == "" || v[k..] == "\\" || v[k] == '"'
    decreases |v|
  {
    if v == "" || v == "\\" || v[0] == '"' {
      xs, k := [], 0;
      assert v[0..] == v;
    } else if v[0] == '\\' {
      var more, n := LexedChars(v[2..]);
      xs, k := [Escaped(v[1])] + more, n + 2;
      assert xs[1..] == more && v[..k] == [v[0], v[1]] + v[2..][..n] && v[k..] == v[2..][n..];
    } else {
      var more, n := LexedChars(v[1..]);
      xs, k := [Plain(v[0])] + more, n + 1;
      assert xs[1..] == more && v[..k] == [v[0]] + v[1..][..n] && v[k..] == v[1..][n..];
    }
  }

  // ---------------------------------------------------------------- comments

  /** A hash behind a blank or a tab, outside quotes. */
  predicate CommentAt(ts: seq<Token>, k: nat) {
    0 < k < |ts| && ts[k] == Bare('#') && (ts[k - 1] == Bare(' ') || ts[k - 1] == Bare('\t'))
  }

  predicate NoComment(ts: seq<Token>) { forall k | 0 <= k < |ts| :: !CommentAt(ts, k) }

  predicate BlankBefore(v: string, i: nat) { 0 < i <= |v| && (v[i - 1] == ' ' || v[i - 1] == '\t') }

  lemma SingleScanned(v: string, i: nat, text: string)
    requires At(v, i, text) && '\'' !in text
    ensures CommentCut(v, i, Some('\'')) == CommentCut(v, i + |text|, Some('\''))
  {
    AtChars(v, i, text);
    hide At, CommentCut;
    SingleSkipped(v, i, i + |text|);
  }

  lemma {:induction false} SingleSkipped(v: string, i: nat, j: nat)
    requires i <= j <= |v| && forall k | i <= k < j :: v[k] != '\''
    ensures CommentCut(v, i, Some('\'')) == CommentCut(v, j, Some('\''))
    decreases j - i
  {
    if i < j { SingleSkipped(v, i + 1, j); }
  }

  lemma {:induction false} DoubleScanned(v: string, i: nat, xs: seq<Char>)
    requires At(v, i, CharsText(xs)) && forall k | 0 <= k < |xs| :: GoodChar(xs[k])
    ensures CommentCut(v, i, Some('"')) == CommentCut(v, i + |CharsText(xs)|, Some('"'))
    decreases |xs|
  {
    if xs != [] {
      AtSplit(v, i, CharText(xs[0]), CharsText(xs[1..]));
      AtChars(v, i, CharText(xs[0]));
      hide At, CharsText;
      CharStep(xs);
      DoubleScanned(v, i + |CharText(xs[0])|, xs[1..]);
    }
  }

  lemma CharStep(xs: seq<Char>)
    requires xs != []
    ensures CharsText(xs) == CharText(xs[0]) + CharsText(xs[1..])
    ensures |CharsText(xs)| == |CharText(xs[0])| + |CharsText(xs[1..])|
  {}

  /** Looking for a comment goes over any token but a hash behind a blank. */
  lemma TokenScanned(v: string, i: nat, t: Token)
    requires At(v, i, TokenText(t)) && Good(t) && !(t == Bare('#') && BlankBefore(v, i))
    ensures CommentCut(v, i, None) == CommentCut(v, i + |TokenText(t)|, None)
  {
    match t
    case Bare(c) =>
      BareScanned(v, i, c);
    case Single(text) =>
      QuoteAt(v, i, '\'', text);
      hide CommentCut, At;
      SingleScanned(v, i + 1, text);
      QuotesScanned(v, i, '\'', |text|);
    case Double(xs) =>
      QuoteAt(v, i, '"', CharsText(xs));
      hide CommentCut, At, CharsText;
      DoubleScanned(v, i + 1, xs);
      QuotesScanned(v, i, '"', |CharsText(xs)|);
  }

  lemma BareScanned(v: string, i: nat, c: char)
    requires At(v, i, [c]) && c != '"' && c != '\'' && !(c == '#' && BlankBefore(v, i))
    ensures CommentCut(v, i, None) == CommentCut(v, i + 1, None)
  {
    AtChars(v, i, [c]);
    hide At;
    assert v[i] == c;
  }

  lemma QuoteAt(v: string, i: nat, q: char, text: string)
    requires At(v, i, [q] + text + [q])
    ensures At(v, i + 1, text) && i + |text| + 1 < |v| && v[i] == q && v[i + 1 + |text|] == q
  {
    assert [q] + text + [q] == [q] + (text + [q]);
    AtSplit(v, i, [q], text + [q]);
    AtSplit(v, i + 1, text, [q]);
    AtChars(v, i, [q]);
    AtChars(v, i + 1 + |text|, [q]);
  }

  lemma QuotesScanned(v: string, i: nat, q: char, n: nat)
    requires (q == '"' || q == '\'') && i + n + 1 < |v| && v[i] == q && v[i + 1 + n] == q
    requires CommentCut(v, i + 1, Some(q)) == CommentCut(v, i + 1 + n, Some(q))
    ensures CommentCut(v, i, None) == CommentCut(v, i + n + 2, None)
  {}

  /** What stands before a token is a blank only if the token before it is one. */
  lemma LastChar(v: string, i: nat, t: Token)
    requires At(v, i, TokenText(t)) && Good(t)
    ensures BlankBefore(v, i + |TokenText(t)|) <==> t == Bare(' ') || t == Bare('\t')
  {
    AtChars(v, i, TokenText(t));
    var text := TokenText(t);
    assert v[i + |text| - 1] == text[|text| - 1];
    hide CharsText;
  }

  lemma TextStep(ts: seq<Token>)
    requires ts != []
    ensures Text(ts) == TokenText(ts[0]) + Text(ts[1..]) && TokenText(ts[0]) != ""
    ensures |Text(ts)| == |TokenText(ts[0])| + |Text(ts[1..])|
  {
    hide CharsText;
  }

  /** Tokens that can be gone over from position `i`. */
  ghost predicate Scans(v: string, i: nat, ts: seq<Token>) {
    && At(v, i, Text(ts)) && AllGood(ts) && NoComment(ts)
    && (ts != [] && ts[0] == Bare('#') ==> !BlankBefore(v, i))
  }

  lemma ScansStep(v: string, i: nat, ts: seq<Token>)
    requires Scans(v, i, ts) && ts != []
    ensures Scans(v, i + |TokenText(ts[0])|, ts[1..]) && i + |TokenText(ts[0])| <= |v|
    ensures CommentCut(v, i, None) == CommentCut(v, i + |TokenText(ts[0])|, None)
    ensures |Text(ts)| == |TokenText(ts[0])| + |Text(ts[1..])|
  {
    hide *;
    var t, rest := ts[0], ts[1..];
    var j := i + |TokenText(t)|;
    ScansParts(v, i, ts);
    TextStep(ts);
    AtSplit(v, i, TokenText(t), Text(rest));
    AtChars(v, i, TokenText(t));
    FirstGood(ts);
    LaterComments(ts);
    TokenScanned(v, i, t);
    LastChar(v, i, t);
    ScansFits(v, j, rest);
  }

  lemma ScansParts(v: string, i: nat, ts: seq<Token>)
    requires Scans(v, i, ts)
    ensures At(v, i, Text(ts)) && AllGood(ts) && NoComment(ts)
    ensures ts != [] && ts[0] == Bare('#') ==> !BlankBefore(v, i)
  {
    hide At, Text, AllGood, NoComment, BlankBefore;
  }

  lemma ScansFits(v: string, i: nat, ts: seq<Token>)
    requires At(v, i, Text(ts)) && AllGood(ts) && NoComment(ts)
    requires ts != [] && ts[0] == Bare('#') ==> !BlankBefore(v, i)
    ensures Scans(v, i, ts)
  {
    hide At, Text, AllGood, NoComment, BlankBefore;
  }

  lemma {:induction false} TokensScanned(v: string, i: nat, ts: seq<Token>)
    requires Scans(v, i, ts)
    ensures i + |Text(ts)| <= |v| && CommentCut(v, i, None) == CommentCut(v, i + |Text(ts)|, None)
    decreases |ts|
  {
    hide Scans, At, TokenText, CommentCut;
    ScansWithin(v, i, ts);
    if ts != [] {
      ScansStep(v, i, ts);
      hide Text;
      TokensScanned(v, i + |TokenText(ts[0])|, ts[1..]);
    }
  }

  lemma ScansWithin(v: string, i: nat, ts: seq<Token>)
    requires Scans(v, i, ts)
    ensures i + |Text(ts)| <= |v|
  {
    hide Text;
  }

  lemma FirstGood(ts: seq<Token>)
    requires AllGood(ts) && ts != []
    ensures Good(ts[0]) && AllGood(ts[1..])
  {
    hide Good;
  }

  lemma LaterComments(ts: seq<Token>)
    requires ts != [] && NoComment(ts)
    ensures NoComment(ts[1..])
    ensures ts[1..] != [] && ts[1] == Bare('#') ==> ts[0] != Bare(' ') && ts[0] != Bare('\t')
  {
    forall k | 0 <= k < |ts[1..]| ensures !CommentAt(ts[1..], k) { assert !CommentAt(ts, k + 1); }
    if |ts| > 1 { assert !CommentAt(ts, 1); }
  }

  lemma RestScanned(v: string, i: nat, r: Rest)
    requires At(v, i, RestText(r)) && GoodRest(r) && i + |RestText(r)| == |v|
    ensures CommentCut(v, i, None) == |v|
  {
    match r
    case Nothing =>
    case OpenSingle(text) =>
      hide *;
      OpenSingleScanned(v, i, text);
    case OpenDouble(xs, last) =>
      hide *;
      OpenDoubleScanned(v, i, xs, last);
  }

  lemma OpenSingleScanned(v: string, i: nat, text: string)
    requires At(v, i, "'" + text) && '\'' !in text && i + 1 + |text| == |v|
    ensures CommentCut(v, i, None) == |v|
  {
    AtSplit(v, i, "'", text);
    AtChars(v, i, "'");
    hide At;
    SingleScanned(v, i + 1, text);
  }

  lemma OpenDoubleScanned(v: string, i: nat, xs: seq<Char>, last: string)
    requires At(v, i, "\"" + CharsText(xs) + last) && i + 1 + |CharsText(xs)| + |last| == |v|
    requires (last == "" || last == "\\") && forall k | 0 <= k < |xs| :: GoodChar(xs[k])
    ensures CommentCut(v, i, None) == |v|
  {
    hide *;
    assert "\"" + CharsText(xs) + last == "\"" + (CharsText(xs) + last);
    AtSplit(v, i, "\"", CharsText(xs) + last);
    AtSplit(v, i + 1, CharsText(xs), last);
    AtChars(v, i, "\"");
    DoubleScanned(v, i + 1, xs);
    OpenScanned(v, i, i + 1 + |CharsText(xs)|, last);
  }

  lemma OpenScanned(v: string, i: nat, j: nat, last: string)
    requires i < j && At(v, j, last) && j + |last| == |v| && (last == "" || last == "\\") && v[i] == '"'
    requires CommentCut(v, i + 1, Some('"')) == CommentCut(v, j, Some('"'))
    ensures CommentCut(v, i, None) == |v|
  {
    AtChars(v, j, last);
  }

  /** Where a comment is: at the first hash that has a blank in front of it and stands
      outside quotes. A hash anywhere else is part of the value. */
  lemma CommentFound(ts: seq<Token>, r: Rest, tail: string, k: nat)
    requires AllGood(ts) && k <= |ts| && forall j | 0 <= j < k :: !CommentAt(ts, j)
    requires if k < |ts| then CommentAt(ts, k) else tail == RestText(r) && GoodRest(r)
    ensures CommentCut(Text(ts) + tail, 0, None)
      == if k < |ts| then |Text(ts[..k])| else |Text(ts) + tail|
  {
    hide *;
    var v, head := Text(ts) + tail, ts[..k];
    TextSplit(ts, k);
    NoneBefore(ts, k);
    assert v == Text(head) + (Text(ts[k..]) + tail);
    AtStart(v, Text(head), Text(ts[k..]) + tail);
    ScansAll(v, head);
    TokensScanned(v, 0, head);
    if k < |ts| {
      HashAt(ts, k, tail);
    } else {
      assert ts[..k] == ts && ts[k..] == [];
      AtEnd(v, Text(ts), tail);
      RestScanned(v, |Text(ts)|, r);
    }
  }

  lemma ScansAll(v: string, ts: seq<Token>)
    requires At(v, 0, Text(ts)) && AllGood(ts) && NoComment(ts)
    ensures Scans(v, 0, ts)
  {
    hide At, Text, AllGood, NoComment;
  }

  lemma NoneBefore(ts: seq<Token>, k: nat)
    requires AllGood(ts) && k <= |ts| && forall j | 0 <= j < k :: !CommentAt(ts, j)
    ensures AllGood(ts[..k]) && NoComment(ts[..k])
  {
    hide Good;
    forall j | 0 <= j < k ensures !CommentAt(ts[..k], j) { assert !CommentAt(ts, j); }
  }

  lemma {:induction false} TextSplit(ts: seq<Token>, k: nat)
    requires k <= |ts|
    ensures Text(ts) == Text(ts[..k]) + Text(ts[k..])
    decreases k
  {
    hide TokenText;
    if k == 0 {
      assert ts[0..] == ts;
    } else {
      TextSplit(ts[1..], k - 1);
      assert ts[..k][1..] == ts[1..][..k - 1] && ts[k..] == ts[1..][k - 1..];
      assert TokenText(ts[0]) + (Text(ts[1..][..k - 1]) + Text(ts[k..]))
        == TokenText(ts[0]) + Text(ts[1..][..k - 1]) + Text(ts[k..]);
    }
  }

  lemma AtStart(v: string, a: string, b: string)
    requires v == a + b
    ensures At(v, 0, a)
  {}

  lemma AtEnd(v: string, a: string, b: string)
    requires v == a + b
    ensures At(v, |a|, b) && |a| + |b| == |v|
  {}

  lemma HashAt(ts: seq<Token>, k: nat, tail: string)
    requires AllGood(ts) && CommentAt(ts, k)
    ensures |Text(ts[..k])| <= |Text(ts)|
    ensures CommentCut(Text(ts) + tail, |Text(ts[..k])|, None) == |Text(ts[..k])|
  {
    hide *;
    HashTokens(ts, k);
    TextSplit(ts, k);
    TextSplit(ts[..k], k - 1);
    var a, v := Text(ts[..k - 1]), Text(ts) + tail;
    var rest := Text(ts[k + 1..]) + tail;
    assert ts[..k][..k - 1] == ts[..k - 1];
    HashChar(a, ts[k - 1].c, rest);
    assert v == a + [ts[k - 1].c] + "#" + rest;
  }

  lemma HashTokens(ts: seq<Token>, k: nat)
    requires CommentAt(ts, k)
    ensures 0 < k < |ts| && ts[k - 1].Bare? && Blank1(ts[k - 1].c)
    ensures Text(ts[..k][k - 1..]) == [ts[k - 1].c] && Text(ts[k..]) == "#" + Text(ts[k + 1..])
  {
    assert ts[..k][k - 1..] == [ts[k - 1]];
    TextStep([ts[k - 1]]);
    assert [ts[k - 1]][1..] == [];
    assert Text([]) == "";
    TextStep(ts[k..]);
    assert ts[k..][1..] == ts[k + 1..];
  }

  lemma HashChar(a: string, c: char, rest: string)
    requires Blank1(c)
    ensures CommentCut(a + [c] + "#" + rest, |a| + 1, None) == |a| + 1
  {
    var v := a + [c] + "#" + rest;
    assert v[|a|] == c && v[|a| + 1] == '#';
  }

  // ---------------------------------------------------------------- what quotes stand for

  /** What a character in double quotes stands for. */
  function Meaning(x: Char): string {
    match x
    case Plain(c) => [c]
    case Escaped(c) =>
      if c == '"' || c == '\\' then [c]
      else if c == 'n' then "\n" else if c == 'r' then "\r" else if c == 't' then "\t"
      else ['\\', c]
  }

  function Meanings(xs: seq<Char>): string { if xs == [] then "" else Meaning(xs[0]) + Meanings(xs[1..]) }

  predicate NoPlainBackslash(xs: seq<Char>) { forall i | 0 <= i < |xs| :: xs[i].Plain? ==> xs[i].c != '\\' }

  /** An escape that is not one of the five is kept as it is, and so is a last backslash. */
  lemma {:induction false} UnescapeMeans(xs: seq<Char>, last: string)
    requires NoPlainBackslash(xs) && (last == "" || last == "\\")
    ensures UnescapeDouble(CharsText(xs) + last) == Meanings(xs) + last
    decreases |xs|
  {
    if xs == [] {
      assert CharsText(xs) + last == last;
      LastKept(last);
    } else {
      var rest := CharsText(xs[1..]) + last;
      CharStep(xs);
      assert CharsText(xs) + last == CharText(xs[0]) + rest;
      hide CharsText, UnescapeDouble;
      UnescapeMeans(xs[1..], last);
      UnescapeStep(xs[0], rest);
      assert Meaning(xs[0]) + Meanings(xs[1..]) + last == Meaning(xs[0]) + (Meanings(xs[1..]) + last);
    }
  }

  lemma LastKept(last: string)
    requires last == "" || last == "\\"
    ensures UnescapeDouble(last) == last
  {
    if last != "" { assert last[1..] == ""; }
  }

  lemma UnescapeStep(x: Char, rest: string)
    requires x.Plain? ==> x.c != '\\'
    ensures UnescapeDouble(CharText(x) + rest) == Meaning(x) + UnescapeDouble(rest)
  {
    var s := CharText(x) + rest;
    if x.Plain? {
      assert s[1..] == rest;
    } else {
      assert s[2..] == rest && s[1] == x.c;
      if Meaning(x) == ['\\', x.c] && x.c != '\\' && x.c != '"' {
        assert s[1..] == [x.c] + rest && s[1..][1..] == rest;
      }
    }
  }

  /** The text stands for the value: in single quotes for what is between them, in double
      quotes for what its characters mean, otherwise for itself. */
  ghost predicate Stands(s: string, value: string) {
    if |s| >= 2 && s[0] == '\'' && s[|s| - 1] == '\'' then s == "'" + value + "'"
    else if |s| >= 2 && s[0] == '"' && s[|s| - 1] == '"' then exists xs, last :: InQuotes(s, xs, last, value)
    else value == s
  }

  predicate InQuotes(s: string, xs: seq<Char>, last: string, value: string) {
    && s == "\"" + CharsText(xs) + last + "\"" && NoPlainBackslash(xs) && (last == "" || last == "\\")
    && value == Meanings(xs) + last
  }

  lemma UnquoteMeans(s: string, value: string)
    requires Stands(s, value)
    ensures Unquote(s) == value
  {
    if |s| >= 2 && s[0] == '\'' && s[|s| - 1] == '\'' {
      assert s[1..|s| - 1] == value;
    } else if |s| >= 2 && s[0] == '"' && s[|s| - 1] == '"' {
      var xs, last :| InQuotes(s, xs, last, value);
      UnescapeMeans(xs, last);
      hide CharsText, Meanings, UnescapeDouble;
      assert s[1..|s| - 1] == CharsText(xs) + last;
    }
  }

  // ---------------------------------------------------------------- values

  /** The part of a value in front of its first comment, without the white space around it:
      `k` is where the comment is among the tokens, or behind the last one. */
  ghost predicate InFront(v: string, ts: seq<Token>, tail: string, k: nat, s: string) {
    && v == Text(ts) + tail && AllGood(ts) && k <= |ts| && (forall j | 0 <= j < k :: !CommentAt(ts, j))
    && if k < |ts| then
         CommentAt(ts, k) && exists pad :: Text(ts[..k]) == s + pad && MarkdownOutline.White(pad)
       else s == v && exists r :: GoodRest(r) && tail == RestText(r)
  }

  /** A value reads as what the part in front of its first comment stands for. */
  lemma ValueReads(left: string, v: string, right: string, ts: seq<Token>, tail: string, k: nat, s: string,
                   value: string)
    requires MarkdownOutline.White(left) && MarkdownOutline.White(right)
    requires MarkdownOutline.Visible(v) && MarkdownOutline.Visible(s)
    requires InFront(v, ts, tail, k, s) && Stands(s, value)
    ensures Clean(left + v + right) == value
  {
    MarkdownOutline.Stripped(left, v, right);
    UnquoteMeans(s, value);
    hide TrimSpace, Stands, Unquote, MarkdownOutline.White, MarkdownOutline.Visible, CommentAt, Good;
    if k < |ts| {
      var pad :| Text(ts[..k]) == s + pad && MarkdownOutline.White(pad);
      CommentFound(ts, Nothing, tail, k);
      TextSplit(ts, k);
      FrontOf(ts, tail, k, s, pad);
    } else {
      var r :| GoodRest(r) && tail == RestText(r);
      CommentFound(ts, r, tail, k);
    }
  }

  lemma FrontOf(ts: seq<Token>, tail: string, k: nat, s: string, pad: string)
    requires k < |ts| && CommentAt(ts, k) && AllGood(ts)
    requires Text(ts[..k]) == s + pad && MarkdownOutline.White(pad) && MarkdownOutline.Visible(s)
    ensures var v, n := Text(ts) + tail, |Text(ts[..k])|; n < |v| && TrimSpace(v[..n]) == s
  {
    hide *;
    TextSplit(ts, k);
    TextStep(ts[k..]);
    FrontTrimmed(Text(ts[..k]), Text(ts[k..]) + tail, s, pad);
    assert Text(ts) + tail == Text(ts[..k]) + (Text(ts[k..]) + tail);
  }

  lemma FrontTrimmed(head: string, rest: string, s: string, pad: string)
    requires rest != "" && head == s + pad && MarkdownOutline.White(pad) && MarkdownOutline.Visible(s)
    ensures |head| < |head + rest| && TrimSpace((head + rest)[..|head|]) == s
  {
    assert MarkdownOutline.White("");
    hide TrimSpace, MarkdownOutline.White, MarkdownOutline.Visible;
    MarkdownOutline.Stripped("", s, pad);
    assert (head + rest)[..|head|] == head && "" + s + pad == s + pad;
  }

  // ---------------------------------------------------------------- the usual values

  function BareAll(s: string): seq<Token> { seq(|s|, i requires 0 <= i < |s| => Bare(s[i])) }

  predicate NoQuotes(s: string) { '"' !in s && '\'' !in s }

  lemma {:induction false} BareText(s: string)
    requires NoQuotes(s)
    ensures Text(BareAll(s)) == s && AllGood(BareAll(s))
  {
    if s != "" {
      assert forall c | c in s[1..] :: c in s;
      BareText(s[1..]);
      assert BareAll(s)[1..] == BareAll(s[1..]);
      assert s[0] in s && s == [s[0]] + s[1..];
      var all := BareAll(s);
      forall i | 0 <= i < |all| ensures Good(all[i]) { assert s[i] in s; }
    }
  }

  lemma {:induction false} TextConcat(a: seq<Token>, b: seq<Token>)
    ensures Text(a + b) == Text(a) + Text(b)
    decreases |a|
  {
    hide TokenText;
    if a == [] {
      assert a + b == b;
    } else {
      TextConcat(a[1..], b);
      assert (a + b)[1..] == a[1..] + b;
      assert TokenText(a[0]) + (Text(a[1..]) + Text(b)) == TokenText(a[0]) + Text(a[1..]) + Text(b);
    }
  }

  predicate Blank1(c: char) { c == ' ' || c == '\t' }

  /** A value, a blank, a hash and anything: the value is read and the rest is a comment. */
  lemma Commented(ts: seq<Token>, s: string, c: char, t: string, value: string)
    requires AllGood(ts) && NoComment(ts) && ts != [] && Text(ts) == s && MarkdownOutline.Visible(s) && Stands(s, value)
    requires Blank1(c)
    ensures Clean(s + [c] + "#" + t) == value
  {
    hide *;
    var head := s + [c] + "#";
    var v, right := TrimmedTail(head, t);
    var all := ts + [Bare(c), Bare('#')];
    CommentedFront(ts, s, c, v);
    HeadOf(s, c, v);
    VisibleHead(s, v);
    EmptyWhite();
    ValueReads("", v, right, all, v[|s| + 2..], |ts| + 1, s, value);
    assert "" + v + right == v + right == head + t;
  }

  lemma EmptyWhite()
    ensures MarkdownOutline.White("")
  {}

  lemma HeadOf(s: string, c: char, v: string)
    requires s + [c] + "#" <= v
    ensures s <= v && |v| >= |s| + 2 && v == s + [c] + "#" + v[|s| + 2..]
  {
    var head := s + [c] + "#";
    assert v[..|head|] == head;
    assert v[..|s|] == head[..|s|] == s;
  }

  lemma CommentedFront(ts: seq<Token>, s: string, c: char, v: string)
    requires AllGood(ts) && NoComment(ts) && Text(ts) == s && Blank1(c) && s + [c] + "#" <= v && |v| >= |s| + 2
    ensures InFront(v, ts + [Bare(c), Bare('#')], v[|s| + 2..], |ts| + 1, s)
  {
    hide *;
    var all := ts + [Bare(c), Bare('#')];
    CommentedTokens(ts, c);
    TextConcat(ts, [Bare(c), Bare('#')]);
    TwoBare(c, '#');
    FrontPart(all, ts, c, s);
    HeadOf(s, c, v);
    assert s + ([c] + "#") == s + [c] + "#";
    FrontFits(v, all, v[|s| + 2..], |ts| + 1, s, [c]);
  }

  lemma FrontFits(v: string, ts: seq<Token>, tail: string, k: nat, s: string, pad: string)
    requires v == Text(ts) + tail && AllGood(ts) && CommentAt(ts, k) && forall j | 0 <= j < k :: !CommentAt(ts, j)
    requires k < |ts| && Text(ts[..k]) == s + pad && MarkdownOutline.White(pad)
    ensures InFront(v, ts, tail, k, s)
  {
    hide Text, AllGood, CommentAt, MarkdownOutline.White;
  }

  lemma VisibleHead(s: string, v: string)
    requires MarkdownOutline.Visible(s) && s <= v && v != "" && v[|v| - 1] !in MarkdownOutline.WHITE
    ensures MarkdownOutline.Visible(v)
  {}

  lemma TwoBare(c: char, d: char)
    ensures Text([Bare(c), Bare(d)]) == [c] + [d]
  {
    var two := [Bare(c), Bare(d)];
    assert two[1..] == [Bare(d)] && [Bare(d)][1..] == [];
    assert Text([Bare(d)]) == [d] + Text([]) == [d];
  }

  lemma FrontPart(all: seq<Token>, ts: seq<Token>, c: char, s: string)
    requires all == ts + [Bare(c), Bare('#')] && Text(ts) == s && Blank1(c)
    ensures Text(all[..|ts| + 1]) == s + [c] && MarkdownOutline.White([c])
  {
    assert all[..|ts| + 1] == ts + [Bare(c)];
    TextConcat(ts, [Bare(c)]);
    assert [Bare(c)][1..] == [];
    assert c in MarkdownOutline.WHITE by {
      assert MarkdownOutline.WHITE[0] == '\t' && MarkdownOutline.WHITE[5] == ' ';
    }
  }

  lemma CommentedTokens(ts: seq<Token>, c: char)
    requires AllGood(ts) && NoComment(ts) && Blank1(c)
    ensures var all := ts + [Bare(c), Bare('#')];
      AllGood(all) && CommentAt(all, |ts| + 1) && forall j | 0 <= j < |ts| + 1 :: !CommentAt(all, j)
  {
    hide Good;
    assert Good(Bare(c)) && Good(Bare('#')) by { GoodBlank(c); }
    var all := ts + [Bare(c), Bare('#')];
    forall j | 0 <= j < |ts| + 1 ensures !CommentAt(all, j) {
      if j < |ts| { assert !CommentAt(ts, j); }
    }
  }

  lemma GoodBlank(c: char)
    requires Blank1(c)
    ensures Good(Bare(c)) && Good(Bare('#'))
  {}

  /** The text without the white space at its end, when it begins with a visible text. */
  lemma {:induction false} TrimmedTail(head: string, t: string) returns (v: string, right: string)
    requires head != "" && head[|head| - 1] == '#'
    ensures v + right == head + t && MarkdownOutline.White(right) && head <= v && v[|v| - 1] !in MarkdownOutline.WHITE
    decreases |t|
  {
    if t == "" || t[|t| - 1] !in MarkdownOutline.WHITE {
      v, right := head + t, "";
      assert t == "" ==> v == head;
    } else {
      v, right := TrimmedTail(head, t[..|t| - 1]);
      right := right + [t[|t| - 1]];
      assert t == t[..|t| - 1] + [t[|t| - 1]];
      assert head + t == head + t[..|t| - 1] + [t[|t| - 1]];
      assert v + right == head + t;
    }
  }

  /** Plain text in front of a comment. */
  lemma PlainWithComment(s: string, c: char, t: string)
    requires MarkdownOutline.Visible(s) && NoQuotes(s) && '#' !in s && Blank1(c)
    ensures Clean(s + [c] + "#" + t) == s
  {
    BareText(s);
    var ts := BareAll(s);
    forall k | 0 <= k < |ts| ensures !CommentAt(ts, k) { assert s[k] in s; }
    assert s[0] in s;
    assert Stands(s, s);
    hide Clean, MarkdownOutline.Visible, Text, Stands;
    Commented(ts, s, c, t, s);
  }

  /** A hash without a blank in front of it is part of the value. */
  lemma HashKept(s: string)
    requires MarkdownOutline.Visible(s) && NoQuotes(s)
    requires forall k | 0 < k < |s| && s[k] == '#' :: !Blank1(s[k - 1])
    ensures Clean(s) == s
  {
    BareText(s);
    var ts := BareAll(s);
    forall k | 0 <= k < |ts| ensures !CommentAt(ts, k) {}
    assert s[0] in s;
    assert Stands(s, s);
    hide Clean, MarkdownOutline.Visible, Text, Stands;
    assert s + "" == s && "" + s + "" == s;
    assert GoodRest(Nothing) && RestText(Nothing) == "";
    assert InFront(s, ts, "", |ts|, s);
    ValueReads("", s, "", ts, "", |ts|, s, s);
  }

  /** Whatever stands in single quotes is read as it is, hashes and all. */
  lemma SingleQuoted(s: string, c: char, t: string)
    requires '\'' !in s && Blank1(c)
    ensures Clean("'" + s + "'") == s && Clean("'" + s + "'" + [c] + "#" + t) == s
  {
    var v, ts := "'" + s + "'", [Single(s)];
    assert ts[1..] == [];
    assert Text(ts) == v;
    assert Stands(v, s);
    assert v[0] !in MarkdownOutline.WHITE && v[|v| - 1] !in MarkdownOutline.WHITE;
    hide Clean, Text, Stands;
    assert NoComment(ts) && AllGood(ts);
    Commented(ts, v, c, t, s);
    assert v + "" == v && "" + v + "" == v;
    assert GoodRest(Nothing) && RestText(Nothing) == "";
    assert InFront(v, ts, "", |ts|, v);
    ValueReads("", v, "", ts, "", |ts|, v, s);
  }

  /** A comment behind a value that was written is not part of what is read back. */
  lemma WrittenWithComment(s: string, c: char, t: string)
    requires Blank1(c)
    ensures Clean(QuoteScalar(s) + [c] + "#" + t) == s
  {
    if ScalarNeedsQuotes(s) {
      EscapedWithComment(s, c, t);
    } else {
      PlainOf(s, "\r\n\t\"'#");
      assert "\r\n\t\"'#"[3] == '"' && "\r\n\t\"'#"[4] == '\'' && "\r\n\t\"'#"[5] == '#';
      hide Clean, ScalarNeedsQuotes;
      TrimSpaceTrimmed(s) by { hide TrimSpace; }
      VisibleIs(s);
      PlainWithComment(s, c, t);
    }
  }

  lemma VisibleIs(s: string)
    requires s != "" && Trimmed(s)
    ensures MarkdownOutline.Visible(s)
  {
    MarkdownOutline.WhiteIs(s[0]);
    MarkdownOutline.WhiteIs(s[|s| - 1]);
    hide IsSpace, MarkdownOutline.WHITE;
  }

  /** The characters that are written for a text in double quotes. */
  function Written(s: string, breaks: bool): seq<Char> {
    if s == "" then []
    else
      var e := EscapeChar(s[0], breaks);
      [if |e| == 2 then Escaped(e[1]) else Plain(s[0])] + Written(s[1..], breaks)
  }

  lemma {:induction false} WrittenChars(s: string, breaks: bool)
    ensures CharsText(Written(s, breaks)) == Escape(s, breaks) && Meanings(Written(s, breaks)) == s
    ensures NoPlainBackslash(Written(s, breaks)) && Good(Double(Written(s, breaks)))
  {
    if s != "" {
      WrittenChars(s[1..], breaks);
      EscapeStep(s, breaks);
      var xs := Written(s, breaks);
      assert xs[1..] == Written(s[1..], breaks);
      WrittenChar(s[0], breaks, xs[0]);
      assert s == [s[0]] + s[1..];
      hide Escape, EscapeChar, Written, Meaning;
    }
  }

  lemma WrittenChar(c: char, breaks: bool, x: Char)
    requires x == if |EscapeChar(c, breaks)| == 2 then Escaped(EscapeChar(c, breaks)[1]) else Plain(c)
    ensures CharText(x) == EscapeChar(c, breaks) && Meaning(x) == [c] && GoodChar(x)
    ensures x.Plain? ==> x.c != '\\'
  {}

  lemma EscapedWithComment(s: string, c: char, t: string)
    requires Blank1(c)
    ensures Clean("\"" + Escape(s, true) + "\"" + [c] + "#" + t) == s
  {
    var xs := Written(s, true);
    WrittenChars(s, true);
    hide Clean, Escape, Written;
    var v, ts := "\"" + CharsText(xs) + "\"", [Double(xs)];
    assert ts[1..] == [];
    assert Text(ts) == v;
    assert Meanings(xs) + "" == s;
    assert v == "\"" + CharsText(xs) + "" + "\"";
    assert InQuotes(v, xs, "", s);
    assert Stands(v, s);
    assert v[0] !in MarkdownOutline.WHITE && v[|v| - 1] !in MarkdownOutline.WHITE;
    hide Text, Stands, CharsText;
    assert NoComment(ts) && AllGood(ts);
    Commented(ts, v, c, t, s);
  }

  /** White space reads as the empty value. */
  lemma BlankReads(s: string)
    requires MarkdownOutline.White(s)
    ensures Clean(s) == ""
  {
    MarkdownOutline.BlankIsWhite(s);
  }

  /** A value is written bare if it has visible ends, nothing in it that is read as a quote,
      a comment or a line break, and does not begin like a block, an anchor or a
      collection; any other is written in double quotes. What is written is one line,
      without tabs. */
  lemma WrittenAs(s: string)
    ensures QuoteScalar(s) == s <==>
      MarkdownOutline.Visible(s) && (forall c | c in "\r\n\t\"'#" :: c !in s) && s[0] !in "|>&*[{"
    ensures QuoteScalar(s) != s ==> QuoteScalar(s) == "\"" + CharsText(Written(s, true)) + "\""
    ensures forall c | c in "\r\n\t" :: c !in QuoteScalar(s)
  {
    hide *;
    WrittenChars(s, true);
    PlainWhen(s);
    QuotedOrNot(s);
    QuotedOneLine(s);
    EmptyHidden();
  }

  lemma EmptyHidden()
    ensures !MarkdownOutline.Visible("")
  {}

  lemma QuotedOrNot(s: string)
    ensures QuoteScalar(s) == s <==> !ScalarNeedsQuotes(s)
    ensures QuoteScalar(s) != s ==> QuoteScalar(s) == "\"" + Escape(s, true) + "\""
  {
    EscapedLonger(s, true);
    hide Escape, ScalarNeedsQuotes;
    assert ScalarNeedsQuotes(s) ==> |QuoteScalar(s)| == |Escape(s, true)| + 2;
  }

  lemma QuotedOneLine(s: string)
    ensures forall c | c in "\r\n\t" :: c !in QuoteScalar(s)
  {
    EscapeOneLine(s);
    var breaks, all, text := "\r\n\t", "\r\n\t\"'#", Escape(s, true);
    assert forall c | c in breaks :: c in all by {
      assert all[0] == breaks[0] && all[1] == breaks[1] && all[2] == breaks[2];
    }
    hide Escape, TrimSpace, HasPrefix;
    assert forall c | c in "\"" + text + "\"" :: c == '"' || c in text;
    assert '"' !in breaks;
  }

  lemma {:induction false} EscapedLonger(s: string, breaks: bool)
    ensures |Escape(s, breaks)| >= |s|
  {
    if s != "" { EscapedLonger(s[1..], breaks); }
  }

  lemma {:induction false} EscapeOneLine(s: string)
    ensures forall c | c in "\r\n\t" :: c !in Escape(s, true)
  {
    if s != "" {
      EscapeOneLine(s[1..]);
      EscapeStep(s, true);
      var breaks, e := "\r\n\t", EscapeChar(s[0], true);
      assert breaks == ['\r', '\n', '\t'];
      assert forall c | c in breaks :: c !in e;
      hide Escape, EscapeChar;
      assert forall c :: c in e + Escape(s[1..], true) ==> c in e || c in Escape(s[1..], true);
    }
  }

  lemma BareFirst(s: string)
    requires s != ""
    ensures s[0] in "|>&*[{" <==>
      HasPrefix(s, "|") || HasPrefix(s, ">") || HasPrefix(s, "&") || HasPrefix(s, "*") || HasPrefix(s, "[")
          || HasPrefix(s, "{")
  {
    assert s[..1] == [s[0]];
    assert "|>&*[{" == ['|', '>', '&', '*', '[', '{'];
  }

  lemma PlainWhen(s: string)
    ensures ScalarNeedsQuotes(s) <==>
      s == "" || !MarkdownOutline.Visible(s) || (exists c :: c in "\r\n\t\"'#" && c in s) || s[0] in "|>&*[{"
  {
    if s != "" {
      BareFirst(s);
      TrimmedIs(s);
    }
    hide TrimSpace, MarkdownOutline.Visible, HasPrefix;
  }

  lemma TrimmedIs(s: string)
    requires s != ""
    ensures TrimSpace(s) == s <==> MarkdownOutline.Visible(s)
  {
    if TrimSpace(s) == s {
      TrimSpaceTrimmed(s);
      VisibleIs(s);
    }
    MarkdownOutline.WhiteIs(s[0]);
    MarkdownOutline.WhiteIs(s[|s| - 1]);
    hide MarkdownOutline.WHITE, IsSpace, TrimLeft, TrimRight;
    if MarkdownOutline.Visible(s) {
      TrimmedStays(s);
    }
  }

  // ---------------------------------------------------------------- inline lists

  /** How much deeper in brackets and braces the value is behind these tokens. */
  function Depth(ts: seq<Token>): int {
    if ts == [] then 0 else Depth(ts[..|ts| - 1]) + Weight(ts[|ts| - 1])
  }

  function Weight(t: Token): int {
    if t == Bare('[') || t == Bare('{') then 1 else if t == Bare(']') || t == Bare('}') then -1 else 0
  }

  /** A comma outside quotes, brackets and braces. */
  predicate CommaAt(ts: seq<Token>, k: nat) { k < |ts| && ts[k] == Bare(',') && Depth(ts[..k]) == 0 }

  predicate NoComma(ts: seq<Token>) { forall k | 0 <= k < |ts| :: !CommaAt(ts, k) }

  lemma SingleSplit(v: string, i: nat, start: nat, d: int, text: string)
    requires start <= i && At(v, i, text) && '\'' !in text
    ensures SplitTop(v, i, start, d, Some('\'')) == SplitTop(v, i + |text|, start, d, Some('\''))
  {
    AtChars(v, i, text);
    hide At, SplitTop;
    SingleWithin(v, i, i + |text|, start, d);
  }

  lemma {:induction false} SingleWithin(v: string, i: nat, j: nat, start: nat, d: int)
    requires start <= i <= j <= |v| && forall k | i <= k < j :: v[k] != '\''
    ensures SplitTop(v, i, start, d, Some('\'')) == SplitTop(v, j, start, d, Some('\''))
    decreases j - i
  {
    hide Piece;
    if i < j { SingleWithin(v, i + 1, j, start, d); }
  }

  lemma {:induction false} DoubleSplit(v: string, i: nat, start: nat, d: int, xs: seq<Char>)
    requires start <= i && At(v, i, CharsText(xs)) && forall k | 0 <= k < |xs| :: GoodChar(xs[k])
    ensures SplitTop(v, i, start, d, Some('"')) == SplitTop(v, i + |CharsText(xs)|, start, d, Some('"'))
    decreases |xs|
  {
    if xs != [] {
      AtSplit(v, i, CharText(xs[0]), CharsText(xs[1..]));
      AtChars(v, i, CharText(xs[0]));
      hide At, CharsText, Piece;
      CharStep(xs);
      DoubleSplit(v, i + |CharText(xs[0])|, start, d, xs[1..]);
    }
  }

  lemma QuotesSplit(v: string, i: nat, start: nat, d: int, q: char, n: nat)
    requires (q == '"' || q == '\'') && start <= i && i + n + 1 < |v| && v[i] == q && v[i + 1 + n] == q
    requires SplitTop(v, i + 1, start, d, Some(q)) == SplitTop(v, i + 1 + n, start, d, Some(q))
    ensures SplitTop(v, i, start, d, None) == SplitTop(v, i + n + 2, start, d, None)
  {
    hide Piece;
  }

  /** Splitting goes over any token but a comma at depth zero. */
  lemma TokenSplit(v: string, i: nat, start: nat, d: int, t: Token)
    requires start <= i && At(v, i, TokenText(t)) && Good(t) && !(t == Bare(',') && d == 0)
    ensures SplitTop(v, i, start, d, None) == SplitTop(v, i + |TokenText(t)|, start, d + Weight(t), None)
  {
    match t
    case Bare(c) =>
      BareSplit(v, i, start, d, c);
    case Single(text) =>
      QuoteAt(v, i, '\'', text);
      hide Piece, SplitTop, At;
      SingleSplit(v, i + 1, start, d, text);
      QuotesSplit(v, i, start, d, '\'', |text|);
    case Double(xs) =>
      QuoteAt(v, i, '"', CharsText(xs));
      hide Piece, SplitTop, At, CharsText;
      DoubleSplit(v, i + 1, start, d, xs);
      QuotesSplit(v, i, start, d, '"', |CharsText(xs)|);
  }

  lemma BareSplit(v: string, i: nat, start: nat, d: int, c: char)
    requires start <= i && At(v, i, [c]) && c != '"' && c != '\'' && !(c == ',' && d == 0)
    ensures SplitTop(v, i, start, d, None) == SplitTop(v, i + 1, start, d + Weight(Bare(c)), None)
  {
    AtChars(v, i, [c]);
    hide Piece, At;
  }

  /** Tokens without a top-level comma are gone over as one part. */
  lemma {:induction false} TokensSplit(v: string, i: nat, ts: seq<Token>, k: nat)
    requires At(v, i, Text(ts)) && AllGood(ts) && NoComma(ts) && k <= |ts|
    ensures i + |Text(ts[..k])| <= |v|
    ensures SplitTop(v, i, i, 0, None) == SplitTop(v, i + |Text(ts[..k])|, i, Depth(ts[..k]), None)
    decreases k
  {
    hide *;
    PrefixAt(v, i, ts, k);
    if k == 0 {
      assert ts[..0] == [];
      NoTokens();
    } else {
      TokensSplit(v, i, ts, k - 1);
      var before, t := ts[..k - 1], ts[k - 1];
      PrefixAt(v, i, ts, k - 1);
      PrefixStep(v, i, ts, k);
      NotComma(ts, k - 1);
      TokenSplit(v, i + |Text(before)|, i, Depth(before), t);
    }
  }

  lemma NoTokens()
    ensures Text([]) == "" && Depth([]) == 0
  {}

  lemma PrefixAt(v: string, i: nat, ts: seq<Token>, k: nat)
    requires At(v, i, Text(ts)) && k <= |ts|
    ensures At(v, i, Text(ts[..k])) && i + |Text(ts[..k])| <= |v|
  {
    TextSplit(ts, k);
    AtSplit(v, i, Text(ts[..k]), Text(ts[k..]));
    hide Text;
  }

  lemma PrefixStep(v: string, i: nat, ts: seq<Token>, k: nat)
    requires At(v, i, Text(ts)) && AllGood(ts) && 0 < k <= |ts|
    ensures var before, t := ts[..k - 1], ts[k - 1];
      && At(v, i + |Text(before)|, TokenText(t)) && Good(t)
      && |Text(ts[..k])| == |Text(before)| + |TokenText(t)| && Depth(ts[..k]) == Depth(before) + Weight(t)
  {
    hide *;
    var head, before, t := ts[..k], ts[..k - 1], ts[k - 1];
    PrefixAt(v, i, ts, k);
    PrefixText(ts, k);
    AtSplit(v, i, Text(before), TokenText(t));
  }

  lemma PrefixText(ts: seq<Token>, k: nat)
    requires AllGood(ts) && 0 < k <= |ts|
    ensures var head, before, t := ts[..k], ts[..k - 1], ts[k - 1];
      Text(head) == Text(before) + TokenText(t) && Good(t) && Depth(head) == Depth(before) + Weight(t)
  {
    var head, before, t := ts[..k], ts[..k - 1], ts[k - 1];
    assert head[..|head| - 1] == before && head[|head| - 1] == t;
    TextSplit(head, k - 1);
    assert head[..k - 1] == before && head[k - 1..] == [t];
    TextStep([t]);
    assert [t][1..] == [];
    assert Text([]) == "";
    hide Text, TokenText, Good;
    assert TokenText(t) + "" == TokenText(t);
  }

  lemma NotComma(ts: seq<Token>, k: nat)
    requires NoComma(ts) && k < |ts|
    ensures !(ts[k] == Bare(',') && Depth(ts[..k]) == 0)
  {
    hide Depth;
    assert !CommaAt(ts, k);
  }

  lemma RestSplit(v: string, i: nat, start: nat, d: int, r: Rest)
    requires start <= i && At(v, i, RestText(r)) && GoodRest(r) && i + |RestText(r)| == |v|
    ensures SplitTop(v, i, start, d, None) == Piece(v[start..])
  {
    match r
    case Nothing =>
      hide Piece;
    case OpenSingle(text) =>
      hide *;
      OpenSingleSplit(v, i, start, d, text);
    case OpenDouble(xs, last) =>
      hide *;
      OpenDoubleSplit(v, i, start, d, xs, last);
  }

  lemma OpenSingleSplit(v: string, i: nat, start: nat, d: int, text: string)
    requires start <= i && At(v, i, "'" + text) && '\'' !in text && i + 1 + |text| == |v|
    ensures SplitTop(v, i, start, d, None) == Piece(v[start..])
  {
    hide Piece;
    AtSplit(v, i, "'", text);
    AtChars(v, i, "'");
    SingleSplit(v, i + 1, start, d, text);
  }

  lemma OpenDoubleSplit(v: string, i: nat, start: nat, d: int, xs: seq<Char>, last: string)
    requires start <= i && At(v, i, "\"" + CharsText(xs) + last) && i + 1 + |CharsText(xs)| + |last| == |v|
    requires (last == "" || last == "\\") && forall k | 0 <= k < |xs| :: GoodChar(xs[k])
    ensures SplitTop(v, i, start, d, None) == Piece(v[start..])
  {
    hide *;
    assert "\"" + CharsText(xs) + last == "\"" + (CharsText(xs) + last);
    AtSplit(v, i, "\"", CharsText(xs) + last);
    AtSplit(v, i + 1, CharsText(xs), last);
    AtChars(v, i, "\"");
    DoubleSplit(v, i + 1, start, d, xs);
    OpenSplit(v, i, i + 1 + |CharsText(xs)|, start, d, last);
  }

  lemma OpenSplit(v: string, i: nat, j: nat, start: nat, d: int, last: string)
    requires start <= i < j && At(v, j, last) && j + |last| == |v| && (last == "" || last == "\\") && v[i] == '"'
    requires SplitTop(v, i + 1, start, d, Some('"')) == SplitTop(v, j, start, d, Some('"'))
    ensures SplitTop(v, i, start, d, None) == Piece(v[start..])
  {
    AtChars(v, j, last);
    hide Piece;
  }

  /** Parts with a comma between each two. */
  function Parts(parts: seq<seq<Token>>): seq<Token>
    requires parts != []
  {
    if |parts| == 1 then parts[0] else parts[0] + [Bare(',')] + Parts(parts[1..])
  }

  /** Every part is free of top-level commas, and every part but the last closes the
      brackets and braces it opens. */
  ghost predicate GoodParts(parts: seq<seq<Token>>) {
    && (forall i | 0 <= i < |parts| :: AllGood(parts[i]) && NoComma(parts[i]))
    && (forall i | 0 <= i < |parts| - 1 :: Depth(parts[i]) == 0)
  }

  /** What a part is worth: nothing when it is blank, otherwise its value. */
  function Element(text: string): seq<string> { if MarkdownOutline.White(text) then [] else [Clean(text)] }

  function Elements(parts: seq<seq<Token>>, rest: string): seq<string>
    requires parts != []
  {
    if |parts| == 1 then Element(Text(parts[0]) + rest) else Element(Text(parts[0])) + Elements(parts[1..], rest)
  }

  lemma PieceMeans(p: string)
    ensures Piece(p) == Element(p)
  {
    MarkdownOutline.BlankIsWhite(p);
    var i := TrimFacts(p);
    hide TrimSpace, MarkdownOutline.White, CommentCut, Unquote;
    TrimmedStays(TrimSpace(p));
  }

  /** A list splits at its top-level commas and nowhere else. */
  lemma {:induction false} SplitsAtCommas(v: string, i: nat, parts: seq<seq<Token>>, r: Rest)
    requires parts != [] && GoodParts(parts) && GoodRest(r) && At(v, i, Text(Parts(parts)) + RestText(r))
    requires i + |Text(Parts(parts))| + |RestText(r)| == |v|
    ensures SplitTop(v, i, i, 0, None) == Elements(parts, RestText(r))
    decreases |parts|
  {
    hide *;
    var part := parts[0];
    FirstPart(parts);
    PartsStep(parts, RestText(r));
    var n := |Text(part)|;
    if |parts| == 1 {
      AtSplit(v, i, Text(part), RestText(r));
      TokensSplit(v, i, part, |part|);
      assert part[..|part|] == part;
      RestSplit(v, i + n, i, Depth(part), r);
      WholeRest(v, i, Text(part) + RestText(r));
      PieceMeans(Text(part) + RestText(r));
    } else {
      var rest := Text(Parts(parts[1..])) + RestText(r);
      AtSplit(v, i, Text(part), "," + rest);
      AtSplit(v, i + n, ",", rest);
      TokensSplit(v, i, part, |part|);
      assert part[..|part|] == part;
      CommaSplits(v, i, Text(part));
      SplitsAtCommas(v, i + n + 1, parts[1..], r);
      PieceMeans(Text(part));
    }
  }

  lemma FirstPart(parts: seq<seq<Token>>)
    requires parts != [] && GoodParts(parts)
    ensures AllGood(parts[0]) && NoComma(parts[0])
    ensures |parts| > 1 ==> Depth(parts[0]) == 0 && GoodParts(parts[1..])
  {
    hide AllGood, NoComma, Depth;
  }

  lemma PartsStep(parts: seq<seq<Token>>, rest: string)
    requires parts != []
    ensures |parts| == 1 ==> Parts(parts) == parts[0] && Elements(parts, rest) == Element(Text(parts[0]) + rest)
    ensures |parts| > 1 ==>
      && Text(Parts(parts)) + rest == Text(parts[0]) + ("," + (Text(Parts(parts[1..])) + rest))
      && |Text(Parts(parts))| == |Text(parts[0])| + 1 + |Text(Parts(parts[1..]))|
      && Elements(parts, rest) == Element(Text(parts[0])) + Elements(parts[1..], rest)
  {
    hide Element, Text;
    if |parts| > 1 {
      var comma, more := [Bare(',')], Parts(parts[1..]);
      assert parts[0] + comma + more == parts[0] + (comma + more);
      TextConcat(parts[0], comma + more);
      TextConcat(comma, more);
      CommaText();
    }
  }

  lemma CommaText()
    ensures Text([Bare(',')]) == ","
  {
    assert [Bare(',')][1..] == [];
    assert Text([]) == "";
  }

  lemma WholeRest(v: string, i: nat, text: string)
    requires At(v, i, text) && i + |text| == |v|
    ensures v[i..] == text
  {}

  lemma CommaSplits(v: string, i: nat, text: string)
    requires At(v, i, text) && At(v, i + |text|, ",")
    ensures i + |text| < |v|
    ensures SplitTop(v, i + |text|, i, 0, None) == Piece(text) + SplitTop(v, i + |text| + 1, i + |text| + 1, 0, None)
  {
    AtChars(v, i + |text|, ",");
    hide Piece;
    assert v[i..i + |text|] == text;
  }

  /** GetList on a value: a list in brackets reads as the values of its parts, blank parts
      left out, and anything else is no list. */
  lemma ListReads(parts: seq<seq<Token>>, r: Rest, v: string)
    requires parts != [] && GoodParts(parts) && GoodRest(r)
    ensures ListOf("[" + (Text(Parts(parts)) + RestText(r)) + "]") == Some(Elements(parts, RestText(r)))
    ensures |v| < 2 || v[0] != '[' || v[|v| - 1] != ']' ==> ListOf(v) == None
  {
    var inner := Text(Parts(parts)) + RestText(r);
    var list := "[" + inner + "]";
    assert list[1..|list| - 1] == inner;
    assert At(inner, 0, inner);
    hide SplitTop, Parts, Text, RestText, Elements, GoodParts, GoodRest;
    SplitsAtCommas(inner, 0, parts, r);
  }

  /** Every list text is parts of this kind: any tokens can be cut at their top-level
      commas. */
  lemma {:induction false} CutAtCommas(ts: seq<Token>) returns (parts: seq<seq<Token>>)
    requires AllGood(ts)
    ensures parts != [] && GoodParts(parts) && Parts(parts) == ts
    decreases |ts|
  {
    if NoComma(ts) {
      parts := [ts];
    } else {
      var k: nat :| k < |ts| && CommaAt(ts, k);
      var j := FirstComma(ts, k);
      assert AllGood(ts[j + 1..]);
      var more := CutAtCommas(ts[j + 1..]);
      hide Depth, Good;
      parts := [ts[..j]] + more;
      assert parts[1..] == more;
      assert ts == ts[..j] + [Bare(',')] + ts[j + 1..];
      assert NoComma(ts[..j]) by {
        forall m | 0 <= m < j ensures !CommaAt(ts[..j], m) { assert ts[..j][..m] == ts[..m] && !CommaAt(ts, m); }
      }
    }
  }

  lemma {:induction false} FirstComma(ts: seq<Token>, k: nat) returns (j: nat)
    requires k < |ts| && CommaAt(ts, k)
    ensures j <= k && CommaAt(ts, j) && forall m | 0 <= m < j :: !CommaAt(ts, m)
    decreases k
  {
    hide CommaAt;
    if m :| 0 <= m < k && CommaAt(ts, m) {
      j := FirstComma(ts, m);
    } else {
      j := k;
    }
  }

  // ---------------------------------------------------------------- what is written of a list

  /** An element is written bare unless it has white space at an end or something in it that
      is read as part of a list, a comment or a quote. */
  lemma ElementAs(s: string)
    ensures QuoteListElem(s) == s <==>
      (s == "" || MarkdownOutline.Visible(s)) && forall c | c in ",[]{}#\"'" :: c !in s
    ensures QuoteListElem(s) != s ==> QuoteListElem(s) == "\"" + CharsText(Written(s, false)) + "\""
  {
    WrittenChars(s, false);
    EscapedLonger(s, false);
    if s != "" { TrimmedIs(s); } else { TrimmedStays(s); }
    hide TrimSpace, Escape, MarkdownOutline.Visible, Written, CharsText;
    assert ElemNeedsQuotes(s) ==> |QuoteListElem(s)| == |Escape(s, false)| + 2;
  }

  /** A list is written in brackets, its elements with a comma and a blank between them. */
  lemma ListWritten(items: seq<string>, last: string)
    ensures ListText([]) == "[]" && ListText([last]) == "[" + QuoteListElem(last) + "]"
    ensures items != [] ==>
      ListText(items + [last]) == ListText(items)[..|ListText(items)| - 1] + ", " + QuoteListElem(last) + "]"
  {
    hide QuoteListElem;
    assert QuoteAll([last]) == [QuoteListElem(last)];
    assert QuoteAll(items + [last]) == QuoteAll(items) + [QuoteListElem(last)];
    JoinMore(QuoteAll(items), QuoteListElem(last));
    var inner := JoinList(QuoteAll(items));
    assert ("[" + inner + "]")[..|inner| + 1] == "[" + inner;
    assert "[" + (inner + ", " + QuoteListElem(last)) + "]" == "[" + inner + ", " + QuoteListElem(last) + "]";
  }

  lemma {:induction false} JoinMore(items: seq<string>, last: string)
    ensures JoinList(items + [last]) == if items == [] then last else JoinList(items) + ", " + last
    decreases |items|
  {
    var more := items + [last];
    if items != [] {
      assert more[1..] == items[1..] + [last] && more[0] == items[0];
      JoinMore(items[1..], last);
      if |items| > 1 {
        assert items[0] + ", " + (JoinList(items[1..]) + ", " + last)
            == items[0] + ", " + JoinList(items[1..]) + ", " + last;
      } else {
        assert items[1..] == [];
      }
    } else {
      assert more == [last];
    }
  }
}
