/** The two nested quoting layers of frontmatter values (internal/mdstore/mdstore.go):
    scalars on a line, and elements of an inline list inside such a scalar. */
module MarkdownCodec {
  import opened Wrappers
  import opened MarkdownText

  // ---------------------------------------------------------------- writing

  /** One character inside double quotes; `breaks` also escapes CR, LF and tab. */
  function EscapeChar(c: char, breaks: bool): string {
    if c == '"' || c == '\\' then ['\\', c]
    else if breaks && c == '\n' then "\\n"
    else if breaks && c == '\r' then "\\r"
    else if breaks && c == '\t' then "\\t"
    else [c]
  }

  function Escape(s: string, breaks: bool): string {
    if s == "" then "" else EscapeChar(s[0], breaks) + Escape(s[1..], breaks)
  }

  predicate ContainsAny(s: string, chars: string) { exists c :: c in s && c in chars }

  predicate ScalarNeedsQuotes(s: string) {
    || s == "" || s != TrimSpace(s) || ContainsAny(s, "\r\n\t\"'#")
    || HasPrefix(s, "|") || HasPrefix(s, ">") || HasPrefix(s, "&") || HasPrefix(s, "*") || HasPrefix(s, "[")
        || HasPrefix(s, "{")
  }

  function QuoteScalar(s: string): string {
    if ScalarNeedsQuotes(s) then "\"" + Escape(s, true) + "\"" else s
  }

  predicate ElemNeedsQuotes(s: string) { ContainsAny(s, ",[]{}#\"'") || s != TrimSpace(s) }

  function QuoteListElem(s: string): string {
    if ElemNeedsQuotes(s) then "\"" + Escape(s, false) + "\"" else s
  }

  /** strings.Join with ", ". */
  function JoinList(items: seq<string>): string {
    if items == [] then "" else if |items| == 1 then items[0] else items[0] + ", " + JoinList(items[1..])
  }

  function QuoteAll(items: seq<string>): seq<string> {
    seq(|items|, i requires 0 <= i < |items| => QuoteListElem(items[i]))
  }

  /** What SetList stores, before Set quotes it. */
  function ListText(items: seq<string>): string { "[" + JoinList(QuoteAll(items)) + "]" }

  // ---------------------------------------------------------------- reading

  function UnescapeDouble(s: string): string {
    if s == "" then ""
    else if s[0] == '\\' && |s| > 1 && (s[1] == '"' || s[1] == '\\') then [s[1]] + UnescapeDouble(s[2..])
    else if s[0] == '\\' && |s| > 1 && s[1] == 'n' then "\n" + UnescapeDouble(s[2..])
    else if s[0] == '\\' && |s| > 1 && s[1] == 'r' then "\r" + UnescapeDouble(s[2..])
    else if s[0] == '\\' && |s| > 1 && s[1] == 't' then "\t" + UnescapeDouble(s[2..])
    else [s[0]] + UnescapeDouble(s[1..])
  }

  /** Where the trailing comment of `v` starts, reading from `i` inside the quote
      `q`; the length of `v` when there is none. */
  function CommentCut(v: string, i: nat, q: Option<char>): (cut: nat)
    requires i <= |v|
    ensures cut <= |v|
    decreases |v| - i
  {
    if i == |v| then |v|
    else if q == Some('"') && v[i] == '\\' && i + 1 < |v| then CommentCut(v, i + 2, q)
    else if q.Some? then CommentCut(v, i + 1, if v[i] == q.value then None else q)
    else if v[i] == '"' || v[i] == '\'' then CommentCut(v, i + 1, Some(v[i]))
    else if v[i] == '#' && i > 0 && (v[i - 1] == ' ' || v[i - 1] == '\t') then i
    else CommentCut(v, i + 1, q)
  }

  function Unquote(v: string): string {
    if |v| >= 2 && ((v[0] == '"' && v[|v| - 1] == '"') || (v[0] == '\'' && v[|v| - 1] == '\''))
    then (if v[0] == '"' then UnescapeDouble(v[1..|v| - 1]) else v[1..|v| - 1])
    else v
  }

  function Clean(v: string): string {
    var t := TrimSpace(v);
    var cut := CommentCut(t, 0, None);
    Unquote(if cut < |t| then TrimSpace(t[..cut]) else t)
  }

  /** One part of an inline list: nothing when it is blank. */
  function Piece(p: string): seq<string> {
    var t := TrimSpace(p);
    if t != "" then [Clean(t)] else []
  }

  function SplitTop(s: string, i: nat, start: nat, depth: int, q: Option<char>): seq<string>
    requires start <= i <= |s|
    decreases |s| - i
  {
    if i == |s| then Piece(s[start..])
    else if q == Some('"') && s[i] == '\\' && i + 1 < |s| then SplitTop(s, i + 2, start, depth, q)
    else if q.Some? then SplitTop(s, i + 1, start, depth, if s[i] == q.value then None else q)
    else if s[i] == '"' || s[i] == '\'' then SplitTop(s, i + 1, start, depth, Some(s[i]))
    else if s[i] == '[' || s[i] == '{' then SplitTop(s, i + 1, start, depth + 1, q)
    else if s[i] == ']' || s[i] == '}' then SplitTop(s, i + 1, start, depth - 1, q)
    else if s[i] == ',' && depth == 0 then Piece(s[start..i]) + SplitTop(s, i + 1, i + 1, depth, q)
    else SplitTop(s, i + 1, start, depth, q)
  }

  /** GetList on the cleaned value; None stands for Go's nil. */
  function ListOf(v: string): Option<seq<string>> {
    if HasPrefix(v, "[") && HasSuffix(v, "]") && |v| >= 2 then Some(SplitTop(v[1..|v| - 1], 0, 0, 0, None)) else None
  }

  // ---------------------------------------------------------------- escapes

  lemma {:induction false} UnescapeEscape(s: string, breaks: bool)
    ensures UnescapeDouble(Escape(s, breaks)) == s
  {
    if s != "" {
      UnescapeEscape(s[1..], breaks);
      var e, rest := EscapeChar(s[0], breaks), Escape(s[1..], breaks);
      assert Escape(s, breaks) == e + rest;
      assert (e + rest)[|e|..] == rest;
      assert s == [s[0]] + s[1..];
    }
  }

  /** `t` stands in `v` at position `i`. */
  predicate At(v: string, i: nat, t: string) { i + |t| <= |v| && v[i..i + |t|] == t }

  lemma AtSplit(v: string, i: nat, a: string, b: string)
    requires At(v, i, a + b)
    ensures At(v, i, a) && At(v, i + |a|, b)
  {
    var whole := v[i..i + |a| + |b|];
    assert whole[..|a|] == a && whole[|a|..] == b;
  }

  lemma AtChars(v: string, i: nat, t: string)
    requires At(v, i, t)
    ensures i + |t| <= |v| && forall k | i <= k < i + |t| :: v[k] == t[k - i]
  {
    var part := v[i..i + |t|];
    assert forall k | 0 <= k < |t| :: part[k] == v[i + k];
    assert forall k | i <= k < i + |t| :: v[k] == part[k - i];
  }

  lemma EscapeStep(s: string, breaks: bool)
    requires s != ""
    ensures Escape(s, breaks) == EscapeChar(s[0], breaks) + Escape(s[1..], breaks)
    ensures |Escape(s, breaks)| == |EscapeChar(s[0], breaks)| + |Escape(s[1..], breaks)|
  {}

  lemma {:induction false} EscapeCommentFree(v: string, i: nat, s: string, breaks: bool)
    requires At(v, i, Escape(s, breaks)) && i + |Escape(s, breaks)| < |v|
    ensures CommentCut(v, i, Some('"')) == CommentCut(v, i + |Escape(s, breaks)|, Some('"'))
    decreases |s|
  {
    if s != "" {
      var e := EscapeChar(s[0], breaks);
      EscapeStep(s, breaks);
      AtSplit(v, i, e, Escape(s[1..], breaks));
      hide Escape, At;
      EscapedChar(v, i, s[0], breaks);
      EscapeCommentFree(v, i + |e|, s[1..], breaks);
    }
  }

  /** Inside double quotes no escaped character ends the value. */
  lemma EscapedChar(v: string, i: nat, c: char, breaks: bool)
    requires At(v, i, EscapeChar(c, breaks)) && i + |EscapeChar(c, breaks)| < |v|
    ensures CommentCut(v, i, Some('"')) == CommentCut(v, i + |EscapeChar(c, breaks)|, Some('"'))
  {
    AtChars(v, i, EscapeChar(c, breaks));
    hide At;
  }

  lemma {:induction false} EscapeOneElement(v: string, i: nat, s: string, start: nat)
    requires start <= i && At(v, i, Escape(s, false)) && i + |Escape(s, false)| < |v|
    ensures SplitTop(v, i, start, 0, Some('"')) == SplitTop(v, i + |Escape(s, false)|, start, 0, Some('"'))
    decreases |s|
  {
    if s != "" {
      var e := EscapeChar(s[0], false);
      EscapeStep(s, false);
      AtSplit(v, i, e, Escape(s[1..], false));
      AtChars(v, i, e);
      hide Escape, At, Piece;
      EscapeOneElement(v, i + |e|, s[1..], start);
    }
  }

  /** A double-quoted text has no comment in it and unquotes to what was escaped. */
  lemma QuotedCleans(s: string, breaks: bool)
    ensures Clean("\"" + Escape(s, breaks) + "\"") == s
  {
    var body := Escape(s, breaks);
    var v := "\"" + body + "\"";
    assert Trimmed(v);
    TrimmedStays(v);
    assert v[1..1 + |body|] == body;
    EscapeCommentFree(v, 1, s, breaks);
    assert CommentCut(v, 0, None) == CommentCut(v, 1, Some('"')) == CommentCut(v, 1 + |body|, Some('"')) == |v|;
    assert v[1..|v| - 1] == body;
    UnescapeEscape(s, breaks);
  }

  lemma {:induction false} PlainCommentFree(v: string, i: nat)
    requires i <= |v| && '"' !in v && '\'' !in v && '#' !in v
    ensures CommentCut(v, i, None) == |v|
    decreases |v| - i
  {
    if i < |v| {
      assert v[i] in v;
      PlainCommentFree(v, i + 1);
    }
  }

  lemma PlainCleans(s: string)
    requires Trimmed(s) && '"' !in s && '\'' !in s && '#' !in s
    ensures Clean(s) == s
  {
    TrimmedStays(s);
    PlainCommentFree(s, 0);
    assert s != "" ==> s[0] in s;
  }

  lemma TrimSpaceTrimmed(s: string)
    requires s == TrimSpace(s)
    ensures Trimmed(s)
  {
    var i := TrimFacts(s);
  }

  /** clean undoes quoteScalar, on every string. */
  lemma CleanQuoteScalar(s: string)
    ensures Clean(QuoteScalar(s)) == s
  {
    hide Clean, TrimSpace;
    if ScalarNeedsQuotes(s) {
      QuotedCleans(s, true);
    } else {
      TrimSpaceTrimmed(s);
      PlainOf(s, "\r\n\t\"'#");
      PlainCleans(s);
    }
  }

  lemma PlainOf(s: string, chars: string)
    requires !ContainsAny(s, chars)
    ensures forall c | c in chars :: c !in s
  {}

  /** clean undoes quoteListElem, on every string. */
  lemma CleanQuoteListElem(s: string)
    ensures Clean(QuoteListElem(s)) == s && Trimmed(QuoteListElem(s))
    ensures QuoteListElem(s) == "" <==> s == ""
  {
    hide Clean, TrimSpace;
    if ElemNeedsQuotes(s) {
      QuotedCleans(s, false);
      if s == "" { TrimmedStays(s); }
    } else {
      TrimSpaceTrimmed(s);
      PlainOf(s, ",[]{}#\"'");
      PlainCleans(s);
    }
  }

  // ---------------------------------------------------------------- inline lists

  function NonEmpty(items: seq<string>): seq<string> {
    if items == [] then [] else (if items[0] != "" then [items[0]] else []) + NonEmpty(items[1..])
  }

  /** The elements after the first, as JoinList writes them. */
  function Tail(items: seq<string>): string {
    if items == [] then "" else ", " + QuoteListElem(items[0]) + Tail(items[1..])
  }

  lemma Regroup(a: string, b: string, c: string, d: string)
    ensures a + b + (c + d) == a + (b + c + d)
  {}

  lemma {:induction false} JoinIsTail(items: seq<string>)
    requires items != []
    ensures JoinList(QuoteAll(items)) == QuoteListElem(items[0]) + Tail(items[1..])
  {
    hide QuoteListElem;
    if |items| > 1 {
      JoinIsTail(items[1..]);
      assert QuoteAll(items)[1..] == QuoteAll(items[1..]);
      assert items[1..][1..] == items[2..];
      Regroup(QuoteListElem(items[0]), ", ", QuoteListElem(items[1]), Tail(items[2..]));
    } else {
      assert QuoteListElem(items[0]) + "" == QuoteListElem(items[0]);
    }
  }

  lemma {:induction false} PlainOneElement(s: string, i: nat, j: nat, start: nat)
    requires start <= i <= j <= |s|
    requires forall k | i <= k < j ::
        s[k] != '"' && s[k] != '\'' && s[k] != ',' && s[k] != '[' && s[k] != ']' && s[k] != '{' && s[k] != '}'
    ensures SplitTop(s, i, start, 0, None) == SplitTop(s, j, start, 0, None)
    decreases j - i
  {
    if i < j { PlainOneElement(s, i + 1, j, start); }
  }

  /** Reading over one written element changes nothing but the position. */
  lemma ElementScans(s: string, i: nat, e: string, start: nat)
    requires start <= i && At(s, i, QuoteListElem(e))
    ensures SplitTop(s, i, start, 0, None) == SplitTop(s, i + |QuoteListElem(e)|, start, 0, None)
  {
    var q := QuoteListElem(e);
    AtChars(s, i, q);
    if ElemNeedsQuotes(e) {
      QuotedScans(s, i, e, start);
    } else {
      PlainOf(e, ",[]{}#\"'");
      PlainChars(e);
      hide TrimSpace, ContainsAny, SplitTop;
      PlainOneElement(s, i, i + |q|, start);
    }
  }

  lemma QuotedScans(s: string, i: nat, e: string, start: nat)
    requires start <= i && At(s, i, "\"" + Escape(e, false) + "\"")
    ensures SplitTop(s, i, start, 0, None) == SplitTop(s, i + |Escape(e, false)| + 2, start, 0, None)
  {
    hide Escape, At, Piece, SplitTop;
    var body := Escape(e, false);
    assert "\"" + body + "\"" == "\"" + (body + "\"");
    AtSplit(s, i, "\"", body + "\"");
    AtSplit(s, i + 1, body, "\"");
    AtChars(s, i, "\"");
    AtChars(s, i + 1 + |body|, "\"");
    StartQuote(s, i, start);
    EscapeOneElement(s, i + 1, e, start);
    EndQuote(s, i + 1 + |body|, start);
  }

  lemma StartQuote(s: string, i: nat, start: nat)
    requires start <= i < |s| && s[i] == '"'
    ensures SplitTop(s, i, start, 0, None) == SplitTop(s, i + 1, start, 0, Some('"'))
  {}

  lemma PlainChars(e: string)
    requires forall c | c in ",[]{}#\"'" :: c !in e
    ensures forall k | 0 <= k < |e| ::
        e[k] != '"' && e[k] != '\'' && e[k] != ',' && e[k] != '[' && e[k] != ']' && e[k] != '{' && e[k] != '}'
  {
    var special := ",[]{}#\"'";
    assert special[0] in special && special[1] in special && special[2] in special && special[3] in special
      && special[4] in special && special[6] in special && special[7] in special;
  }

  lemma EndQuote(s: string, i: nat, start: nat)
    requires start <= i < |s| && s[i] == '"'
    ensures SplitTop(s, i, start, 0, Some('"')) == SplitTop(s, i + 1, start, 0, None)
  {}

  lemma PieceOf(pad: string, e: string)
    requires pad == "" || pad == " "
    ensures Piece(pad + QuoteListElem(e)) == NonEmpty([e])
  {
    CleanQuoteListElem(e);
    hide QuoteListElem, Clean;
    TrimPadded(pad, QuoteListElem(e));
    assert NonEmpty([e]) == if e != "" then [e] else [];
  }

  lemma {:induction false} SplitList(s: string, start: nat, pad: string, items: seq<string>)
    requires (pad == "" || pad == " ") && items != []
    requires At(s, start, pad + QuoteListElem(items[0]) + Tail(items[1..]))
    requires |s| == start + |pad| + |QuoteListElem(items[0])| + |Tail(items[1..])|
    ensures SplitTop(s, start, start, 0, None) == NonEmpty(items)
    decreases |items|
  {
    hide *;
    var q, rest := QuoteListElem(items[0]), items[1..];
    var i, j := start + |pad|, start + |pad| + |q|;
    AtSplit(s, start, pad + q, Tail(rest));
    AtSplit(s, start, pad, q);
    AtChars(s, start, pad);
    PlainOneElement(s, start, i, start);
    ElementScans(s, i, items[0], start);
    PieceAt(s, start, pad, items[0]);
    NonEmptyStep(items);
    TailShape(rest);
    if rest == [] {
      assert s[start..] == s[start..j];
      SplitEnd(s, start);
    } else {
      var more := " " + QuoteListElem(rest[0]) + Tail(rest[1..]);
      AtSplit(s, j, ",", more);
      AtChars(s, j, ",");
      SplitList(s, j + 1, " ", rest);
      SplitComma(s, j, start);
    }
  }

  lemma PieceAt(s: string, start: nat, pad: string, e: string)
    requires (pad == "" || pad == " ") && At(s, start, pad + QuoteListElem(e))
    ensures Piece(s[start..start + |pad| + |QuoteListElem(e)|]) == NonEmpty([e])
  {
    PieceOf(pad, e);
    hide QuoteListElem, Piece, NonEmpty;
  }

  lemma TailShape(items: seq<string>)
    ensures items == [] ==> Tail(items) == ""
    ensures items != [] ==>
      var more := " " + QuoteListElem(items[0]) + Tail(items[1..]);
      Tail(items) == "," + more && |Tail(items)| == 2 + |QuoteListElem(items[0])| + |Tail(items[1..])|
  {
    hide QuoteListElem;
    if items != [] {
      assert ", " + QuoteListElem(items[0]) + Tail(items[1..])
          == "," + (" " + QuoteListElem(items[0]) + Tail(items[1..]));
    }
  }

  lemma NonEmptyStep(items: seq<string>)
    requires items != []
    ensures NonEmpty(items) == NonEmpty([items[0]]) + NonEmpty(items[1..]) && NonEmpty([]) == []
  {
    var one := [items[0]];
    assert one[1..] == [];
    assert NonEmpty(one) == (if items[0] != "" then one else []) + NonEmpty([]);
  }

  lemma SplitEnd(s: string, start: nat)
    requires start <= |s|
    ensures SplitTop(s, |s|, start, 0, None) == Piece(s[start..])
  {}

  lemma SplitComma(s: string, j: nat, start: nat)
    requires start <= j < |s| && s[j] == ','
    ensures SplitTop(s, j, start, 0, None) == Piece(s[start..j]) + SplitTop(s, j + 1, j + 1, 0, None)
  {}

  /** Writing a list and reading it back drops the empty elements and nothing else,
      through both layers, for any mix of commas, quotes, brackets, backslashes and
      line breaks. */
  lemma ListRoundTrip(items: seq<string>)
    ensures ListOf(Clean(QuoteScalar(ListText(items)))) == Some(NonEmpty(items))
  {
    var text := ListText(items);
    CleanQuoteScalar(text);
    hide Clean, QuoteScalar, QuoteListElem;
    var inner := JoinList(QuoteAll(items));
    assert text[1..|text| - 1] == inner;
    if items == [] {
      assert inner == "";
      assert Piece(inner[0..]) == [];
    } else {
      JoinIsTail(items);
      assert inner == "" + QuoteListElem(items[0]) + Tail(items[1..]);
      assert At(inner, 0, inner);
      SplitList(inner, 0, "", items);
    }
  }

  /** So the very same list comes back exactly when no element is empty. */
  lemma ListReturnsExactly(items: seq<string>)
    ensures ListOf(Clean(QuoteScalar(ListText(items)))) == Some(items) <==> forall i | 0 <= i < |items| ::
        items[i] != ""
  {
    hide ListOf, Clean, QuoteScalar, ListText;
    ListRoundTrip(items);
    NonEmptyLength(items);
  }

  lemma {:induction false} NonEmptyLength(items: seq<string>)
    ensures |NonEmpty(items)| <= |items|
    ensures NonEmpty(items) == items <==> forall i | 0 <= i < |items| :: items[i] != ""
  {
    if items != [] {
      NonEmptyLength(items[1..]);
      assert items == [items[0]] + items[1..];
      if items[0] != "" {
        assert NonEmpty(items)[1..] == NonEmpty(items[1..]);
        assert (forall i | 0 <= i < |items| :: items[i] != "") ==> forall i | 0 <= i < |items[1..]| ::
            items[1..][i] != "" by {
          assert forall i | 0 <= i < |items[1..]| :: items[1..][i] == items[i + 1];
        }
        assert (forall i | 0 <= i < |items[1..]| :: items[1..][i] != "") ==> forall i | 0 <= i < |items| ::
            items[i] != "" by {
          assert forall i | 0 < i < |items| :: items[i] == items[1..][i - 1];
        }
      }
    }
  }
}
