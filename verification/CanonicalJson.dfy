/** The canonical JSON text that every control-plane signature covers
    (internal/cloudsync/client.go, canonicalJSON and writeCanonical), with a
    reader that inverts it. */
module CanonicalJson {
  import opened Wrappers

  /** A decoded JSON value. Go decodes an object into a map, so member order and
      repeated members are gone here; `Fraction` is a number literal written with
      a point or an exponent. */
  datatype Json =
    | Null
    | Bool(b: bool)
    | Str(s: string)
    | Int(i: int)
    | Fraction
    | Arr(items: seq<Json>)
    | Obj(fields: map<string, Json>)

  const INT64_LIMIT: int := 0x8000_0000_0000_0000

  /** The values that can be written at all: no fraction, every integer an int64. */
  predicate Encodable(v: Json) {
    match v
    case Fraction => false
    case Int(i) => -INT64_LIMIT <= i < INT64_LIMIT
    case Arr(items) => forall k | 0 <= k < |items| :: Encodable(items[k])
    case Obj(fields) => forall k | k in fields :: Encodable(fields[k])
    case _ => true
  }

  // ---------------------------------------------------------------- strings

  function HexDigit(n: nat): char
    requires n < 16
  {
    if n < 10 then ('0' as int + n) as char else ('a' as int + n - 10) as char
  }

  /** A character by its code unit, which is how the control characters are written. */
  function Unicode4(n: nat): string
    requires n < 0x1_0000
  {
    ['\\', 'u', HexDigit(n / 16 / 16 / 16), HexDigit(n / 16 / 16 % 16), HexDigit(n / 16 % 16), HexDigit(n % 16)]
  }

  /** One character inside a JSON string, as encoding/json writes it. */
  function Escape(c: char): string {
    if c == '"' || c == '\\' then ['\\', c]
    else if c == 8 as char then "\\b"
    else if c == 12 as char then "\\f"
    else if c == '\n' then "\\n"
    else if c == '\r' then "\\r"
    else if c == '\t' then "\\t"
    else if (c as int) < 0x20 || c == '<' || c == '>' || c == '&' || c as int == 0x2028 || c as int == 0x2029
    then Unicode4(c as int)
    else [c]
  }

  function EscapeAll(s: string): string {
    if s == "" then "" else Escape(s[0]) + EscapeAll(s[1..])
  }

  function Quote(s: string): (r: string)
    ensures |r| >= 2 && r[0] == '"'
  {
    "\"" + EscapeAll(s) + "\""
  }

  // ---------------------------------------------------------------- integers

  predicate IsDigit(c: char) { '0' <= c <= '9' }

  function Digits(n: nat): (r: string)
    ensures |r| > 0 && forall k | 0 <= k < |r| :: IsDigit(r[k])
  {
    var d := [('0' as int + n % 10) as char];
    if n < 10 then d else Digits(n / 10) + d
  }

  function FormatInt(i: int): string { if i < 0 then "-" + Digits(-i) else Digits(i) }

  // ---------------------------------------------------------------- key order

  /** The order of sort.Strings, which on UTF-8 bytes is code point order. */
  predicate Below(a: string, b: string) {
    if b == "" then false
    else if a == "" then true
    else if a[0] != b[0] then a[0] < b[0]
    else Below(a[1..], b[1..])
  }

  lemma {:induction false} BelowTotal(a: string, b: string)
    ensures a == b || Below(a, b) || Below(b, a)
    ensures !(Below(a, b) && Below(b, a))
    ensures a == b ==> !Below(a, b)
  {
    if a != "" && b != "" && a[0] == b[0] {
      BelowTotal(a[1..], b[1..]);
      assert a == [a[0]] + a[1..] && b == [b[0]] + b[1..];
    }
  }

  lemma {:induction false} BelowTransitive(a: string, b: string, c: string)
    requires Below(a, b) && Below(b, c)
    ensures Below(a, c)
  {
    if a != "" && a[0] == b[0] && b[0] == c[0] {
      BelowTransitive(a[1..], b[1..], c[1..]);
    }
  }

  predicate Ascending(keys: seq<string>) {
    forall i, j | 0 <= i < j < |keys| :: Below(keys[i], keys[j])
  }

  lemma {:induction false} Least(keys: set<string>) returns (k: string)
    requires keys != {}
    ensures k in keys && forall x | x in keys && x != k :: Below(k, x)
  {
    var some: string :| some in keys;
    if keys == {some} { return some; }
    var rest := keys - {some};
    assert keys == rest + {some};
    var m := Least(rest);
    BelowTotal(some, m);
    k := if Below(some, m) then some else m;
    forall x | x in keys && x != k ensures Below(k, x) {
      if x != some && k == some && x != m { BelowTransitive(some, m, x); }
    }
  }

  /** The keys of an object in the order they are written. */
  ghost function SortedKeys(keys: set<string>): (r: seq<string>)
    ensures Ascending(r) && |r| == |keys|
    ensures forall k :: k in keys <==> k in r
  {
    if keys == {} then [] else
      LeastExists(keys);
      var k :| k in keys && forall x | x in keys && x != k :: Below(k, x);
      [k] + SortedKeys(keys - {k})
  }

  lemma LeastExists(keys: set<string>)
    requires keys != {}
    ensures exists k :: k in keys && forall x | x in keys && x != k :: Below(k, x)
  {
    var k := Least(keys);
  }

  // ---------------------------------------------------------------- the text

  /** The canonical text of a value; it means something for encodable ones. */
  ghost function Text(v: Json): string
    decreases v, 1, 0
  {
    match v
    case Fraction => ""
    case Null => "null"
    case Bool(b) => if b then "true" else "false"
    case Str(s) => Quote(s)
    case Int(i) => FormatInt(i)
    case Arr(items) => "[" + ItemsText(v, 0) + "]"
    case Obj(fields) => "{" + MembersText(v, SortedKeys(fields.Keys)) + "}"
  }

  /** The items from position `n` on, separated by commas. */
  ghost function ItemsText(v: Json, n: nat): string
    requires v.Arr? && n <= |v.items|
    decreases v, 0, |v.items| - n
  {
    if n == |v.items| then ""
    else if n + 1 == |v.items| then Text(v.items[n])
    else Text(v.items[n]) + "," + ItemsText(v, n + 1)
  }

  /** The members under `keys`, in that order, separated by commas. */
  ghost function MembersText(v: Json, keys: seq<string>): string
    requires v.Obj? && forall k | k in keys :: k in v.fields
    decreases v, 0, |keys|
  {
    if keys == [] then ""
    else
      var member := Quote(keys[0]) + ":" + Text(v.fields[keys[0]]);
      if |keys| == 1 then member else member + "," + MembersText(v, keys[1..])
  }

  // ---------------------------------------------------------------- the reader

  /** A JSON reader for text without insignificant whitespace (RFC 8259, sections
      3 to 7). It stands for the decoder: an integer literal becomes Int, any
      other number literal Fraction, and of repeated members the last one wins. */
  function ReadValue(s: string): (r: Option<(Json, string)>)
    ensures r.Some? ==> |r.value.1| < |s|
    decreases |s|, 1
  {
    if s == "" then None
    else if s[0] == '"' then
      match ReadString(s[1..])
      case None => None
      case Some((t, rest)) => Some((Str(t), rest))
    else if s[0] == '[' then
      if |s| > 1 && s[1] == ']' then Some((Arr([]), s[2..]))
      else
        match ReadItems(s[1..])
        case None => None
        case Some((items, rest)) => Some((Arr(items), rest))
    else if s[0] == '{' then
      if |s| > 1 && s[1] == '}' then Some((Obj(map[]), s[2..]))
      else
        match ReadMembers(s[1..], map[])
        case None => None
        case Some((fields, rest)) => Some((Obj(fields), rest))
    else if "null" <= s then Some((Null, s[4..]))
    else if "true" <= s then Some((Bool(true), s[4..]))
    else if "false" <= s then Some((Bool(false), s[5..]))
    else ReadNumber(s)
  }

  function ReadItems(s: string): (r: Option<(seq<Json>, string)>)
    ensures r.Some? ==> |r.value.1| < |s|
    decreases |s|, 2
  {
    match ReadValue(s)
    case None => None
    case Some((v, rest)) =>
      if rest != "" && rest[0] == ']' then Some(([v], rest[1..]))
      else if rest != "" && rest[0] == ',' then
        match ReadItems(rest[1..])
        case None => None
        case Some((more, last)) => Some(([v] + more, last))
      else None
  }

  function ReadMembers(s: string, sofar: map<string, Json>): (r: Option<(map<string, Json>, string)>)
    ensures r.Some? ==> |r.value.1| < |s|
    decreases |s|, 2
  {
    if s == "" || s[0] != '"' then None
    else
      match ReadString(s[1..])
      case None => None
      case Some((key, colon)) =>
        if colon == "" || colon[0] != ':' then None
        else
          match ReadValue(colon[1..])
          case None => None
          case Some((v, rest)) =>
            var fields := sofar[key := v];
            if rest != "" && rest[0] == '}' then Some((fields, rest[1..]))
            else if rest != "" && rest[0] == ',' then ReadMembers(rest[1..], fields)
            else None
  }

  function HexValue(c: char): Option<nat> {
    if '0' <= c <= '9' then Some(c as int - '0' as int)
    else if 'a' <= c <= 'f' then Some(c as int - 'a' as int + 10)
    else if 'A' <= c <= 'F' then Some(c as int - 'A' as int + 10)
    else None
  }

  /** The character that a one-letter escape stands for. */
  function ShortEscape(c: char): Option<char> {
    if c == '"' || c == '\\' || c == '/' then Some(c)
    else if c == 'b' then Some(8 as char)
    else if c == 'f' then Some(12 as char)
    else if c == 'n' then Some('\n')
    else if c == 'r' then Some('\r')
    else if c == 't' then Some('\t')
    else None
  }

  function HexQuad(a: char, b: char, c: char, d: char): Option<nat> {
    if HexValue(a).None? || HexValue(b).None? || HexValue(c).None? || HexValue(d).None? then None
    else Some(HexValue(a).value * 4096 + HexValue(b).value * 256 + HexValue(c).value * 16 + HexValue(d).value)
  }

  /** The character after a backslash, and what is left. */
  function ReadEscape(s: string): (r: Option<(char, string)>)
    ensures r.Some? ==> |r.value.1| < |s|
  {
    if s == "" then None
    else if s[0] == 'u' then
      if |s| < 5 then None
      else
        match HexQuad(s[1], s[2], s[3], s[4])
        case Some(n) => if n < 0xD800 || 0xE000 <= n < 0x1_0000 then Some((n as char, s[5..])) else None
        case None => None
    else
      match ShortEscape(s[0])
      case Some(c) => Some((c, s[1..]))
      case None => None
  }

  /** The rest of a string whose opening quote has been read. */
  function ReadString(s: string): (r: Option<(string, string)>)
    ensures r.Some? ==> |r.value.1| < |s|
  {
    if s == "" || (s[0] as int) < 0x20 then None
    else if s[0] == '"' then Some(("", s[1..]))
    else if s[0] == '\\' then
      match ReadEscape(s[1..])
      case None => None
      case Some((c, rest)) =>
        match ReadString(rest)
        case None => None
        case Some((t, last)) => Some(([c] + t, last))
    else
      match ReadString(s[1..])
      case None => None
      case Some((t, last)) => Some(([s[0]] + t, last))
  }

  /** How many of the leading characters are digits. */
  function DigitRun(s: string): (n: nat)
    ensures n <= |s|
    ensures forall k | 0 <= k < n :: IsDigit(s[k])
    ensures n < |s| ==> !IsDigit(s[n])
  {
    if s == "" || !IsDigit(s[0]) then 0 else 1 + DigitRun(s[1..])
  }

  function DigitsValue(s: string): nat
    requires forall k | 0 <= k < |s| :: IsDigit(s[k])
  {
    if s == "" then 0
    else
      var c := s[|s| - 1];
      assert IsDigit(c);
      DigitsValue(s[..|s| - 1]) * 10 + (c as int - '0' as int)
  }

  /** A digit run without a leading zero, and then either the end of the number
      or the rest of a fraction, which is skipped. */
  function ReadMagnitude(t: string): (r: Option<(Json, string)>)
    ensures r.Some? ==> |r.value.1| < |t| && (r.value.0.Int? || r.value.0.Fraction?)
  {
    var n := DigitRun(t);
    if n == 0 || (n > 1 && t[0] == '0') then None
    else if n < |t| && t[n] in ".eE" then Some((Fraction, t[n + FractionRun(t[n..])..]))
    else Some((Int(DigitsValue(t[..n])), t[n..]))
  }

  function ReadNumber(s: string): (r: Option<(Json, string)>)
    ensures r.Some? ==> |r.value.1| < |s|
  {
    if s != "" && s[0] == '-' then
      match ReadMagnitude(s[1..])
      case Some((Int(i), rest)) => Some((Int(-i), rest))
      case other => other
    else ReadMagnitude(s)
  }

  function FractionRun(s: string): (n: nat)
    ensures n <= |s|
  {
    if s == "" || !(IsDigit(s[0]) || s[0] in ".eE+-") then 0 else 1 + FractionRun(s[1..])
  }

  // ---------------------------------------------------------------- the reader inverts the writer

  lemma QuadReads(a: nat, b: nat, c: nat, d: nat)
    requires a < 16 && b < 16 && c < 16 && d < 16
    ensures HexQuad(HexDigit(a), HexDigit(b), HexDigit(c), HexDigit(d)) == Some(a * 4096 + b * 256 + c * 16 + d)
  {
    HexReads(a); HexReads(b); HexReads(c); HexReads(d);
    hide HexValue, HexDigit;
  }

  lemma ShortReads(c: char, letter: char, rest: string)
    requires ShortEscape(letter) == Some(c) && letter != 'u'
    ensures ReadEscape([letter] + rest) == Some((c, rest))
  {
    assert ([letter] + rest)[1..] == rest;
    hide HexQuad;
  }

  lemma UnicodeReads(n: nat, rest: string)
    requires n < 0xD800
    ensures ReadEscape(Unicode4(n)[1..] + rest) == Some((n as char, rest))
  {
    hide HexQuad, HexDigit, ShortEscape;
    var a, b, c, d := n / 16 / 16 / 16, n / 16 / 16 % 16, n / 16 % 16, n % 16;
    QuadReads(a, b, c, d);
    HexPlaces(n);
    QuadThenRest(HexDigit(a), HexDigit(b), HexDigit(c), HexDigit(d), n, rest);
    assert Unicode4(n)[1..] == ['u', HexDigit(a), HexDigit(b), HexDigit(c), HexDigit(d)];
  }

  lemma HexPlaces(n: nat)
    ensures n / 16 / 16 / 16 * 4096 + n / 16 / 16 % 16 * 256 + n / 16 % 16 * 16 + n % 16 == n
  {}

  lemma QuadThenRest(a: char, b: char, c: char, d: char, n: nat, rest: string)
    requires n < 0xD800 && HexQuad(a, b, c, d) == Some(n)
    ensures ReadEscape(['u', a, b, c, d] + rest) == Some((n as char, rest))
  {
    hide HexQuad, ShortEscape;
    assert (['u', a, b, c, d] + rest)[5..] == rest;
  }

  /** What follows the backslash of an escaped character reads back as it. */
  lemma EscapeReads(c: char, rest: string)
    ensures Escape(c) != "" && Escape(c)[0] as int >= 0x20 && Escape(c)[0] != '"'
    ensures if Escape(c)[0] == '\\' then ReadEscape(Escape(c)[1..] + rest) == Some((c, rest)) else Escape(c) == [c]
  {
    hide ReadEscape;
    var e := Escape(c);
    if e[0] == '\\' {
      if |e| == 2 {
        ShortReads(c, e[1], rest);
        assert e[1..] == [e[1]];
      } else {
        UnicodeReads(c as int, rest);
        hide Unicode4;
      }
    }
  }

  lemma HexReads(n: nat)
    requires n < 16
    ensures HexValue(HexDigit(n)) == Some(n)
  {}

  lemma CharReads(c: char, tail: string, t: string, rest: string)
    requires ReadString(tail) == Some((t, rest))
    ensures ReadString(Escape(c) + tail) == Some(([c] + t, rest))
  {
    EscapeReads(c, tail);
    hide Escape, ReadEscape;
    var all := Escape(c) + tail;
    assert all[0] == Escape(c)[0] && all[1..] == Escape(c)[1..] + tail;
    assert Escape(c) == [c] ==> all[1..] == tail;
  }

  lemma {:induction false} StringReads(s: string, rest: string)
    ensures ReadString(EscapeAll(s) + "\"" + rest) == Some((s, rest))
  {
    if s == "" {
      assert EscapeAll(s) + "\"" + rest == ['"'] + rest;
    } else {
      hide Escape, ReadString;
      var tail := EscapeAll(s[1..]) + "\"" + rest;
      StringReads(s[1..], rest);
      CharReads(s[0], tail, s[1..], rest);
      assert EscapeAll(s) + "\"" + rest == Escape(s[0]) + tail;
      assert s == [s[0]] + s[1..];
    }
  }

  /** A string literal is self-delimiting: whatever follows it is left unread. */
  lemma QuoteReads(s: string, rest: string)
    ensures ReadString((Quote(s) + rest)[1..]) == Some((s, rest))
  {
    StringReads(s, rest);
    assert (Quote(s) + rest)[1..] == EscapeAll(s) + "\"" + rest;
  }

  lemma {:induction false} DigitsReads(n: nat)
    ensures DigitsValue(Digits(n)) == n
    ensures n > 0 ==> Digits(n)[0] != '0'
    ensures n == 0 ==> Digits(n) == "0"
  {
    var d := [('0' as int + n % 10) as char];
    if n < 10 {
      assert d[..0] == "";
    } else {
      DigitsReads(n / 10);
      var all := Digits(n / 10) + d;
      assert all[..|all| - 1] == Digits(n / 10);
    }
  }

  /** What may follow a value: nothing, or a character no number goes on with. */
  predicate Delimited(rest: string) {
    rest == "" || !(IsDigit(rest[0]) || rest[0] in ".eE")
  }

  lemma {:induction false} RunStops(digits: string, rest: string)
    requires forall k | 0 <= k < |digits| :: IsDigit(digits[k])
    requires rest == "" || !IsDigit(rest[0])
    ensures DigitRun(digits + rest) == |digits|
  {
    if digits == "" {
      assert digits + rest == rest;
    } else {
      RunStops(digits[1..], rest);
      assert (digits + rest)[1..] == digits[1..] + rest;
    }
  }

  lemma MagnitudeReads(n: nat, rest: string)
    requires Delimited(rest)
    ensures ReadMagnitude(Digits(n) + rest) == Some((Int(n), rest))
  {
    DigitsReads(n);
    var digits := Digits(n);
    var t := digits + rest;
    RunStops(digits, rest);
    assert t[..|digits|] == digits && t[|digits|..] == rest;
    hide Digits, DigitRun, DigitsValue;
  }

  lemma NumberStarts(s: string)
    requires s != "" && (s[0] == '-' || IsDigit(s[0]))
    ensures ReadValue(s) == ReadNumber(s)
  {
    hide ReadNumber, ReadString, ReadItems, ReadMembers;
  }

  lemma NumberReads(i: int, rest: string)
    requires Delimited(rest)
    ensures ReadValue(FormatInt(i) + rest) == Some((Int(i), rest))
  {
    hide Digits, ReadMagnitude, ReadValue;
    var n := if i < 0 then -i else i;
    MagnitudeReads(n, rest);
    var t := Digits(n) + rest;
    assert IsDigit(Digits(n)[0]) && t[0] == Digits(n)[0];
    if i < 0 {
      var s := "-" + t;
      assert FormatInt(i) + rest == s;
      assert s[1..] == t;
      NumberStarts(s);
    } else {
      NumberStarts(t);
    }
  }

  lemma WordsRead(rest: string)
    ensures ReadValue("null" + rest) == Some((Null, rest))
    ensures ReadValue("true" + rest) == Some((Bool(true), rest))
    ensures ReadValue("false" + rest) == Some((Bool(false), rest))
  {
    hide ReadNumber, ReadString, ReadItems, ReadMembers;
    assert ("null" + rest)[4..] == rest && ("true" + rest)[4..] == rest && ("false" + rest)[5..] == rest;
  }

  lemma StringValueReads(t: string, rest: string)
    ensures ReadValue(Quote(t) + rest) == Some((Str(t), rest))
  {
    hide Quote, ReadString, ReadItems, ReadMembers, ReadNumber;
    QuoteReads(t, rest);
    assert (Quote(t) + rest)[0] == '"';
  }

  lemma ArrayReads(t: string, items: seq<Json>, rest: string)
    requires t != "" && t[0] != ']' && ReadItems(t) == Some((items, rest))
    ensures ReadValue("[" + t) == Some((Arr(items), rest))
  {
    var s := "[" + t;
    assert s[0] == '[' && s[1] == t[0] && s[1..] == t;
    hide ReadItems;
  }

  lemma ObjectReads(t: string, fields: map<string, Json>, rest: string)
    requires t != "" && t[0] != '}' && ReadMembers(t, map[]) == Some((fields, rest))
    ensures ReadValue("{" + t) == Some((Obj(fields), rest))
  {
    var s := "{" + t;
    assert s[0] == '{' && s[1] == t[0] && s[1..] == t;
    hide ReadMembers;
  }

  lemma ItemReads(v: Json, text: string, tail: string, rest: string)
    requires ReadValue(text + tail) == Some((v, tail)) && tail != ""
    ensures tail == "]" + rest ==> ReadItems(text + tail) == Some(([v], rest))
    ensures tail == "," + rest ==>
      ReadItems(text + tail)
          == match ReadItems(rest) case Some((more, last)) => Some(([v] + more, last)) case None => None
  {
    hide ReadValue;
    assert tail[0] == ']' || tail[0] == ',' ==> tail == [tail[0]] + tail[1..];
  }

  lemma MemberReads(key: string, v: Json, text: string, tail: string, rest: string, sofar: map<string, Json>)
    requires ReadValue(text + tail) == Some((v, tail)) && tail != ""
    ensures tail == "}" + rest ==>
      ReadMembers(Quote(key) + (":" + (text + tail)), sofar) == Some((sofar[key := v], rest))
    ensures tail == "," + rest ==>
      ReadMembers(Quote(key) + (":" + (text + tail)), sofar) == ReadMembers(rest, sofar[key := v])
  {
    var colon := ":" + (text + tail);
    QuoteReads(key, colon);
    hide ReadValue, Quote, ReadString;
    assert colon[0] == ':' && colon[1..] == text + tail;
    assert tail == "}" + rest || tail == "," + rest ==> tail[1..] == rest;
  }

  /** The reader inverts the canonical text of every encodable value, and stops
      exactly where the text stops. */
  lemma {:induction false} ValueReads(v: Json, rest: string)
    requires Encodable(v) && Delimited(rest)
    ensures ReadValue(Text(v) + rest) == Some((v, rest))
    decreases v, 1, 0
  {
    hide ReadValue, Quote, FormatInt;
    match v
    case Null => WordsRead(rest);
    case Bool(b) => WordsRead(rest);
    case Str(t) => StringValueReads(t, rest);
    case Int(i) => NumberReads(i, rest);
    case Arr(items) => ArrayValueReads(v, rest);
    case Obj(fields) => ObjectValueReads(v, rest);
  }

  lemma {:induction false} ArrayValueReads(v: Json, rest: string)
    requires Encodable(v) && v.Arr?
    ensures ReadValue(Text(v) + rest) == Some((v, rest))
    decreases v, 0, |v.items| + 1
  {
    hide ReadValue, ReadItems;
    if v.items == [] {
      EmptyReads(rest);
      assert "[" + "" + "]" + rest == "[]" + rest;
    } else {
      ItemsRead(v, 0, rest);
      var t := ItemsText(v, 0) + "]" + rest;
      assert Text(v) + rest == "[" + t;
      ItemsStart(v);
      ArrayReads(t, v.items, rest);
    }
  }

  lemma {:induction false} ObjectValueReads(v: Json, rest: string)
    requires Encodable(v) && v.Obj?
    ensures ReadValue(Text(v) + rest) == Some((v, rest))
    decreases v, 0, |v.fields.Keys| + 1
  {
    hide *;
    var keys := SortedKeys(v.fields.Keys);
    ObjectText(v, rest);
    if keys == [] {
      EmptyReads(rest);
      NoMembers(v);
      assert "{" + ("" + "}" + rest) == "{}" + rest;
    } else {
      MembersRead(v, keys, map[], rest);
      MembersStart(v, keys);
      PickAll(v.fields);
      TextBefore(MembersText(v, keys), "}" + rest);
      ObjectReads(MembersText(v, keys) + "}" + rest, v.fields, rest);
    }
  }

  lemma ObjectText(v: Json, rest: string)
    requires v.Obj?
    ensures var keys := SortedKeys(v.fields.Keys);
      (forall k | k in keys :: k in v.fields) && Text(v) + rest == "{" + (MembersText(v, keys) + "}" + rest)
  {
    hide SortedKeys, MembersText;
    var text := MembersText(v, SortedKeys(v.fields.Keys));
    assert "{" + text + "}" + rest == "{" + (text + "}" + rest);
  }

  lemma TextBefore(a: string, b: string)
    ensures a != "" ==> a + b != "" && (a + b)[0] == a[0]
  {}

  lemma EmptyReads(rest: string)
    ensures ReadValue("[]" + rest) == Some((Arr([]), rest))
    ensures ReadValue("{}" + rest) == Some((Obj(map[]), rest))
  {
    hide ReadItems, ReadMembers;
    assert ("[]" + rest)[2..] == rest && ("{}" + rest)[2..] == rest;
  }

  /** No item starts with the character that ends an array. */
  lemma ItemsStart(v: Json)
    requires Encodable(v) && v.Arr? && v.items != []
    ensures ItemsText(v, 0) != "" && ItemsText(v, 0)[0] != ']'
  {
    TextStarts(v.items[0]);
    hide Text;
  }

  lemma TextStarts(v: Json)
    requires Encodable(v)
    ensures Text(v) != "" && Text(v)[0] != ']'
  {
    if v.Int? {
      var d := Digits(if v.i < 0 then -v.i else v.i);
      assert IsDigit(d[0]);
      hide Digits;
    }
  }

  lemma {:induction false} ItemsRead(v: Json, n: nat, rest: string)
    requires Encodable(v) && v.Arr? && n < |v.items|
    ensures ReadItems(ItemsText(v, n) + "]" + rest) == Some((v.items[n..], rest))
    decreases v, 0, |v.items| - n
  {
    hide ReadItems, ReadValue, Text;
    var text := Text(v.items[n]);
    if n + 1 == |v.items| {
      ValueReads(v.items[n], "]" + rest);
      ItemReads(v.items[n], text, "]" + rest, rest);
      assert ItemsText(v, n) + "]" + rest == text + ("]" + rest);
      assert v.items[n..] == [v.items[n]];
    } else {
      var more := ItemsText(v, n + 1) + "]" + rest;
      ValueReads(v.items[n], "," + more);
      ItemReads(v.items[n], text, "," + more, more);
      ItemsRead(v, n + 1, rest);
      assert ItemsText(v, n) + "]" + rest == text + ("," + more);
      assert v.items[n..] == [v.items[n]] + v.items[n + 1..];
    }
  }

  /** The members of an object under the given keys. */
  ghost function Pick(fields: map<string, Json>, keys: seq<string>): map<string, Json> {
    map k | k in keys && k in fields :: fields[k]
  }

  lemma PickOneMore(fields: map<string, Json>, keys: seq<string>, sofar: map<string, Json>)
    requires keys != [] && keys[0] in fields
    ensures sofar[keys[0] := fields[keys[0]]] + Pick(fields, keys[1..]) == sofar + Pick(fields, keys)
  {
    assert keys == [keys[0]] + keys[1..];
  }

  lemma PickAll(fields: map<string, Json>)
    ensures map[] + Pick(fields, SortedKeys(fields.Keys)) == fields
  {
    hide SortedKeys;
  }

  lemma NoMembers(v: Json)
    requires Encodable(v) && v.Obj? && SortedKeys(v.fields.Keys) == []
    ensures v.fields == map[] && MembersText(v, []) == ""
  {
    assert v.fields.Keys == {};
  }

  lemma PickNothing(fields: map<string, Json>, sofar: map<string, Json>)
    ensures sofar + Pick(fields, []) == sofar
  {}

  lemma MembersStart(v: Json, keys: seq<string>)
    requires Encodable(v) && v.Obj? && keys != [] && forall k | k in keys :: k in v.fields
    ensures MembersText(v, keys) != "" && MembersText(v, keys)[0] == '"'
  {
    hide Text, EscapeAll;
  }

  lemma {:induction false} MembersRead(v: Json, keys: seq<string>, sofar: map<string, Json>, rest: string)
    requires Encodable(v) && v.Obj? && keys != [] && forall k | k in keys :: k in v.fields
    ensures ReadMembers(MembersText(v, keys) + "}" + rest, sofar)
         == Some((sofar + Pick(v.fields, keys), rest))
    decreases v, 0, |keys|
  {
    hide ReadMembers, ReadValue, Text, Quote, Pick;
    PickOneMore(v.fields, keys, sofar);
    var key, item := keys[0], v.fields[keys[0]];
    var text := Text(item);
    if |keys| == 1 {
      ValueReads(item, "}" + rest);
      MemberReads(key, item, text, "}" + rest, rest, sofar);
      assert MembersText(v, keys) + "}" + rest == Quote(key) + (":" + (text + ("}" + rest)));
      PickNothing(v.fields, sofar[key := item]);
      assert keys[1..] == [];
    } else {
      var more := MembersText(v, keys[1..]) + "}" + rest;
      ValueReads(item, "," + more);
      MemberReads(key, item, text, "," + more, more, sofar);
      MembersRead(v, keys[1..], sofar[key := item], rest);
      assert MembersText(v, keys) + "}" + rest == Quote(key) + (":" + (text + ("," + more)));
    }
  }

  // ---------------------------------------------------------------- what signatures rely on

  /** Unique readability: equal canonical texts come from equal values. */
  lemma TextInjective(v: Json, w: Json)
    requires Encodable(v) && Encodable(w)
    ensures Text(v) == Text(w) ==> v == w
  {
    ValueReads(v, "");
    ValueReads(w, "");
    assert Text(v) + "" == Text(v) && Text(w) + "" == Text(w);
  }

  /** canonicalJSON: decode, then write. */
  ghost function Canonicalize(raw: string): Option<string> {
    match ReadValue(raw)
    case Some((v, _)) => if Encodable(v) then Some(Text(v)) else None
    case None => None
  }

  /** Canonical text is a fixed point of canonicalization. */
  lemma CanonicalizeIdempotent(raw: string)
    ensures Canonicalize(raw).Some? ==> Canonicalize(Canonicalize(raw).value) == Canonicalize(raw)
  {
    match Canonicalize(raw)
    case None =>
    case Some(text) =>
      var v := ReadValue(raw).value.0;
      ValueReads(v, "");
      assert text + "" == text;
  }

  // ---------------------------------------------------------------- the writer

  /** Two ascending sequences with the same elements are the same sequence. */
  lemma {:induction false} AscendingUnique(a: seq<string>, b: seq<string>)
    requires Ascending(a) && Ascending(b)
    requires forall k :: k in a <==> k in b
    ensures a == b
  {
    if a == [] || b == [] {
      HasElement(a);
      HasElement(b);
    } else {
      HeadsAgree(a, b);
      forall k ensures k in a[1..] <==> k in b[1..] {
        BelowTotal(a[0], a[0]);
        assert k in a[1..] ==> Below(a[0], k);
        assert k in b[1..] ==> Below(b[0], k);
        assert k in a <==> k == a[0] || k in a[1..];
        assert k in b <==> k == b[0] || k in b[1..];
      }
      AscendingUnique(a[1..], b[1..]);
      assert a == [a[0]] + a[1..] && b == [b[0]] + b[1..];
    }
  }

  lemma HasElement(a: seq<string>)
    ensures a == [] || exists k :: k in a
  {
    if a != [] { assert a[0] in a; }
  }

  lemma HeadsAgree(a: seq<string>, b: seq<string>)
    requires Ascending(a) && Ascending(b) && a != [] && b != []
    requires forall k :: k in a <==> k in b
    ensures a[0] == b[0]
  {
    assert a[0] in b && b[0] in a;
    var i :| 0 <= i < |b| && b[i] == a[0];
    var j :| 0 <= j < |a| && a[j] == b[0];
    if i != 0 && j != 0 { BelowTotal(a[0], b[0]); }
  }

  /** sort.Strings on the keys of a map, which Go hands over in no particular order. */
  method SortStrings(keys: set<string>) returns (r: seq<string>)
    ensures r == SortedKeys(keys)
  {
    r := [];
    var left := keys;
    while left != {}
      invariant left <= keys
      invariant Ascending(r)
      invariant forall k :: k in r <==> k in keys - left
      decreases left
    {
      var key :| key in left;
      left := left - {key};
      r := InsertSorted(r, key);
    }
    AscendingUnique(r, SortedKeys(keys));
  }

  method InsertSorted(sorted: seq<string>, key: string) returns (r: seq<string>)
    requires Ascending(sorted) && key !in sorted
    ensures Ascending(r)
    ensures forall k :: k in r <==> k == key || k in sorted
  {
    var n := 0;
    while n < |sorted| && Below(sorted[n], key)
      invariant n <= |sorted|
      invariant forall i | 0 <= i < n :: Below(sorted[i], key)
    {
      n := n + 1;
    }
    r := sorted[..n] + [key] + sorted[n..];
    forall i | n <= i < |sorted| ensures Below(key, sorted[i]) {
      BelowTotal(sorted[n], key);
      if i > n { BelowTransitive(key, sorted[n], sorted[i]); }
    }
    forall k ensures k in r <==> k == key || k in sorted {
      assert k in sorted <==> k in sorted[..n] || k in sorted[n..] by { assert sorted == sorted[..n] + sorted[n..]; }
    }
  }

  /** bytes.Buffer. */
  class Buffer {
    var text: string

    constructor ()
      ensures text == ""
    {
      text := "";
    }

    method WriteString(s: string)
      modifies this
      ensures text == old(text) + s
    {
      text := text + s;
    }
  }

  /** writeCanonical: appends the canonical text, or reports that there is none. */
  method WriteCanonical(out: Buffer, v: Json) returns (ok: bool)
    modifies out
    ensures ok <==> Encodable(v)
    ensures ok ==> out.text == old(out.text) + Text(v)
    decreases v, 2
  {
    match v
    case Null => out.WriteString("null"); ok := true;
    case Bool(b) => out.WriteString(if b then "true" else "false"); ok := true;
    case Str(s) => out.WriteString(Quote(s)); ok := true;
    case Fraction => ok := false;
    case Int(i) =>
      ok := -INT64_LIMIT <= i < INT64_LIMIT;
      if ok { out.WriteString(FormatInt(i)); }
    case Arr(items) => ok := WriteArray(out, v);
    case Obj(fields) => ok := WriteObject(out, v);
  }

  lemma Associate(a: string, b: string, c: string)
    ensures a + (b + c) == a + b + c
  {}

  /** The first `n` items, separated by commas: what the loop has written. */
  ghost function ItemsWritten(v: Json, n: nat): string
    requires v.Arr? && n <= |v.items|
  {
    if n == 0 then "" else ItemsWritten(v, n - 1) + (Separator(n - 1) + Text(v.items[n - 1]))
  }

  ghost function Separator(n: nat): string { if n == 0 then "" else "," }

  lemma {:induction false} ItemsWrittenAll(v: Json, n: nat)
    requires v.Arr? && n < |v.items|
    ensures ItemsWritten(v, n) + (Separator(n) + ItemsText(v, n)) == ItemsWritten(v, |v.items|)
    decreases |v.items| - n
  {
    ItemsStep(v, n);
    hide *;
    if n + 1 < |v.items| {
      ItemsWrittenAll(v, n + 1);
      Associate(Separator(n), Text(v.items[n]), Separator(n + 1) + ItemsText(v, n + 1));
      Associate(ItemsWritten(v, n), Separator(n) + Text(v.items[n]), Separator(n + 1) + ItemsText(v, n + 1));
    }
  }

  lemma ItemsStep(v: Json, n: nat)
    requires v.Arr? && n < |v.items|
    ensures ItemsWritten(v, n + 1) == ItemsWritten(v, n) + (Separator(n) + Text(v.items[n]))
    ensures ItemsText(v, n) == if n + 1 < |v.items| then Text(v.items[n]) + (Separator(n + 1) + ItemsText(v, n + 1))
        else Text(v.items[n])
  {
    hide Text;
  }

  lemma ArrayWritten(v: Json, before: string)
    requires v.Arr?
    ensures before + "[" + ItemsWritten(v, |v.items|) + "]" == before + Text(v)
  {
    if v.items != [] {
      ItemsWrittenAll(v, 0);
      assert "" + ("" + ItemsText(v, 0)) == ItemsText(v, 0);
    }
    assert before + ("[" + ItemsText(v, 0) + "]") == before + "[" + ItemsText(v, 0) + "]";
  }

  method WriteArray(out: Buffer, v: Json) returns (ok: bool)
    requires v.Arr?
    modifies out
    ensures ok <==> Encodable(v)
    ensures ok ==> out.text == old(out.text) + Text(v)
    decreases v, 0
  {
    hide Text;
    out.WriteString("[");
    for i := 0 to |v.items|
      invariant forall k | 0 <= k < i :: Encodable(v.items[k])
      invariant out.text == old(out.text) + "[" + ItemsWritten(v, i)
    {
      Associate(out.text, Separator(i), Text(v.items[i]));
      Associate(old(out.text) + "[", ItemsWritten(v, i), Separator(i) + Text(v.items[i]));
      out.WriteString(if i > 0 then "," else "");
      var item := WriteCanonical(out, v.items[i]);
      if !item { return false; }
    }
    out.WriteString("]");
    ArrayWritten(v, old(out.text));
    return true;
  }

  ghost function MemberText(v: Json, key: string): string
    requires v.Obj? && key in v.fields
  {
    Quote(key) + ":" + Text(v.fields[key])
  }

  /** The first `n` members in the order of `keys`: what the loop has written. */
  ghost function MembersWritten(v: Json, keys: seq<string>, n: nat): string
    requires v.Obj? && n <= |keys| && forall k | k in keys :: k in v.fields
  {
    if n == 0 then "" else MembersWritten(v, keys, n - 1) + (Separator(n - 1) + MemberText(v, keys[n - 1]))
  }

  lemma {:induction false} MembersWrittenAll(v: Json, keys: seq<string>, n: nat)
    requires v.Obj? && n < |keys| && forall k | k in keys :: k in v.fields
    ensures MembersWritten(v, keys, n) + (Separator(n) + MembersText(v, keys[n..])) == MembersWritten(v, keys, |keys|)
    decreases |keys| - n
  {
    hide Quote, Text;
    assert keys[n..][1..] == keys[n + 1..];
    if n + 1 < |keys| {
      MembersWrittenAll(v, keys, n + 1);
      assert MembersText(v, keys[n..]) == MemberText(v, keys[n]) + "," + MembersText(v, keys[n + 1..]);
      assert Separator(n) + MembersText(v, keys[n..])
          == (Separator(n) + MemberText(v, keys[n])) + (Separator(n + 1) + MembersText(v, keys[n + 1..]));
      Associate(MembersWritten(v, keys, n), Separator(n) + MemberText(v, keys[n]), Separator(n + 1)
          + MembersText(v, keys[n + 1..]));
    }
  }

  lemma NoMembersYet(v: Json, keys: seq<string>)
    requires v.Obj? && forall k | k in keys :: k in v.fields
    ensures MembersWritten(v, keys, 0) == ""
  {}

  lemma OneMoreMember(v: Json, keys: seq<string>, i: nat, before: string)
    requires v.Obj? && i < |keys| && forall k | k in keys :: k in v.fields
    ensures before + MembersWritten(v, keys, i) + Separator(i) + MemberText(v, keys[i])
        == before + MembersWritten(v, keys, i + 1)
  {
    hide MemberText;
    Associate(before + MembersWritten(v, keys, i), Separator(i), MemberText(v, keys[i]));
    Associate(before, MembersWritten(v, keys, i), Separator(i) + MemberText(v, keys[i]));
  }

  lemma ObjectWritten(v: Json, keys: seq<string>, before: string)
    requires v.Obj? && keys == SortedKeys(v.fields.Keys)
    ensures before + "{" + MembersWritten(v, keys, |keys|) + "}" == before + Text(v)
  {
    hide *;
    AllWritten(v, keys);
    TextOfObject(v);
    var text := MembersText(v, keys);
    assert before + ("{" + text + "}") == before + "{" + text + "}";
  }

  lemma AllWritten(v: Json, keys: seq<string>)
    requires v.Obj? && forall k | k in keys :: k in v.fields
    ensures MembersWritten(v, keys, |keys|) == MembersText(v, keys)
  {
    if keys != [] {
      MembersWrittenAll(v, keys, 0);
      hide MembersText;
      assert keys[0..] == keys && "" + ("" + MembersText(v, keys)) == MembersText(v, keys);
    }
  }

  lemma TextOfObject(v: Json)
    requires v.Obj?
    ensures var keys := SortedKeys(v.fields.Keys);
      (forall k | k in keys :: k in v.fields) && Text(v) == "{" + MembersText(v, keys) + "}"
  {
    hide SortedKeys, MembersText;
  }

  method WriteObject(out: Buffer, v: Json) returns (ok: bool)
    requires v.Obj?
    modifies out
    ensures ok <==> Encodable(v)
    ensures ok ==> out.text == old(out.text) + Text(v)
    decreases v, 1
  {
    hide Text, SortedKeys, MemberText, MembersWritten;
    var keys := SortStrings(v.fields.Keys);
    out.WriteString("{");
    NoMembersYet(v, keys);
    for i := 0 to |keys|
      invariant forall k | 0 <= k < i :: Encodable(v.fields[keys[k]])
      invariant out.text == old(out.text) + "{" + MembersWritten(v, keys, i)
    {
      OneMoreMember(v, keys, i, old(out.text) + "{");
      out.WriteString(if i > 0 then "," else "");
      var item := WriteMember(out, v, keys[i]);
      if !item { return false; }
    }
    out.WriteString("}");
    ObjectWritten(v, keys, old(out.text));
    return true;
  }

  method WriteMember(out: Buffer, v: Json, key: string) returns (ok: bool)
    requires v.Obj? && key in v.fields
    modifies out
    ensures ok <==> Encodable(v.fields[key])
    ensures ok ==> out.text == old(out.text) + MemberText(v, key)
    decreases v, 0
  {
    hide Quote, Text;
    out.WriteString(Quote(key));
    out.WriteString(":");
    ok := WriteCanonical(out, v.fields[key]);
  }

  /** canonicalJSON on a decoded value. */
  method Canonical(v: Json) returns (text: Option<string>)
    ensures text == if Encodable(v) then Some(Text(v)) else None
  {
    var out := new Buffer();
    var ok := WriteCanonical(out, v);
    text := if ok then Some(out.text) else None;
    assert "" + Text(v) == Text(v);
  }
}
