/** What canonical text looks like, character by character: which characters a string is
    written with, and in which order the members of an object stand
    (writeCanonical in internal/cloudsync/client.go on encoding/json). */
module CanonicalShape {
  import opened CanonicalJson

  // ---------------------------------------------------------------- member order

  /** The order of strings by their first difference. */
  ghost predicate Precedes(a: string, b: string) { exists n :: DiffersAt(a, b, n) }

  predicate DiffersAt(a: string, b: string, n: nat) {
    n <= |a| && n < |b| && a[..n] == b[..n] && (n == |a| || a[n] < b[n])
  }

  lemma FirstSame(a: string, b: string, n: nat)
    requires DiffersAt(a, b, n) && n > 0
    ensures a != "" && b != "" && a[0] == b[0]
  {
    assert a[0] == a[..n][0] && b[0] == b[..n][0];
  }

  lemma {:induction false} BelowMeans(a: string, b: string)
    ensures Below(a, b) <==> Precedes(a, b)
    decreases |a|
  {
    if a != "" && b != "" && a[0] == b[0] {
      BelowMeans(a[1..], b[1..]);
      PrecedesTail(a, b);
    } else {
      if Below(a, b) { assert DiffersAt(a, b, 0); }
      if Precedes(a, b) {
        var n: nat :| DiffersAt(a, b, n);
        if n > 0 { FirstSame(a, b, n); }
      }
    }
  }

  lemma PrecedesTail(a: string, b: string)
    requires a != "" && b != "" && a[0] == b[0]
    ensures Precedes(a, b) <==> Precedes(a[1..], b[1..])
  {
    var c, d := a[1..], b[1..];
    if Precedes(a, b) {
      var n: nat :| DiffersAt(a, b, n);
      assert n > 0;
      assert c[..n - 1] == a[..n][1..] && d[..n - 1] == b[..n][1..];
      assert DiffersAt(c, d, n - 1);
    }
    if Precedes(c, d) {
      var n: nat :| DiffersAt(c, d, n);
      assert a[..n + 1] == [a[0]] + c[..n] && b[..n + 1] == [b[0]] + d[..n];
      assert DiffersAt(a, b, n + 1);
    }
  }

  /** An object is written with its members in ascending order of their names: whatever
      list of its names is in that order gives its text. */
  lemma MembersAscend(v: Json, names: seq<string>)
    requires v.Obj? && forall k :: k in names <==> k in v.fields
    requires forall i, j | 0 <= i < j < |names| :: Precedes(names[i], names[j])
    ensures Text(v) == "{" + MembersText(v, names) + "}"
  {
    forall i, j | 0 <= i < j < |names| ensures Below(names[i], names[j]) { BelowMeans(names[i], names[j]); }
    hide Precedes, Below, MembersText;
    AscendingUnique(names, SortedKeys(v.fields.Keys));
  }

  // ---------------------------------------------------------------- characters

  const HEX := "0123456789abcdef"

  /** Control characters, the characters that HTML gives a meaning, and the two line
      separators of JavaScript. */
  predicate Special(c: char) { c < ' ' || c in "<>&\U{2028}\U{2029}" }

  /** How each character of a string is written. */
  lemma EscapesAre(c: char)
    ensures Escape('"') == "\\\"" && Escape('\\') == "\\\\"
    ensures Escape('\n') == "\\n" && Escape('\r') == "\\r" && Escape('\t') == "\\t"
    ensures Escape('\U{0008}') == "\\b" && Escape('\U{000C}') == "\\f"
    ensures Escape('<') == "\\u003c" && Escape('>') == "\\u003e" && Escape('&') == "\\u0026"
    ensures Escape('\U{2028}') == "\\u2028" && Escape('\U{2029}') == "\\u2029"
    ensures c < ' ' && c !in "\n\r\t\U{0008}\U{000C}"
        ==> Escape(c) == "\\u00" + [HEX[c as int / 16], HEX[c as int % 16]]
    ensures !Special(c) && c != '"' && c != '\\' ==> Escape(c) == [c]
  {
    SpecialIs(c);
    ControlEscape(c);
    CodeEscapes();
    hide HEX, Unicode4;
  }

  lemma ControlEscape(c: char)
    ensures c < ' ' ==> Unicode4(c as int) == "\\u00" + [HEX[c as int / 16], HEX[c as int % 16]]
  {
    if c < ' ' {
      HexIs(c as int / 16);
      HexIs(c as int % 16);
      HexIs(0);
    }
  }

  lemma CodeEscapes()
    ensures Unicode4(0x3c) == "\\u003c" && Unicode4(0x3e) == "\\u003e" && Unicode4(0x26) == "\\u0026"
    ensures Unicode4(0x2028) == "\\u2028" && Unicode4(0x2029) == "\\u2029"
  {}

  lemma SpecialIs(c: char)
    ensures c in "<>&\U{2028}\U{2029}" <==> c == '<' || c == '>' || c == '&' || c as int == 0x2028 || c as int == 0x2029
    ensures c in "\n\r\t\U{0008}\U{000C}" <==> c == '\n' || c == '\r' || c == '\t' || c as int == 8 || c as int == 12
  {
    var a, b := "<>&\U{2028}\U{2029}", "\n\r\t\U{0008}\U{000C}";
    assert c in a <==> c == a[0] || c == a[1] || c == a[2] || c == a[3] || c == a[4];
    assert c in b <==> c == b[0] || c == b[1] || c == b[2] || c == b[3] || c == b[4];
  }

  lemma HexIs(n: nat)
    requires n < 16
    ensures HexDigit(n) == HEX[n]
  {}

  predicate Safe(s: string) { forall c | c in s :: !Special(c) }

  lemma SafeConcat(a: string, b: string)
    ensures Safe(a + b) <==> Safe(a) && Safe(b)
  {
    assert forall c :: c in a + b <==> c in a || c in b;
  }

  lemma EscapeSafe(c: char)
    ensures Safe(Escape(c))
  {
    EscapesAre(c);
    SpecialIs(c);
    ShortSafe();
    if c < ' ' && c !in "\n\r\t\U{0008}\U{000C}" {
      HexSafe(c as int / 16);
      HexSafe(c as int % 16);
      hide Escape, Safe, HEX;
      SafeConcat("\\u00", [HEX[c as int / 16], HEX[c as int % 16]]);
      SafeConcat([HEX[c as int / 16]], [HEX[c as int % 16]]);
    } else if !Special(c) && c != '"' && c != '\\' {
      hide Escape;
    } else {
      hide Escape, Safe, HEX;
    }
  }

  lemma ShortSafe()
    ensures Safe("\\\"") && Safe("\\\\") && Safe("\\n") && Safe("\\r") && Safe("\\t") && Safe("\\b") && Safe("\\f")
    ensures Safe("\\u003c") && Safe("\\u003e") && Safe("\\u0026") && Safe("\\u2028") && Safe("\\u2029")
    ensures Safe("\\u00")
  {}

  lemma HexSafe(n: nat)
    requires n < 16
    ensures Safe([HEX[n]])
  {
    HexIs(n);
  }

  lemma {:induction false} QuoteSafe(s: string)
    ensures Safe(EscapeAll(s)) && Safe(Quote(s))
  {
    if s != "" {
      QuoteSafe(s[1..]);
      EscapeSafe(s[0]);
      hide Escape, Safe, EscapeAll;
      SafeConcat(Escape(s[0]), EscapeAll(s[1..]));
      EscapeAllIs(s);
    }
    QuoteIs(s);
    Marks();
    hide Safe, EscapeAll, Quote;
    SafeConcat("\"", EscapeAll(s));
    SafeConcat("\"" + EscapeAll(s), "\"");
  }

  lemma EscapeAllIs(s: string)
    requires s != ""
    ensures EscapeAll(s) == Escape(s[0]) + EscapeAll(s[1..])
  {}

  lemma QuoteIs(s: string)
    ensures Quote(s) == "\"" + EscapeAll(s) + "\"" && (s == "" ==> EscapeAll(s) == "") && Safe("")
  {}

  lemma Marks()
    ensures Safe("\"") && Safe("[") && Safe("]") && Safe("{") && Safe("}") && Safe(",") && Safe(":") && Safe("-")
    ensures Safe("null") && Safe("true") && Safe("false") && Safe("")
  {}

  lemma DigitsSafe(n: nat)
    ensures Safe(Digits(n))
  {
    hide Digits;
  }

  lemma IntSafe(i: int)
    ensures Safe(FormatInt(i))
  {
    Marks();
    DigitsSafe(if i < 0 then -i else i);
    hide Digits, Safe;
    if i < 0 { SafeConcat("-", Digits(-i)); }
  }

  /** No canonical text holds a control character, a line break, a character of HTML markup
      or a line separator, whatever is in the value. */
  lemma {:induction false} TextSafe(v: Json)
    ensures Safe(Text(v))
    decreases v, 1, 0
  {
    Marks();
    match v
    case Str(s) => QuoteSafe(s); hide Safe, Quote;
    case Int(i) => IntSafe(i); hide Safe, FormatInt;
    case Arr(items) =>
      ItemsSafe(v, 0);
      hide Safe, ItemsText;
      Bracketed("[", ItemsText(v, 0), "]");
    case Obj(fields) =>
      MembersSafe(v, SortedKeys(fields.Keys));
      hide Safe, MembersText;
      Bracketed("{", MembersText(v, SortedKeys(fields.Keys)), "}");
    case _ => hide Safe;
  }

  lemma Bracketed(a: string, b: string, c: string)
    requires Safe(a) && Safe(b) && Safe(c)
    ensures Safe(a + b + c)
  {
    hide Safe;
    SafeConcat(a, b);
    SafeConcat(a + b, c);
  }

  lemma {:induction false} ItemsSafe(v: Json, n: nat)
    requires v.Arr? && n <= |v.items|
    ensures Safe(ItemsText(v, n))
    decreases v, 0, |v.items| - n
  {
    Marks();
    hide Safe, Text;
    if n < |v.items| {
      TextSafe(v.items[n]);
      if n + 1 < |v.items| {
        ItemsSafe(v, n + 1);
        Bracketed(Text(v.items[n]), ",", ItemsText(v, n + 1));
      }
    }
  }

  lemma {:induction false} MembersSafe(v: Json, keys: seq<string>)
    requires v.Obj? && forall k | k in keys :: k in v.fields
    ensures Safe(MembersText(v, keys))
    decreases v, 0, |keys|
  {
    Marks();
    hide Safe, Text, Quote;
    if keys != [] {
      QuoteSafe(keys[0]);
      TextSafe(v.fields[keys[0]]);
      var member := Quote(keys[0]) + ":" + Text(v.fields[keys[0]]);
      Bracketed(Quote(keys[0]), ":", Text(v.fields[keys[0]]));
      if |keys| > 1 {
        MembersSafe(v, keys[1..]);
        Bracketed(member, ",", MembersText(v, keys[1..]));
      }
    }
  }

  // ---------------------------------------------------------------- what can be written

  /** A number has to be an integer of 64 bits; everything else can be written, at any depth. */
  lemma WritableAre(v: Json)
    ensures v.Int? ==> (Encodable(v) <==> -9223372036854775808 <= v.i <= 9223372036854775807)
    ensures v.Fraction? ==> !Encodable(v)
    ensures v.Null? || v.Bool? || v.Str? ==> Encodable(v)
    ensures v.Arr? ==> (Encodable(v) <==> forall item | item in v.items :: Encodable(item))
    ensures v.Obj? ==> (Encodable(v) <==> forall field | field in v.fields.Values :: Encodable(field))
  {
    if v.Arr? {
      assert (forall item | item in v.items :: Encodable(item)) <==> forall k | 0 <= k < |v.items| ::
          Encodable(v.items[k]);
    }
    if v.Obj? {
      assert forall k | k in v.fields :: v.fields[k] in v.fields.Values;
      assert forall field | field in v.fields.Values :: exists k :: k in v.fields && v.fields[k] == field;
    }
  }
}
