/** JSON source texts that list members in any order, any number of times and at
    every depth: what canonicalJSON in internal/cloudsync/client.go makes of them. */
module JsonSource {
  import opened Wrappers
  import CJ = CanonicalJson

  /** A value as it is written: members in the order of the text, repeats included. */
  datatype Source =
    | Null
    | Bool(b: bool)
    | Str(s: string)
    | Int(i: int)
    | Arr(items: seq<Source>)
    | Obj(members: seq<Member>)

  datatype Member = Member(key: string, value: Source)

  // ---------------------------------------------------------------- the text

  function Listed(v: Source): string
    decreases v, 1, 0
  {
    match v
    case Null => "null"
    case Bool(b) => if b then "true" else "false"
    case Str(s) => CJ.Quote(s)
    case Int(i) => CJ.FormatInt(i)
    case Arr(items) => "[" + ItemsListed(v, 0) + "]"
    case Obj(members) => "{" + MembersListed(v, 0) + "}"
  }

  function ItemsListed(v: Source, n: nat): string
    requires v.Arr? && n <= |v.items|
    decreases v, 0, |v.items| - n
  {
    if n == |v.items| then ""
    else if n + 1 == |v.items| then Listed(v.items[n])
    else Listed(v.items[n]) + "," + ItemsListed(v, n + 1)
  }

  function MembersListed(v: Source, n: nat): string
    requires v.Obj? && n <= |v.members|
    decreases v, 0, |v.members| - n
  {
    if n == |v.members| then ""
    else
      var member := CJ.Quote(v.members[n].key) + ":" + Listed(v.members[n].value);
      if n + 1 == |v.members| then member else member + "," + MembersListed(v, n + 1)
  }

  // ---------------------------------------------------------------- the value

  /** Of repeated members the last one counts. */
  function Decoded(v: Source): CJ.Json
    decreases v, 1, 0
  {
    match v
    case Null => CJ.Null
    case Bool(b) => CJ.Bool(b)
    case Str(s) => CJ.Str(s)
    case Int(i) => CJ.Int(i)
    case Arr(items) => CJ.Arr(seq(|items|, k requires 0 <= k < |items| => Decoded(items[k])))
    case Obj(members) => CJ.Obj(map k | k in Keys(members) :: Decoded(members[LastAt(members, k)].value))
  }

  function Keys(members: seq<Member>): set<string> { set m | m in members :: m.key }

  /** The position of the last member with a key. */
  function LastAt(members: seq<Member>, key: string): (n: nat)
    requires key in Keys(members)
    ensures n < |members| && members[n].key == key
    ensures forall k | n < k < |members| :: members[k].key != key
  {
    if members[|members| - 1].key == key then |members| - 1
    else
      KeysButLast(members);
      LastAt(members[..|members| - 1], key)
  }

  lemma KeysButLast(members: seq<Member>)
    requires members != []
    ensures Keys(members) == Keys(members[..|members| - 1]) + {members[|members| - 1].key}
  {
    assert members == members[..|members| - 1] + [members[|members| - 1]];
  }

  /** The same value written in another way: wherever an object stands, the members
      may come in any order and any number of times, as long as the last ones of
      each key agree in the same sense. */
  predicate Reordered(a: Source, b: Source)
    decreases a
  {
    match a
    case Arr(items) => b.Arr? && |b.items| == |items| && forall k | 0 <= k < |items| :: Reordered(items[k], b.items[k])
    case Obj(members) =>
      && b.Obj? && Keys(b.members) == Keys(members)
      && forall k | k in Keys(members) ::
          Reordered(members[LastAt(members, k)].value, b.members[LastAt(b.members, k)].value)
    case _ => a == b
  }

  lemma {:induction false} SameDecoded(a: Source, b: Source)
    requires Reordered(a, b)
    ensures Decoded(a) == Decoded(b)
    decreases a
  {
    match a
    case Arr(items) =>
      forall k | 0 <= k < |items|
          ensures Decoded(items[k]) == Decoded(b.items[k]) { SameDecoded(items[k], b.items[k]); }
    case Obj(members) =>
      forall k | k in Keys(members)
        ensures Decoded(members[LastAt(members, k)].value) == Decoded(b.members[LastAt(b.members, k)].value) {
        SameDecoded(members[LastAt(members, k)].value, b.members[LastAt(b.members, k)].value);
      }
    case _ =>
  }

  // ---------------------------------------------------------------- reading

  /** The members of `v` from position `n` on, read after some others. */
  function Onto(v: Source, n: nat, sofar: map<string, CJ.Json>): map<string, CJ.Json>
    requires v.Obj? && n <= |v.members|
    decreases |v.members| - n
  {
    if n == |v.members| then sofar else Onto(v, n + 1, sofar[v.members[n].key := Decoded(v.members[n].value)])
  }

  /** What reading in order amounts to. */
  lemma {:induction false} OntoMeans(v: Source, n: nat, sofar: map<string, CJ.Json>, key: string)
    requires v.Obj? && n <= |v.members|
    ensures var rest := Onto(v, n, sofar);
      if exists k :: n <= k < |v.members| && v.members[k].key == key
      then key in Keys(v.members) && key in rest && rest[key] == Decoded(v.members[LastAt(v.members, key)].value)
      else (key in rest <==> key in sofar) && (key in rest ==> rest[key] == sofar[key])
    decreases |v.members| - n
  {
    hide Decoded;
    if n < |v.members| {
      OntoMeans(v, n + 1, sofar[v.members[n].key := Decoded(v.members[n].value)], key);
      if v.members[n].key == key { assert v.members[n] in v.members; }
    }
  }

  lemma OntoAll(v: Source)
    requires v.Obj?
    ensures CJ.Obj(Onto(v, 0, map[])) == Decoded(v)
  {
    var all := Onto(v, 0, map[]);
    forall key ensures (key in all <==> key in Keys(v.members))
        && (key in all ==> all[key] == Decoded(v.members[LastAt(v.members, key)].value)) {
      OntoMeans(v, 0, map[], key);
      if key in Keys(v.members) {
        var m :| m in v.members && m.key == key;
        var k :| 0 <= k < |v.members| && v.members[k] == m;
      }
    }
    assert Decoded(v).fields == all;
  }

  /** The decoder reads a source text as its value and stops where the text stops. */
  lemma {:induction false} ListedReads(v: Source, rest: string)
    requires CJ.Delimited(rest)
    ensures CJ.ReadValue(Listed(v) + rest) == Some((Decoded(v), rest))
    decreases v, 1, 0
  {
    hide CJ.ReadValue, CJ.Quote, CJ.FormatInt;
    match v
    case Null => CJ.WordsRead(rest);
    case Bool(b) => CJ.WordsRead(rest);
    case Str(t) => CJ.StringValueReads(t, rest);
    case Int(i) => CJ.NumberReads(i, rest);
    case Arr(items) => ArrayListedReads(v, rest);
    case Obj(members) => ObjectListedReads(v, rest);
  }

  lemma {:induction false} ArrayListedReads(v: Source, rest: string)
    requires v.Arr?
    ensures CJ.ReadValue(Listed(v) + rest) == Some((Decoded(v), rest))
    decreases v, 0, |v.items| + 1
  {
    hide CJ.ReadValue, CJ.ReadItems;
    if v.items == [] {
      CJ.EmptyReads(rest);
      assert "[" + "" + "]" + rest == "[]" + rest;
      assert Decoded(v).items == [];
    } else {
      ItemsListedRead(v, 0, rest);
      var t := ItemsListed(v, 0) + "]" + rest;
      assert Listed(v) + rest == "[" + t;
      ListedStarts(v.items[0]);
      CJ.ArrayReads(t, Decoded(v).items, rest);
    }
  }

  lemma ListedStarts(v: Source)
    ensures Listed(v) != "" && Listed(v)[0] != ']'
  {
    if v.Int? {
      var d := CJ.Digits(if v.i < 0 then -v.i else v.i);
      assert CJ.IsDigit(d[0]);
      hide CJ.Digits;
    }
  }

  lemma {:induction false} ItemsListedRead(v: Source, n: nat, rest: string)
    requires v.Arr? && n < |v.items|
    ensures CJ.ReadItems(ItemsListed(v, n) + "]" + rest) == Some((Decoded(v).items[n..], rest))
    decreases v, 0, |v.items| - n
  {
    hide CJ.ReadItems, CJ.ReadValue, Listed;
    var text, items := Listed(v.items[n]), Decoded(v).items;
    assert items[n] == Decoded(v.items[n]);
    hide Decoded;
    if n + 1 == |v.items| {
      ListedReads(v.items[n], "]" + rest);
      CJ.ItemReads(items[n], text, "]" + rest, rest);
      assert ItemsListed(v, n) + "]" + rest == text + ("]" + rest);
      assert items[n..] == [items[n]];
    } else {
      var more := ItemsListed(v, n + 1) + "]" + rest;
      ListedReads(v.items[n], "," + more);
      CJ.ItemReads(items[n], text, "," + more, more);
      ItemsListedRead(v, n + 1, rest);
      assert ItemsListed(v, n) + "]" + rest == text + ("," + more);
      assert items[n..] == [items[n]] + items[n + 1..];
    }
  }

  lemma {:induction false} ObjectListedReads(v: Source, rest: string)
    requires v.Obj?
    ensures CJ.ReadValue(Listed(v) + rest) == Some((Decoded(v), rest))
    decreases v, 0, |v.members| + 1
  {
    hide CJ.ReadValue, CJ.ReadMembers, CJ.Quote, Decoded;
    OntoAll(v);
    if v.members == [] {
      CJ.EmptyReads(rest);
      assert "{" + "" + "}" + rest == "{}" + rest;
    } else {
      MembersListedRead(v, 0, map[], rest);
      var t := MembersListed(v, 0) + "}" + rest;
      assert Listed(v) + rest == "{" + t;
      QuoteStarts(v.members[0].key);
      CJ.ObjectReads(t, Onto(v, 0, map[]), rest);
    }
  }

  lemma QuoteStarts(s: string)
    ensures CJ.Quote(s) != "" && CJ.Quote(s)[0] == '"'
  {}

  lemma {:induction false} MembersListedRead(v: Source, n: nat, sofar: map<string, CJ.Json>, rest: string)
    requires v.Obj? && n < |v.members|
    ensures CJ.ReadMembers(MembersListed(v, n) + "}" + rest, sofar) == Some((Onto(v, n, sofar), rest))
    decreases v, 0, |v.members| - n
  {
    hide CJ.ReadMembers, CJ.ReadValue, Listed, CJ.Quote, Decoded;
    var key, item := v.members[n].key, Decoded(v.members[n].value);
    var text := Listed(v.members[n].value);
    if n + 1 == |v.members| {
      ListedReads(v.members[n].value, "}" + rest);
      CJ.MemberReads(key, item, text, "}" + rest, rest, sofar);
      assert MembersListed(v, n) + "}" + rest == CJ.Quote(key) + (":" + (text + ("}" + rest)));
    } else {
      var more := MembersListed(v, n + 1) + "}" + rest;
      ListedReads(v.members[n].value, "," + more);
      CJ.MemberReads(key, item, text, "," + more, more, sofar);
      MembersListedRead(v, n + 1, sofar[key := item], rest);
      assert MembersListed(v, n) + "}" + rest == CJ.Quote(key) + (":" + (text + ("," + more)));
    }
  }

  /** However a source text orders and repeats the members of its objects, at any
      depth, the canonical text is that of its value. */
  lemma SourceCanonical(a: Source)
    ensures CJ.Canonicalize(Listed(a)) == if CJ.Encodable(Decoded(a)) then Some(CJ.Text(Decoded(a))) else None
  {
    ListedReads(a, "");
    hide Listed, Decoded, CJ.Text, CJ.ReadValue;
    assert Listed(a) + "" == Listed(a);
  }

  /** So neither order nor overridden repeats reach the canonical text. */
  lemma MemberOrderIrrelevant(a: Source, b: Source)
    requires Reordered(a, b)
    ensures CJ.Canonicalize(Listed(a)) == CJ.Canonicalize(Listed(b))
  {
    SourceCanonical(a);
    SourceCanonical(b);
    SameDecoded(a, b);
  }
}
