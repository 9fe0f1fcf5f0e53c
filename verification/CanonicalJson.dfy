/**
 The canonical JSON of the arguments a record binds: keys sorted, no white space, characters written as
 they are. Objects are Python dictionaries, that is, ordered lists of distinct keys; floats are not values here.
 */
module CanonicalJson {
  import opened Options
  import T = Text
  import L = Literals
  import N = Numerals

  datatype Json =
    | JNull
    | JBool(b: bool)
    | JInt(n: int)
    | JStr(s: string)
    | JArr(items: seq<Json>)
    | JObj(members: seq<Member>)

  datatype Member = Member(key: string, value: Json)

  // ----- writing -----

  function Escape(c: char): (r: string)
    ensures r != ""
  {
    if c == '"' then "\\\""
    else if c == '\\' then "\\\\"
    else if c == '\n' then "\\n"
    else if c == '\r' then "\\r"
    else if c == '\t' then "\\t"
    else if c as int == 8 then "\\b"
    else if c as int == 12 then "\\f"
    else if c < ' ' then "\\u" + L.Hex4(c as int)
    else [c]
  }

  function EscapeAll(s: string): string {
    if s == "" then "" else Escape(s[0]) + EscapeAll(s[1..])
  }

  function IntText(n: int): string {
    if n >= 0 then N.Decimal(n) else "-" + N.Decimal(-n)
  }

  function Quoted(s: string): string {
    "\"" + EscapeAll(s) + "\""
  }

  /** `v` as it stands, members in their own order. */
  function Print(v: Json): string
    decreases v, 1
  {
    match v
    case JNull => "null"
    case JBool(b) => if b then "true" else "false"
    case JInt(n) => IntText(n)
    case JStr(s) => Quoted(s)
    case JArr(items) => "[" + PrintItems(items)
    case JObj(members) => "{" + PrintMembers(members)
  }

  /** The rest of an array after its bracket or comma. */
  function PrintItems(items: seq<Json>): string {
    if items == [] then "]"
    else Print(items[0]) + if |items| == 1 then "]" else "," + PrintItems(items[1..])
  }

  function PrintMembers(members: seq<Member>): string {
    if members == [] then "}"
    else
      Quoted(members[0].key) + ":" + Print(members[0].value) + if |members| == 1 then "}" else "," + PrintMembers(members[1..])
  }

  // ----- reading -----

  /** A string after its opening quote, and the text behind its closing quote. */
  function ReadString(t: string): (r: Option<(string, string)>)
    ensures r.Some? ==> |r.get.1| < |t|
    decreases |t|
  {
    if t == "" || t[0] < ' ' then None
    else if t[0] == '"' then Some(("", t[1..]))
    else if t[0] != '\\' then Prefixed(t[0], ReadString(t[1..]))
    else if |t| >= 2 && L.SimpleEscape(t[1]).Some? then Prefixed(L.SimpleEscape(t[1]).get as char, ReadString(t[2..]))
    else if |t| >= 6 && t[1] == 'u' && L.Hex4Value(t[2..]).Some? && L.CharCode(L.Hex4Value(t[2..]).get) then
      Prefixed(L.Hex4Value(t[2..]).get as char, ReadString(t[6..]))
    else None
  }

  function Prefixed(c: char, r: Option<(string, string)>): Option<(string, string)> {
    if r.None? then None else Some(([c] + r.get.0, r.get.1))
  }

  function ReadNumber(t: string, negative: bool): (r: Option<(Json, string)>)
    ensures r.Some? ==> |r.get.1| < |t|
  {
    var n := N.DigitRun(t);
    assert forall c :: c in t[..n] ==> N.IsDigit(c);
    if n == 0 then None
    else
      var magnitude: int := N.Number(t[..n]);
      Some((JInt(if negative then -magnitude else magnitude), t[n..]))
  }

  /** A value at the front of `t`, and the text behind it. */
  function Read(t: string): (r: Option<(Json, string)>)
    ensures r.Some? ==> |r.get.1| < |t|
    decreases |t|, 0
  {
    if "null" <= t then Some((JNull, t[4..]))
    else if "true" <= t then Some((JBool(true), t[4..]))
    else if "false" <= t then Some((JBool(false), t[5..]))
    else if t == "" then None
    else if t[0] == '"' then
      var s := ReadString(t[1..]);
      if s.None? then None else Some((JStr(s.get.0), s.get.1))
    else if t[0] == '[' then
      if "[]" <= t then Some((JArr([]), t[2..]))
      else
        var items := ReadItems(t[1..]);
        if items.None? then None else Some((JArr(items.get.0), items.get.1))
    else if t[0] == '{' then
      if "{}" <= t then Some((JObj([]), t[2..]))
      else
        var members := ReadMembers(t[1..]);
        if members.None? then None else Some((JObj(members.get.0), members.get.1))
    else if t[0] == '-' then ReadNumber(t[1..], true)
    else ReadNumber(t, false)
  }

  function ReadItems(t: string): (r: Option<(seq<Json>, string)>)
    ensures r.Some? ==> |r.get.1| < |t|
    decreases |t|, 1
  {
    var first := Read(t);
    if first.None? || first.get.1 == "" then None
    else if first.get.1[0] == ']' then Some(([first.get.0], first.get.1[1..]))
    else if first.get.1[0] != ',' then None
    else
      var others := ReadItems(first.get.1[1..]);
      if others.None? then None else Some(([first.get.0] + others.get.0, others.get.1))
  }

  function ReadMembers(t: string): (r: Option<(seq<Member>, string)>)
    ensures r.Some? ==> |r.get.1| < |t|
    decreases |t|, 1
  {
    if t == "" || t[0] != '"' then None
    else
      var key := ReadString(t[1..]);
      if key.None? || key.get.1 == "" || key.get.1[0] != ':' then None
      else
        var value := Read(key.get.1[1..]);
        if value.None? || value.get.1 == "" then None
        else
          var member := Member(key.get.0, value.get.0);
          if value.get.1[0] == '}' then Some(([member], value.get.1[1..]))
          else if value.get.1[0] != ',' then None
          else
            var others := ReadMembers(value.get.1[1..]);
            if others.None? then None else Some(([member] + others.get.0, others.get.1))
  }

  // ----- reading what was written -----

  lemma ReadEscape(c: char, rest: string)
    ensures ReadString(Escape(c) + rest) == Prefixed(c, ReadString(rest))
  {
    var t := Escape(c) + rest;
    if Escape(c) == [c] {
      assert t[1..] == rest;
    } else if |Escape(c)| == 2 {
      assert t[2..] == rest;
    } else {
      L.Hex4Read(c as int, rest);
      assert t[2..] == L.Hex4(c as int) + rest && t[6..] == rest;
      assert t[0] == '\\' && t[1] == 'u';
    }
  }

  lemma {:induction false} ReadQuoted(s: string, rest: string)
    ensures ReadString(EscapeAll(s) + "\"" + rest) == Some((s, rest))
  {
    if s == "" {
      assert EscapeAll(s) + "\"" + rest == "\"" + rest;
      assert ("\"" + rest)[1..] == rest;
    } else {
      ReadQuoted(s[1..], rest);
      hide Escape, ReadString;
      var tail := EscapeAll(s[1..]) + "\"" + rest;
      assert EscapeAll(s) + "\"" + rest == Escape(s[0]) + tail;
      ReadEscape(s[0], tail);
      assert s == [s[0]] + s[1..];
    }
  }

  /** What may follow a value inside a document. */
  predicate Closes(rest: string) {
    rest == "" || !N.IsDigit(rest[0])
  }

  lemma ReadDecimal(n: nat, negative: bool, rest: string)
    requires Closes(rest)
    ensures ReadNumber(N.Decimal(n) + rest, negative) == Some((JInt(if negative then 0 - n else n), rest))
  {
    var d := N.Decimal(n);
    N.DigitRunOf(d, rest);
    N.NumberDecimal(n);
    assert (d + rest)[..|d|] == d && (d + rest)[|d|..] == rest;
    hide N.Decimal, N.Number, N.DigitRun;
  }

  // How `Read` goes on, by the first character.

  lemma NoWord(t: string)
    requires t != "" && t[0] != 'n' && t[0] != 't' && t[0] != 'f'
    ensures !("null" <= t) && !("true" <= t) && !("false" <= t)
  {
    assert "null"[0] == 'n' && "true"[0] == 't' && "false"[0] == 'f';
  }

  lemma ReadAt(t: string)
    requires t != "" && t[0] != 'n' && t[0] != 't' && t[0] != 'f'
    ensures t[0] == '"' ==> Read(t) == var s := ReadString(t[1..]); if s.None? then None else Some((JStr(s.get.0), s.get.1))
    ensures t[0] == '[' && !("[]" <= t) ==>
      Read(t) == var r := ReadItems(t[1..]); if r.None? then None else Some((JArr(r.get.0), r.get.1))
    ensures t[0] == '{' && !("{}" <= t) ==>
      Read(t) == var r := ReadMembers(t[1..]); if r.None? then None else Some((JObj(r.get.0), r.get.1))
    ensures "[]" <= t ==> Read(t) == Some((JArr([]), t[2..]))
    ensures "{}" <= t ==> Read(t) == Some((JObj([]), t[2..]))
    ensures t[0] == '-' ==> Read(t) == ReadNumber(t[1..], true)
    ensures N.IsDigit(t[0]) ==> Read(t) == ReadNumber(t, false)
  {
    NoWord(t);
    assert "[]"[0] == '[' && "{}"[0] == '{';
    hide ReadString, ReadNumber, ReadItems, ReadMembers;
  }

  /** A value read back from the front of a text that goes on with `rest`. */
  lemma {:induction false} ReadPrinted(v: Json, rest: string)
    requires Closes(rest)
    ensures Read(Print(v) + rest) == Some((v, rest))
    decreases v, 1
  {
    hide Read;
    match v
    case JArr(items) => ReadArray(items, rest);
    case JObj(members) => ReadObject(members, rest);
    case JStr(s) => ReadText(s, rest);
    case JInt(n) => ReadInt(n, rest);
    case _ => ReadWord(v, rest);
  }

  lemma ReadText(s: string, rest: string)
    ensures Read(Quoted(s) + rest) == Some((JStr(s), rest))
  {
    ReadQuoted(s, rest);
    hide ReadString, EscapeAll, Read;
    var t := Quoted(s) + rest;
    assert t[1..] == EscapeAll(s) + "\"" + rest;
    ReadAt(t);
  }

  lemma ReadWord(v: Json, rest: string)
    requires v.JNull? || v.JBool?
    ensures Read(Print(v) + rest) == Some((v, rest))
  {
    hide ReadString, ReadNumber, ReadItems, ReadMembers;
    var word, t := Print(v), Print(v) + rest;
    assert t[|word|..] == rest && word <= t && t[0] == word[0];
    assert word != "null" ==> !("null" <= t) by { assert "null"[0] == 'n'; }
    assert word == "false" ==> !("true" <= t) by { assert "true"[0] == 't'; }
  }

  lemma ReadInt(n: int, rest: string)
    requires Closes(rest)
    ensures Read(IntText(n) + rest) == Some((JInt(n), rest))
  {
    hide Read, ReadNumber;
    var m: nat := if n >= 0 then n else -n;
    var d, t := N.Decimal(m), IntText(n) + rest;
    assert d[0] in d && N.IsDigit(d[0]);
    hide N.Decimal;
    ReadDecimal(m, n < 0, rest);
    if n < 0 {
      assert t[0] == '-' && t[1..] == d + rest;
      ReadAt(t);
    } else {
      assert t == d + rest && t[0] == d[0];
      ReadAt(t);
    }
  }

  lemma {:induction false} ReadArray(items: seq<Json>, rest: string)
    requires Closes(rest)
    ensures Read("[" + PrintItems(items) + rest) == Some((JArr(items), rest))
    decreases items, 1
  {
    hide Read, ReadItems;
    var t := "[" + PrintItems(items) + rest;
    assert t[1..] == PrintItems(items) + rest;
    if items == [] {
      assert t[2..] == rest && t[..2] == "[]";
    } else {
      ReadManyItems(items, rest);
      FirstChar(items[0]);
      assert t[1] == PrintItems(items)[0] != "[]"[1];
    }
    ReadAt(t);
  }

  lemma FirstChar(v: Json)
    ensures Print(v) != "" && Print(v)[0] != ']'
  {
    if v.JInt? {
      var d := N.Decimal(if v.n >= 0 then v.n else -v.n);
      assert d[0] in d;
    }
    hide N.Decimal, EscapeAll, PrintItems, PrintMembers;
  }

  lemma {:induction false} ReadManyItems(items: seq<Json>, rest: string)
    requires items != []
    ensures ReadItems(PrintItems(items) + rest) == Some((items, rest))
    decreases items, 0
  {
    hide Read, Print;
    var tail := (if |items| == 1 then "]" else "," + PrintItems(items[1..])) + rest;
    assert PrintItems(items) + rest == Print(items[0]) + tail;
    ReadPrinted(items[0], tail);
    if |items| == 1 {
      assert tail[1..] == rest && items == [items[0]];
    } else {
      ReadManyItems(items[1..], rest);
      assert tail[1..] == PrintItems(items[1..]) + rest;
      assert items == [items[0]] + items[1..];
    }
  }

  lemma {:induction false} ReadObject(members: seq<Member>, rest: string)
    requires Closes(rest)
    ensures Read("{" + PrintMembers(members) + rest) == Some((JObj(members), rest))
    decreases members, 1
  {
    hide Read, ReadMembers, Print, EscapeAll;
    var t := "{" + PrintMembers(members) + rest;
    assert t[1..] == PrintMembers(members) + rest;
    if members == [] {
      assert t[2..] == rest && t[..2] == "{}";
    } else {
      ReadManyMembers(members, rest);
      assert t[1] == PrintMembers(members)[0] == '"' != "{}"[1];
    }
    ReadAt(t);
  }

  lemma {:induction false} ReadManyMembers(members: seq<Member>, rest: string)
    requires members != []
    ensures ReadMembers(PrintMembers(members) + rest) == Some((members, rest))
    decreases members, 0
  {
    hide Read, ReadMembers, Print, Quoted, PrintMembers;
    var m, tail := members[0], MembersTail(members) + rest;
    ReadPrinted(m.value, tail);
    MembersShape(members, rest);
    ReadMember(m, tail);
    if |members| == 1 {
      assert tail[1..] == rest && members == [m];
    } else {
      ReadManyMembers(members[1..], rest);
      assert tail[1..] == PrintMembers(members[1..]) + rest;
      assert members == [m] + members[1..];
    }
  }

  function MembersTail(members: seq<Member>): (r: string)
    requires members != []
    ensures r != "" && r[0] == if |members| == 1 then '}' else ','
  {
    if |members| == 1 then "}" else "," + PrintMembers(members[1..])
  }

  lemma MembersShape(members: seq<Member>, rest: string)
    requires members != []
    ensures PrintMembers(members) + rest == Quoted(members[0].key) + (":" + (Print(members[0].value) + (MembersTail(members) + rest)))
  {
    hide Quoted, Print;
    var q, p, t := Quoted(members[0].key), Print(members[0].value), MembersTail(members);
    assert PrintMembers(members) == q + ":" + p + t;
    hide PrintMembers, MembersTail;
    Regrouped(q, ":", p, t, rest);
  }

  lemma Regrouped(a: string, b: string, c: string, d: string, e: string)
    ensures a + b + c + d + e == a + (b + (c + (d + e)))
  {
  }

  lemma {:induction false} ReadMember(m: Member, tail: string)
    requires Read(Print(m.value) + tail) == Some((m.value, tail)) && tail != ""
    ensures
      ReadMembers(Quoted(m.key) + (":" + (Print(m.value) + tail))) ==
        if tail[0] == '}' then Some(([m], tail[1..]))
        else if tail[0] != ',' then None
        else
          var others := ReadMembers(tail[1..]);
          if others.None? then None else Some(([m] + others.get.0, others.get.1))
  {
    hide Read, Print, ReadString, EscapeAll;
    var value := Print(m.value) + tail;
    var t := Quoted(m.key) + (":" + value);
    ReadQuoted(m.key, ":" + value);
    assert t[1..] == EscapeAll(m.key) + "\"" + (":" + value);
    assert (":" + value)[1..] == value;
  }

  // ----- sorting keys -----

  function Insert(m: Member, s: seq<Member>): seq<Member> {
    if s == [] then [m]
    else if T.Leq(m.key, s[0].key) then [m] + s
    else [s[0]] + Insert(m, s[1..])
  }

  /** `v` with the members of every object in key order. */
  function Sorted(v: Json): Json
    decreases v, 1
  {
    match v
    case JArr(items) => JArr(SortedItems(items))
    case JObj(members) => JObj(SortedMembers(members))
    case _ => v
  }

  function SortedItems(items: seq<Json>): seq<Json> {
    if items == [] then [] else [Sorted(items[0])] + SortedItems(items[1..])
  }

  function SortedMembers(members: seq<Member>): seq<Member> {
    if members == [] then []
    else Insert(Member(members[0].key, Sorted(members[0].value)), SortedMembers(members[1..]))
  }

  function CanonicalText(v: Json): string {
    Print(Sorted(v))
  }

  predicate InOrder(s: seq<Member>) {
    forall i :: 0 <= i < |s| - 1 ==> T.Leq(s[i].key, s[i + 1].key)
  }

  /** Every value of `s` is in canonical order already. */
  predicate Settled(s: seq<Member>) {
    forall i :: 0 <= i < |s| ==> Sorted(s[i].value) == s[i].value
  }

  lemma {:induction false} InsertInOrder(m: Member, s: seq<Member>)
    requires InOrder(s) && Settled(s) && Sorted(m.value) == m.value
    ensures var r := Insert(m, s); InOrder(r) && Settled(r) && |r| == |s| + 1 && (r[0] == m || (s != [] && r[0] == s[0]))
  {
    hide Sorted, T.Leq;
    if s != [] && !T.Leq(m.key, s[0].key) {
      T.LeqTotal(m.key, s[0].key);
      InsertInOrder(m, s[1..]);
      var rest := Insert(m, s[1..]);
      assert s[1..] != [] ==> s[1..][0] == s[1];
      forall i | 0 <= i < |rest| ensures T.Leq(([s[0]] + rest)[i].key, rest[i].key) {
        if i > 0 { assert T.Leq(rest[i - 1].key, rest[i].key); }
      }
    }
  }

  lemma {:induction false} SortedSettles(v: Json)
    ensures Sorted(Sorted(v)) == Sorted(v)
    decreases v, 1
  {
    match v
    case JArr(items) => ItemsSettle(items);
    case JObj(members) =>
      MembersSettle(members);
      SortingSettled(SortedMembers(members));
    case _ =>
  }

  lemma {:induction false} ItemsSettle(items: seq<Json>)
    ensures SortedItems(SortedItems(items)) == SortedItems(items)
    decreases items, 0
  {
    if items != [] {
      SortedSettles(items[0]);
      ItemsSettle(items[1..]);
      assert SortedItems(items)[1..] == SortedItems(items[1..]);
      hide Sorted;
    }
  }

  lemma {:induction false} MembersSettle(members: seq<Member>)
    ensures InOrder(SortedMembers(members)) && Settled(SortedMembers(members))
    decreases members, 0
  {
    if members != [] {
      SortedSettles(members[0].value);
      MembersSettle(members[1..]);
      InsertInOrder(Member(members[0].key, Sorted(members[0].value)), SortedMembers(members[1..]));
    }
  }

  lemma {:induction false} SortingSettled(s: seq<Member>)
    requires InOrder(s) && Settled(s)
    ensures SortedMembers(s) == s
  {
    hide Sorted;
    if s != [] {
      assert forall i :: 0 <= i < |s| - 1 ==> s[1..][i] == s[i + 1];
      SortingSettled(s[1..]);
      assert |s| > 1 ==> T.Leq(s[0].key, s[1].key);
      assert s == [s[0]] + s[1..];
    }
  }

  /** Decoding the canonical text and writing it again gives the same text: a record's arguments carry their own digest. */
  lemma CanonicalRoundTrip(v: Json)
    ensures Read(CanonicalText(v)) == Some((Sorted(v), ""))
    ensures CanonicalText(Read(CanonicalText(v)).get.0) == CanonicalText(v)
  {
    ReadPrinted(Sorted(v), "");
    assert Print(Sorted(v)) + "" == Print(Sorted(v));
    SortedSettles(v);
    hide Read, Sorted, Print;
  }

  lemma {:induction false} InsertsCommute(m: Member, n: Member, s: seq<Member>)
    requires m.key != n.key
    ensures Insert(m, Insert(n, s)) == Insert(n, Insert(m, s))
  {
    hide T.Leq;
    T.LeqTotal(m.key, n.key);
    if T.Leq(m.key, n.key) && T.Leq(n.key, m.key) {
      T.LeqAntisymmetric(m.key, n.key);
    }
    if s != [] {
      InsertsCommute(m, n, s[1..]);
      var k := s[0].key;
      if T.Leq(m.key, n.key) && T.Leq(n.key, k) { T.LeqTransitive(m.key, n.key, k); }
      if T.Leq(n.key, m.key) && T.Leq(m.key, k) { T.LeqTransitive(n.key, m.key, k); }
    }
  }

  /** The order in which a dictionary was filled does not show in its canonical text. */
  lemma {:induction false} FillingOrderIsIrrelevant(a: seq<Member>, m: Member, n: Member, b: seq<Member>)
    requires m.key != n.key
    ensures CanonicalText(JObj(a + [m, n] + b)) == CanonicalText(JObj(a + [n, m] + b))
  {
    MembersSwap(a, m, n, b);
  }

  lemma {:induction false} MembersSwap(a: seq<Member>, m: Member, n: Member, b: seq<Member>)
    requires m.key != n.key
    ensures SortedMembers(a + [m, n] + b) == SortedMembers(a + [n, m] + b)
  {
    hide Sorted;
    if a == [] {
      var one, two := [m, n] + b, [n, m] + b;
      assert a + [m, n] + b == one && a + [n, m] + b == two;
      assert one[1..] == [n] + b && one[1..][1..] == b && two[1..] == [m] + b && two[1..][1..] == b;
      InsertsCommute(Member(m.key, Sorted(m.value)), Member(n.key, Sorted(n.value)), SortedMembers(b));
    } else {
      MembersSwap(a[1..], m, n, b);
      assert (a + [m, n] + b)[1..] == a[1..] + [m, n] + b && (a + [n, m] + b)[1..] == a[1..] + [n, m] + b;
    }
  }
}
