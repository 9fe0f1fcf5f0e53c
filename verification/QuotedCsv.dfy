/** The quoted-CSV lines of a security template: fields in double quotes or bare, no escapes. */
module QuotedCsv {
  import opened Options
  import T = Text

  /** The fields of a nonempty text, read from its start. */
  function Scan(t: string): Option<seq<string>>
    requires t != ""
    decreases |t|
  {
    if t[0] == '"' then
      var end := T.Find(t, '"', 1);
      if end < 0 then None else Continue(t[1..end], t[end + 1..])
    else
      var comma := T.Find(t, ',', 0);
      if comma < 0 then Some([t]) else Continue(t[..comma], t[comma..])
  }

  /** The fields once `field` has been read and `rest` is what follows it. */
  function Continue(field: string, rest: string): Option<seq<string>>
    decreases |rest|, 0
  {
    if rest == "" then Some([field])
    else if rest[0] != ',' then None
    else if |rest| == 1 then Some([field, ""])
    else Prepend([field], Scan(rest[1..]))
  }

  function Prepend(fields: seq<string>, more: Option<seq<string>>): Option<seq<string>> {
    if more.None? then None else Some(fields + more.get)
  }

  /** The whole line; `None` when it does not have the shape. */
  function Fields(line: string): Option<seq<string>> {
    var text := T.Strip(line);
    if text == "" || '=' in text || ',' !in text then None else Scan(text)
  }

  /** One field from position `index`, and the position after it; `None` for an unclosed quote. */
  method ReadField(text: string, index: nat) returns (r: Option<(string, nat)>)
    requires index < |text|
    ensures r.None? ==> Scan(text[index..]) == None
    ensures r.Some? ==>
      index <= r.get.1 <= |text| && Scan(text[index..]) == Continue(r.get.0, text[r.get.1..])
  {
    hide Scan, Continue, T.Find;
    if text[index] == '"' {
      var end := T.Find(text, '"', index + 1);
      ScanQuote(text, index);
      if end < 0 {
        return None;
      }
      r := Some((text[index + 1..end], end + 1));
    } else {
      var comma := T.Find(text, ',', index);
      ScanBare(text, index);
      if comma < 0 {
        return Some((text[index..], |text|));
      }
      r := Some((text[index..comma], comma));
    }
  }

  lemma ScanQuote(text: string, index: nat)
    requires index < |text| && text[index] == '"'
    ensures
      var end := T.Find(text, '"', index + 1);
      Scan(text[index..]) == if end < 0 then None else Continue(text[index + 1..end], text[end + 1..])
  {
    FindShift(text, '"', index, 1);
    var t, end := text[index..], T.Find(text, '"', index + 1);
    if end >= 0 {
      assert text[index + 1..end] == t[1..end - index] && t[end + 1 - index..] == text[end + 1..];
    }
    hide Continue, T.Find;
  }

  lemma {:induction false} ScanBare(text: string, index: nat)
    requires index < |text| && text[index] != '"'
    ensures
      var comma := T.Find(text, ',', index);
      Scan(text[index..]) ==
        if comma < 0 then Continue(text[index..], text[|text|..]) else Continue(text[index..comma], text[comma..])
  {
    FindShift(text, ',', index, 0);
    var t, comma := text[index..], T.Find(text, ',', index);
    assert text[|text|..] == "";
    ContinueEnd(t);
    if comma >= 0 {
      assert text[index..comma] == t[..comma - index] && t[comma - index..] == text[comma..];
    }
    hide Continue, T.Find;
  }

  lemma ContinueEnd(field: string)
    ensures Continue(field, "") == Some([field])
  {
  }

  method SplitQuotedCsv(line: string) returns (r: Option<seq<string>>)
    ensures r == Fields(line)
  {
    var text := T.Strip(line);
    if text == "" || '=' in text || ',' !in text {
      return None;
    }
    var fields: seq<string> := [];
    var index := 0;
    assert text[0..] == text;
    PrependNone(Scan(text));
    while true
      invariant index < |text|
      invariant Scan(text) == Prepend(fields, Scan(text[index..]))
      decreases |text| - index
    {
      var field := ReadField(text, index);
      if field.None? {
        return None;
      }
      index := field.get.1;
      ghost var rest := text[index..];
      PrependOne(fields, field.get.0, if |rest| > 1 then Scan(rest[1..]) else None);
      fields := fields + [field.get.0];
      if index >= |text| {
        return Some(fields);
      }
      if text[index] != ',' {
        return None;
      }
      index := index + 1;
      if index >= |text| {
        // nothing after the comma still makes a field
        return Some(fields + [""]);
      }
      assert rest[1..] == text[index..];
    }
  }

  lemma PrependNone(more: Option<seq<string>>)
    ensures Prepend([], more) == more
  {
    if more.Some? {
      assert [] + more.get == more.get;
    }
  }

  lemma PrependOne(fields: seq<string>, field: string, more: Option<seq<string>>)
    ensures Prepend(fields, Prepend([field], more)) == Prepend(fields + [field], more)
    ensures fields + [field, ""] == (fields + [field]) + [""]
  {
    if more.Some? {
      assert fields + ([field] + more.get) == (fields + [field]) + more.get;
    }
  }

  lemma {:induction false} FindShift(s: string, c: char, skip: nat, from: nat)
    requires skip + from <= |s|
    ensures T.Find(s[skip..], c, from) == if T.Find(s, c, skip + from) < 0 then -1 else T.Find(s, c, skip + from) - skip
    decreases |s| - from
  {
    if skip + from < |s| && s[skip + from] != c {
      FindShift(s, c, skip, from + 1);
    }
  }

  // ----- printing -----

  datatype Field = Quoted(value: string) | Bare(value: string)

  predicate Printable(f: Field) {
    match f
    case Quoted(v) => '"' !in v
    case Bare(v) => ',' !in v && (v == "" || v[0] != '"')
  }

  function Print(f: Field): string {
    match f
    case Quoted(v) => "\"" + v + "\""
    case Bare(v) => v
  }

  function PrintAll(fs: seq<Field>): string
    requires fs != []
  {
    if |fs| == 1 then Print(fs[0]) else Print(fs[0]) + "," + PrintAll(fs[1..])
  }

  function Values(fs: seq<Field>): seq<string> {
    seq(|fs|, i requires 0 <= i < |fs| => fs[i].value)
  }

  lemma FindFirst(s: string, c: char, from: nat, at: nat)
    requires from <= at < |s| && s[at] == c && c !in s[from..at]
    ensures T.Find(s, c, from) == at
  {
    forall i | from <= i < at ensures s[i] != c {
      assert s[i] == s[from..at][i - from];
    }
    T.FindAt(s, c, from, at);
  }

  lemma ScanField(f: Field, rest: string)
    requires Printable(f) && (rest == "" || rest[0] == ',') && Print(f) + rest != ""
    ensures Scan(Print(f) + rest) == Continue(f.value, rest)
  {
    var t := Print(f) + rest;
    if f.Quoted? {
      var end := 1 + |f.value|;
      assert t[1..end] == f.value;
      FindFirst(t, '"', 1, end);
      assert t[end + 1..] == rest;
    } else {
      var n := |f.value|;
      if rest == "" {
        assert t == f.value;
        assert t[0..] == t;
        assert T.Find(t, ',', 0) == -1;
      } else {
        assert t[0..n] == f.value;
        FindFirst(t, ',', 0, n);
        assert t[..n] == f.value && t[n..] == rest;
        if n == 0 {
          assert t[0] == ',';
        }
      }
    }
  }

  /** Round trip: a printed list of fields, quoted or bare, reads back as itself, empty and trailing fields included. */
  lemma {:induction false} ScanPrinted(fs: seq<Field>)
    requires fs != [] && (forall f :: f in fs ==> Printable(f)) && PrintAll(fs) != ""
    ensures Scan(PrintAll(fs)) == Some(Values(fs))
    decreases fs
  {
    if |fs| == 1 {
      assert Print(fs[0]) + "" == PrintAll(fs);
      ScanField(fs[0], "");
      assert Values(fs) == [fs[0].value];
    } else {
      var tail := PrintAll(fs[1..]);
      var rest := "," + tail;
      assert PrintAll(fs) == Print(fs[0]) + rest;
      ScanField(fs[0], rest);
      assert rest[1..] == tail;
      assert Values(fs) == [fs[0].value] + Values(fs[1..]);
      if tail == "" {
        EmptyPrint(fs[1..]);
        assert Values(fs) == [fs[0].value, ""];
      } else {
        ScanPrinted(fs[1..]);
      }
    }
  }

  lemma EmptyPrint(fs: seq<Field>)
    requires fs != [] && PrintAll(fs) == ""
    ensures fs == [Bare("")]
  {
    assert |fs| == 1;
    assert fs == [fs[0]];
  }

  lemma FieldsPrinted(fs: seq<Field>)
    requires fs != [] && (forall f :: f in fs ==> Printable(f))
    requires var t := PrintAll(fs); ',' in t && '=' !in t && T.Trimmed(t)
    ensures Fields(PrintAll(fs)) == Some(Values(fs))
  {
    ScanPrinted(fs);
  }

  /** Conversely, whatever is accepted is the print of its fields: nothing else has the shape. */
  lemma {:induction false} ScanAcceptsOnlyPrints(t: string) returns (fs: seq<Field>)
    requires t != "" && Scan(t).Some?
    ensures fs != [] && (forall f :: f in fs ==> Printable(f))
    ensures PrintAll(fs) == t && Values(fs) == Scan(t).get
    decreases |t|
  {
    hide Scan, Continue, Print, Printable, PrintAll, Values;
    var first, rest := FirstField(t);
    if |rest| <= 1 {
      fs := if rest == "" then [first] else [first, Bare("")];
      LastFields(first, rest);
    } else {
      ContinueMore(first.value, rest);
      var more := ScanAcceptsOnlyPrints(rest[1..]);
      fs := [first] + more;
      PrintMore(first, more, rest);
    }
  }

  /** The end of a line: its last field, or a field and the empty one behind a trailing comma. */
  lemma LastFields(first: Field, rest: string)
    requires Printable(first) && |rest| <= 1 && (rest != "" ==> rest[0] == ',')
    ensures
      var fs := if rest == "" then [first] else [first, Bare("")];
      && (forall f :: f in fs ==> Printable(f)) && PrintAll(fs) == Print(first) + rest
      && Continue(first.value, rest) == Some(Values(fs))
  {
    var fs := if rest == "" then [first] else [first, Bare("")];
    if rest == "" {
      assert Print(first) + "" == Print(first);
      assert Values(fs) == [first.value];
    } else {
      assert rest == "," && fs[1..] == [Bare("")];
      assert Values(fs) == [first.value, ""];
    }
    hide Scan;
  }

  lemma ContinueMore(field: string, rest: string)
    requires |rest| > 1 && rest[0] == ','
    ensures Continue(field, rest) == Prepend([field], Scan(rest[1..]))
  {
    hide Scan;
  }

  lemma PrintMore(first: Field, more: seq<Field>, rest: string)
    requires more != [] && |rest| > 1 && rest[0] == ',' && PrintAll(more) == rest[1..]
    ensures PrintAll([first] + more) == Print(first) + rest
    ensures Values([first] + more) == [first.value] + Values(more)
  {
    hide Print;
    assert ([first] + more)[1..] == more;
    assert rest == "," + rest[1..];
  }

  lemma {:induction false} FirstField(t: string) returns (f: Field, rest: string)
    requires t != "" && Scan(t).Some?
    ensures Printable(f) && t == Print(f) + rest && Scan(t) == Continue(f.value, rest)
    ensures |rest| <= |t|
    ensures rest != "" ==> rest[0] == ','
  {
    if t[0] == '"' {
      var end := T.Find(t, '"', 1);
      f, rest := Quoted(t[1..end]), t[end + 1..];
      assert t == "\"" + t[1..end] + "\"" + rest;
    } else {
      var comma := T.Find(t, ',', 0);
      if comma < 0 {
        assert t[0..] == t;
        f, rest := Bare(t), "";
      } else {
        assert t[0..comma] == t[..comma];
        f, rest := Bare(t[..comma]), t[comma..];
      }
    }
  }

  /** On a text without quotes the fields are those of splitting at commas. */
  lemma {:induction false} QuoteFreeIsSplit(t: string)
    requires t != "" && '"' !in t
    ensures Scan(t) == Some(T.Split(t, ','))
    decreases |t|
  {
    var comma := T.Find(t, ',', 0);
    assert t[0] in t;
    if comma < 0 {
      assert t[0..] == t;
      T.SplitFree(t, ',');
    } else {
      assert t[0..comma] == t[..comma];
      var rest := t[comma..];
      assert t == t[..comma] + [','] + t[comma + 1..];
      T.SplitAt(t[..comma], ',', t[comma + 1..]);
      assert rest[1..] == t[comma + 1..];
      if |rest| > 1 {
        QuoteFreeIsSplit(rest[1..]);
      } else {
        assert T.Split("", ',') == [""];
        assert t[comma + 1..] == "";
        assert T.Split(t, ',') == [t[..comma], ""];
      }
    }
  }
}
