/** References to arguments and script outputs inside the strings of a run sheet. */
module Interpolation {
  import opened Options

  datatype Scope = Args | Out

  /** A reference at the front of a text: what it refers to, and how many characters it takes. */
  datatype Reference = Reference(scope: Scope, key: string, size: nat)

  predicate KeyChar(c: char) {
    'A' <= c <= 'Z' || 'a' <= c <= 'z' || '0' <= c <= '9' || c == '_' || c == '.'
  }

  function KeyRun(s: string): (n: nat)
    ensures n <= |s|
  {
    if s == "" || !KeyChar(s[0]) then 0 else 1 + KeyRun(s[1..])
  }

  /** `{args.key}` or `{out.key}` at the front of `s`. */
  function FrontReference(s: string): (r: Option<Reference>)
    ensures r.Some? ==> 0 < r.get.size <= |s| && s[0] == '{'
  {
    if "{args." <= s then Keyed(Args, s, 6)
    else if "{out." <= s then Keyed(Out, s, 5)
    else None
  }

  function Keyed(scope: Scope, s: string, at: nat): (r: Option<Reference>)
    requires at <= |s|
    ensures r.Some? ==> at < r.get.size <= |s|
  {
    var n := KeyRun(s[at..]);
    if n > 0 && at + n < |s| && s[at + n] == '}' then Some(Reference(scope, s[at..at + n], at + n + 1)) else None
  }

  /** Every reference replaced, left to right; `None` when one does not resolve. */
  function Interpolated(s: string, inputs: map<string, string>, outputs: map<string, string>): Option<string>
    decreases |s|
  {
    if s == "" then Some("")
    else
      var r := FrontReference(s);
      if r.None? then
        var rest := Interpolated(s[1..], inputs, outputs);
        if rest.None? then None else Some([s[0]] + rest.get)
      else
        var table := if r.get.scope.Args? then inputs else outputs;
        var rest := Interpolated(s[r.get.size..], inputs, outputs);
        if r.get.key !in table || rest.None? then None else Some(table[r.get.key] + rest.get)
  }

  predicate KeyText(k: string) {
    k != "" && forall i :: 0 <= i < |k| ==> KeyChar(k[i])
  }

  lemma {:induction false} KeyRunOf(k: string, rest: string)
    requires forall i :: 0 <= i < |k| ==> KeyChar(k[i])
    requires rest != "" && !KeyChar(rest[0])
    ensures KeyRun(k + rest) == |k|
  {
    if k == "" {
      assert k + rest == rest;
    } else {
      assert (k + rest)[1..] == k[1..] + rest;
      KeyRunOf(k[1..], rest);
    }
  }

  function ReferenceText(scope: Scope, key: string): string {
    (if scope.Args? then "{args." else "{out.") + key + "}"
  }

  /** A reference stands for what its table holds under its key, and a text with one that holds nothing does not resolve. */
  lemma ReferenceResolves(scope: Scope, key: string, rest: string, inputs: map<string, string>, outputs: map<string, string>)
    requires KeyText(key)
    ensures
      var table := if scope.Args? then inputs else outputs;
      var after := Interpolated(rest, inputs, outputs);
      Interpolated(ReferenceText(scope, key) + rest, inputs, outputs)
      == if key !in table || after.None? then None else Some(table[key] + after.get)
  {
    var open := if scope.Args? then "{args." else "{out.";
    var s := ReferenceText(scope, key) + rest;
    KeyRunOf(key, "}" + rest);
    assert s[|open|..] == key + ("}" + rest);
    assert s[|open|..|open| + |key|] == key && s[|open| + |key|] == '}';
    assert s[|open| + |key| + 1..] == rest;
    assert open <= s;
    assert !("{args." <= s && "{out." <= s) by { assert "{args."[1] != "{out."[1]; }
    assert FrontReference(s) == Some(Reference(scope, key, |open| + |key| + 1));
  }

  /** A key is of ASCII letters, digits, underscores and dots, and is not empty: `{args.}` is plain text. */
  lemma KeysAre(c: char, scope: Scope, rest: string)
    ensures KeyChar(c) <==> var n := c as int; 48 <= n <= 57 || 65 <= n <= 90 || 97 <= n <= 122 || n == 46 || n == 95
    ensures FrontReference(ReferenceText(scope, "") + rest).None?
    ensures !KeyChar(c) && c != '}' ==> FrontReference((if scope.Args? then "{args." else "{out.") + [c] + rest).None?
  {
    assert ReferenceText(scope, "") == (if scope.Args? then "{args." else "{out.") + "}";
    var open := if scope.Args? then "{args." else "{out.";
    assert "{args."[1] != "{out."[1];
    var s := ReferenceText(scope, "") + rest;
    assert open <= s && s[|open|] == '}' && s[|open|..] == "}" + rest;
    assert KeyRun("}" + rest) == 0;
    var t := open + [c] + rest;
    assert open <= t && t[|open|] == c && t[|open|..] == [c] + rest;
    hide Keyed;
    assert FrontReference(s) == Keyed(scope, s, |open|) && FrontReference(t) == Keyed(scope, t, |open|);
  }

  /** References are read left to right: plain text before one stays, and does not become part of it. */
  lemma {:induction false} PlainBefore(a: string, rest: string, inputs: map<string, string>, outputs: map<string, string>)
    requires '{' !in a
    ensures
      var after := Interpolated(rest, inputs, outputs);
      Interpolated(a + rest, inputs, outputs) == if after.None? then None else Some(a + after.get)
  {
    if a == "" {
      assert a + rest == rest;
      assert Interpolated(rest, inputs, outputs).Some? ==> "" + Interpolated(rest, inputs, outputs).get == Interpolated(rest, inputs, outputs).get;
    } else {
      PlainBefore(a[1..], rest, inputs, outputs);
      assert (a + rest)[1..] == a[1..] + rest && a[0] in a;
      assert FrontReference(a + rest).None?;
      var after := Interpolated(rest, inputs, outputs);
      assert after.Some? ==> [a[0]] + (a[1..] + after.get) == a + after.get;
    }
  }

  predicate Plain(s: string) {
    forall i :: 0 <= i < |s| ==> FrontReference(s[i..]).None?
  }

  /** A text without a reference means itself, whatever there is to refer to. */
  lemma {:induction false} PlainMeansItself(s: string, inputs: map<string, string>, outputs: map<string, string>)
    requires Plain(s)
    ensures Interpolated(s, inputs, outputs) == Some(s)
    decreases |s|
  {
    hide FrontReference;
    if s != "" {
      assert s[0..] == s;
      assert FrontReference(s).None?;
      forall i | 0 <= i < |s| - 1 ensures FrontReference(s[1..][i..]).None? {
        assert s[1..][i..] == s[i + 1..];
      }
      PlainMeansItself(s[1..], inputs, outputs);
      assert [s[0]] + s[1..] == s;
    }
  }
}
