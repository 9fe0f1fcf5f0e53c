/** What a faithful guest prints about a template container, and that the observation accepts exactly that. */
module CertTmplEmission {
  import opened Options
  import opened Values
  import opened CertTmpl
  import T = Text
  import N = Numerals

  function PairLine(p: (string, string)): string {
    p.0 + "=" + p.1
  }

  function Lines(ps: seq<(string, string)>): seq<string> {
    seq(|ps|, i requires 0 <= i < |ps| => PairLine(ps[i]))
  }

  function AttrPairs(r: Rec, n: nat): seq<(string, string)>
    requires Full(r.attrs) && n <= |ATTRS|
  {
    if n == 0 then [] else
      assert ATTRS[n - 1] in ATTR_KEYS;
      AttrPairs(r, n - 1) + [(ATTRS[n - 1], r.attrs[ATTRS[n - 1]])]
  }

  predicate RecordShape(r: Rec) {
    if r.name == "" then r.attrs == map[] else Full(r.attrs)
  }

  predicate Shaped(records: seq<Rec>) {
    forall i :: 0 <= i < |records| ==> RecordShape(records[i])
  }

  /** An unnamed object prints its bare name line; a named one prints every attribute after it. */
  function RecPairs(r: Rec): seq<(string, string)>
    requires RecordShape(r)
  {
    [("name", r.name)] + if r.name == "" then [] else AttrPairs(r, |ATTRS|)
  }

  function RecsPairs(records: seq<Rec>): seq<(string, string)>
    requires Shaped(records)
  {
    if records == [] then [] else RecsPairs(records[..|records| - 1]) + RecPairs(records[|records| - 1])
  }

  const CONTAINER_ORDER := [
    "container.present", "container.object_count", "container.names_sha256", "container.other_names_sha256",
    "container.other_count", "container.unnamed_count"]

  const TARGET_ORDER := [
    "target.present", "target.name", "target.expiration_period", "target.overlap_period", "target.schema_version",
    "target.cert_name_flag", "target.key_flag", "target.sddl_len", "target.sddl_sha256"]

  function Zip(keys: seq<string>, values: seq<string>): (r: seq<(string, string)>)
    requires |values| <= |keys|
    ensures |r| == |values| && forall i :: 0 <= i < |r| ==> r[i] == (keys[i], values[i])
  {
    seq(|values|, i requires 0 <= i < |values| => (keys[i], values[i]))
  }

  function ContainerValues(sha: T.Sha, fold: T.Fold, records: seq<Rec>, present: bool, template: string): (r: seq<string>)
    requires |Names(records)| <= |records|
    ensures |r| == |CONTAINER_ORDER|
  {
    [if present then "1" else "0",
     N.Decimal(|records|),
     Digest(sha, Names(records)),
     Digest(sha, Others(fold, records, template)),
     N.Decimal(|Others(fold, records, template)|),
     N.Decimal(|records| - |Names(records)|)]
  }

  function ContainerPairs(sha: T.Sha, fold: T.Fold, records: seq<Rec>, present: bool, template: string): seq<(string, string)>
    requires |Names(records)| <= |records|
  {
    Zip(CONTAINER_ORDER, ContainerValues(sha, fold, records, present, template))
  }

  function TargetValues(found: Option<Rec>): (r: seq<string>)
    requires found.Some? ==> Full(found.get.attrs)
    ensures |r| == if found.None? then 1 else |TARGET_ORDER|
  {
    if found.None? then ["0"]
    else
      var r := found.get;
      ["1", r.name, r.attrs["expiration_period"], r.attrs["overlap_period"], r.attrs["schema_version"],
       r.attrs["cert_name_flag"], r.attrs["key_flag"], r.attrs["sddl_len"], r.attrs["sddl_sha256"]]
  }

  function TargetPairs(found: Option<Rec>): seq<(string, string)>
    requires found.Some? ==> Full(found.get.attrs)
  {
    Zip(TARGET_ORDER, TargetValues(found))
  }

  // ----- reading pairs back -----

  /** A value whose line ends where the value does. */
  predicate Clean(value: string) {
    value != "" ==> value[|value| - 1] != '\r' && value[|value| - 1] != '\n'
  }

  predicate Writable(p: (string, string)) {
    p.0 != "" && '=' !in p.0 && Clean(p.1)
  }

  predicate AllWritable(ps: seq<(string, string)>) {
    forall i :: 0 <= i < |ps| ==> Writable(ps[i])
  }

  lemma PairReads(p: (string, string))
    requires Writable(p)
    ensures LineOf(PairLine(p)) == Pair(p.0, p.1)
  {
    var line := PairLine(p);
    assert line[|line| - 1] == if p.1 == "" then '=' else p.1[|p.1| - 1];
    assert Chomp(line) == line;
    assert line[|p.0|] == '=' && line[..|p.0|] == p.0 && line[|p.0| + 1..] == p.1;
    assert forall i :: 0 <= i < |p.0| ==> line[i] == p.0[i];
    T.FindAt(line, '=', 0, |p.0|);
    hide Chomp, T.Find, PairLine;
  }

  function ApplyAll(s: Stream, ps: seq<(string, string)>): Option<Stream> {
    if ps == [] then Some(s)
    else
      var before := ApplyAll(s, ps[..|ps| - 1]);
      if before.None? then None else Apply(before.get, ps[|ps| - 1].0, ps[|ps| - 1].1)
  }

  lemma {:induction false} ReadAppend(s: Stream, lines: seq<string>, last: string)
    ensures ReadLines(s, lines + [last]) ==
      if ReadLines(s, lines).None? then None else ReadLine(ReadLines(s, lines).get, last)
    decreases lines
  {
    hide ReadLine;
    if lines == [] {
      assert (lines + [last])[1..] == [];
    } else {
      var next := ReadLine(s, lines[0]);
      assert (lines + [last])[1..] == lines[1..] + [last];
      if next.Some? {
        ReadAppend(next.get, lines[1..], last);
      }
    }
  }

  lemma {:induction false} LinesApply(s: Stream, ps: seq<(string, string)>)
    requires AllWritable(ps)
    ensures ReadLines(s, Lines(ps)) == ApplyAll(s, ps)
  {
    hide Apply;
    if ps != [] {
      var init, last := ps[..|ps| - 1], ps[|ps| - 1];
      LinesApply(s, init);
      PairReads(last);
      assert Lines(ps) == Lines(init) + [PairLine(last)];
      ReadAppend(s, Lines(init), PairLine(last));
      hide ReadLines, LineOf, PairLine;
    }
  }

  lemma {:induction false} ApplyConcat(s: Stream, a: seq<(string, string)>, b: seq<(string, string)>)
    requires ApplyAll(s, a).Some?
    ensures ApplyAll(s, a + b) == ApplyAll(ApplyAll(s, a).get, b)
  {
    hide Apply;
    if b == [] {
      assert a + b == a;
    } else {
      ApplyConcat(s, a, b[..|b| - 1]);
      assert (a + b)[..|a + b| - 1] == a + b[..|b| - 1] && (a + b)[|a + b| - 1] == b[|b| - 1];
    }
  }

  // ----- one section of the emission after the other -----

  lemma AttrDistinct(i: nat, j: nat)
    requires i < j < |ATTRS|
    ensures ATTRS[i] != ATTRS[j]
  {
  }

  function AttrsUpTo(r: Rec, n: nat): map<string, string>
    requires Full(r.attrs) && n <= |ATTRS|
  {
    if n == 0 then map[] else
      assert ATTRS[n - 1] in ATTR_KEYS;
      AttrsUpTo(r, n - 1)[ATTRS[n - 1] := r.attrs[ATTRS[n - 1]]]
  }

  lemma {:induction false} AttrsUpToNext(r: Rec, n: nat)
    requires Full(r.attrs) && 0 < n <= |ATTRS|
    ensures ATTRS[n - 1] in r.attrs && AttrsUpTo(r, n) == AttrsUpTo(r, n - 1)[ATTRS[n - 1] := r.attrs[ATTRS[n - 1]]]
  {
    assert ATTRS[n - 1] in ATTR_KEYS;
  }

  lemma {:induction false} AttrsUpToIs(r: Rec, n: nat)
    requires Full(r.attrs) && n <= |ATTRS|
    ensures forall key :: key in AttrsUpTo(r, n) <==> Early(ATTRS, n, key)
    ensures forall key :: key in AttrsUpTo(r, n) ==> key in r.attrs && AttrsUpTo(r, n)[key] == r.attrs[key]
  {
    if n > 0 {
      AttrsUpToIs(r, n - 1);
      AttrsUpToNext(r, n);
      hide AttrsUpTo, Full, Early;
      OneMore(ATTRS, n);
    }
  }

  predicate Early(names: seq<string>, n: nat, key: string)
    requires n <= |names|
  {
    exists i :: 0 <= i < n && names[i] == key
  }

  lemma OneMore(names: seq<string>, n: nat)
    requires 0 < n <= |names|
    ensures forall key :: Early(names, n, key) <==> Early(names, n - 1, key) || key == names[n - 1]
  {
  }

  lemma AllAttrs(r: Rec)
    requires Full(r.attrs)
    ensures AttrsUpTo(r, |ATTRS|) == r.attrs
  {
    AttrsUpToIs(r, |ATTRS|);
    forall key | key in ATTR_KEYS ensures Early(ATTRS, |ATTRS|, key) {
      var i := if key == "expiration_period" then 0 else if key == "overlap_period" then 1 else if key == "schema_version" then 2
        else if key == "cert_name_flag" then 3 else if key == "key_flag" then 4 else if key == "sddl_len" then 5 else 6;
      assert ATTRS[i] == key;
    }
    hide AttrsUpTo;
  }

  lemma {:induction false} AttrsApply(s: Stream, r: Rec, n: nat)
    requires Full(r.attrs) && n <= |ATTRS|
    ensures ApplyAll(s.(records := s.records + [Rec(r.name, map[])]), AttrPairs(r, n))
      == Some(s.(records := s.records + [Rec(r.name, AttrsUpTo(r, n))]))
  {
    hide Apply;
    if n > 0 {
      var key := ATTRS[n - 1];
      assert key in ATTR_KEYS;
      AttrsApply(s, r, n - 1);
      NextAttr(r, n);
      assert AttrPairs(r, n) == AttrPairs(r, n - 1) + [(key, r.attrs[key])];
      ApplyAttr(s.(records := s.records + [Rec(r.name, AttrsUpTo(r, n - 1))]), s, Rec(r.name, AttrsUpTo(r, n - 1)), key, r.attrs[key]);
      hide AttrPairs;
    } else {
      assert AttrPairs(r, 0) == [];
    }
  }

  lemma NextAttr(r: Rec, n: nat)
    requires Full(r.attrs) && 0 < n <= |ATTRS|
    ensures ATTRS[n - 1] !in AttrsUpTo(r, n - 1)
  {
    AttrsUpToIs(r, n - 1);
    forall i | 0 <= i < n - 1 ensures ATTRS[i] != ATTRS[n - 1] { AttrDistinct(i, n - 1); }
    hide AttrsUpTo;
  }

  lemma ApplyAttr(before: Stream, s: Stream, last: Rec, key: string, value: string)
    requires key in ATTR_KEYS && before == s.(records := s.records + [last]) && key !in last.attrs
    ensures Apply(before, key, value) == Some(s.(records := s.records + [last.(attrs := last.attrs[key := value])]))
  {
    assert key != "error" && key != "name";
    assert before.records[|before.records| - 1 := last.(attrs := last.attrs[key := value])]
      == s.records + [last.(attrs := last.attrs[key := value])];
  }

  lemma RecApply(s: Stream, r: Rec)
    requires RecordShape(r)
    ensures ApplyAll(s, RecPairs(r)) == Some(s.(records := s.records + [r]))
  {
    var named := s.(records := s.records + [Rec(r.name, map[])]);
    var head := [("name", r.name)];
    assert ApplyAll(s, head) == Some(named) by {
      assert head[..0] == [] && !("name" == "error");
      assert ApplyAll(s, head[..0]) == Some(s);
    }
    if r.name == "" {
      assert RecPairs(r) == head;
    } else {
      ApplyConcat(s, head, AttrPairs(r, |ATTRS|));
      AttrsApply(s, r, |ATTRS|);
      AllAttrs(r);
    }
    hide ApplyAll, Apply;
  }

  lemma {:induction false} RecsApply(records: seq<Rec>)
    requires Shaped(records)
    ensures ApplyAll(EMPTY, RecsPairs(records)) == Some(Stream(records, map[], map[]))
  {
    hide ApplyAll, Apply, RecPairs, RecsPairs, Shaped, RecordShape, Full;
    if records == [] {
      NoRecords(records);
    } else {
      var init, last := records[..|records| - 1], records[|records| - 1];
      RecsStep(records);
      RecsApply(init);
      ApplyConcat(EMPTY, RecsPairs(init), RecPairs(last));
      RecApply(Stream(init, map[], map[]), last);
      assert init + [last] == records;
    }
  }

  lemma NoRecords(records: seq<Rec>)
    requires Shaped(records) && records == []
    ensures ApplyAll(EMPTY, RecsPairs(records)) == Some(Stream(records, map[], map[]))
  {
  }

  lemma {:induction false} RecsStep(records: seq<Rec>)
    requires Shaped(records) && records != []
    ensures
      var (init, last) := (records[..|records| - 1], records[|records| - 1]);
      Shaped(init) && RecordShape(last) && RecsPairs(records) == RecsPairs(init) + RecPairs(last)
  {
    hide RecPairs, Full;
    var init := records[..|records| - 1];
    assert forall i :: 0 <= i < |init| ==> init[i] == records[i];
  }

  lemma ApplyContainer(s: Stream, key: string, value: string)
    requires "container." <= key && key !in s.container
    ensures Apply(s, key, value) == Some(s.(container := s.container[key := value]))
  {
    assert key[0] == "container."[0] == 'c' && key[1] == "container."[1] == 'o';
    assert "target."[0] == 't';
  }

  lemma ApplyTarget(s: Stream, key: string, value: string)
    requires "target." <= key && key !in s.target
    ensures Apply(s, key, value) == Some(s.(target := s.target[key := value]))
  {
    assert key[0] == "target."[0] == 't';
  }

  function Put(m: map<string, string>, ps: seq<(string, string)>): map<string, string> {
    if ps == [] then m else Put(m, ps[..|ps| - 1])[ps[|ps| - 1].0 := ps[|ps| - 1].1]
  }

  predicate KeysDistinct(ps: seq<(string, string)>) {
    forall i, j :: 0 <= i < j < |ps| ==> ps[i].0 != ps[j].0
  }

  lemma {:induction false} PutKeys(m: map<string, string>, ps: seq<(string, string)>)
    ensures forall key :: key in Put(m, ps) <==> key in m || exists i :: 0 <= i < |ps| && ps[i].0 == key
    ensures KeysDistinct(ps) ==> forall i :: 0 <= i < |ps| ==> Put(m, ps)[ps[i].0] == ps[i].1
  {
    if ps != [] {
      var init := ps[..|ps| - 1];
      PutKeys(m, init);
      assert forall i :: 0 <= i < |init| ==> init[i] == ps[i];
      forall key ensures key in Put(m, ps) <==> key in m || exists i :: 0 <= i < |ps| && ps[i].0 == key {
        if key == ps[|ps| - 1].0 {
          assert ps[|ps| - 1].0 == key;
        }
      }
    }
  }

  lemma {:induction false} ContainersApply(s: Stream, ps: seq<(string, string)>)
    requires s.container == map[] && KeysDistinct(ps) && forall i :: 0 <= i < |ps| ==> "container." <= ps[i].0
    ensures ApplyAll(s, ps) == Some(s.(container := Put(map[], ps)))
  {
    hide Apply;
    if ps != [] {
      var init := ps[..|ps| - 1];
      ContainersApply(s, init);
      PutKeys(map[], init);
      assert forall i :: 0 <= i < |init| ==> init[i] == ps[i];
      ApplyContainer(s.(container := Put(map[], init)), ps[|ps| - 1].0, ps[|ps| - 1].1);
    }
  }

  lemma {:induction false} TargetsApply(s: Stream, ps: seq<(string, string)>)
    requires s.target == map[] && KeysDistinct(ps) && forall i :: 0 <= i < |ps| ==> "target." <= ps[i].0
    ensures ApplyAll(s, ps) == Some(s.(target := Put(map[], ps)))
  {
    hide Apply;
    if ps != [] {
      var init := ps[..|ps| - 1];
      TargetsApply(s, init);
      PutKeys(map[], init);
      assert forall i :: 0 <= i < |init| ==> init[i] == ps[i];
      ApplyTarget(s.(target := Put(map[], init)), ps[|ps| - 1].0, ps[|ps| - 1].1);
    }
  }

  // ----- the whole emission -----

  /** A container a faithful guest can print: well-shaped objects, at most one of them the target, values that keep to their lines. */
  ghost predicate Printable(fold: T.Fold, toInt: ToInt, records: seq<Rec>, template: string) {
    && RecordsOk(toInt, records)
    && |Matches(fold, records, fold(template))| <= 1
    && (forall i :: 0 <= i < |records| ==> Clean(records[i].name))
    && (forall i :: 0 <= i < |records| ==> forall key :: key in records[i].attrs ==> Clean(records[i].attrs[key]))
  }

  function Found(fold: T.Fold, records: seq<Rec>, template: string): Option<Rec> {
    var found := Matches(fold, records, fold(template));
    if found == [] then None else Some(found[0])
  }

  lemma ShapeOf(toInt: ToInt, records: seq<Rec>)
    requires RecordsOk(toInt, records)
    ensures Shaped(records)
    ensures |Names(records)| <= |records|
  {
    assert forall i :: 0 <= i < |records| ==> RecordOk(toInt, records[i]) ==> RecordShape(records[i]);
    NamesFewer(records);
    assert |multiset(Names(records))| == |multiset(RecordNames(records))|;
  }

  lemma {:induction false} NamesFewer(records: seq<Rec>)
    ensures |RecordNames(records)| <= |records|
  {
    if records != [] { NamesFewer(records[1..]); }
  }

  lemma FoundShape(fold: T.Fold, toInt: ToInt, records: seq<Rec>, template: string)
    requires RecordsOk(toInt, records)
    ensures
      var found := Found(fold, records, template);
      found.Some? ==> found.get in records && found.get.name != "" && Full(found.get.attrs)
  {
    var found := Matches(fold, records, fold(template));
    MatchesAreRecords(fold, records, fold(template));
    hide Matches;
    assert found != [] ==> found[0] in found;
  }

  function Pairs(sha: T.Sha, fold: T.Fold, toInt: ToInt, records: seq<Rec>, present: bool, template: string): seq<(string, string)>
    requires RecordsOk(toInt, records)
  {
    ShapeOf(toInt, records);
    FoundShape(fold, toInt, records, template);
    RecsPairs(records) + ContainerPairs(sha, fold, records, present, template) + TargetPairs(Found(fold, records, template))
  }

  function Emission(sha: T.Sha, fold: T.Fold, toInt: ToInt, records: seq<Rec>, present: bool, template: string): seq<string>
    requires RecordsOk(toInt, records)
  {
    Lines(Pairs(sha, fold, toInt, records, present, template))
  }

  lemma {:induction false} AttrsWritable(r: Rec, n: nat)
    requires Full(r.attrs) && n <= |ATTRS| && forall key :: key in r.attrs ==> Clean(r.attrs[key])
    ensures AllWritable(AttrPairs(r, n))
  {
    hide Clean;
    if n > 0 {
      AttrsWritable(r, n - 1);
      assert ATTRS[n - 1] in ATTR_KEYS && '=' !in ATTRS[n - 1] && ATTRS[n - 1] != "" by { AttrPlain(n - 1); }
    }
  }

  lemma AttrPlain(i: nat)
    requires i < |ATTRS|
    ensures ATTRS[i] in ATTR_KEYS && '=' !in ATTRS[i] && ATTRS[i] != ""
  {
    var a := ATTRS[i];
    assert i == 0 ==> a == "expiration_period";
    assert i == 1 ==> a == "overlap_period";
  }

  lemma {:induction false} RecsWritable(records: seq<Rec>)
    requires Shaped(records)
    requires forall i :: 0 <= i < |records| ==> Clean(records[i].name) && forall key :: key in records[i].attrs ==> Clean(records[i].attrs[key])
    ensures AllWritable(RecsPairs(records))
  {
    if records != [] {
      var init, last := records[..|records| - 1], records[|records| - 1];
      RecsStep(records);
      hide Clean, AttrPairs, Full, RecsPairs, Shaped;
      assert forall i :: 0 <= i < |init| ==> init[i] == records[i];
      RecsWritable(init);
      if last.name != "" { AttrsWritable(last, |ATTRS|); }
      assert AllWritable(RecPairs(last));
    }
  }

  lemma DigitsClean(s: string)
    requires s != "" && forall c :: c in s ==> N.IsDigit(c)
    ensures Clean(s)
  {
    assert s[|s| - 1] in s;
  }

  lemma HexClean(s: string)
    requires T.Hex64(s)
    ensures Clean(s)
  {
    assert s[63] == s[|s| - 1];
  }

  lemma ContainerKey(i: nat)
    requires i < |CONTAINER_ORDER|
    ensures "container." <= CONTAINER_ORDER[i] && '=' !in CONTAINER_ORDER[i]
  {
    var key := CONTAINER_ORDER[i];
    assert i == 0 ==> key == "container.present";
    assert i == 1 ==> key == "container.object_count";
    assert i == 2 ==> key == "container.names_sha256";
    assert i == 3 ==> key == "container.other_names_sha256";
    assert i == 4 ==> key == "container.other_count";
    assert i == 5 ==> key == "container.unnamed_count";
  }

  lemma ContainerKeysDiffer(i: nat, j: nat)
    requires i < j < |CONTAINER_ORDER|
    ensures CONTAINER_ORDER[i] != CONTAINER_ORDER[j]
  {
    assert CONTAINER_ORDER[1][10] == 'o' && CONTAINER_ORDER[2][10] == 'n';
    assert |CONTAINER_ORDER[0]| == 17 && |CONTAINER_ORDER[1]| == 22 && |CONTAINER_ORDER[2]| == 22;
    assert |CONTAINER_ORDER[3]| == 28 && |CONTAINER_ORDER[4]| == 21 && |CONTAINER_ORDER[5]| == 23;
  }

  lemma TargetKey(i: nat)
    requires i < |TARGET_ORDER|
    ensures "target." <= TARGET_ORDER[i] && '=' !in TARGET_ORDER[i]
  {
    var key := TARGET_ORDER[i];
    assert i == 0 ==> key == "target.present";
    assert i == 1 ==> key == "target.name";
    assert i == 2 ==> key == "target.expiration_period";
    assert i == 3 ==> key == "target.overlap_period";
    assert i == 4 ==> key == "target.schema_version";
    assert i == 5 ==> key == "target.cert_name_flag";
    assert i == 6 ==> key == "target.key_flag";
    assert i == 7 ==> key == "target.sddl_len";
    assert i == 8 ==> key == "target.sddl_sha256";
  }

  lemma TargetKeysDiffer(i: nat, j: nat)
    requires i < j < |TARGET_ORDER|
    ensures TARGET_ORDER[i] != TARGET_ORDER[j]
  {
    assert |TARGET_ORDER[0]| == 14 && |TARGET_ORDER[1]| == 11 && |TARGET_ORDER[2]| == 24 && |TARGET_ORDER[3]| == 21;
    assert |TARGET_ORDER[4]| == 21 && |TARGET_ORDER[5]| == 21 && |TARGET_ORDER[6]| == 15 && |TARGET_ORDER[7]| == 15;
    assert |TARGET_ORDER[8]| == 18;
    assert TARGET_ORDER[3][7] == 'o' && TARGET_ORDER[4][7] == 's' && TARGET_ORDER[5][7] == 'c';
    assert TARGET_ORDER[6][7] == 'k' && TARGET_ORDER[7][7] == 's';
  }

  predicate AllClean(values: seq<string>) {
    forall i :: 0 <= i < |values| ==> Clean(values[i])
  }

  lemma {:induction false} ContainerWritable(sha: T.Sha, fold: T.Fold, records: seq<Rec>, present: bool, template: string)
    requires |Names(records)| <= |records| && forall t :: T.Hex64(sha(t))
    ensures var ps := ContainerPairs(sha, fold, records, present, template);
      AllWritable(ps) && KeysDistinct(ps) && forall i :: 0 <= i < |ps| ==> "container." <= ps[i].0
  {
    ContainerClean(sha, fold, records, present, template);
    hide Clean, ContainerValues, Names;
    var ps := ContainerPairs(sha, fold, records, present, template);
    forall i | 0 <= i < |ps| ensures Writable(ps[i]) && "container." <= ps[i].0 {
      ContainerKey(i);
      assert "container."[0] == ps[i].0[0];
    }
    forall i, j | 0 <= i < j < |ps| ensures ps[i].0 != ps[j].0 { ContainerKeysDiffer(i, j); }
  }

  lemma {:induction false} ContainerClean(sha: T.Sha, fold: T.Fold, records: seq<Rec>, present: bool, template: string)
    requires |Names(records)| <= |records| && forall t :: T.Hex64(sha(t))
    ensures AllClean(ContainerValues(sha, fold, records, present, template))
  {
    assert Clean("0") && Clean("1");
    hide Clean, T.Hex64, N.Decimal, Others, Names, Digest;
    DigitsClean(N.Decimal(|records|));
    DigitsClean(N.Decimal(|Others(fold, records, template)|));
    DigitsClean(N.Decimal(|records| - |Names(records)|));
    DigestClean(sha, Names(records));
    DigestClean(sha, Others(fold, records, template));
  }

  lemma DigestClean(sha: T.Sha, names: seq<string>)
    requires forall t :: T.Hex64(sha(t))
    ensures T.Hex64(Digest(sha, names)) && Clean(Digest(sha, names))
  {
    hide Clean, T.Hex64, T.Join;
    HexClean(Digest(sha, names));
  }

  lemma {:induction false} TargetWritable(found: Option<Rec>)
    requires found.Some? ==> Full(found.get.attrs) && Clean(found.get.name) && forall key :: key in found.get.attrs ==> Clean(found.get.attrs[key])
    ensures var ps := TargetPairs(found);
      AllWritable(ps) && KeysDistinct(ps) && forall i :: 0 <= i < |ps| ==> "target." <= ps[i].0
  {
    assert AllClean(TargetValues(found)) by {
      assert Clean("0") && Clean("1");
      hide Clean;
    }
    hide Clean, TargetValues;
    var ps := TargetPairs(found);
    forall i | 0 <= i < |ps| ensures Writable(ps[i]) && "target." <= ps[i].0 {
      TargetKey(i);
      assert "target."[0] == ps[i].0[0];
    }
    forall i, j | 0 <= i < j < |ps| ensures ps[i].0 != ps[j].0 { TargetKeysDiffer(i, j); }
  }

  /** What the emission reads back as, before anything is checked. */
  lemma {:induction false} EmissionReads(sha: T.Sha, fold: T.Fold, toInt: ToInt, records: seq<Rec>, present: bool, template: string)
    requires Printable(fold, toInt, records, template) && forall t :: T.Hex64(sha(t))
    ensures |Names(records)| <= |records|
    ensures var found := Found(fold, records, template); found.Some? ==> found.get in records && found.get.name != "" && Full(found.get.attrs)
    ensures ReadLines(EMPTY, Emission(sha, fold, toInt, records, present, template)) ==
      Some(Stream(records,
                  Put(map[], ContainerPairs(sha, fold, records, present, template)),
                  Put(map[], TargetPairs(Found(fold, records, template)))))
  {
    hide RecordsOk, Clean, ContainerPairs, TargetPairs, RecsPairs, Found, Put, ReadLines, Names, T.Hex64, AllWritable, KeysDistinct;
    FoundPrintable(fold, toInt, records, template);
    RecsWritable(records);
    ContainerWritable(sha, fold, records, present, template);
    TargetWritable(Found(fold, records, template));
    hide Shaped, Printable, RecordShape;
    PartsRead(records, ContainerPairs(sha, fold, records, present, template), TargetPairs(Found(fold, records, template)));
  }

  lemma {:induction false} FoundPrintable(fold: T.Fold, toInt: ToInt, records: seq<Rec>, template: string)
    requires Printable(fold, toInt, records, template)
    ensures Shaped(records) && |Names(records)| <= |records|
    ensures
      var found := Found(fold, records, template);
      found.Some? ==>
        && found.get in records && found.get.name != "" && Full(found.get.attrs)
        && Clean(found.get.name) && forall key :: key in found.get.attrs ==> Clean(found.get.attrs[key])
  {
    ShapeOf(toInt, records);
    FoundShape(fold, toInt, records, template);
    hide RecordsOk, Clean, Found, Names, Matches;
  }

  lemma {:induction false} PartsRead(records: seq<Rec>, b: seq<(string, string)>, c: seq<(string, string)>)
    requires Shaped(records) && AllWritable(RecsPairs(records)) && AllWritable(b) && AllWritable(c)
    requires KeysDistinct(b) && forall i :: 0 <= i < |b| ==> "container." <= b[i].0
    requires KeysDistinct(c) && forall i :: 0 <= i < |c| ==> "target." <= c[i].0
    ensures ReadLines(EMPTY, Lines(RecsPairs(records) + b + c)) == Some(Stream(records, Put(map[], b), Put(map[], c)))
  {
    hide KeysDistinct, RecsPairs, ApplyAll, Put, ReadLines, Lines, Writable;
    var a := RecsPairs(records);
    assert AllWritable(a + b + c);
    hide AllWritable;
    LinesApply(EMPTY, a + b + c);
    RecsApply(records);
    hide Shaped;
    ApplyConcat(EMPTY, a, b);
    ContainersApply(Stream(records, map[], map[]), b);
    ApplyConcat(EMPTY, a + b, c);
    TargetsApply(Stream(records, Put(map[], b), map[]), c);
  }

  lemma {:induction false} ContainerRead(sha: T.Sha, fold: T.Fold, records: seq<Rec>, present: bool, template: string)
    requires |Names(records)| <= |records| && forall t :: T.Hex64(sha(t))
    ensures
      var (m, vs) := (Put(map[], ContainerPairs(sha, fold, records, present, template)), ContainerValues(sha, fold, records, present, template));
      && m.Keys == CONTAINER_KEYS
      && forall i :: 0 <= i < |CONTAINER_ORDER| ==> CONTAINER_ORDER[i] in m && m[CONTAINER_ORDER[i]] == vs[i]
  {
    hide ContainerValues, Names, AllWritable, T.Hex64, Put, KeysDistinct;
    ContainerWritable(sha, fold, records, present, template);
    var ps := ContainerPairs(sha, fold, records, present, template);
    PutKeys(map[], ps);
    var m := Put(map[], ps);
    forall key ensures key in m <==> key in CONTAINER_ORDER {
      if key in CONTAINER_ORDER {
        var i :| 0 <= i < |CONTAINER_ORDER| && CONTAINER_ORDER[i] == key;
        assert ps[i].0 == key;
      }
    }
    forall i | 0 <= i < |CONTAINER_ORDER|
      ensures CONTAINER_ORDER[i] in m && m[CONTAINER_ORDER[i]] == ContainerValues(sha, fold, records, present, template)[i]
    {
      assert ps[i].0 == CONTAINER_ORDER[i];
    }
    OrderIsKeys();
  }

  lemma OrderIsKeys()
    ensures forall key :: key in CONTAINER_ORDER <==> key in CONTAINER_KEYS
  {
    assert CONTAINER_ORDER == ["container.present", "container.object_count", "container.names_sha256",
      "container.other_names_sha256", "container.other_count", "container.unnamed_count"];
  }

  lemma TargetRead(found: Option<Rec>)
    requires found.Some? ==> Full(found.get.attrs)
    requires KeysDistinct(TargetPairs(found))
    ensures Put(map[], TargetPairs(found)) == if found.None? then map["target.present" := "0"] else TargetLines(found.get)
  {
    hide KeysDistinct, Put, Full, TargetLines;
    var ps := TargetPairs(found);
    PutKeys(map[], ps);
    var m := Put(map[], ps);
    if found.None? {
      assert ps[0] == ("target.present", "0");
      assert m == map["target.present" := "0"];
    } else {
      TargetLinesHave(found.get);
      hide TargetValues;
      var t := TargetLines(found.get);
      forall key | key in t ensures key in m {
        TargetLinesOnly(found.get, key);
        var i :| 0 <= i < |TARGET_ORDER| && TARGET_ORDER[i] == key;
        assert ps[i].0 == key;
      }
      forall key | key in m ensures key in t && m[key] == t[key] {
        var i :| 0 <= i < |ps| && ps[i].0 == key;
        assert TARGET_ORDER[i] == key;
      }
      assert m == t;
    }
  }

  lemma TargetLinesHave(r: Rec)
    requires Full(r.attrs)
    ensures var t := TargetLines(r);
      forall i :: 0 <= i < |TARGET_ORDER| ==> TARGET_ORDER[i] in t && t[TARGET_ORDER[i]] == TargetValues(Some(r))[i]
  {
    var t := TargetLines(r);
    forall i | 0 <= i < |TARGET_ORDER| ensures TARGET_ORDER[i] in t && t[TARGET_ORDER[i]] == TargetValues(Some(r))[i] {
      var key := TARGET_ORDER[i];
      assert i == 0 ==> key == "target.present";
      assert i == 1 ==> key == "target.name";
      assert i == 2 ==> key == "target.expiration_period";
      assert i == 3 ==> key == "target.overlap_period";
      assert i == 4 ==> key == "target.schema_version";
      assert i == 5 ==> key == "target.cert_name_flag";
      assert i == 6 ==> key == "target.key_flag";
      assert i == 7 ==> key == "target.sddl_len";
      assert i == 8 ==> key == "target.sddl_sha256";
    }
  }

  lemma TargetLinesOnly(r: Rec, key: string)
    requires Full(r.attrs) && key in TargetLines(r)
    ensures exists i :: 0 <= i < |TARGET_ORDER| && TARGET_ORDER[i] == key
  {
    var i := if key == "target.present" then 0 else if key == "target.name" then 1 else if key == "target.expiration_period" then 2
      else if key == "target.overlap_period" then 3 else if key == "target.schema_version" then 4
      else if key == "target.cert_name_flag" then 5 else if key == "target.key_flag" then 6
      else if key == "target.sddl_len" then 7 else 8;
    assert TARGET_ORDER[i] == key;
  }

  /** Every faithful emission of a printable container is accepted, with the facts of that container. */
  lemma {:induction false} FaithfulEmissionAccepted(sha: T.Sha, fold: T.Fold, toInt: ToInt, records: seq<Rec>, present: bool, template: string)
    requires Printable(fold, toInt, records, template) && template != ""
    requires (forall t :: T.Hex64(sha(t))) && forall n: nat :: toInt(N.Decimal(n)) == Some(n)
    ensures Observe(sha, fold, toInt, Emission(sha, fold, toInt, records, present, template), template)
      == Some(FactsOf(sha, fold, toInt, records, present, template))
  {
    assert Flag("1") == Some(true) && Flag("0") == Some(false);
    hide RecordsOk, Clean, Put, ReadLines, Names, T.Hex64, AllWritable, KeysDistinct, ContainerOk, TargetOk, Emission, FactsOf, ContainerPairs,
      TargetPairs, TargetLines, Found, ContainerValues, Flag;
    EmissionReads(sha, fold, toInt, records, present, template);
    ContainerRead(sha, fold, records, present, template);
    FoundPrintable(fold, toInt, records, template);
    TargetWritable(Found(fold, records, template));
    TargetRead(Found(fold, records, template));
    var s := ReadLines(EMPTY, Emission(sha, fold, toInt, records, present, template)).get;
    ContainerAccepted(sha, fold, toInt, s, present, template);
    TargetAccepted(fold, toInt, s, template);
  }

  lemma {:induction false} ContainerAccepted(sha: T.Sha, fold: T.Fold, toInt: ToInt, s: Stream, present: bool, template: string)
    requires |Names(s.records)| <= |s.records|
    requires (forall t :: T.Hex64(sha(t))) && forall n: nat :: toInt(N.Decimal(n)) == Some(n)
    requires s.container.Keys == CONTAINER_KEYS
    requires
      var vs := ContainerValues(sha, fold, s.records, present, template);
      forall i :: 0 <= i < |CONTAINER_ORDER| ==> CONTAINER_ORDER[i] in s.container && s.container[CONTAINER_ORDER[i]] == vs[i]
    ensures ContainerOk(sha, fold, toInt, s, template)
    ensures s.container["container.present"] == if present then "1" else "0"
  {
    hide Names, Others, N.Decimal, T.Hex64;
    DigestClean(sha, Names(s.records));
    DigestClean(sha, Others(fold, s.records, template));
    hide Digest;
    var vs := ContainerValues(sha, fold, s.records, present, template);
    assert CONTAINER_ORDER[0] == "container.present" && CONTAINER_ORDER[1] == "container.object_count";
    assert CONTAINER_ORDER[2] == "container.names_sha256" && CONTAINER_ORDER[3] == "container.other_names_sha256";
    assert CONTAINER_ORDER[4] == "container.other_count" && CONTAINER_ORDER[5] == "container.unnamed_count";
  }

  lemma TargetAccepted(fold: T.Fold, toInt: ToInt, s: Stream, template: string)
    requires Printable(fold, toInt, s.records, template)
    requires
      var found := Found(fold, s.records, template);
      && (found.Some? ==> Full(found.get.attrs))
      && s.target == if found.None? then map["target.present" := "0"] else TargetLines(found.get)
    ensures forall i :: 0 <= i < |s.records| ==> s.records[i].name != "" ==> Full(s.records[i].attrs)
    ensures TargetOk(fold, s, template)
  {
    ShapeOf(toInt, s.records);
    hide RecordsOk, Matches, TargetLines, Clean;
  }
}
