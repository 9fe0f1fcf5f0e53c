/** What an accepted stream of template lines says, read off the lines themselves, and what is published of it. */
module CertTmplClaims {
  import opened Options
  import opened Values
  import opened CertTmpl
  import CertTmplEmission
  import T = Text

  // ----- durations -----

  predicate BytesOf(value: string, bytes: nat) {
    |value| == 2 * bytes && UpperHex(value)
  }

  lemma {:induction false} BytesOfRead(value: string, bytes: nat)
    requires BytesOf(value, bytes)
    ensures LittleEndian(value) < Power256(bytes) && Bytes(LittleEndian(value), bytes) == value
  {
    if bytes > 0 {
      var rest := value[2..];
      assert forall i :: 0 <= i < |rest| ==> rest[i] == value[i + 2];
      BytesOfRead(rest, bytes - 1);
      assert HexDigit(value[0]).Some? && HexDigit(value[1]).Some?;
      var high, low, tail := HexDigit(value[0]).get, HexDigit(value[1]).get, LittleEndian(rest);
      assert LittleEndian(value) == high * 16 + low + 256 * tail;
      var n := LittleEndian(value);
      hide LittleEndian, Power256, UpperHex;
      LowByte(high, low, tail);
      hide Bytes;
      BytesStep(n, bytes, value);
    }
    assert bytes == 0 ==> value == "";
  }

  lemma BytesStep(n: nat, bytes: nat, value: string)
    requires bytes > 0 && |value| >= 2 && HexDigit(value[0]).Some? && HexDigit(value[1]).Some?
    requires n / 16 % 16 == HexDigit(value[0]).get && n % 16 == HexDigit(value[1]).get
    requires Bytes(n / 256, bytes - 1) == value[2..]
    ensures Bytes(n, bytes) == value
  {
    assert UpperDigit(n / 16 % 16) == value[0] && UpperDigit(n % 16) == value[1];
    assert value == [value[0], value[1]] + value[2..];
  }

  lemma LowByte(high: nat, low: nat, tail: nat)
    requires high < 16 && low < 16
    ensures var n := high * 16 + low + 256 * tail; n % 16 == low && n / 16 % 16 == high && n / 256 == tail
  {
    var n := high * 16 + low + 256 * tail;
    assert n == 16 * (high + 16 * tail) + low;
    assert n / 16 == high + 16 * tail;
  }

  /** A duration is read exactly from the eight little-endian bytes of a negative interval. */
  lemma {:induction false} DurationExactly(value: string, n: int)
    ensures Duration100ns(value) == Units(n) <==> 1 <= n <= 0x8000_0000_0000_0000 && value == Bytes(0x1_0000_0000_0000_0000 - n, 8)
    ensures Duration100ns(value) == Absent <==> value == ""
  {
    if 1 <= n <= 0x8000_0000_0000_0000 {
      DurationRoundTrip(n);
    }
    EightBytes();
    hide Power256, Bytes;
    if BytesOf(value, 8) {
      BytesOfRead(value, 8);
    }
    hide LittleEndian, UpperHex;
  }

  // ----- lines and tables -----

  predicate LineEnds(s: string) {
    forall i :: 0 <= i < |s| ==> s[i] == '\r' || s[i] == '\n'
  }

  lemma {:induction false} ChompEnds(line: string, ends: string)
    requires CertTmplEmission.Clean(line) && LineEnds(ends)
    ensures Chomp(line + ends) == line
    decreases |ends|
  {
    if ends == "" {
      assert line + ends == line;
    } else {
      var raw, init := line + ends, ends[..|ends| - 1];
      assert raw[|raw| - 1] == ends[|ends| - 1] && raw[..|raw| - 1] == line + init;
      ChompEnds(line, init);
    }
  }

  /** Line ends are nothing; of the rest, nothing is blank, and the first equals sign ends the key, which may be empty. */
  lemma LineMeans(line: string, ends: string, key: string, value: string)
    requires CertTmplEmission.Clean(line) && LineEnds(ends)
    ensures LineOf(line + ends) == Blank <==> line == ""
    ensures LineOf(line + ends) == NotAPair <==> line != "" && '=' !in line
    ensures LineOf(line + ends) == Pair(key, value) <==> line == key + "=" + value && '=' !in key
  {
    hide LineOf, T.Find, LineEnds, CertTmplEmission.Clean;
    LineParts(line, ends);
    LineHasEquals(line);
    FirstEquals(line, key, value);
  }

  lemma LineParts(line: string, ends: string)
    requires CertTmplEmission.Clean(line) && LineEnds(ends)
    ensures var eq := T.Find(line, '=', 0);
      LineOf(line + ends) == if line == "" then Blank else if eq < 0 then NotAPair else Pair(line[..eq], line[eq + 1..])
  {
    ChompEnds(line, ends);
    hide Chomp, LineEnds, CertTmplEmission.Clean, T.Find;
  }

  lemma LineHasEquals(line: string)
    ensures T.Find(line, '=', 0) < 0 <==> '=' !in line
  {
    assert line[0..] == line;
    hide T.Find;
  }

  lemma FirstEquals(line: string, key: string, value: string)
    ensures var eq := T.Find(line, '=', 0);
      line == key + "=" + value && '=' !in key <==> eq >= 0 && key == line[..eq] && value == line[eq + 1..]
  {
    var eq := T.Find(line, '=', 0);
    if line == key + "=" + value && '=' !in key {
      T.FindAt(line, '=', 0, |key|);
      assert line[..|key|] == key && line[|key| + 1..] == value;
    }
    if eq >= 0 && key == line[..eq] && value == line[eq + 1..] {
      assert line == line[..eq] + "=" + line[eq + 1..];
      assert line[0..eq] == line[..eq];
    }
    hide T.Find;
  }

  /** Some line of the stream is `key=value`. */
  predicate Says(lines: seq<string>, key: string, value: string) {
    exists i :: 0 <= i < |lines| && LineOf(lines[i]) == Pair(key, value)
  }

  /** The values of the name lines, in order. */
  function NameLines(lines: seq<string>): seq<string> {
    if lines == [] then []
    else
      NameLines(lines[..|lines| - 1])
        + match LineOf(lines[|lines| - 1])
          case Pair(key, value) => if key == "name" then [value] else []
          case _ => []
  }

  function AllNames(records: seq<Rec>): seq<string> {
    seq(|records|, i requires 0 <= i < |records| => records[i].name)
  }

  predicate Known(key: string) {
    || key == "name"
    || key in ["expiration_period", "overlap_period", "schema_version", "cert_name_flag", "key_flag", "sddl_len", "sddl_sha256"]
    || "target." <= key
    || "container." <= key
  }

  /** Every line is blank or gives a value to a known key. */
  predicate AllKnown(lines: seq<string>) {
    forall i :: 0 <= i < |lines| ==> LineOf(lines[i]).Blank? || (LineOf(lines[i]).Pair? && Known(LineOf(lines[i]).key))
  }

  /** `m` holds what the lines say under one prefix. */
  ghost predicate Tabled(m: map<string, string>, prefix: string, lines: seq<string>) {
    forall key: string, value: string :: Says(lines, key, value) && prefix <= key <==> key in m && m[key] == value && prefix <= key
  }

  predicate AllUnder(m: map<string, string>, prefix: string) {
    forall key :: key in m ==> prefix <= key
  }

  predicate AtMostOnce(lines: seq<string>, prefix: string) {
    forall i, j :: 0 <= i < j < |lines| && LineOf(lines[i]).Pair? && LineOf(lines[j]).Pair? && prefix <= LineOf(lines[i]).key
      ==> LineOf(lines[i]).key != LineOf(lines[j]).key
  }

  function Extended(m: map<string, string>, prefix: string, key: string, value: string): map<string, string> {
    if prefix <= key then m[key := value] else m
  }

  lemma ApplyTables(s: Stream, key: string, value: string)
    requires Apply(s, key, value).Some?
    ensures var next := Apply(s, key, value).get;
      && next.container == Extended(s.container, "container.", key, value) && ("container." <= key ==> key !in s.container)
      && next.target == Extended(s.target, "target.", key, value) && ("target." <= key ==> key !in s.target)
      && AllNames(next.records) == AllNames(s.records) + (if key == "name" then [value] else [])
    ensures Known(key)
  {
    assert "target." <= key ==> key[0] == 't' && !IsAttr(key) && key != "name" && key != "error";
    assert "container." <= key ==> key[0] == 'c' && key[1] == 'o' && !IsAttr(key) && key != "name" && key != "error";
    if key != "name" && IsAttr(key) {
      AttrNames(s, key, value);
    }
  }

  lemma AttrNames(s: Stream, key: string, value: string)
    requires IsAttr(key) && Apply(s, key, value).Some?
    ensures key != "name" ==> AllNames(Apply(s, key, value).get.records) == AllNames(s.records)
  {
  }

  lemma SaysNext(init: seq<string>, last: string)
    ensures forall key, value :: Says(init + [last], key, value) <==> Says(init, key, value) || LineOf(last) == Pair(key, value)
  {
    hide LineOf;
    var lines := init + [last];
    forall key, value ensures Says(lines, key, value) <==> Says(init, key, value) || LineOf(last) == Pair(key, value) {
      if Says(init, key, value) {
        var i :| 0 <= i < |init| && LineOf(init[i]) == Pair(key, value);
        assert lines[i] == init[i];
      }
      assert lines[|init|] == last;
    }
  }

  lemma TabledNext(m: map<string, string>, prefix: string, init: seq<string>, last: string, key: string, value: string)
    requires Tabled(m, prefix, init) && AllUnder(m, prefix) && AtMostOnce(init, prefix)
    requires LineOf(last) == Pair(key, value) && (prefix <= key ==> key !in m)
    ensures var next := Extended(m, prefix, key, value);
      Tabled(next, prefix, init + [last]) && AllUnder(next, prefix) && AtMostOnce(init + [last], prefix)
  {
    SaysNext(init, last);
    hide LineOf;
    var lines := init + [last];
    forall i, j | 0 <= i < j < |lines| && LineOf(lines[i]).Pair? && LineOf(lines[j]).Pair? && prefix <= LineOf(lines[i]).key
      ensures LineOf(lines[i]).key != LineOf(lines[j]).key
    {
      if j == |init| {
        assert Says(init, LineOf(init[i]).key, LineOf(init[i]).value);
      }
    }
  }

  lemma BlankNext(m: map<string, string>, prefix: string, init: seq<string>, last: string)
    requires Tabled(m, prefix, init) && AtMostOnce(init, prefix) && LineOf(last).Blank?
    ensures Tabled(m, prefix, init + [last]) && AtMostOnce(init + [last], prefix)
  {
    SaysNext(init, last);
    hide LineOf, Says;
  }

  lemma KnownNext(init: seq<string>, last: string)
    requires AllKnown(init) && (LineOf(last).Blank? || (LineOf(last).Pair? && Known(LineOf(last).key)))
    ensures AllKnown(init + [last])
  {
    hide LineOf, Known;
  }

  ghost predicate ReadAs(lines: seq<string>, s: Stream) {
    && Tabled(s.container, "container.", lines) && AllUnder(s.container, "container.") && AtMostOnce(lines, "container.")
    && Tabled(s.target, "target.", lines) && AllUnder(s.target, "target.") && AtMostOnce(lines, "target.")
    && AllNames(s.records) == NameLines(lines) && AllKnown(lines)
  }

  lemma NameLinesNext(init: seq<string>, last: string)
    ensures NameLines(init + [last]) == NameLines(init)
      + match LineOf(last)
        case Pair(key, value) => if key == "name" then [value] else []
        case _ => []
  {
    assert (init + [last])[..|init|] == init;
    hide LineOf;
  }

  /** A stream is read only if every line is known and no claim is repeated; the claims read are the ones the lines make. */
  lemma {:induction false} ReadSays(lines: seq<string>)
    requires ReadLines(EMPTY, lines).Some?
    ensures ReadAs(lines, ReadLines(EMPTY, lines).get)
  {
    if lines != [] {
      var init, last := lines[..|lines| - 1], lines[|lines| - 1];
      assert lines == init + [last];
      CertTmplEmission.ReadAppend(EMPTY, init, last);
      hide ReadLines, Apply, LineOf, Tabled, AllUnder, AtMostOnce, AllNames, NameLines, Known, AllKnown, Says, Extended;
      ReadSays(init);
      var s := ReadLines(EMPTY, init).get;
      NameLinesNext(init, last);
      if LineOf(last).Pair? {
        var (key, value) := (LineOf(last).key, LineOf(last).value);
        ApplyTables(s, key, value);
        TabledNext(s.container, "container.", init, last, key, value);
        TabledNext(s.target, "target.", init, last, key, value);
      } else {
        BlankNext(s.container, "container.", init, last);
        BlankNext(s.target, "target.", init, last);
      }
      KnownNext(init, last);
    }
  }

  // ----- names kept -----

  function Kept(names: seq<string>, keep: string -> bool): seq<string> {
    if names == [] then [] else (if keep(names[0]) then [names[0]] else []) + Kept(names[1..], keep)
  }

  function Named(): string -> bool {
    n => n != ""
  }

  function Other(fold: T.Fold, template: string): string -> bool {
    n => n != "" && fold(n) != fold(template)
  }

  function Target(fold: T.Fold, template: string): string -> bool {
    n => n != "" && fold(n) == fold(template)
  }

  lemma {:induction false} RecordNamesKept(records: seq<Rec>)
    ensures RecordNames(records) == Kept(AllNames(records), Named())
  {
    if records != [] {
      RecordNamesKept(records[1..]);
      assert AllNames(records)[1..] == AllNames(records[1..]);
      assert AllNames(records)[0] == records[0].name;
    }
  }

  lemma {:induction false} WithoutKept(fold: T.Fold, names: seq<string>, template: string)
    ensures Without(fold, Kept(names, Named()), fold(template)) == Kept(names, Other(fold, template))
  {
    if names != [] {
      WithoutKept(fold, names[1..], template);
      var (kept, rest) := (Kept(names, Named()), Kept(names[1..], Named()));
      if names[0] == "" {
        assert kept == rest;
      } else {
        assert kept == [names[0]] + rest && kept[1..] == rest;
      }
    }
  }

  lemma {:induction false} MatchesKept(fold: T.Fold, records: seq<Rec>, template: string)
    ensures AllNames(Matches(fold, records, fold(template))) == Kept(AllNames(records), Target(fold, template))
  {
    if records != [] {
      MatchesKept(fold, records[1..], template);
      assert AllNames(records)[1..] == AllNames(records[1..]);
      var rest := Matches(fold, records[1..], fold(template));
      assert AllNames([records[0]] + rest) == [records[0].name] + AllNames(rest);
    }
  }

  lemma {:induction false} UnnamedCount(names: seq<string>)
    ensures |names| - |Kept(names, Named())| == multiset(names)[""]
  {
    if names != [] {
      UnnamedCount(names[1..]);
      assert names == [names[0]] + names[1..];
    }
  }

  lemma OthersKept(fold: T.Fold, records: seq<Rec>, template: string)
    ensures Others(fold, records, template) == T.Sort(Kept(AllNames(records), Other(fold, template)))
  {
    OthersAreMembers(fold, records, template);
    WithoutSorted(fold, Names(records), fold(template));
    RecordNamesKept(records);
    WithoutKept(fold, AllNames(records), template);
    hide Without, RecordNames, T.Sort, Kept, AllNames, T.Sorted;
    T.SortedUnique(Others(fold, records, template), T.Sort(Kept(AllNames(records), Other(fold, template))));
  }

  // ----- what is accepted and published -----

  function HashOf(sha: T.Sha, names: seq<string>): string {
    sha(T.Join(T.Sort(names), '\n'))
  }

  ghost predicate SaysSome(lines: seq<string>, key: string) {
    exists value: string :: Says(lines, key, value)
  }

  ghost predicate SaysExactly(lines: seq<string>, key: string, means: string -> bool) {
    SaysSome(lines, key) && forall value: string :: Says(lines, key, value) ==> means(value)
  }

  function Equals(expected: string): string -> bool {
    value => value == expected
  }

  function IsFlag(): string -> bool {
    value => value == "0" || value == "1"
  }

  function Counted(toInt: ToInt, n: int): string -> bool {
    value => toInt(value) == Some(n)
  }

  /** The claims about the container agree with its name lines. */
  ghost predicate ContainerClaims(sha: T.Sha, fold: T.Fold, toInt: ToInt, lines: seq<string>, template: string) {
    var names := NameLines(lines);
    var (named, others) := (Kept(names, Named()), Kept(names, Other(fold, template)));
    && SaysExactly(lines, "container.present", IsFlag())
    && SaysExactly(lines, "container.object_count", Counted(toInt, |names|))
    && SaysExactly(lines, "container.unnamed_count", Counted(toInt, multiset(names)[""]))
    && SaysExactly(lines, "container.other_count", Counted(toInt, |others|))
    && SaysExactly(lines, "container.names_sha256", Equals(HashOf(sha, named)))
    && SaysExactly(lines, "container.other_names_sha256", Equals(HashOf(sha, others)))
    && T.Hex64(HashOf(sha, named)) && T.Hex64(HashOf(sha, others))
  }

  lemma TabledSays(m: map<string, string>, lines: seq<string>, prefix: string, key: string, means: string -> bool)
    requires Tabled(m, prefix, lines) && prefix <= key && key in m && means(m[key])
    ensures SaysExactly(lines, key, means)
  {
    hide Says;
    assert Says(lines, key, m[key]);
  }

  /** The same of the claims as read. */
  ghost predicate ClaimsHold(sha: T.Sha, fold: T.Fold, toInt: ToInt, names: seq<string>, m: map<string, string>, template: string) {
    var (named, others) := (Kept(names, Named()), Kept(names, Other(fold, template)));
    && "container.present" in m && Flag(m["container.present"]).Some?
    && "container.object_count" in m && Counts(toInt, m["container.object_count"], |names|)
    && "container.unnamed_count" in m && Counts(toInt, m["container.unnamed_count"], multiset(names)[""])
    && "container.other_count" in m && Counts(toInt, m["container.other_count"], |others|)
    && "container.names_sha256" in m && m["container.names_sha256"] == HashOf(sha, named)
    && "container.other_names_sha256" in m && m["container.other_names_sha256"] == HashOf(sha, others)
    && T.Hex64(HashOf(sha, named)) && T.Hex64(HashOf(sha, others))
  }

  lemma ContainerHolds(sha: T.Sha, fold: T.Fold, toInt: ToInt, s: Stream, template: string)
    requires ContainerOk(sha, fold, toInt, s, template)
    ensures ClaimsHold(sha, fold, toInt, AllNames(s.records), s.container, template)
  {
    hide ContainerOk;
    CountsHold(sha, fold, toInt, s, template);
    DigestsHold(sha, fold, toInt, s, template);
    hide Others, Names, T.Hex64, Kept, AllNames, Digest, HashOf, Named, Other, CONTAINER_KEYS, Flag, Counts;
  }

  lemma CountsHold(sha: T.Sha, fold: T.Fold, toInt: ToInt, s: Stream, template: string)
    requires ContainerOk(sha, fold, toInt, s, template)
    ensures
      var (m, names) := (s.container, AllNames(s.records));
      && "container.present" in m && Flag(m["container.present"]).Some?
      && "container.object_count" in m && Counts(toInt, m["container.object_count"], |names|)
      && "container.unnamed_count" in m && Counts(toInt, m["container.unnamed_count"], multiset(names)[""])
      && "container.other_count" in m && Counts(toInt, m["container.other_count"], |Kept(names, Other(fold, template))|)
  {
    Recomputed(sha, fold, s.records, template);
    ContainerKeys(s.container);
    hide Others, Names, T.Hex64, Kept, AllNames, Digest, HashOf, Named, Other, CONTAINER_KEYS, Flag, Counts;
  }

  lemma DigestsHold(sha: T.Sha, fold: T.Fold, toInt: ToInt, s: Stream, template: string)
    requires ContainerOk(sha, fold, toInt, s, template)
    ensures
      var (m, names) := (s.container, AllNames(s.records));
      var (named, others) := (Kept(names, Named()), Kept(names, Other(fold, template)));
      && "container.names_sha256" in m && m["container.names_sha256"] == HashOf(sha, named)
      && "container.other_names_sha256" in m && m["container.other_names_sha256"] == HashOf(sha, others)
      && T.Hex64(HashOf(sha, named)) && T.Hex64(HashOf(sha, others))
  {
    Recomputed(sha, fold, s.records, template);
    ContainerKeys(s.container);
    hide Others, Names, T.Hex64, Kept, AllNames, Digest, HashOf, Named, Other, CONTAINER_KEYS, Flag, Counts;
  }

  lemma ContainerKeys(m: map<string, string>)
    requires m.Keys == CONTAINER_KEYS
    ensures "container.present" in m && "container.object_count" in m && "container.unnamed_count" in m && "container.other_count" in m
    ensures "container.names_sha256" in m && "container.other_names_sha256" in m
  {
  }

  /** What is recomputed from the records depends on their names alone. */
  lemma Recomputed(sha: T.Sha, fold: T.Fold, records: seq<Rec>, template: string)
    ensures |records| == |AllNames(records)|
    ensures |records| - |Names(records)| == multiset(AllNames(records))[""]
    ensures |Others(fold, records, template)| == |Kept(AllNames(records), Other(fold, template))|
    ensures Digest(sha, Names(records)) == HashOf(sha, Kept(AllNames(records), Named()))
    ensures Digest(sha, Others(fold, records, template)) == HashOf(sha, Kept(AllNames(records), Other(fold, template)))
  {
    OthersKept(fold, records, template);
    RecordNamesKept(records);
    UnnamedCount(AllNames(records));
    SameSize(RecordNames(records));
    SameSize(Kept(AllNames(records), Other(fold, template)));
    hide Others, Kept, RecordNames, T.Sort, T.Join, Named, Other;
  }

  lemma SameSize(names: seq<string>)
    ensures |T.Sort(names)| == |names|
  {
    assert |multiset(T.Sort(names))| == |multiset(names)|;
  }

  lemma ContainerSays(sha: T.Sha, fold: T.Fold, toInt: ToInt, lines: seq<string>, m: map<string, string>, template: string)
    requires Tabled(m, "container.", lines) && ClaimsHold(sha, fold, toInt, NameLines(lines), m, template)
    ensures ContainerClaims(sha, fold, toInt, lines, template)
  {
    hide Tabled, T.Hex64, NameLines, Kept, SaysExactly, HashOf, Named, Other;
    var names := NameLines(lines);
    var (named, others) := (Kept(names, Named()), Kept(names, Other(fold, template)));
    TabledSays(m, lines, "container.", "container.present", IsFlag());
    TabledSays(m, lines, "container.", "container.object_count", Counted(toInt, |names|));
    TabledSays(m, lines, "container.", "container.unnamed_count", Counted(toInt, multiset(names)[""]));
    TabledSays(m, lines, "container.", "container.other_count", Counted(toInt, |others|));
    TabledSays(m, lines, "container.", "container.names_sha256", Equals(HashOf(sha, named)));
    TabledSays(m, lines, "container.", "container.other_names_sha256", Equals(HashOf(sha, others)));
  }

  function PublishedText(f: Facts, key: string): string -> bool {
    value => key in f && f[key] == VStr(value)
  }

  function PublishedInt(toInt: ToInt, f: Facts, key: string): string -> bool {
    value => key in f && if value == "" then f[key] == VStr("") else toInt(value).Some? && f[key] == VInt(toInt(value).get)
  }

  /** An interval in a fact is the magnitude of the negative one in the value. */
  function PublishedInterval(f: Facts, key: string): string -> bool {
    value => key in f &&
      if value == "" then f[key] == VStr("")
      else f[key].VInt? && 1 <= f[key].n <= TWO_63 && value == Bytes(TWO_64 - f[key].n, 8)
  }

  predicate Includes(f: Facts, part: Facts) {
    forall key :: key in part ==> key in f && f[key] == part[key]
  }

  predicate Missing(f: Facts, key: string) {
    key in f && f[key] == VStr("")
  }

  /** The target claims repeat the one template of that name, and are what is published; or there is none to publish. */
  ghost predicate TargetClaims(fold: T.Fold, toInt: ToInt, lines: seq<string>, template: string, f: Facts) {
    var inside := Kept(NameLines(lines), Target(fold, template));
    && "certtmpl.target.present" in f && f["certtmpl.target.present"] == VBool(inside != [])
    && if inside == [] then
      && SaysExactly(lines, "target.present", Equals("0"))
      && (forall key: string, value: string :: Says(lines, key, value) && "target." <= key ==> key == "target.present")
      && Missing(f, "certtmpl.target.name") && Missing(f, "certtmpl.target.sddl_sha256")
      && Missing(f, "certtmpl.target.expiration_100ns") && Missing(f, "certtmpl.target.overlap_100ns")
      && Missing(f, "certtmpl.target.schema_version") && Missing(f, "certtmpl.target.cert_name_flag")
      && Missing(f, "certtmpl.target.key_flag") && Missing(f, "certtmpl.target.sddl_len")
    else
      && |inside| == 1
      && SaysExactly(lines, "target.present", Equals("1"))
      && SaysExactly(lines, "target.name", Equals(inside[0]))
      && SaysExactly(lines, "target.name", PublishedText(f, "certtmpl.target.name"))
      && SaysExactly(lines, "target.sddl_sha256", PublishedText(f, "certtmpl.target.sddl_sha256"))
      && SaysExactly(lines, "target.expiration_period", PublishedInterval(f, "certtmpl.target.expiration_100ns"))
      && SaysExactly(lines, "target.overlap_period", PublishedInterval(f, "certtmpl.target.overlap_100ns"))
      && SaysExactly(lines, "target.schema_version", PublishedInt(toInt, f, "certtmpl.target.schema_version"))
      && SaysExactly(lines, "target.cert_name_flag", PublishedInt(toInt, f, "certtmpl.target.cert_name_flag"))
      && SaysExactly(lines, "target.key_flag", PublishedInt(toInt, f, "certtmpl.target.key_flag"))
      && SaysExactly(lines, "target.sddl_len", PublishedInt(toInt, f, "certtmpl.target.sddl_len"))
  }

  lemma IntervalPublished(value: string, f: Facts, key: string)
    requires Duration100ns(value) != Malformed && key in f && f[key] == DurationOrEmpty(value)
    ensures PublishedInterval(f, key)(value)
  {
    hide Duration100ns;
    var n := if Duration100ns(value).Units? then Duration100ns(value).n else 0;
    DurationExactly(value, n);
  }

  lemma IntPublished(toInt: ToInt, value: string, f: Facts, key: string)
    requires (value == "" || toInt(value).Some?) && key in f && f[key] == IntOrEmpty(toInt, value)
    ensures PublishedInt(toInt, f, key)(value)
  {
  }

  /** What is demanded of a named record: all seven attributes, four of them integers, two intervals and one digest. */
  predicate RecordHolds(toInt: ToInt, r: Rec) {
    && Full(r.attrs) && T.Hex64(r.attrs["sddl_sha256"])
    && Duration100ns(r.attrs["expiration_period"]) != Malformed && Duration100ns(r.attrs["overlap_period"]) != Malformed
    && Integral(toInt, r.attrs["schema_version"]) && Integral(toInt, r.attrs["cert_name_flag"])
    && Integral(toInt, r.attrs["key_flag"]) && Integral(toInt, r.attrs["sddl_len"])
  }

  predicate Integral(toInt: ToInt, value: string) {
    value == "" || toInt(value).Some?
  }

  lemma RecordMeans(toInt: ToInt, r: Rec)
    requires RecordOk(toInt, r)
    ensures if r.name == "" then r.attrs == map[] else RecordHolds(toInt, r)
  {
    hide Duration100ns, T.Hex64;
    if r.name != "" {
      assert IsInteger("schema_version") && IsInteger("cert_name_flag") && IsInteger("key_flag") && IsInteger("sddl_len");
      assert IsDuration("expiration_period") && IsDuration("overlap_period");
      hide IsInteger, IsDuration;
    }
  }

  predicate LinesOf(t: map<string, string>, r: Rec)
    requires Full(r.attrs)
  {
    && "target.present" in t && t["target.present"] == "1"
    && "target.name" in t && t["target.name"] == r.name
    && "target.expiration_period" in t && t["target.expiration_period"] == r.attrs["expiration_period"]
    && "target.overlap_period" in t && t["target.overlap_period"] == r.attrs["overlap_period"]
    && "target.schema_version" in t && t["target.schema_version"] == r.attrs["schema_version"]
    && "target.cert_name_flag" in t && t["target.cert_name_flag"] == r.attrs["cert_name_flag"]
    && "target.key_flag" in t && t["target.key_flag"] == r.attrs["key_flag"]
    && "target.sddl_len" in t && t["target.sddl_len"] == r.attrs["sddl_len"]
    && "target.sddl_sha256" in t && t["target.sddl_sha256"] == r.attrs["sddl_sha256"]
  }

  lemma TargetLinesOf(r: Rec)
    requires Full(r.attrs)
    ensures LinesOf(TargetLines(r), r)
  {
  }

  lemma FactsOfTarget(toInt: ToInt, r: Rec, f: Facts)
    requires RecordHolds(toInt, r) && Includes(f, TargetFacts(toInt, Some(r)))
    ensures "certtmpl.target.present" in f && f["certtmpl.target.present"] == VBool(true)
    ensures PublishedText(f, "certtmpl.target.name")(r.name)
    ensures PublishedText(f, "certtmpl.target.sddl_sha256")(r.attrs["sddl_sha256"])
    ensures PublishedInterval(f, "certtmpl.target.expiration_100ns")(r.attrs["expiration_period"])
    ensures PublishedInterval(f, "certtmpl.target.overlap_100ns")(r.attrs["overlap_period"])
    ensures PublishedInt(toInt, f, "certtmpl.target.schema_version")(r.attrs["schema_version"])
    ensures PublishedInt(toInt, f, "certtmpl.target.cert_name_flag")(r.attrs["cert_name_flag"])
    ensures PublishedInt(toInt, f, "certtmpl.target.key_flag")(r.attrs["key_flag"])
    ensures PublishedInt(toInt, f, "certtmpl.target.sddl_len")(r.attrs["sddl_len"])
  {
    TargetFactsAt(toInt, r, f);
    hide T.Hex64, Duration100ns, DurationOrEmpty, IntOrEmpty, PublishedInterval, PublishedInt, Includes, TargetFacts;
    IntervalPublished(r.attrs["expiration_period"], f, "certtmpl.target.expiration_100ns");
    IntervalPublished(r.attrs["overlap_period"], f, "certtmpl.target.overlap_100ns");
    IntPublished(toInt, r.attrs["schema_version"], f, "certtmpl.target.schema_version");
    IntPublished(toInt, r.attrs["cert_name_flag"], f, "certtmpl.target.cert_name_flag");
    IntPublished(toInt, r.attrs["key_flag"], f, "certtmpl.target.key_flag");
    IntPublished(toInt, r.attrs["sddl_len"], f, "certtmpl.target.sddl_len");
  }

  lemma TargetFactsAt(toInt: ToInt, r: Rec, f: Facts)
    requires Full(r.attrs) && Includes(f, TargetFacts(toInt, Some(r)))
    ensures
      && "certtmpl.target.present" in f && f["certtmpl.target.present"] == VBool(true)
      && "certtmpl.target.name" in f && f["certtmpl.target.name"] == VStr(r.name)
      && "certtmpl.target.sddl_sha256" in f && f["certtmpl.target.sddl_sha256"] == VStr(r.attrs["sddl_sha256"])
      && "certtmpl.target.expiration_100ns" in f && f["certtmpl.target.expiration_100ns"] == DurationOrEmpty(r.attrs["expiration_period"])
      && "certtmpl.target.overlap_100ns" in f && f["certtmpl.target.overlap_100ns"] == DurationOrEmpty(r.attrs["overlap_period"])
      && "certtmpl.target.schema_version" in f && f["certtmpl.target.schema_version"] == IntOrEmpty(toInt, r.attrs["schema_version"])
      && "certtmpl.target.cert_name_flag" in f && f["certtmpl.target.cert_name_flag"] == IntOrEmpty(toInt, r.attrs["cert_name_flag"])
      && "certtmpl.target.key_flag" in f && f["certtmpl.target.key_flag"] == IntOrEmpty(toInt, r.attrs["key_flag"])
      && "certtmpl.target.sddl_len" in f && f["certtmpl.target.sddl_len"] == IntOrEmpty(toInt, r.attrs["sddl_len"])
  {
    hide DurationOrEmpty, IntOrEmpty;
    var t := TargetFacts(toInt, Some(r));
    assert "certtmpl.target.present" in t && "certtmpl.target.name" in t && "certtmpl.target.sddl_sha256" in t;
    assert "certtmpl.target.expiration_100ns" in t && "certtmpl.target.overlap_100ns" in t && "certtmpl.target.schema_version" in t;
    assert "certtmpl.target.cert_name_flag" in t && "certtmpl.target.key_flag" in t && "certtmpl.target.sddl_len" in t;
  }

  lemma OneTarget(toInt: ToInt, lines: seq<string>, r: Rec, f: Facts)
    requires RecordHolds(toInt, r) && Tabled(TargetLines(r), "target.", lines) && Includes(f, TargetFacts(toInt, Some(r)))
    ensures "certtmpl.target.present" in f && f["certtmpl.target.present"] == VBool(true)
    ensures SaysExactly(lines, "target.present", Equals("1"))
    ensures SaysExactly(lines, "target.name", Equals(r.name))
    ensures SaysExactly(lines, "target.name", PublishedText(f, "certtmpl.target.name"))
    ensures SaysExactly(lines, "target.sddl_sha256", PublishedText(f, "certtmpl.target.sddl_sha256"))
    ensures SaysExactly(lines, "target.expiration_period", PublishedInterval(f, "certtmpl.target.expiration_100ns"))
    ensures SaysExactly(lines, "target.overlap_period", PublishedInterval(f, "certtmpl.target.overlap_100ns"))
    ensures SaysExactly(lines, "target.schema_version", PublishedInt(toInt, f, "certtmpl.target.schema_version"))
    ensures SaysExactly(lines, "target.cert_name_flag", PublishedInt(toInt, f, "certtmpl.target.cert_name_flag"))
    ensures SaysExactly(lines, "target.key_flag", PublishedInt(toInt, f, "certtmpl.target.key_flag"))
    ensures SaysExactly(lines, "target.sddl_len", PublishedInt(toInt, f, "certtmpl.target.sddl_len"))
  {
    var t := TargetLines(r);
    TargetLinesOf(r);
    FactsOfTarget(toInt, r, f);
    assert Full(r.attrs);
    hide Tabled, SaysExactly, RecordHolds, TargetLines, TargetFacts, PublishedText, PublishedInterval, PublishedInt;
    TabledSays(t, lines, "target.", "target.present", Equals("1"));
    TabledSays(t, lines, "target.", "target.name", Equals(r.name));
    TabledSays(t, lines, "target.", "target.name", PublishedText(f, "certtmpl.target.name"));
    TabledSays(t, lines, "target.", "target.sddl_sha256", PublishedText(f, "certtmpl.target.sddl_sha256"));
    TabledSays(t, lines, "target.", "target.expiration_period", PublishedInterval(f, "certtmpl.target.expiration_100ns"));
    TabledSays(t, lines, "target.", "target.overlap_period", PublishedInterval(f, "certtmpl.target.overlap_100ns"));
    TabledSays(t, lines, "target.", "target.schema_version", PublishedInt(toInt, f, "certtmpl.target.schema_version"));
    TabledSays(t, lines, "target.", "target.cert_name_flag", PublishedInt(toInt, f, "certtmpl.target.cert_name_flag"));
    TabledSays(t, lines, "target.", "target.key_flag", PublishedInt(toInt, f, "certtmpl.target.key_flag"));
    TabledSays(t, lines, "target.", "target.sddl_len", PublishedInt(toInt, f, "certtmpl.target.sddl_len"));
  }

  lemma NoTarget(toInt: ToInt, lines: seq<string>, t: map<string, string>, f: Facts)
    requires t == map["target.present" := "0"] && Tabled(t, "target.", lines) && Includes(f, TargetFacts(toInt, None))
    ensures SaysExactly(lines, "target.present", Equals("0"))
    ensures forall key: string, value: string :: Says(lines, key, value) && "target." <= key ==> key == "target.present"
    ensures "certtmpl.target.present" in f && f["certtmpl.target.present"] == VBool(false)
    ensures Missing(f, "certtmpl.target.name") && Missing(f, "certtmpl.target.sddl_sha256")
    ensures Missing(f, "certtmpl.target.expiration_100ns") && Missing(f, "certtmpl.target.overlap_100ns")
    ensures Missing(f, "certtmpl.target.schema_version") && Missing(f, "certtmpl.target.cert_name_flag")
    ensures Missing(f, "certtmpl.target.key_flag") && Missing(f, "certtmpl.target.sddl_len")
  {
    NothingPublished(toInt, f);
    hide Says, TargetFacts, Includes, Missing;
    TabledSays(t, lines, "target.", "target.present", Equals("0"));
  }

  lemma NothingPublished(toInt: ToInt, f: Facts)
    requires Includes(f, TargetFacts(toInt, None))
    ensures "certtmpl.target.present" in f && f["certtmpl.target.present"] == VBool(false)
    ensures Missing(f, "certtmpl.target.name") && Missing(f, "certtmpl.target.sddl_sha256")
    ensures Missing(f, "certtmpl.target.expiration_100ns") && Missing(f, "certtmpl.target.overlap_100ns")
    ensures Missing(f, "certtmpl.target.schema_version") && Missing(f, "certtmpl.target.cert_name_flag")
    ensures Missing(f, "certtmpl.target.key_flag") && Missing(f, "certtmpl.target.sddl_len")
  {
    var t := TargetFacts(toInt, None);
    assert "certtmpl.target.present" in t && "certtmpl.target.name" in t && "certtmpl.target.sddl_sha256" in t;
    assert "certtmpl.target.expiration_100ns" in t && "certtmpl.target.overlap_100ns" in t && "certtmpl.target.schema_version" in t;
    assert "certtmpl.target.cert_name_flag" in t && "certtmpl.target.key_flag" in t && "certtmpl.target.sddl_len" in t;
  }

  lemma TargetSays(fold: T.Fold, toInt: ToInt, lines: seq<string>, s: Stream, template: string, f: Facts)
    requires RecordsOk(toInt, s.records) && TargetOk(fold, s, template)
    requires Tabled(s.target, "target.", lines) && AllNames(s.records) == NameLines(lines)
    requires Includes(f, TargetFacts(toInt, TheTarget(fold, toInt, s.records, template)))
    ensures TargetClaims(fold, toInt, lines, template, f)
  {
    TheOne(fold, toInt, s, template);
    var found := TheTarget(fold, toInt, s.records, template);
    hide RecordsOk, TargetOk, TheTarget, Tabled, Kept, NameLines, AllNames, TargetFacts, Missing, SaysExactly, Includes, Says, RecordHolds,
      TargetLines, Equals, PublishedText, PublishedInt, PublishedInterval;
    if found == None {
      NoTarget(toInt, lines, s.target, f);
    } else {
      OneTarget(toInt, lines, found.get, f);
    }
  }

  lemma TheOne(fold: T.Fold, toInt: ToInt, s: Stream, template: string)
    requires RecordsOk(toInt, s.records) && TargetOk(fold, s, template)
    ensures
      var (found, inside) := (TheTarget(fold, toInt, s.records, template), Kept(AllNames(s.records), Target(fold, template)));
      if found == None then inside == [] && s.target == map["target.present" := "0"]
      else inside == [found.get.name] && RecordHolds(toInt, found.get) && s.target == TargetLines(found.get)
  {
    var found := Matches(fold, s.records, fold(template));
    MatchesKept(fold, s.records, template);
    MatchesAreRecords(fold, s.records, fold(template));
    hide Matches, Kept, TargetLines, RecordOk, RecordHolds;
    if found != [] {
      assert found[0] in s.records && AllNames(found) == [found[0].name];
      RecordMeans(toInt, found[0]);
    }
  }

  /** The one record that has the observed name. */
  function TheTarget(fold: T.Fold, toInt: ToInt, records: seq<Rec>, template: string): (r: Option<Rec>)
    requires RecordsOk(toInt, records)
    ensures r.Some? ==> Full(r.get.attrs)
  {
    var found := Matches(fold, records, fold(template));
    MatchesAreRecords(fold, records, fold(template));
    if found == [] then None else
      assert found[0] in records;
      Some(found[0])
  }

  predicate ContainerPublished(sha: T.Sha, fold: T.Fold, names: seq<string>, template: string, f: Facts) {
    var (named, others) := (Kept(names, Named()), Kept(names, Other(fold, template)));
    && "certtmpl.container.object_count" in f && f["certtmpl.container.object_count"] == VInt(|names|)
    && "certtmpl.container.unnamed_count" in f && f["certtmpl.container.unnamed_count"] == VInt(multiset(names)[""])
    && "certtmpl.container.other_count" in f && f["certtmpl.container.other_count"] == VInt(|others|)
    && "certtmpl.container.names_sha256" in f && f["certtmpl.container.names_sha256"] == VStr(HashOf(sha, named))
    && "certtmpl.container.other_names_sha256" in f && f["certtmpl.container.other_names_sha256"] == VStr(HashOf(sha, others))
  }

  lemma FactParts(sha: T.Sha, fold: T.Fold, toInt: ToInt, records: seq<Rec>, present: bool, template: string)
    requires RecordsOk(toInt, records)
    ensures var f := FactsOf(sha, fold, toInt, records, present, template);
      && "certtmpl.container.present" in f && f["certtmpl.container.present"] == VBool(present)
      && ContainerPublished(sha, fold, AllNames(records), template, f)
      && Includes(f, TargetFacts(toInt, TheTarget(fold, toInt, records, template)))
  {
    ContainerPart(sha, fold, records, present, template, FactsOf(sha, fold, toInt, records, present, template)) by {
      DisjointParts(sha, fold, toInt, records, present, template);
      hide ContainerFacts, TargetFacts, RecordsOk, Matches;
    }
    hide RecordsOk, Matches, ContainerFacts, TargetFacts, ContainerPublished;
  }

  lemma DisjointParts(sha: T.Sha, fold: T.Fold, toInt: ToInt, records: seq<Rec>, present: bool, template: string)
    requires RecordsOk(toInt, records)
    ensures TargetFacts(toInt, TheTarget(fold, toInt, records, template)).Keys !! ContainerFacts(sha, fold, records, present, template).Keys
  {
    hide RecordsOk, Matches, Names, Others, Digest, IntOrEmpty, DurationOrEmpty, TheTarget;
  }

  lemma ContainerPart(sha: T.Sha, fold: T.Fold, records: seq<Rec>, present: bool, template: string, f: Facts)
    requires Includes(f, ContainerFacts(sha, fold, records, present, template))
    ensures "certtmpl.container.present" in f && f["certtmpl.container.present"] == VBool(present)
    ensures ContainerPublished(sha, fold, AllNames(records), template, f)
  {
    Recomputed(sha, fold, records, template);
    hide Names, Others, Kept, Named, Other, AllNames, Digest, HashOf;
    var t := ContainerFacts(sha, fold, records, present, template);
    assert "certtmpl.container.present" in t && "certtmpl.container.object_count" in t && "certtmpl.container.unnamed_count" in t;
    assert "certtmpl.container.other_count" in t && "certtmpl.container.names_sha256" in t && "certtmpl.container.other_names_sha256" in t;
  }

  /**
   An observation succeeds only if every line is known, no claim is repeated and all claims agree with the name lines and
   records; what it publishes is what the lines claim.
   */
  lemma {:induction false} AcceptedClaims(sha: T.Sha, fold: T.Fold, toInt: ToInt, lines: seq<string>, template: string)
    requires Observe(sha, fold, toInt, lines, template).Some?
    ensures template != "" && AllKnown(lines) && AtMostOnce(lines, "container.") && AtMostOnce(lines, "target.")
    ensures var f := Observe(sha, fold, toInt, lines, template).get;
      && ContainerClaims(sha, fold, toInt, lines, template)
      && "certtmpl.container.present" in f && f["certtmpl.container.present"] == VBool(Says(lines, "container.present", "1"))
      && ContainerPublished(sha, fold, NameLines(lines), template, f)
      && TargetClaims(fold, toInt, lines, template, f)
  {
    var s := ReadLines(EMPTY, lines).get;
    hide ReadLines, RecordsOk, ContainerOk, TargetOk, FactsOf, ContainerClaims, TargetClaims, ContainerPublished, AllKnown, AtMostOnce,
      Tabled, Says, AllNames, NameLines, ClaimsHold, Includes, TargetFacts;
    ReadSays(lines);
    ContainerHolds(sha, fold, toInt, s, template);
    ContainerSays(sha, fold, toInt, lines, s.container, template);
    AcceptedHasFlag(sha, fold, toInt, s, template);
    var present := Flag(s.container["container.present"]).get;
    FactParts(sha, fold, toInt, s.records, present, template);
    TargetSays(fold, toInt, lines, s, template, FactsOf(sha, fold, toInt, s.records, present, template));
    PresentSaid(lines, s.container, present);
  }

  lemma PresentSaid(lines: seq<string>, m: map<string, string>, present: bool)
    requires Tabled(m, "container.", lines) && "container.present" in m && Flag(m["container.present"]) == Some(present)
    ensures Says(lines, "container.present", "1") <==> present
  {
    hide Says;
  }
}
