/**
 The certificate-template observation: a stream of `key=value` lines becomes facts only if everything the guest claims about
 its records can be recomputed from them. `sha` is the hexadecimal SHA-256 of a text, `fold` case folding, and `toInt`
 Python's `int` on a text (`None` where it raises).
 */
module CertTmpl {
  import opened Options
  import opened Values
  import T = Text

  type ToInt = string -> Option<int>

  const ATTRS := ["expiration_period", "overlap_period", "schema_version", "cert_name_flag", "key_flag", "sddl_len", "sddl_sha256"]

  const ATTR_KEYS :=
    {"expiration_period", "overlap_period", "schema_version", "cert_name_flag", "key_flag", "sddl_len", "sddl_sha256"}

  predicate Full(attrs: map<string, string>) {
    attrs.Keys == ATTR_KEYS
  }

  predicate IsAttr(key: string) {
    key in ATTR_KEYS
  }

  predicate IsInteger(attr: string) {
    attr == "schema_version" || attr == "cert_name_flag" || attr == "key_flag" || attr == "sddl_len"
  }

  predicate IsDuration(attr: string) {
    attr == "expiration_period" || attr == "overlap_period"
  }

  const CONTAINER_KEYS := {
    "container.present", "container.object_count", "container.names_sha256", "container.other_names_sha256",
    "container.other_count", "container.unnamed_count"}

  // ----- durations -----

  function HexDigit(c: char): Option<nat> {
    if '0' <= c <= '9' then Some(c as int - '0' as int) else if 'A' <= c <= 'F' then Some(c as int - 'A' as int + 10) else None
  }

  predicate UpperHex(s: string) {
    forall i :: 0 <= i < |s| ==> HexDigit(s[i]).Some?
  }

  /** The little-endian number a run of byte pairs spells. */
  function LittleEndian(s: string): nat
    requires |s| % 2 == 0 && UpperHex(s)
  {
    if s == "" then 0
    else
      assert HexDigit(s[0]).Some? && HexDigit(s[1]).Some?;
      assert forall i :: 0 <= i < |s| - 2 ==> s[2..][i] == s[i + 2];
      HexDigit(s[0]).get * 16 + HexDigit(s[1]).get + 256 * LittleEndian(s[2..])
  }

  datatype Duration = Absent | Units(n: int) | Malformed

  const TWO_63 := 0x8000_0000_0000_0000
  const TWO_64 := 0x1_0000_0000_0000_0000

  /** Eight little-endian bytes of a negative interval, as its magnitude; empty is absent, anything else refuses. */
  function Duration100ns(value: string): Duration {
    if value == "" then Absent
    else if |value| != 16 || !UpperHex(value) then Malformed
    else
      var n := LittleEndian(value);
      var raw := if n >= TWO_63 then n - TWO_64 else n;
      if raw >= 0 then Malformed else Units(-raw)
  }

  function UpperDigit(d: nat): char
    requires d < 16
  {
    if d < 10 then '0' + d as char else 'A' + (d - 10) as char
  }

  /** `n` in `bytes` little-endian bytes. */
  function Bytes(n: nat, bytes: nat): (r: string)
    ensures |r| == 2 * bytes && UpperHex(r)
  {
    if bytes == 0 then ""
    else [UpperDigit(n / 16 % 16), UpperDigit(n % 16)] + Bytes(n / 256, bytes - 1)
  }

  function Power256(k: nat): nat {
    if k == 0 then 1 else 256 * Power256(k - 1)
  }

  lemma {:induction false} BytesRead(n: nat, bytes: nat)
    requires n < Power256(bytes)
    ensures LittleEndian(Bytes(n, bytes)) == n
  {
    if bytes > 0 {
      BytesRead(n / 256, bytes - 1);
      var s := Bytes(n, bytes);
      assert s[2..] == Bytes(n / 256, bytes - 1);
      assert HexDigit(s[0]) == Some(n / 16 % 16) && HexDigit(s[1]) == Some(n % 16);
      TwoDigits(n);
    }
  }

  lemma {:induction false} TwoDigits(n: nat)
    ensures n / 16 % 16 * 16 + n % 16 + 256 * (n / 256) == n
  {
    assert n / 16 / 16 == n / 256;
    assert n / 16 == 16 * (n / 16 / 16) + n / 16 % 16;
  }

  lemma {:induction false} EightBytes()
    ensures Power256(8) == TWO_64
  {
    assert Power256(4) == 0x1_0000_0000;
    assert Power256(6) == 0x1_0000_0000_0000;
  }

  /** Every interval the directory can store as eight negative bytes is published as its magnitude. */
  lemma {:induction false} DurationRoundTrip(n: nat)
    requires 1 <= n <= TWO_63
    ensures Duration100ns(Bytes(TWO_64 - n, 8)) == Units(n)
  {
    EightBytes();
    BytesRead(TWO_64 - n, 8);
    hide Bytes, LittleEndian, UpperHex, Power256;
  }

  // ----- reading the stream -----

  datatype Rec = Rec(name: string, attrs: map<string, string>)

  datatype Stream = Stream(records: seq<Rec>, container: map<string, string>, target: map<string, string>)

  const EMPTY := Stream([], map[], map[])

  datatype Line = Blank | Pair(key: string, value: string) | NotAPair

  /** A line without its trailing CR and LF characters. */
  function Chomp(raw: string): string
    decreases |raw|
  {
    if raw != "" && (raw[|raw| - 1] == '\r' || raw[|raw| - 1] == '\n') then Chomp(raw[..|raw| - 1]) else raw
  }

  function LineOf(raw: string): Line {
    var line := Chomp(raw);
    if line == "" then Blank
    else
      var eq := T.Find(line, '=', 0);
      if eq < 0 then NotAPair else Pair(line[..eq], line[eq + 1..])
  }

  function Fresh(m: map<string, string>, key: string, value: string): Option<map<string, string>> {
    if key in m then None else Some(m[key := value])
  }

  /** One `key=value` line; `None` where the observation refuses. */
  function Apply(s: Stream, key: string, value: string): Option<Stream> {
    if key == "error" then None
    else if key == "name" then Some(s.(records := s.records + [Rec(value, map[])]))
    else if IsAttr(key) then
      if s.records == [] then None
      else
        var last := s.records[|s.records| - 1];
        var attrs := Fresh(last.attrs, key, value);
        if attrs.None? then None else Some(s.(records := s.records[|s.records| - 1 := last.(attrs := attrs.get)]))
    else if "target." <= key then
      var target := Fresh(s.target, key, value);
      if target.None? then None else Some(s.(target := target.get))
    else if "container." <= key then
      var container := Fresh(s.container, key, value);
      if container.None? then None else Some(s.(container := container.get))
    else None
  }

  function ReadLine(s: Stream, raw: string): Option<Stream> {
    match LineOf(raw)
    case Blank => Some(s)
    case NotAPair => None
    case Pair(key, value) => Apply(s, key, value)
  }

  function ReadLines(s: Stream, lines: seq<string>): Option<Stream>
    decreases lines
  {
    if lines == [] then Some(s)
    else
      var next := ReadLine(s, lines[0]);
      if next.None? then None else ReadLines(next.get, lines[1..])
  }

  // ----- what the records recompute to -----

  predicate RecordOk(toInt: ToInt, r: Rec) {
    if r.name == "" then r.attrs == map[]
    else
      && Full(r.attrs)
      && (forall key :: key in r.attrs && IsInteger(key) ==> r.attrs[key] == "" || toInt(r.attrs[key]).Some?)
      && (forall key :: key in r.attrs && IsDuration(key) ==> Duration100ns(r.attrs[key]) != Malformed)
      && T.Hex64(r.attrs["sddl_sha256"])
  }

  function RecordNames(records: seq<Rec>): seq<string> {
    if records == [] then []
    else (if records[0].name == "" then [] else [records[0].name]) + RecordNames(records[1..])
  }

  function Names(records: seq<Rec>): seq<string> {
    T.Sort(RecordNames(records))
  }

  function Without(fold: T.Fold, names: seq<string>, folded: string): seq<string> {
    if names == [] then []
    else (if fold(names[0]) == folded then [] else [names[0]]) + Without(fold, names[1..], folded)
  }

  function Others(fold: T.Fold, records: seq<Rec>, template: string): seq<string> {
    Without(fold, Names(records), fold(template))
  }

  function Matches(fold: T.Fold, records: seq<Rec>, folded: string): seq<Rec> {
    if records == [] then []
    else
      (if records[0].name != "" && fold(records[0].name) == folded then [records[0]] else []) + Matches(fold, records[1..], folded)
  }

  function Digest(sha: T.Sha, names: seq<string>): string {
    sha(T.Join(names, '\n'))
  }

  function Flag(value: string): Option<bool> {
    if value == "1" then Some(true) else if value == "0" then Some(false) else None
  }

  predicate Counts(toInt: ToInt, value: string, n: int) {
    toInt(value) == Some(n)
  }

  predicate ContainerOk(sha: T.Sha, fold: T.Fold, toInt: ToInt, s: Stream, template: string) {
    s.container.Keys == CONTAINER_KEYS
    && Flag(s.container["container.present"]).Some?
    && Counts(toInt, s.container["container.object_count"], |s.records|)
    && Counts(toInt, s.container["container.other_count"], |Others(fold, s.records, template)|)
    && Counts(toInt, s.container["container.unnamed_count"], |s.records| - |Names(s.records)|)
    && T.Hex64(s.container["container.names_sha256"])
    && T.Hex64(s.container["container.other_names_sha256"])
    && s.container["container.names_sha256"] == Digest(sha, Names(s.records))
    && s.container["container.other_names_sha256"] == Digest(sha, Others(fold, s.records, template))
  }

  function TargetLines(r: Rec): map<string, string>
    requires Full(r.attrs)
  {
    map[
      "target.present" := "1",
      "target.name" := r.name,
      "target.expiration_period" := r.attrs["expiration_period"],
      "target.overlap_period" := r.attrs["overlap_period"],
      "target.schema_version" := r.attrs["schema_version"],
      "target.cert_name_flag" := r.attrs["cert_name_flag"],
      "target.key_flag" := r.attrs["key_flag"],
      "target.sddl_len" := r.attrs["sddl_len"],
      "target.sddl_sha256" := r.attrs["sddl_sha256"]]
  }

  /** The target lines repeat the one matching record, or say that there is none. */
  predicate TargetOk(fold: T.Fold, s: Stream, template: string)
    requires forall i :: 0 <= i < |s.records| ==> s.records[i].name != "" ==> Full(s.records[i].attrs)
  {
    var found := Matches(fold, s.records, fold(template));
    MatchesAreRecords(fold, s.records, fold(template));
    if found == [] then s.target == map["target.present" := "0"]
    else |found| == 1 && s.target == TargetLines(found[0])
  }

  lemma {:induction false} MatchesAreRecords(fold: T.Fold, records: seq<Rec>, folded: string)
    ensures forall r :: r in Matches(fold, records, folded) ==> r in records && r.name != "" && fold(r.name) == folded
  {
    if records != [] {
      MatchesAreRecords(fold, records[1..], folded);
    }
  }

  predicate RecordsOk(toInt: ToInt, records: seq<Rec>) {
    forall i :: 0 <= i < |records| ==> RecordOk(toInt, records[i])
  }

  /** Everything that has to hold of a stream for its facts to be published. */
  predicate Accepted(sha: T.Sha, fold: T.Fold, toInt: ToInt, s: Stream, template: string) {
    RecordsOk(toInt, s.records) && ContainerOk(sha, fold, toInt, s, template) && TargetOk(fold, s, template)
  }

  function IntOrEmpty(toInt: ToInt, value: string): Value {
    if value == "" then VStr("") else if toInt(value).Some? then VInt(toInt(value).get) else VStr("")
  }

  function DurationOrEmpty(value: string): Value {
    match Duration100ns(value)
    case Units(n) => VInt(n)
    case _ => VStr("")
  }

  /** The facts of one template object, or of none: every detail is then the empty text. */
  function TargetFacts(toInt: ToInt, found: Option<Rec>): Facts
    requires found.Some? ==> Full(found.get.attrs)
  {
    var attrs := if found.Some? then found.get.attrs else map key | key in ATTR_KEYS :: "";
    map[
      "certtmpl.target.present" := VBool(found.Some?),
      "certtmpl.target.name" := VStr(if found.Some? then found.get.name else ""),
      "certtmpl.target.expiration_100ns" := DurationOrEmpty(attrs["expiration_period"]),
      "certtmpl.target.overlap_100ns" := DurationOrEmpty(attrs["overlap_period"]),
      "certtmpl.target.schema_version" := IntOrEmpty(toInt, attrs["schema_version"]),
      "certtmpl.target.cert_name_flag" := IntOrEmpty(toInt, attrs["cert_name_flag"]),
      "certtmpl.target.key_flag" := IntOrEmpty(toInt, attrs["key_flag"]),
      "certtmpl.target.sddl_len" := IntOrEmpty(toInt, attrs["sddl_len"]),
      "certtmpl.target.sddl_sha256" := VStr(attrs["sddl_sha256"])]
  }

  function ContainerFacts(sha: T.Sha, fold: T.Fold, records: seq<Rec>, present: bool, template: string): Facts {
    map[
      "certtmpl.container.present" := VBool(present),
      "certtmpl.container.object_count" := VInt(|records|),
      "certtmpl.container.names_sha256" := VStr(Digest(sha, Names(records))),
      "certtmpl.container.other_names_sha256" := VStr(Digest(sha, Others(fold, records, template))),
      "certtmpl.container.other_count" := VInt(|Others(fold, records, template)|),
      "certtmpl.container.unnamed_count" := VInt(|records| - |Names(records)|)]
  }

  /** The facts about a container: those of its membership and those of the template under observation. */
  function FactsOf(sha: T.Sha, fold: T.Fold, toInt: ToInt, records: seq<Rec>, present: bool, template: string): Facts
    requires RecordsOk(toInt, records)
  {
    var found := Matches(fold, records, fold(template));
    MatchesAreRecords(fold, records, fold(template));
    assert found != [] ==> found[0] in records;
    ContainerFacts(sha, fold, records, present, template)
      + TargetFacts(toInt, if found == [] then None else Some(found[0]))
  }

  function Observe(sha: T.Sha, fold: T.Fold, toInt: ToInt, lines: seq<string>, template: string): Option<Facts> {
    if template == "" then None
    else
      var s := ReadLines(EMPTY, lines);
      if s.None? || !Accepted(sha, fold, toInt, s.get, template) then None
      else Some(FactsOf(sha, fold, toInt, s.get.records, Flag(s.get.container["container.present"]).get, template))
  }

  method CertTmplFactTree(sha: T.Sha, fold: T.Fold, toInt: ToInt, lines: seq<string>, template: string) returns (r: Option<Facts>)
    ensures r == Observe(sha, fold, toInt, lines, template)
  {
    hide Apply, Accepted, FactsOf, LineOf;
    if template == "" {
      return None;
    }
    var s := EMPTY;
    for n := 0 to |lines|
      invariant ReadLines(s, lines[n..]) == ReadLines(EMPTY, lines)
    {
      assert lines[n..][1..] == lines[n + 1..];
      match LineOf(lines[n]) {
        case Blank =>
        case NotAPair =>
          return None;
        case Pair(key, value) =>
          var next := Apply(s, key, value);
          if next.None? {
            return None;
          }
          s := next.get;
      }
    }
    if !Accepted(sha, fold, toInt, s, template) {
      return None;
    }
    assert "container.present" in s.container && Flag(s.container["container.present"]).Some? && RecordsOk(toInt, s.records) by {
      AcceptedHasFlag(sha, fold, toInt, s, template);
    }
    r := Some(FactsOf(sha, fold, toInt, s.records, Flag(s.container["container.present"]).get, template));
  }

  lemma {:induction false} AcceptedHasFlag(sha: T.Sha, fold: T.Fold, toInt: ToInt, s: Stream, template: string)
    requires Accepted(sha, fold, toInt, s, template)
    ensures "container.present" in s.container && Flag(s.container["container.present"]).Some? && RecordsOk(toInt, s.records)
  {
  }

  // ----- the membership freeze -----

  lemma {:induction false} NamesNamed(records: seq<Rec>)
    ensures forall n :: n in RecordNames(records) ==> n != "" && exists i :: 0 <= i < |records| && records[i].name == n
  {
    if records != [] {
      NamesNamed(records[1..]);
      forall n | n in RecordNames(records) ensures n != "" && exists i :: 0 <= i < |records| && records[i].name == n {
        if n in RecordNames(records[1..]) {
          var i :| 0 <= i < |records| - 1 && records[1..][i].name == n;
          assert records[i + 1].name == n;
        } else {
          assert records[0].name == n;
        }
      }
    }
  }

  lemma {:induction false} WithoutIs(fold: T.Fold, names: seq<string>, folded: string)
    ensures forall n :: multiset(Without(fold, names, folded))[n] == if fold(n) == folded then 0 else multiset(names)[n]
    ensures forall n :: n in Without(fold, names, folded) ==> n in names
  {
    if names != [] {
      WithoutIs(fold, names[1..], folded);
      assert names == [names[0]] + names[1..];
    }
  }

  /** The non-target names of a stream, with how often each occurs. */
  function OtherMembers(fold: T.Fold, records: seq<Rec>, template: string): multiset<string> {
    multiset(Without(fold, RecordNames(records), fold(template)))
  }

  lemma {:induction false} OthersAreMembers(fold: T.Fold, records: seq<Rec>, template: string)
    ensures multiset(Others(fold, records, template)) == OtherMembers(fold, records, template)
    ensures forall n :: n in Others(fold, records, template) ==> n in RecordNames(records)
  {
    hide Without, T.Sort, RecordNames;
    var names, raw := Names(records), RecordNames(records);
    assert multiset(names) == multiset(raw);
    hide Names;
    WithoutIs(fold, names, fold(template));
    WithoutIs(fold, raw, fold(template));
    forall n | n in Without(fold, names, fold(template)) ensures n in raw {
      assert n in multiset(names);
    }
  }

  predicate LineFree(records: seq<Rec>) {
    forall i :: 0 <= i < |records| ==> T.Free(records[i].name, '\n')
  }

  /** With collision-free hashing, the digest of the other names pins their multiset. */
  lemma {:induction false} EqualDigestsPinMembership(sha: T.Sha, fold: T.Fold, one: seq<Rec>, two: seq<Rec>, template: string)
    requires forall a: string, b: string :: sha(a) == sha(b) ==> a == b
    requires LineFree(one) && LineFree(two)
    requires Digest(sha, Others(fold, one, template)) == Digest(sha, Others(fold, two, template))
    ensures OtherMembers(fold, one, template) == OtherMembers(fold, two, template)
  {
    OthersAreMembers(fold, one, template);
    OthersAreMembers(fold, two, template);
    NamesNamed(one);
    NamesNamed(two);
    hide Others, RecordNames, OtherMembers;
    T.JoinInjective(Others(fold, one, template), Others(fold, two, template), '\n');
  }

  lemma {:induction false} WithoutSorted(fold: T.Fold, names: seq<string>, folded: string)
    requires T.Sorted(names)
    ensures T.Sorted(Without(fold, names, folded))
  {
    if names != [] {
      WithoutSorted(fold, names[1..], folded);
      WithoutIs(fold, names[1..], folded);
      var rest := Without(fold, names[1..], folded);
      hide T.Leq, Without;
      forall n | n in rest ensures T.Leq(names[0], n) { T.SortedHead(names, n); }
      ConsSorted(names[0], rest);
    }
  }

  lemma {:induction false} ConsSorted(x: string, rest: seq<string>)
    requires T.Sorted(rest) && forall n :: n in rest ==> T.Leq(x, n)
    ensures T.Sorted([x] + rest)
  {
    hide T.Leq;
    assert forall i :: 0 <= i < |rest| ==> rest[i] in rest;
  }

  /** Conversely the digest depends on nothing else: neither on the order of the records nor on the target. */
  lemma {:induction false} EqualMembershipEqualDigests(sha: T.Sha, fold: T.Fold, one: seq<Rec>, two: seq<Rec>, template: string)
    requires OtherMembers(fold, one, template) == OtherMembers(fold, two, template)
    ensures Digest(sha, Others(fold, one, template)) == Digest(sha, Others(fold, two, template))
  {
    OthersAreMembers(fold, one, template);
    OthersAreMembers(fold, two, template);
    WithoutSorted(fold, Names(one), fold(template));
    WithoutSorted(fold, Names(two), fold(template));
    hide Names, Without, RecordNames, OtherMembers;
    T.SortedUnique(Others(fold, one, template), Others(fold, two, template));
  }

  predicate LinesFree(lines: seq<string>) {
    forall i :: 0 <= i < |lines| ==> T.Free(lines[i], '\n')
  }

  lemma {:induction false} PairFree(raw: string)
    requires T.Free(raw, '\n')
    ensures LineOf(raw).Pair? ==> T.Free(LineOf(raw).key, '\n') && T.Free(LineOf(raw).value, '\n')
  {
    ChompIsPrefix(raw);
    hide Chomp, T.Find;
  }

  lemma {:induction false} ChompIsPrefix(raw: string)
    ensures Chomp(raw) <= raw
    decreases |raw|
  {
    if Chomp(raw) != raw {
      ChompIsPrefix(raw[..|raw| - 1]);
    }
  }

  lemma {:induction false} ReadFree(s: Stream, lines: seq<string>)
    requires LineFree(s.records) && LinesFree(lines)
    ensures ReadLines(s, lines).Some? ==> LineFree(ReadLines(s, lines).get.records)
    decreases lines
  {
    if lines != [] {
      PairFree(lines[0]);
      var next := ReadLine(s, lines[0]);
      assert next.Some? ==> LineFree(next.get.records) by { hide LineOf; }
      hide ReadLine;
      if next.Some? {
        ReadFree(next.get, lines[1..]);
      }
    }
  }

  /** Two accepted streams with the same published digest have the same other templates, whatever happened to the target. */
  lemma {:induction false} MembershipFreeze(sha: T.Sha, fold: T.Fold, toInt: ToInt, pre: seq<string>, post: seq<string>, template: string)
    requires forall a: string, b: string :: sha(a) == sha(b) ==> a == b
    requires Observe(sha, fold, toInt, pre, template).Some? && Observe(sha, fold, toInt, post, template).Some?
    requires LinesFree(pre) && LinesFree(post)
    requires "certtmpl.container.other_names_sha256" in Observe(sha, fold, toInt, pre, template).get
    requires "certtmpl.container.other_names_sha256" in Observe(sha, fold, toInt, post, template).get
    requires Observe(sha, fold, toInt, pre, template).get["certtmpl.container.other_names_sha256"]
      == Observe(sha, fold, toInt, post, template).get["certtmpl.container.other_names_sha256"]
    ensures OtherMembers(fold, ReadLines(EMPTY, pre).get.records, template)
      == OtherMembers(fold, ReadLines(EMPTY, post).get.records, template)
  {
    var one, two := ReadLines(EMPTY, pre).get, ReadLines(EMPTY, post).get;
    PublishedDigest(sha, fold, toInt, pre, template);
    PublishedDigest(sha, fold, toInt, post, template);
    ReadFree(EMPTY, pre);
    ReadFree(EMPTY, post);
    hide Observe, ReadLines, OtherMembers, Others, Digest;
    EqualDigestsPinMembership(sha, fold, one.records, two.records, template);
  }

  lemma {:induction false} PublishedDigest(sha: T.Sha, fold: T.Fold, toInt: ToInt, lines: seq<string>, template: string)
    requires Observe(sha, fold, toInt, lines, template).Some?
    ensures ReadLines(EMPTY, lines).Some?
    ensures
      var (facts, s) := (Observe(sha, fold, toInt, lines, template).get, ReadLines(EMPTY, lines).get);
      && "certtmpl.container.other_names_sha256" in facts
      && facts["certtmpl.container.other_names_sha256"] == VStr(Digest(sha, Others(fold, s.records, template)))
  {
    hide ReadLines, Accepted, Matches, Digest, Others, Names, DurationOrEmpty, IntOrEmpty;
    var s := ReadLines(EMPTY, lines).get;
    AcceptedHasFlag(sha, fold, toInt, s, template);
  }
}
