/**
 Fact categories, the snapshot's per-file facts, and the characterized delta over two snapshots. `fold` is case folding.
 */
module Snapshots {
  import opened Options
  import opened Values
  import E = Envelopes
  import F = ForbidScopes
  import T = Text

  // ----- the category table -----

  datatype Category = Identity | Structural | Content | Volatile | FileMtime | Unclassified

  datatype Rule = Rule(pattern: string, category: Category, subcategory: Option<string>)

  const RULES_1: seq<Rule> := [
    Rule("gpo_identity.*", Identity, None),
    Rule("version.displayName", Identity, None),
    Rule("ad.gPCMachineExtensionNames", Structural, None),
    Rule("ad.gPCUserExtensionNames", Structural, None),
    Rule("ad.versionNumber", Structural, None),
    Rule("ad.gPCFunctionalityVersion", Structural, None),
    Rule("ad.flags", Structural, None),
    Rule("ad.whenChanged", Volatile, Some("timestamps")),
    Rule("ad.uSNChanged", Volatile, Some("replication_metadata"))]

  const RULES_2: seq<Rule> := [
    Rule("version.raw", Structural, None),
    Rule("version.machine", Structural, None),
    Rule("version.user", Structural, None),
    Rule("version.ad_versionNumber", Structural, None),
    Rule("scripts_ini.*.present", Content, None),
    Rule("scripts_ini.*.encoding.*", Content, None),
    Rule("scripts_ini.*.config_shape", Content, None),
    Rule("scripts_ini.*.policy.*", Content, None),
    Rule("scripts_ini.*.scripts_config.*", Content, None),
    Rule("scripts_ini.*.entry_count", Content, None),
    Rule("scripts_ini.*.*.*.*", Content, None)]

  const RULES_3: seq<Rule> := [
    Rule("gpttmpl.present", Content, None),
    Rule("gpttmpl.*", Content, None),
    Rule("fdeploy.present", Content, None),
    Rule("fdeploy.*", Content, None),
    Rule("fdeploy_marker.present", Content, None),
    Rule("fdeploy_marker.*", Content, None),
    Rule("filedigest.*.present", Content, None),
    Rule("filedigest.*.bytes", Content, None),
    Rule("filedigest.*.sha256", Content, None)]

  const RULES_4: seq<Rule> := [
    Rule("migtable.present", Content, None),
    Rule("migtable.*", Content, None),
    Rule("wmifilter.container.present", Structural, None),
    Rule("wmifilter.container.object_count", Structural, None),
    Rule("wmifilter.container.other_names", Structural, None),
    Rule("wmifilter.container.unnamed_count", Structural, None),
    Rule("wmifilter.target.match_count", Structural, None),
    Rule("wmifilter.target.present", Content, None),
    Rule("wmifilter.target.name", Content, None),
    Rule("wmifilter.target.parm1", Content, None),
    Rule("wmifilter.target.parm2", Content, None),
    Rule("wmifilter.target.id", Identity, None)]

  const RULES_5: seq<Rule> := [
    Rule("certtmpl.container.present", Structural, None),
    Rule("certtmpl.container.object_count", Structural, None),
    Rule("certtmpl.container.names_sha256", Structural, None),
    Rule("certtmpl.container.other_names_sha256", Structural, None),
    Rule("certtmpl.container.other_count", Structural, None),
    Rule("certtmpl.container.unnamed_count", Structural, None),
    Rule("certtmpl.target.present", Content, None),
    Rule("certtmpl.target.name", Content, None),
    Rule("certtmpl.target.expiration_100ns", Content, None),
    Rule("certtmpl.target.overlap_100ns", Content, None),
    Rule("certtmpl.target.schema_version", Content, None),
    Rule("certtmpl.target.cert_name_flag", Content, None),
    Rule("certtmpl.target.key_flag", Content, None),
    Rule("certtmpl.target.sddl_len", Content, None)]

  const RULES_6: seq<Rule> := [
    Rule("certtmpl.target.sddl_sha256", Content, None),
    Rule("certsrv.ca.host", Identity, None),
    Rule("certsrv.ca.name", Identity, None),
    Rule("certsrv.ca.observed_from", Identity, None),
    Rule("certsrv.ca.directory.count", Structural, None),
    Rule("certsrv.ca.directory.hosts_sha256", Structural, None),
    Rule("certsrv.ca.directory.member", Structural, None),
    Rule("certsrv.config.value_count", Structural, None),
    Rule("certsrv.config.value_names_sha256", Structural, None),
    Rule("certsrv.officerrights.present", Content, None),
    Rule("certsrv.officerrights.kind", Content, None),
    Rule("certsrv.officerrights.bytes", Content, None),
    Rule("certsrv.officerrights.sha256", Content, None),
    Rule("certsrv.officerrights.decoded_present", Content, None)]

  const RULES_7: seq<Rule> := [
    Rule("certsrv.officerrights.decoded_rows", Content, None),
    Rule("certsrv.officerrights.decoded_sha256", Content, None),
    Rule("certsrv.officerrights.certutil_rc", Content, None),
    Rule("certsrv.security.bytes", Structural, None),
    Rule("certsrv.security.sha256", Structural, None),
    Rule("certsrv.published.count", Structural, None),
    Rule("certsrv.published.names_sha256", Structural, None),
    Rule("sysvol.passes_match", Structural, None),
    Rule("sysvol.*.mtime", FileMtime, None)]

  const RULES_8: seq<Rule> := [
    Rule("scope.extension_lists.*", Structural, None),
    Rule("scope.policies.gpc_guids", Structural, None),
    Rule("scope.sysvol_relpaths", Structural, None),
    Rule("scope.sysvol_contained", Structural, None)]

  /** Ordered rules, first match wins. No rule names a per-file fingerprint, and that is deliberate. */
  function Rules(): seq<Rule> {
    RULES_1 + RULES_2 + RULES_3 + RULES_4 + RULES_5 + RULES_6 + RULES_7 + RULES_8
  }

  /** `fnmatchcase` on patterns whose only special character is `*`, which spans anything. */
  predicate Glob(pattern: string, key: string)
    decreases |pattern| + |key|
  {
    if pattern == "" then key == ""
    else if pattern[0] == '*' then Glob(pattern[1..], key) || (key != "" && Glob(pattern, key[1..]))
    else key != "" && key[0] == pattern[0] && Glob(pattern[1..], key[1..])
  }

  function FirstMatch(rules: seq<Rule>, key: string): (Category, Option<string>) {
    if rules == [] then (Unclassified, None)
    else if Glob(rules[0].pattern, key) then (rules[0].category, rules[0].subcategory)
    else FirstMatch(rules[1..], key)
  }

  function DeclaredCategory(key: string): (Category, Option<string>) {
    FirstMatch(Rules(), key)
  }

  lemma {:induction false} GlobPrefix(pattern: string, key: string, i: nat)
    requires Glob(pattern, key) && i < |pattern| && forall j :: 0 <= j <= i ==> pattern[j] != '*'
    ensures i < |key| && key[i] == pattern[i]
  {
    if i > 0 {
      assert forall j :: 0 <= j <= i - 1 ==> pattern[1..][j] == pattern[j + 1];
      GlobPrefix(pattern[1..], key[1..], i - 1);
    }
  }

  lemma {:induction false} GlobLast(pattern: string, key: string)
    requires Glob(pattern, key) && pattern != "" && pattern[|pattern| - 1] != '*'
    ensures key != "" && key[|key| - 1] == pattern[|pattern| - 1]
    decreases |pattern| + |key|
  {
    if pattern[0] == '*' {
      if Glob(pattern[1..], key) {
        GlobLast(pattern[1..], key);
      } else {
        GlobLast(pattern, key[1..]);
      }
    } else if |pattern| > 1 {
      GlobLast(pattern[1..], key[1..]);
    }
  }

  /** A pattern that starts unlike `sy`, or ends in a letter that neither `sha256` nor `bytes` ends in. */
  predicate Misses(pattern: string) {
    |pattern| >= 2
    && (|| (pattern[0] != '*' && pattern[0] != 's')
        || (pattern[0] == 's' && pattern[1] != '*' && pattern[1] != 'y')
        || (pattern[|pattern| - 1] != '*' && pattern[|pattern| - 1] != '6' && pattern[|pattern| - 1] != 's'))
  }

  predicate AllMiss(rules: seq<Rule>) {
    forall i :: 0 <= i < |rules| ==> Misses(rules[i].pattern)
  }

  lemma Misses1()
    ensures AllMiss(RULES_1)
  {
  }

  lemma Misses2()
    ensures AllMiss(RULES_2)
  {
  }

  lemma Misses3()
    ensures AllMiss(RULES_3)
  {
  }

  lemma Misses4()
    ensures AllMiss(RULES_4)
  {
  }

  lemma Misses5()
    ensures AllMiss(RULES_5)
  {
  }

  lemma Misses6()
    ensures AllMiss(RULES_6)
  {
  }

  lemma Misses7()
    ensures AllMiss(RULES_7)
  {
  }

  lemma Misses8()
    ensures AllMiss(RULES_8)
  {
  }

  lemma {:induction false} RulesMiss()
    ensures AllMiss(Rules())
  {
    Misses1();
    Misses2();
    Misses3();
    Misses4();
    Misses5();
    Misses6();
    Misses7();
    Misses8();
    hide Misses;
  }

  function ShaKey(relpath: string): string {
    "sysvol." + relpath + ".sha256"
  }

  function BytesKey(relpath: string): string {
    "sysvol." + relpath + ".bytes"
  }

  lemma MissedByRule(pattern: string, key: string)
    requires Misses(pattern) && |key| >= 2 && key[0] == 's' && key[1] == 'y'
    requires key[|key| - 1] == '6' || key[|key| - 1] == 's'
    ensures !Glob(pattern, key)
  {
    if Glob(pattern, key) {
      if pattern[0] != '*' {
        GlobPrefix(pattern, key, 0);
        if pattern[1] != '*' { GlobPrefix(pattern, key, 1); }
      }
      if pattern[|pattern| - 1] != '*' { GlobLast(pattern, key); }
      assert false;
    }
  }

  lemma {:induction false} NoMatch(rules: seq<Rule>, key: string)
    requires AllMiss(rules) && |key| >= 2 && key[0] == 's' && key[1] == 'y'
    requires key[|key| - 1] == '6' || key[|key| - 1] == 's'
    ensures FirstMatch(rules, key) == (Unclassified, None)
  {
    hide Glob, Misses;
    if rules != [] {
      MissedByRule(rules[0].pattern, key);
      assert forall i :: 0 <= i < |rules| - 1 ==> rules[1..][i] == rules[i + 1];
      NoMatch(rules[1..], key);
    }
  }

  /** Whatever a file is called, its fingerprint facts have no declared category. */
  lemma FingerprintsAreUnclassified(relpath: string)
    ensures DeclaredCategory(ShaKey(relpath)) == (Unclassified, None)
    ensures DeclaredCategory(BytesKey(relpath)) == (Unclassified, None)
  {
    RulesMiss();
    hide Rules, AllMiss, FirstMatch;
    NoMatch(Rules(), ShaKey(relpath));
    NoMatch(Rules(), BytesKey(relpath));
  }

  // ----- the snapshot -----

  const SYSTEM_FILES := {
    "gpt.ini",
    "machine/scripts/scripts.ini",
    "machine/scripts/psscripts.ini",
    "user/scripts/scripts.ini",
    "user/scripts/psscripts.ini",
    "machine/microsoft/windows nt/secedit/gpttmpl.inf",
    "user/documents & settings/fdeploy.ini",
    "user/documents & settings/fdeploy1.ini"}

  predicate IsSystem(fold: T.Fold, relpath: string) {
    fold(relpath) in SYSTEM_FILES
  }

  datatype File = File(relpath: string, sha256: string, bytes: int)

  /** What the observers report: the facts of the other observers, and the files of the GPO's directory. */
  datatype Observed = Observed(before: Facts, files: seq<File>, passesMatch: bool, scope: Facts)

  /** No other observer writes into the `sysvol.` namespace. */
  predicate Reported(o: Observed) {
    (forall k :: k in o.before ==> !("sysvol." <= k)) && (forall k :: k in o.scope ==> !("sysvol." <= k))
  }

  function FileFacts(fold: T.Fold, files: seq<File>): Facts {
    if files == [] then map[]
    else
      var (earlier, f) := (FileFacts(fold, files[..|files| - 1]), files[|files| - 1]);
      if IsSystem(fold, f.relpath) then earlier
      else earlier[ShaKey(f.relpath) := VStr(f.sha256)][BytesKey(f.relpath) := VInt(f.bytes)]
  }

  function SnapshotOf(fold: T.Fold, o: Observed): Facts {
    (o.before + FileFacts(fold, o.files))["sysvol.passes_match" := VBool(o.passesMatch)] + o.scope
  }

  method CaptureSnapshot(fold: T.Fold, o: Observed) returns (facts: Facts)
    ensures facts == SnapshotOf(fold, o)
  {
    hide FileFacts, IsSystem, ShaKey, BytesKey;
    facts := o.before;
    NoFileFacts(fold, o.before);
    assert o.files[..0] == [];
    for n := 0 to |o.files|
      invariant facts == o.before + FileFacts(fold, o.files[..n])
    {
      var f := o.files[n];
      NextFileFacts(fold, o.before, o.files, n);
      if IsSystem(fold, f.relpath) {
        continue;
      }
      facts := facts[ShaKey(f.relpath) := VStr(f.sha256)];
      facts := facts[BytesKey(f.relpath) := VInt(f.bytes)];
    }
    assert o.files[..|o.files|] == o.files;
    facts := facts["sysvol.passes_match" := VBool(o.passesMatch)];
    facts := facts + o.scope;
  }

  lemma NoFileFacts(fold: T.Fold, before: Facts)
    ensures before + FileFacts(fold, []) == before
  {
  }

  lemma NextFileFacts(fold: T.Fold, before: Facts, files: seq<File>, n: nat)
    requires n < |files|
    ensures
      var (earlier, f) := (before + FileFacts(fold, files[..n]), files[n]);
      before + FileFacts(fold, files[..n + 1])
        == if IsSystem(fold, f.relpath) then earlier
           else earlier[ShaKey(f.relpath) := VStr(f.sha256)][BytesKey(f.relpath) := VInt(f.bytes)]
  {
    hide IsSystem, ShaKey, BytesKey;
    assert files[..n + 1][..n] == files[..n];
  }

  /** The entry that speaks for a relpath: the last one, should a listing name it twice. */
  function Find(files: seq<File>, relpath: string): Option<File> {
    if files == [] then None
    else if files[|files| - 1].relpath == relpath then Some(files[|files| - 1])
    else Find(files[..|files| - 1], relpath)
  }

  lemma KeysApart(a: string, b: string)
    ensures ShaKey(a) == ShaKey(b) ==> a == b
    ensures BytesKey(a) == BytesKey(b) ==> a == b
    ensures ShaKey(a) != BytesKey(b)
    ensures ShaKey(a) != "sysvol.passes_match" && BytesKey(a) != "sysvol.passes_match"
    ensures "sysvol." <= ShaKey(a) && "sysvol." <= BytesKey(a)
  {
    var s, t := ShaKey(a), ShaKey(b);
    assert s[7..|s| - 7] == a && t[7..|t| - 7] == b;
    var u, v := BytesKey(a), BytesKey(b);
    assert u[7..|u| - 6] == a && v[7..|v| - 6] == b;
    assert s[|s| - 1] == '6' && v[|v| - 1] == 's' && u[|u| - 1] == 's';
    assert "sysvol.passes_match"[18] == 'h' && |"sysvol.passes_match"| == 19;
  }

  /** A file's two facts say exactly what the fingerprint says about it; an absent or system file has none. */
  lemma {:induction false} FileFactsSay(fold: T.Fold, files: seq<File>, r: string)
    requires !IsSystem(fold, r)
    ensures
      var (facts, f) := (FileFacts(fold, files), Find(files, r));
      && E.Get(facts, ShaKey(r)) == (if f.Some? then Some(VStr(f.get.sha256)) else None)
      && E.Get(facts, BytesKey(r)) == (if f.Some? then Some(VInt(f.get.bytes)) else None)
  {
    hide IsSystem, ShaKey, BytesKey;
    if files != [] {
      FileFactsSay(fold, files[..|files| - 1], r);
      KeysApart(r, files[|files| - 1].relpath);
      KeysApart(files[|files| - 1].relpath, r);
    }
  }

  /** The files that other observers speak for, by their case-folded names, leave no fingerprint; every other file leaves its own. */
  lemma {:induction false} FileFactsByName(fold: T.Fold, files: seq<File>, r: string)
    ensures
      var others := fold(r) == "gpt.ini"
        || fold(r) == "machine/scripts/scripts.ini" || fold(r) == "machine/scripts/psscripts.ini"
        || fold(r) == "user/scripts/scripts.ini" || fold(r) == "user/scripts/psscripts.ini"
        || fold(r) == "machine/microsoft/windows nt/secedit/gpttmpl.inf"
        || fold(r) == "user/documents & settings/fdeploy.ini" || fold(r) == "user/documents & settings/fdeploy1.ini";
      var (facts, f) := (FileFacts(fold, files), Find(files, r));
      && (others || f.None? ==> "sysvol." + r + ".sha256" !in facts && "sysvol." + r + ".bytes" !in facts)
      && (!others && f.Some? ==>
        E.Get(facts, "sysvol." + r + ".sha256") == Some(VStr(f.get.sha256)) && E.Get(facts, "sysvol." + r + ".bytes") == Some(VInt(f.get.bytes)))
  {
    if IsSystem(fold, r) {
      SystemLeavesNothing(fold, files, r);
    } else {
      FileFactsSay(fold, files, r);
    }
    assert ShaKey(r) == "sysvol." + r + ".sha256" && BytesKey(r) == "sysvol." + r + ".bytes";
    hide FileFacts, Find;
  }

  lemma {:induction false} SystemLeavesNothing(fold: T.Fold, files: seq<File>, r: string)
    requires IsSystem(fold, r)
    ensures ShaKey(r) !in FileFacts(fold, files) && BytesKey(r) !in FileFacts(fold, files)
  {
    hide IsSystem, ShaKey, BytesKey;
    if files != [] {
      SystemLeavesNothing(fold, files[..|files| - 1], r);
      KeysApart(r, files[|files| - 1].relpath);
      KeysApart(files[|files| - 1].relpath, r);
    }
  }

  lemma SnapshotSays(fold: T.Fold, o: Observed, r: string)
    requires Reported(o) && !IsSystem(fold, r)
    ensures
      var (facts, f) := (SnapshotOf(fold, o), Find(o.files, r));
      && E.Get(facts, ShaKey(r)) == (if f.Some? then Some(VStr(f.get.sha256)) else None)
      && E.Get(facts, BytesKey(r)) == (if f.Some? then Some(VInt(f.get.bytes)) else None)
  {
    FileFactsSay(fold, o.files, r);
    KeysApart(r, r);
    hide FileFacts, IsSystem, ShaKey, BytesKey, Find;
  }

  // ----- the characterized delta -----

  function CategoryName(c: Category): string {
    match c
    case Identity => "identity"
    case Structural => "structural"
    case Content => "content"
    case Volatile => "volatile"
    case FileMtime => "file_mtime"
    case Unclassified => "unclassified"
  }

  predicate IsCovered(category: Category, subcategory: Option<string>, allowed: set<string>) {
    if category == Unclassified then false
    else if category == Volatile then "volatile" in allowed || (subcategory.Some? && subcategory.get in allowed)
    else CategoryName(category) in allowed
  }

  datatype Change = Change(key: string, kind: E.ChangeKind, category: Category, subcategory: Option<string>, covered: bool)

  function ChangeOf(pre: Facts, post: Facts, allowed: set<string>, k: string): Change {
    var (category, subcategory) := DeclaredCategory(k);
    Change(k, if k in pre && k in post then E.Changed else if k in post then E.Added else E.Removed,
           category, subcategory, IsCovered(category, subcategory, allowed))
  }

  datatype Outcome = Outcome(changes: seq<Change>, violations: seq<F.Violation>) {
    predicate Satisfied() {
      violations == [] && forall i :: 0 <= i < |changes| ==> changes[i].covered
    }
  }

  /** The differing keys, each once and in order, each with its declared category and whether that is allowed. */
  ghost predicate IsOutcome(o: Outcome, upper: T.Fold, pre: Facts, post: Facts, allowed: set<string>, scopes: F.Scopes) {
    (o.violations == [] <==> F.AllClean(upper, pre, post, scopes))
    && Ordered(o.changes)
    && (forall i :: 0 <= i < |o.changes| ==>
      E.Differs(pre, post, o.changes[i].key) && o.changes[i] == ChangeOf(pre, post, allowed, o.changes[i].key))
    && (forall k :: E.Differs(pre, post, k) ==> exists i :: 0 <= i < |o.changes| && o.changes[i].key == k)
  }

  /** `None` is the refusal to allow the unclassified. */
  function KeysOf(cs: seq<Change>): (r: seq<string>)
    ensures |r| == |cs| && forall i :: 0 <= i < |r| ==> r[i] == cs[i].key
  {
    seq(|cs|, i requires 0 <= i < |cs| => cs[i].key)
  }

  /** The two snapshots and what is allowed leave an outcome no choice in its changes: not which, not in what order, not what is said of them. */
  lemma OutcomeUnique(o: Outcome, p: Outcome, upper: T.Fold, pre: Facts, post: Facts, allowed: set<string>, scopes: F.Scopes)
    requires IsOutcome(o, upper, pre, post, allowed, scopes) && IsOutcome(p, upper, pre, post, allowed, scopes)
    ensures o.changes == p.changes && o.Satisfied() == p.Satisfied()
  {
    hide ChangeOf, E.Differs, T.Leq, F.AllClean;
    var (a, b) := (KeysOf(o.changes), KeysOf(p.changes));
    forall k ensures k in a <==> k in b {
      assert k in a ==> E.Differs(pre, post, k);
      assert k in b ==> E.Differs(pre, post, k);
      assert E.Differs(pre, post, k) ==> exists i :: 0 <= i < |a| && a[i] == k;
      assert E.Differs(pre, post, k) ==> exists i :: 0 <= i < |b| && b[i] == k;
    }
    SortedKeys(o.changes);
    SortedKeys(p.changes);
    T.SortedDistinctUnique(a, b);
    forall i | 0 <= i < |a| ensures o.changes[i] == p.changes[i] {
      assert a[i] == b[i];
    }
  }

  lemma SortedKeys(cs: seq<Change>)
    requires Ordered(cs)
    ensures T.Sorted(KeysOf(cs)) && T.Distinct(KeysOf(cs))
  {
    hide T.Leq;
    forall i, j | 0 <= i < j < |cs| ensures T.Leq(KeysOf(cs)[i], KeysOf(cs)[j]) {
      assert T.Leq(cs[i].key, cs[j].key);
    }
  }

  method Evaluate(upper: T.Fold, pre: Facts, post: Facts, allowed: set<string>, scopes: F.Scopes) returns (r: Option<Outcome>)
    ensures r.None? <==> "unclassified" in allowed
    ensures r.Some? ==> IsOutcome(r.get, upper, pre, post, allowed, scopes)
  {
    if "unclassified" in allowed {
      return None;
    }
    hide ChangeOf, E.Differs, T.Leq, IsOutcome, F.AllClean;
    var keys := T.SortKeys(pre.Keys + post.Keys);
    var changes: seq<Change> := [];
    for n := 0 to |keys|
      invariant changes == Changes(pre, post, allowed, keys[..n])
    {
      assert keys[..n + 1][..n] == keys[..n];
      if E.Differs(pre, post, keys[n]) {
        changes := changes + [ChangeOf(pre, post, allowed, keys[n])];
      }
    }
    assert keys[..|keys|] == keys;
    var violations := F.CheckForbids(upper, pre, post, scopes);
    ChangesAreOutcome(upper, pre, post, allowed, scopes, keys, violations);
    r := Some(Outcome(changes, violations));
  }

  function Changes(pre: Facts, post: Facts, allowed: set<string>, keys: seq<string>): seq<Change> {
    if keys == [] then []
    else
      var k := keys[|keys| - 1];
      Changes(pre, post, allowed, keys[..|keys| - 1]) + if E.Differs(pre, post, k) then [ChangeOf(pre, post, allowed, k)] else []
  }

  predicate Ordered(cs: seq<Change>) {
    forall i, j :: 0 <= i < j < |cs| ==> T.Leq(cs[i].key, cs[j].key) && cs[i].key != cs[j].key
  }

  predicate Differing(cs: seq<Change>, pre: Facts, post: Facts, allowed: set<string>, keys: seq<string>) {
    forall i :: 0 <= i < |cs| ==>
      cs[i].key in keys && E.Differs(pre, post, cs[i].key) && cs[i] == ChangeOf(pre, post, allowed, cs[i].key)
  }

  lemma {:induction false} ChangesInOrder(pre: Facts, post: Facts, allowed: set<string>, keys: seq<string>)
    requires T.Sorted(keys) && T.Distinct(keys)
    ensures Ordered(Changes(pre, post, allowed, keys)) && Differing(Changes(pre, post, allowed, keys), pre, post, allowed, keys)
  {
    if keys != [] {
      var init, k := keys[..|keys| - 1], keys[|keys| - 1];
      LastKey(keys);
      ChangesInOrder(pre, post, allowed, init);
      hide ChangeOf, E.Differs, T.Leq, T.Sorted, T.Distinct, Ordered, Differing;
      ChangesGrow(Changes(pre, post, allowed, init), pre, post, allowed, init, keys, k);
    }
  }

  lemma ChangesGrow(earlier: seq<Change>, pre: Facts, post: Facts, allowed: set<string>, init: seq<string>, keys: seq<string>, k: string)
    requires Ordered(earlier) && Differing(earlier, pre, post, allowed, init)
    requires k in keys && forall x :: x in init ==> x in keys && T.Leq(x, k) && x != k
    ensures Differing(earlier, pre, post, allowed, keys)
    ensures E.Differs(pre, post, k) ==>
      var cs := earlier + [ChangeOf(pre, post, allowed, k)];
      Ordered(cs) && Differing(cs, pre, post, allowed, keys)
  {
    ChangeKey(pre, post, allowed, k);
    hide ChangeOf, E.Differs, T.Leq;
    assert forall i :: 0 <= i < |earlier| ==> earlier[i].key in init;
  }

  lemma LastKey(keys: seq<string>)
    requires T.Sorted(keys) && T.Distinct(keys) && keys != []
    ensures forall x :: x in keys[..|keys| - 1] ==> x in keys && T.Leq(x, keys[|keys| - 1]) && x != keys[|keys| - 1]
    ensures T.Sorted(keys[..|keys| - 1]) && T.Distinct(keys[..|keys| - 1])
  {
    hide T.Leq;
  }

  lemma {:induction false} ChangesMissNone(pre: Facts, post: Facts, allowed: set<string>, keys: seq<string>, k: string)
    requires k in keys && E.Differs(pre, post, k)
    ensures exists i :: 0 <= i < |Changes(pre, post, allowed, keys)| && Changes(pre, post, allowed, keys)[i].key == k
  {
    var init, last := keys[..|keys| - 1], keys[|keys| - 1];
    hide ChangeOf, E.Differs;
    if last == k {
      ChangeKey(pre, post, allowed, k);
      assert Changes(pre, post, allowed, keys)[|Changes(pre, post, allowed, init)|].key == k;
    } else {
      ChangesMissNone(pre, post, allowed, init, k);
      var i :| 0 <= i < |Changes(pre, post, allowed, init)| && Changes(pre, post, allowed, init)[i].key == k;
      assert Changes(pre, post, allowed, keys)[i].key == k;
    }
  }

  lemma ChangesAreOutcome(upper: T.Fold, pre: Facts, post: Facts, allowed: set<string>, scopes: F.Scopes, keys: seq<string>,
                          violations: seq<F.Violation>)
    requires violations == [] <==> F.AllClean(upper, pre, post, scopes)
    requires T.Sorted(keys) && T.Distinct(keys) && forall k :: k in keys <==> k in pre.Keys + post.Keys
    ensures IsOutcome(Outcome(Changes(pre, post, allowed, keys), violations), upper, pre, post, allowed, scopes)
  {
    ChangesInOrder(pre, post, allowed, keys);
    hide ChangeOf, E.Differs, T.Leq, Changes, F.AllClean;
    forall k | E.Differs(pre, post, k)
      ensures exists i :: 0 <= i < |Changes(pre, post, allowed, keys)| && Changes(pre, post, allowed, keys)[i].key == k
    {
      DifferingIsKey(pre, post, k);
      ChangesMissNone(pre, post, allowed, keys, k);
    }
  }

  lemma ChangeKey(pre: Facts, post: Facts, allowed: set<string>, k: string)
    ensures ChangeOf(pre, post, allowed, k).key == k
  {
    hide DeclaredCategory;
  }

  lemma DifferingIsKey(pre: Facts, post: Facts, k: string)
    requires E.Differs(pre, post, k)
    ensures k in pre.Keys + post.Keys
  {
  }

  /** The outcome is satisfied exactly when every forbid scope is there and clean and every differing key is allowed. */
  lemma OutcomeSatisfiedExactly(o: Outcome, upper: T.Fold, pre: Facts, post: Facts, allowed: set<string>, scopes: F.Scopes)
    requires IsOutcome(o, upper, pre, post, allowed, scopes)
    ensures o.Satisfied() <==>
      F.AllClean(upper, pre, post, scopes)
      && forall k :: E.Differs(pre, post, k) ==> ChangeOf(pre, post, allowed, k).covered
  {
    hide ChangeOf, E.Differs, T.Leq, F.AllClean, Ordered;
    if o.Satisfied() {
      forall k | E.Differs(pre, post, k) ensures ChangeOf(pre, post, allowed, k).covered {
        var i :| 0 <= i < |o.changes| && o.changes[i].key == k;
        assert o.changes[i].covered;
      }
    }
  }

  /** Whether a listed change is covered, category by category, and what else it says of its key. */
  lemma ChangesMean(o: Outcome, upper: T.Fold, pre: Facts, post: Facts, allowed: set<string>, scopes: F.Scopes, c: Change)
    requires IsOutcome(o, upper, pre, post, allowed, scopes) && c in o.changes
    ensures c.covered <==>
      match c.category
      case Identity => "identity" in allowed
      case Structural => "structural" in allowed
      case Content => "content" in allowed
      case FileMtime => "file_mtime" in allowed
      case Volatile => "volatile" in allowed || (c.subcategory.Some? && c.subcategory.get in allowed)
      case Unclassified => false
    ensures (c.category, c.subcategory) == DeclaredCategory(c.key)
    ensures c.kind == E.Changed <==> c.key in pre && c.key in post
    ensures c.kind == E.Added <==> c.key !in pre
    ensures c.kind == E.Removed <==> c.key !in post
    ensures c.key in pre || c.key in post
    ensures c.key in pre && c.key in post ==> !PyEq(pre[c.key], post[c.key])
  {
    var i :| 0 <= i < |o.changes| && o.changes[i] == c;
    hide DeclaredCategory, T.Leq, F.AllClean, Ordered;
  }

  /** With nothing allowed, an outcome is satisfied exactly when the scopes are clean and no key differs. */
  lemma NothingAllowed(o: Outcome, upper: T.Fold, pre: Facts, post: Facts, scopes: F.Scopes)
    requires IsOutcome(o, upper, pre, post, {}, scopes)
    ensures o.Satisfied() <==> F.AllClean(upper, pre, post, scopes) && forall k :: !E.Differs(pre, post, k)
  {
    forall c | c in o.changes ensures !c.covered {
      ChangesMean(o, upper, pre, post, {}, scopes, c);
    }
    hide F.AllClean, E.Differs, ChangeOf, Ordered, T.Leq;
    if o.changes != [] {
      assert o.changes[0] in o.changes && !o.changes[0].covered;
    }
    if exists k :: E.Differs(pre, post, k) {
      var k :| E.Differs(pre, post, k);
      assert o.changes != [];
    }
  }

  /** A key has the category of the first rule that fits it, and none when no rule does. */
  lemma {:induction false} FirstRuleDecides(rules: seq<Rule>, key: string)
    ensures forall i :: 0 <= i < |rules| && Glob(rules[i].pattern, key) && (forall j :: 0 <= j < i ==> !Glob(rules[j].pattern, key)) ==>
      FirstMatch(rules, key) == (rules[i].category, rules[i].subcategory)
    ensures (forall i :: 0 <= i < |rules| ==> !Glob(rules[i].pattern, key)) ==> FirstMatch(rules, key) == (Unclassified, None)
  {
    hide Glob;
    if rules != [] {
      FirstRuleDecides(rules[1..], key);
      assert forall i :: 0 <= i < |rules| - 1 ==> rules[1..][i] == rules[i + 1];
      forall i | 0 <= i < |rules| && Glob(rules[i].pattern, key) && (forall j :: 0 <= j < i ==> !Glob(rules[j].pattern, key))
        ensures FirstMatch(rules, key) == (rules[i].category, rules[i].subcategory)
      {
        if i > 0 {
          assert !Glob(rules[0].pattern, key);
          assert forall j :: 0 <= j < i - 1 ==> !Glob(rules[1..][j].pattern, key);
          assert rules[1..][i - 1] == rules[i];
        }
      }
    }
  }

  predicate NoStar(p: string) {
    '*' !in p
  }

  /** A pattern without a star fits only itself; a star stands for any text, the empty one included. */
  lemma {:induction false} GlobMeans(p: string, rest: string, key: string)
    requires NoStar(p)
    ensures Glob(p, key) <==> key == p
    ensures Glob(p + "*" + rest, key) <==> p <= key && TailFits(rest, key, |p|)
    decreases |p|
  {
    var t := p + "*" + rest;
    if p == "" {
      assert t == "*" + rest;
      StarMeans(rest, key);
    } else {
      assert t[1..] == p[1..] + "*" + rest && t[0] == p[0];
      assert p[0] in p && forall x :: x in p[1..] ==> x in p;
      if key != "" {
        GlobMeans(p[1..], rest, key[1..]);
        assert key == [key[0]] + key[1..] && p == [p[0]] + p[1..];
        TailFitsNext(rest, key, |p|);
        hide TailFits;
      }
    }
  }

  /** The pattern fits what is left of the key from some place on, not before `from`. */
  predicate TailFits(rest: string, key: string, from: nat) {
    exists i :: from <= i <= |key| && Glob(rest, key[i..])
  }

  lemma TailFitsNext(rest: string, key: string, from: nat)
    requires key != "" && from > 0
    ensures TailFits(rest, key, from) <==> TailFits(rest, key[1..], from - 1)
  {
    hide Glob;
    forall i | from <= i <= |key| ensures key[i..] == key[1..][i - 1..] {
    }
    if TailFits(rest, key, from) {
      var i :| from <= i <= |key| && Glob(rest, key[i..]);
      assert Glob(rest, key[1..][i - 1..]);
    }
    if TailFits(rest, key[1..], from - 1) {
      var i :| from - 1 <= i <= |key| - 1 && Glob(rest, key[1..][i..]);
      assert key[1..][i..] == key[i + 1..];
    }
  }

  lemma {:induction false} StarMeans(rest: string, key: string)
    ensures Glob("*" + rest, key) <==> TailFits(rest, key, 0)
    decreases |key|
  {
    var t := "*" + rest;
    assert t[1..] == rest && key[0..] == key;
    StarUnfolds(rest, key);
    if key != "" {
      StarMeans(rest, key[1..]);
      TailFitsNext(rest, key, 1);
    }
    hide Glob;
    if TailFits(rest, key, 0) && !Glob(rest, key) {
      var i :| 0 <= i <= |key| && Glob(rest, key[i..]);
      assert i > 0;
    }
  }

  lemma StarUnfolds(rest: string, key: string)
    ensures Glob("*" + rest, key) <==> Glob(rest, key) || (key != "" && Glob("*" + rest, key[1..]))
  {
    assert ("*" + rest)[1..] == rest;
  }

  /** Two snapshots disagree about a file: whether it is there, its hash, or its size. */
  predicate FileDiffers(pre: Observed, post: Observed, r: string) {
    var a, b := Find(pre.files, r), Find(post.files, r);
    a.Some? != b.Some? || (a.Some? && (a.get.sha256 != b.get.sha256 || a.get.bytes != b.get.bytes))
  }

  /** Any difference in a file nobody declared disproves, whatever is allowed. */
  lemma UndeclaredFilesDisprove(fold: T.Fold, upper: T.Fold, pre: Observed, post: Observed, r: string, allowed: set<string>,
                                scopes: F.Scopes, outcome: Outcome)
    requires Reported(pre) && Reported(post) && !IsSystem(fold, r) && FileDiffers(pre, post, r)
    requires IsOutcome(outcome, upper, SnapshotOf(fold, pre), SnapshotOf(fold, post), allowed, scopes)
    ensures !outcome.Satisfied()
  {
    hide SnapshotOf, IsSystem, DeclaredCategory, ShaKey, BytesKey, Find, Reported, F.AllClean;
    SnapshotSays(fold, pre, r);
    SnapshotSays(fold, post, r);
    FingerprintsAreUnclassified(r);
    var a, b := SnapshotOf(fold, pre), SnapshotOf(fold, post);
    assert E.Differs(a, b, ShaKey(r)) || E.Differs(a, b, BytesKey(r));
    var k := if E.Differs(a, b, ShaKey(r)) then ShaKey(r) else BytesKey(r);
    var i :| 0 <= i < |outcome.changes| && outcome.changes[i].key == k;
    assert !outcome.changes[i].covered;
  }

  /** And a difference confined to system files changes no fingerprint fact. */
  lemma SystemFilesAreSilent(fold: T.Fold, pre: Observed, post: Observed, r: string)
    requires Reported(pre) && Reported(post) && !IsSystem(fold, r) && !FileDiffers(pre, post, r)
    ensures !E.Differs(SnapshotOf(fold, pre), SnapshotOf(fold, post), ShaKey(r))
    ensures !E.Differs(SnapshotOf(fold, pre), SnapshotOf(fold, post), BytesKey(r))
  {
    hide SnapshotOf, IsSystem, ShaKey, BytesKey, Find, Reported;
    SnapshotSays(fold, pre, r);
    SnapshotSays(fold, post, r);
  }
}
