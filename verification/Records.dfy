/**
 The record a run emits, as the wire object it is, and the validator of such records. `sha` is the hexadecimal
 SHA-256 of a text's UTF-8 bytes.
 */
module Records {
  import opened Options
  import opened Transactions
  import opened Executions
  import C = Convergence
  import E = Envelopes
  import J = CanonicalJson
  import N = Numerals
  import T = Text
  import V = Values

  /** A JSON-able Python object; `WDoc` is a decoded document kept with its key order, `WMissing` the absent-fact sentinel. */
  datatype Wire =
    | WNone
    | WBool(b: bool)
    | WInt(n: int)
    | WStr(s: string)
    | WList(items: seq<Wire>)
    | WObj(m: map<string, Wire>)
    | WDoc(doc: J.Json)
    | WMissing

  const V1_REF := "docs/transaction-record-schema-v1.json"
  const V2_REF := "docs/transaction-record-schema-v2.json"
  const V3_REF := "docs/transaction-record-schema-v3.json"

  const STATES := {"prepared", "armed", "commit_attempted", "verified", "disproven", "indeterminate"}
  const TERMINAL := {"verified", "disproven", "indeterminate"}
  const STATUSES := {"satisfied", "disproven", "indeterminate"}

  // ----- the validator -----

  predicate IsObject(w: Wire) {
    w.WObj? || (w.WDoc? && w.doc.JObj?)
  }

  predicate Strings(w: Wire) {
    w.WList? && forall i :: 0 <= i < |w.items| ==> w.items[i].WStr?
  }

  predicate StrIn(w: Wire, options: set<string>) {
    w.WStr? && w.s in options
  }

  predicate Keyed(m: map<string, Wire>, required: set<string>, allowed: set<string>) {
    required <= m.Keys <= allowed
  }

  predicate DeltaRow(w: Wire) {
    w.WObj? && Keyed(w.m, {"key", "kind", "before", "after"}, {"key", "kind", "before", "after"})
    && w.m["key"].WStr? && StrIn(w.m["kind"], {"added", "changed", "removed"})
  }

  predicate EnvelopeAccepted(w: Wire, legacy: bool, state: string) {
    w.WObj? &&
    if w.m == map[] then state == "indeterminate"
    else
      var base := {"status", "satisfied", "violated", "unclassified", "characterization"};
      var full := base + {"unresolved", "delta"};
      && Keyed(w.m, if legacy then base else full, full)
      && StrIn(w.m["status"], STATUSES)
      && Strings(w.m["satisfied"]) && Strings(w.m["violated"]) && Strings(w.m["unclassified"])
      && ("unresolved" in w.m ==> Strings(w.m["unresolved"]))
      && w.m["characterization"].WStr?
      && ("delta" in w.m ==>
        w.m["delta"].WList? && forall i :: 0 <= i < |w.m["delta"].items| ==> DeltaRow(w.m["delta"].items[i]))
  }

  predicate EventAccepted(w: Wire) {
    w.WObj? && Keyed(w.m, {"sequence", "from_state", "to_state", "reason"}, {"sequence", "from_state", "to_state", "reason"})
    && w.m["sequence"].WInt? && w.m["sequence"].n >= 1
    && (w.m["from_state"].WNone? || StrIn(w.m["from_state"], STATES))
    && StrIn(w.m["to_state"], STATES) && w.m["reason"].WStr?
  }

  predicate ManifestRow(sha: T.Sha, w: Wire) {
    w.WObj? && Keyed(w.m, {"script", "stdout_lines", "stdout_sha256"}, {"script", "stdout_lines", "stdout_sha256"})
    && w.m["script"].WStr?
    && Strings(w.m["stdout_lines"])
    && (forall i :: 0 <= i < |w.m["stdout_lines"].items| ==> '\n' !in w.m["stdout_lines"].items[i].s)
    && w.m["stdout_sha256"] == WStr(sha(T.Join(Texts(w.m["stdout_lines"]), '\n')))
  }

  function Texts(w: Wire): seq<string>
    requires Strings(w)
  {
    seq(|w.items|, i requires 0 <= i < |w.items| => w.items[i].s)
  }

  predicate InvocationAccepted(sha: T.Sha, w: Wire) {
    w.WObj?
    && Keyed(w.m, {"arguments", "arguments_sha256", "run_sheet_sha256", "setup_manifest"},
             {"arguments", "arguments_sha256", "run_sheet_sha256", "setup_manifest"})
    && w.m["arguments"].WDoc? && w.m["arguments"].doc.JObj?
    && w.m["arguments_sha256"].WStr? && T.Hex64(w.m["arguments_sha256"].s)
    && w.m["run_sheet_sha256"].WStr? && T.Hex64(w.m["run_sheet_sha256"].s)
    && w.m["arguments_sha256"].s == sha(J.CanonicalText(w.m["arguments"].doc))
    && w.m["setup_manifest"].WList?
    && forall i :: 0 <= i < |w.m["setup_manifest"].items| ==> ManifestRow(sha, w.m["setup_manifest"].items[i])
  }

  const BASE_KEYS := {"capability", "run_sheet", "transaction_id", "console", "steps", "cleanup", "notes"}

  function ProvenanceKeys(version: nat): set<string> {
    BASE_KEYS + (if version > 0 then {"$schema", "schema_version"} else {})
      + (if version >= 2 then {"capability_revision", "capability_sha256"} else {})
      + (if version >= 3 then {"invocation"} else {})
  }

  function Ref(version: nat): string {
    if version == 1 then V1_REF else if version == 2 then V2_REF else V3_REF
  }

  predicate ProvenanceAccepted(sha: T.Sha, w: Wire, version: nat)
    requires version <= 3
  {
    w.WObj? && Keyed(w.m, ProvenanceKeys(version), ProvenanceKeys(if version == 0 then 1 else version))
    && (version == 0 ==> "$schema" !in w.m && "schema_version" !in w.m)
    && (version > 0 ==> w.m["$schema"] == WStr(Ref(version)) && w.m["schema_version"] == WInt(version))
    && w.m["capability"].WStr?
    && (version >= 2 ==>
      && w.m["capability_revision"].WInt? && w.m["capability_revision"].n >= 1
      && w.m["capability_sha256"].WStr? && T.Hex64(w.m["capability_sha256"].s))
    && w.m["run_sheet"].WStr? && w.m["transaction_id"].WStr?
    && IsObject(w.m["console"]) && w.m["steps"].WList? && IsObject(w.m["cleanup"]) && Strings(w.m["notes"])
    && (version == 3 ==> InvocationAccepted(sha, w.m["invocation"]))
  }

  /** The schema stamp; `None` when it names no version. */
  function Stamped(provenance: map<string, Wire>): Option<nat> {
    if "$schema" !in provenance || "schema_version" !in provenance then None
    else if provenance["$schema"] == WStr(V1_REF) && provenance["schema_version"] == WInt(1) then Some(1)
    else if provenance["$schema"] == WStr(V2_REF) && provenance["schema_version"] == WInt(2) then Some(2)
    else if provenance["$schema"] == WStr(V3_REF) && provenance["schema_version"] == WInt(3) then Some(3)
    else None
  }

  /** The version of an accepted record; an unstamped one is accepted only where legacy input is allowed. */
  function Validated(sha: T.Sha, record: Wire, allowLegacy: bool): Option<nat> {
    if !(record.WObj? && record.m.Keys == {"state", "verdict", "envelope_result", "events", "provenance"}) then None
    else
      var m := record.m;
      if !(StrIn(m["state"], TERMINAL) && m["verdict"].WStr? && |m["verdict"].s| <= 512 && m["provenance"].WObj?) then None
      else
        var provenance := m["provenance"].m;
        var unstamped := "$schema" !in provenance && "schema_version" !in provenance;
        var version := if unstamped then (if allowLegacy then Some(0) else None) else Stamped(provenance);
        if version.None? then None
        else if !(&& EnvelopeAccepted(m["envelope_result"], version.get == 0, m["state"].s)
                  && m["events"].WList? && (forall i :: 0 <= i < |m["events"].items| ==> EventAccepted(m["events"].items[i]))
                  && ProvenanceAccepted(sha, m["provenance"], version.get)) then None
        else version
  }

  // ----- the checks against the run sheet and the capability document -----

  datatype RawStep = RawStep(phase: string, action: string, script: string)

  /** The run-sheet file: its bytes as a text, and what they parse to. */
  datatype SheetFile = SheetFile(text: string, name: string, steps: seq<RawStep>)

  /** The scripts of the setup steps, in order. */
  function SetupScripts(steps: seq<RawStep>): seq<string> {
    if steps == [] then []
    else
      (if steps[0].phase == "setup" && (steps[0].action == "guest" || steps[0].action == "host") then [steps[0].script] else [])
        + SetupScripts(steps[1..])
  }

  function ManifestNames(sha: T.Sha, invocation: Wire): seq<string>
    requires InvocationAccepted(sha, invocation)
  {
    var rows := invocation.m["setup_manifest"].items;
    seq(|rows|, i requires 0 <= i < |rows| => assert ManifestRow(sha, rows[i]); rows[i].m["script"].s)
  }

  /** A finished record carries every setup script of the run sheet, an indeterminate one may carry a prefix. */
  predicate SheetMatches(sha: T.Sha, provenance: map<string, Wire>, file: SheetFile, state: string)
    requires ProvenanceAccepted(sha, WObj(provenance), 3)
  {
    var names, expected := ManifestNames(sha, provenance["invocation"]), SetupScripts(file.steps);
    && provenance["invocation"].m["run_sheet_sha256"] == WStr(sha(file.text))
    && provenance["run_sheet"] == WStr(file.name)
    && (if state == "verified" || state == "disproven" then names == expected else names <= expected)
  }

  // ----- the emitter -----

  function StateName(s: State): string {
    match s
    case Prepared => "prepared"
    case Armed => "armed"
    case CommitAttempted => "commit_attempted"
    case Verified => "verified"
    case Disproven => "disproven"
    case Indeterminate => "indeterminate"
  }

  function Cut(s: string, n: nat): string {
    if |s| <= n then s else s[..n]
  }

  /** Long strings anywhere inside lose their tails and say how long they were. */
  function Truncated(w: Wire): Wire
    decreases w, 1
  {
    match w
    case WStr(s) => WStr(if |s| > 1600 then s[..1600] + "...[" + N.Decimal(|s|) + " chars total]" else s)
    case WList(items) => WList(seq(|items|, i requires 0 <= i < |items| => Truncated(items[i])))
    case WObj(_) => WObj(TruncatedObject(w))
    case _ => w
  }

  function TruncatedObject(w: Wire): map<string, Wire>
    requires w.WObj?
    decreases w, 0
  {
    map k | k in w.m :: Truncated(w.m[k])
  }

  /** The words of a record that the run itself does not decide. */
  datatype Wording = Wording(
    canonical: string,                 // the machine's own reason, where the caller gave none
    clause: E.Clause -> string,
    characterization: string,
    shown: V.Value -> Wire)

  function ReasonText(r: Reason, words: Wording): string {
    match r
    case Given(text) => text
    case Canonical => words.canonical
  }

  /** What a v3 record binds beside the setup outputs: the capability, the arguments and the run sheet, as texts. */
  datatype Binding = Binding(revision: int, capability: string, arguments: J.Json, sheet: string)

  datatype Provenance = Provenance(
    transaction: string,
    capability: string,
    sheet: string,
    console: map<string, Wire>,
    steps: seq<Wire>,
    cleanup: map<string, Wire>,
    notes: seq<string>,
    binding: Option<Binding>)

  function Flat(s: string): string {
    seq(|s|, i requires 0 <= i < |s| => if s[i] == '\n' || s[i] == '\r' then ' ' else s[i])
  }

  function Verdict(p: Progress, state: State, words: Wording): string {
    var reason := if p.machine.indeterminateReason.Some? then ReasonText(p.machine.indeterminateReason.get, words) else "";
    var text :=
      if reason != "" then reason
      else if p.machine.characterization.Some? && p.machine.characterization.get != "" then p.machine.characterization.get
      else if p.note.Some? && p.note.get != "" then p.note.get
      else "transaction reached " + StateName(state);
    Flat(Cut(text, 512))
  }

  function ClauseList(cs: seq<E.Clause>, words: Wording): Wire {
    WList(seq(|cs|, i requires 0 <= i < |cs| => Truncated(WStr(words.clause(cs[i])))))
  }

  function StringList(ss: seq<string>): Wire {
    WList(seq(|ss|, i requires 0 <= i < |ss| => WStr(ss[i])))
  }

  function StatusName(s: E.Status): string {
    match s
    case StSatisfied => "satisfied"
    case StDisproven => "disproven"
    case StIndeterminate => "indeterminate"
  }

  function Side(v: Option<V.Value>, words: Wording): Wire {
    if v.None? then WMissing else Truncated(words.shown(v.get))
  }

  function DeltaRowOf(e: E.DeltaEntry, words: Wording): Wire {
    WObj(map[
      "key" := WStr(e.key),
      "kind" := WStr(match e.kind case Changed => "changed" case Added => "added" case Removed => "removed"),
      "before" := Side(e.before, words),
      "after" := Side(e.after, words)])
  }

  /** An assertion result; polling that never froze asserts nothing and is indeterminate. */
  function AssertionOf(c: C.ConvergenceResult): E.Assertion {
    if c.assertion.Some? then c.assertion.get else E.Assertion(E.StIndeterminate, [], [], [], [], E.FactDelta([], [], []))
  }

  function EnvelopeOut(envelope: Option<C.ConvergenceResult>, words: Wording): Wire {
    if envelope.None? then WObj(map[])
    else
      var a := AssertionOf(envelope.get);
      var entries := a.delta.Entries();
      WObj(map[
        "status" := WStr(StatusName(a.status)),
        "satisfied" := ClauseList(a.satisfied, words),
        "violated" := ClauseList(a.violated, words),
        "unresolved" := ClauseList(a.unresolved, words),
        "unclassified" := StringList(a.unclassified),
        "characterization" := WStr(Cut(words.characterization, 512)),
        "delta" := WList(seq(|entries|, i requires 0 <= i < |entries| => DeltaRowOf(entries[i], words)))])
  }

  function EventOut(e: Event, words: Wording): Wire {
    WObj(map[
      "sequence" := WInt(e.sequence),
      "from_state" := if e.from.None? then WNone else WStr(StateName(e.from.get)),
      "to_state" := WStr(StateName(e.to)),
      "reason" := WStr(Cut(ReasonText(e.reason, words), 512))])
  }

  function ManifestOut(sha: T.Sha, output: (string, string)): Wire {
    WObj(map[
      "script" := WStr(output.0),
      "stdout_lines" := StringList(T.Split(output.1, '\n')),
      "stdout_sha256" := WStr(sha(output.1))])
  }

  /** The arguments travel as their canonical text decodes, next to the digest of that text. */
  function InvocationOut(sha: T.Sha, b: Binding, outputs: seq<(string, string)>): Wire {
    WObj(map[
      "arguments" := WDoc(J.Sorted(b.arguments)),
      "arguments_sha256" := WStr(sha(J.CanonicalText(b.arguments))),
      "run_sheet_sha256" := WStr(sha(b.sheet)),
      "setup_manifest" := WList(seq(|outputs|, i requires 0 <= i < |outputs| => ManifestOut(sha, outputs[i])))])
  }

  function BaseOut(p: Provenance): map<string, Wire> {
    var bound := p.binding.Some?;
    map[
      "$schema" := WStr(if bound then V3_REF else V1_REF),
      "schema_version" := WInt(if bound then 3 else 1),
      "capability" := WStr(p.capability),
      "run_sheet" := WStr(p.sheet),
      "transaction_id" := WStr(p.transaction),
      "console" := Truncated(WObj(p.console)),
      "steps" := WList(p.steps),
      "cleanup" := Truncated(WObj(p.cleanup)),
      "notes" := WList(seq(|p.notes|, i requires 0 <= i < |p.notes| => WStr(Cut(p.notes[i], 512))))]
  }

  function BindingOut(sha: T.Sha, b: Binding, outputs: seq<(string, string)>): map<string, Wire> {
    map[
      "capability_revision" := WInt(b.revision),
      "capability_sha256" := WStr(sha(b.capability)),
      "invocation" := InvocationOut(sha, b, outputs)]
  }

  function ProvenanceOut(sha: T.Sha, p: Provenance, outputs: seq<(string, string)>): map<string, Wire> {
    if p.binding.None? then BaseOut(p) else BaseOut(p) + BindingOut(sha, p.binding.get, outputs)
  }

  /** The record of a run: its state and log, and in its provenance the outputs it has banked. */
  function Emit(sha: T.Sha, p: Progress, record: Record, words: Wording, provenance: Provenance): Wire {
    WObj(map[
      "state" := WStr(StateName(record.state)),
      "verdict" := WStr(Verdict(p, record.state, words)),
      "envelope_result" := EnvelopeOut(record.envelope, words),
      "events" := WList(seq(|record.events|, i requires 0 <= i < |record.events| => EventOut(record.events[i], words))),
      "provenance" := WObj(ProvenanceOut(sha, provenance, p.banked))])
  }
}
