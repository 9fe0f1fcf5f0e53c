/** Every record a run emits is accepted by the validator of records. */
module RecordProperties {
  import opened Options
  import opened Transactions
  import opened Executions
  import opened Records
  import R = RunProperties
  import O = RunOutputs
  import I = Interpolation
  import C = Convergence
  import E = Envelopes
  import J = CanonicalJson
  import T = Text
  import L = Literals
  import N = Numerals
  import V = Values

  lemma StatesNamed(s: State)
    ensures StateName(s) in STATES
    ensures Terminal(s) ==> StateName(s) in TERMINAL
    ensures StateName(s) == "indeterminate" ==> s == Indeterminate
  {
  }

  lemma EventsAccepted(p: Progress, events: seq<Event>, words: Wording)
    requires WellFormed(p.machine) && events <= p.machine.events
    ensures forall i :: 0 <= i < |events| ==> EventAccepted(EventOut(events[i], words))
  {
    hide EventAccepted;
    forall i | 0 <= i < |events| ensures EventAccepted(EventOut(events[i], words)) {
      assert Chained(p.machine.events, i);
      EventAccepts(events[i], words);
    }
  }

  lemma EventAccepts(e: Event, words: Wording)
    requires e.sequence >= 1
    ensures EventAccepted(EventOut(e, words))
  {
    StatesNamed(e.to);
    if e.from.Some? { StatesNamed(e.from.get); }
    hide StateName;
  }

  lemma ClauseListIsStrings(cs: seq<E.Clause>, words: Wording)
    ensures Strings(ClauseList(cs, words))
  {
  }

  lemma DeltaRowAccepts(e: E.DeltaEntry, words: Wording)
    ensures DeltaRow(DeltaRowOf(e, words))
  {
    hide Side;
  }

  lemma EnvelopeAccepts(envelope: Option<C.ConvergenceResult>, words: Wording, state: string)
    requires envelope.None? ==> state == "indeterminate"
    ensures EnvelopeAccepted(EnvelopeOut(envelope, words), false, state)
  {
    if envelope.Some? {
      var a := AssertionOf(envelope.get);
      ClauseListIsStrings(a.satisfied, words);
      ClauseListIsStrings(a.violated, words);
      ClauseListIsStrings(a.unresolved, words);
      forall e ensures DeltaRow(DeltaRowOf(e, words)) { DeltaRowAccepts(e, words); }
      hide ClauseList, Strings, DeltaRow, DeltaRowOf, StringList, AssertionOf;
      assert Strings(StringList(a.unclassified)) by { StringListIsStrings(a.unclassified); }
      var out := EnvelopeOut(envelope, words);
      assert "status" in out.m;
    }
  }

  lemma StringListIsStrings(ss: seq<string>)
    ensures Strings(StringList(ss)) && Texts(StringList(ss)) == ss
  {
  }

  lemma ManifestAccepts(sha: T.Sha, output: (string, string))
    ensures ManifestRow(sha, ManifestOut(sha, output))
    ensures ManifestOut(sha, output).m["script"] == WStr(output.0)
    ensures Strings(ManifestOut(sha, output).m["stdout_lines"])
    ensures T.Join(Texts(ManifestOut(sha, output).m["stdout_lines"]), '\n') == output.1
  {
    T.JoinSplit(output.1, '\n');
    var lines := T.Split(output.1, '\n');
    StringListIsStrings(lines);
    assert forall i :: 0 <= i < |lines| ==> lines[i] in lines;
    assert forall i :: 0 <= i < |lines| ==> T.Free(lines[i], '\n') && StringList(lines).items[i].s == lines[i];
    hide T.Join, T.Split, Texts, Strings;
  }

  /** The arguments a record carries digest to the digest it carries, and every output joins back to what was hashed. */
  lemma InvocationAccepts(sha: T.Sha, b: Binding, outputs: seq<(string, string)>)
    requires b.arguments.JObj? && forall t :: T.Hex64(sha(t))
    ensures InvocationAccepted(sha, InvocationOut(sha, b, outputs))
  {
    J.CanonicalRoundTrip(b.arguments);
    J.SortedSettles(b.arguments);
    forall i | 0 <= i < |outputs| ensures ManifestRow(sha, ManifestOut(sha, outputs[i])) {
      ManifestAccepts(sha, outputs[i]);
    }
    hide ManifestRow, ManifestOut, T.Hex64, J.Print;
  }

  predicate Bound(sha: T.Sha, p: Provenance) {
    p.binding.Some? ==> p.binding.get.revision >= 1 && p.binding.get.arguments.JObj?
  }

  lemma BaseIs(p: Provenance)
    ensures
      var m := BaseOut(p);
      var version := if p.binding.Some? then 3 else 1;
      && m.Keys == ProvenanceKeys(1)
      && m["$schema"] == WStr(Ref(version)) && m["schema_version"] == WInt(version)
      && m["capability"].WStr? && m["run_sheet"].WStr? && m["transaction_id"].WStr?
      && IsObject(m["console"]) && m["steps"].WList? && IsObject(m["cleanup"]) && Strings(m["notes"])
  {
    BaseKeys(p);
    BaseFields(p);
    hide BaseOut, IsObject, Strings;
  }

  lemma BaseKeys(p: Provenance)
    ensures BaseOut(p).Keys == ProvenanceKeys(1)
  {
    hide Truncated, Cut;
  }

  lemma BaseFields(p: Provenance)
    ensures
      var m := BaseOut(p);
      var version := if p.binding.Some? then 3 else 1;
      && ProvenanceKeys(1) <= m.Keys
      && m["$schema"] == WStr(Ref(version)) && m["schema_version"] == WInt(version)
      && m["capability"].WStr? && m["run_sheet"].WStr? && m["transaction_id"].WStr?
      && IsObject(m["console"]) && m["steps"].WList? && IsObject(m["cleanup"]) && Strings(m["notes"])
  {
    BaseKeys(p);
    TruncatedStaysObject(p.console);
    TruncatedStaysObject(p.cleanup);
    hide Truncated, Cut;
  }

  lemma BindingIs(sha: T.Sha, b: Binding, outputs: seq<(string, string)>)
    requires b.revision >= 1 && b.arguments.JObj? && forall t :: T.Hex64(sha(t))
    ensures
      var m := BindingOut(sha, b, outputs);
      && m.Keys == {"capability_revision", "capability_sha256", "invocation"}
      && m["capability_revision"].WInt? && m["capability_revision"].n >= 1
      && m["capability_sha256"].WStr? && T.Hex64(m["capability_sha256"].s)
      && InvocationAccepted(sha, m["invocation"])
  {
    InvocationAccepts(sha, b, outputs);
    hide InvocationOut, InvocationAccepted, T.Hex64;
  }

  lemma {:induction false} ProvenanceAccepts(sha: T.Sha, p: Provenance, outputs: seq<(string, string)>)
    requires Bound(sha, p) && forall t :: T.Hex64(sha(t))
    ensures var version := if p.binding.Some? then 3 else 1;
      ProvenanceAccepted(sha, WObj(ProvenanceOut(sha, p, outputs)), version) && Stamped(ProvenanceOut(sha, p, outputs)) == Some(version)
  {
    hide BaseOut, BindingOut, IsObject, Strings, T.Hex64, InvocationAccepted, ProvenanceAccepted, Stamped, ProvenanceOut;
    BaseIs(p);
    if p.binding.Some? {
      BindingIs(sha, p.binding.get, outputs);
    }
    ProvenanceFields(sha, p, outputs);
    FieldsAccepted(sha, p, outputs);
  }

  /** The fields of both parts are the fields of the whole. */
  lemma ProvenanceFields(sha: T.Sha, p: Provenance, outputs: seq<(string, string)>)
    requires BaseOut(p).Keys == ProvenanceKeys(1)
    requires p.binding.Some? ==> BindingOut(sha, p.binding.get, outputs).Keys == {"capability_revision", "capability_sha256", "invocation"}
    ensures
      var out := ProvenanceOut(sha, p, outputs);
      && out.Keys == ProvenanceKeys(if p.binding.Some? then 3 else 1)
      && (forall k :: k in BaseOut(p) ==> out[k] == BaseOut(p)[k])
      && (p.binding.Some? ==> forall k :: k in BindingOut(sha, p.binding.get, outputs) ==> out[k] == BindingOut(sha, p.binding.get, outputs)[k])
  {
    hide BaseOut, BindingOut;
    if p.binding.Some? {
      var base, more := BaseOut(p), BindingOut(sha, p.binding.get, outputs);
      assert forall k :: k in base ==> k !in more;
      assert (base + more).Keys == ProvenanceKeys(3);
    }
  }

  lemma FieldsAccepted(sha: T.Sha, p: Provenance, outputs: seq<(string, string)>)
    requires var out := ProvenanceOut(sha, p, outputs);
      && out.Keys == ProvenanceKeys(if p.binding.Some? then 3 else 1)
      && out["$schema"] == WStr(Ref(if p.binding.Some? then 3 else 1)) && out["schema_version"] == WInt(if p.binding.Some? then 3 else 1)
      && out["capability"].WStr? && out["run_sheet"].WStr? && out["transaction_id"].WStr?
      && IsObject(out["console"]) && out["steps"].WList? && IsObject(out["cleanup"]) && Strings(out["notes"])
      && (p.binding.Some? ==>
        && out["capability_revision"].WInt? && out["capability_revision"].n >= 1
        && out["capability_sha256"].WStr? && T.Hex64(out["capability_sha256"].s)
        && InvocationAccepted(sha, out["invocation"]))
    ensures var version := if p.binding.Some? then 3 else 1;
      ProvenanceAccepted(sha, WObj(ProvenanceOut(sha, p, outputs)), version) && Stamped(ProvenanceOut(sha, p, outputs)) == Some(version)
  {
    hide ProvenanceOut, IsObject, Strings, T.Hex64, InvocationAccepted;
  }

  lemma TruncatedStaysObject(m: map<string, Wire>)
    ensures Truncated(WObj(m)).WObj? && Truncated(WObj(m)).m.Keys == m.Keys
  {
  }

  /** What the executor guarantees about any record it emits. */
  lemma RecordFacts(plan: Plan, w: World)
    requires Executed(plan, w).1.Emitted?
    ensures
      var (p, exit) := Executed(plan, w);
      && WellFormed(p.machine) && exit.record.events <= p.machine.events && Terminal(exit.record.state)
      && (exit.record.envelope.None? ==> exit.record.state == Indeterminate)
  {
    hide Executed, WellFormed, R.Succeeds, R.Script, R.CleanupActs, R.Drops, R.EscapeCause, R.ReachesGesture, R.Suffix;
    R.ExecutedWell(plan, w);
    R.VerifiedMeans(plan, w);
    R.DisprovenMeans(plan, w);
  }

  /** What a run emits, the validator accepts: version 3 when the capability's text was bound, version 1 otherwise. */
  lemma {:induction false} EmittedIsAccepted(sha: T.Sha, plan: Plan, w: World, words: Wording, provenance: Provenance, allowLegacy: bool)
    requires Executed(plan, w).1.Emitted?
    requires Bound(sha, provenance) && forall t :: T.Hex64(sha(t))
    ensures
      var (p, exit) := Executed(plan, w);
      Validated(sha, Emit(sha, p, exit.record, words, provenance), allowLegacy) == Some(if provenance.binding.Some? then 3 else 1)
  {
    hide Executed, WellFormed, Bound, T.Hex64, Validated, Emit;
    RecordFacts(plan, w);
    PartsAccepted(sha, Executed(plan, w).0, Executed(plan, w).1.record, words, provenance, allowLegacy);
  }

  lemma {:induction false} PartsAccepted(sha: T.Sha, p: Progress, record: Record, words: Wording, provenance: Provenance, allowLegacy: bool)
    requires WellFormed(p.machine) && record.events <= p.machine.events && Terminal(record.state)
    requires record.envelope.None? ==> record.state == Indeterminate
    requires Bound(sha, provenance) && forall t :: T.Hex64(sha(t))
    ensures Validated(sha, Emit(sha, p, record, words, provenance), allowLegacy) == Some(if provenance.binding.Some? then 3 else 1)
  {
    hide WellFormed, EventAccepted, EnvelopeAccepted, ProvenanceAccepted, ProvenanceOut, EnvelopeOut, EventOut, T.Hex64, Stamped,
      StateName, Bound;
    EventsAccepted(p, record.events, words);
    StatesNamed(record.state);
    EnvelopeAccepts(record.envelope, words, StateName(record.state)) by { assert StateName(Indeterminate) == "indeterminate" by { IndeterminateName(); } }
    ProvenanceAccepts(sha, provenance, p.banked);
    StampedSome(ProvenanceOut(sha, provenance, p.banked));
    var out := Emit(sha, p, record, words, provenance);
    assert out.m.Keys == {"state", "verdict", "envelope_result", "events", "provenance"};
    assert |Verdict(p, record.state, words)| <= 512;
    hide Verdict;
  }

  lemma IndeterminateName()
    ensures StateName(Indeterminate) == "indeterminate"
  {
  }

  lemma StampedSome(m: map<string, Wire>)
    ensures Stamped(m).Some? ==> "$schema" in m
  {
  }

  // ----- what an emitted record says -----

  /** A name for every state, and no two alike. */
  lemma NamesTellStates(s: State)
    ensures StateName(s) == "prepared" <==> s == Prepared
    ensures StateName(s) == "armed" <==> s == Armed
    ensures StateName(s) == "commit_attempted" <==> s == CommitAttempted
    ensures StateName(s) == "verified" <==> s == Verified
    ensures StateName(s) == "disproven" <==> s == Disproven
    ensures StateName(s) == "indeterminate" <==> s == Indeterminate
  {
  }

  /** An event row carries its event: number, both states by name, and the first 512 characters of the reason. */
  lemma EventRowSays(e: Event, words: Wording)
    ensures
      var row := EventOut(e, words);
      && row.WObj? && row.m.Keys == {"sequence", "from_state", "to_state", "reason"}
      && row.m["sequence"] == WInt(e.sequence) && row.m["to_state"] == WStr(StateName(e.to))
      && row.m["from_state"] == (if e.from.None? then WNone else WStr(StateName(e.from.get)))
      && row.m["reason"].WStr? && row.m["reason"].s <= ReasonText(e.reason, words)
      && |row.m["reason"].s| == if |ReasonText(e.reason, words)| <= 512 then |ReasonText(e.reason, words)| else 512
  {
    hide StateName;
  }

  /** A delta row gives its key's value in the pre state and in the post state, and says which of them is missing. */
  lemma DeltaRowSays(d: E.FactDelta, pre: V.Facts, post: V.Facts, categories: map<string, string>, e: E.DeltaEntry, words: Wording)
    requires E.IsDelta(d, pre, post, categories) && e in d.Entries()
    ensures
      var row := DeltaRowOf(e, words);
      && row.WObj? && row.m.Keys == {"key", "kind", "before", "after"} && row.m["key"] == WStr(e.key)
      && row.m["before"] == (if e.key in pre then Truncated(words.shown(pre[e.key])) else WMissing)
      && row.m["after"] == (if e.key in post then Truncated(words.shown(post[e.key])) else WMissing)
      && (row.m["kind"] == WStr("changed") <==> e.key in pre && e.key in post)
      && (row.m["kind"] == WStr("added") <==> e.key !in pre)
      && (row.m["kind"] == WStr("removed") <==> e.key !in post)
  {
    E.DeltaEntries(d, pre, post, categories);
    hide E.IsDelta, Truncated, E.Differs;
    assert e == E.EntryFor(pre, post, categories, e.key);
    assert E.Differs(pre, post, e.key);
    DifferingIsSomewhere(pre, post, e.key);
    KindNamesApart();
  }

  lemma DifferingIsSomewhere(pre: V.Facts, post: V.Facts, k: string)
    requires E.Differs(pre, post, k)
    ensures k in pre || k in post
  {
  }

  lemma KindNamesApart()
    ensures "changed" != "added" && "changed" != "removed" && "added" != "removed"
  {
    assert "changed"[0] != "added"[0] && "changed"[0] != "removed"[0] && "added"[0] != "removed"[0];
  }

  /** The emitted record, piece by piece: the state, the events in order, and the delta behind the verdict, one row per entry. */
  lemma EmittedSays(sha: T.Sha, p: Progress, record: Record, words: Wording, provenance: Provenance)
    ensures
      var out := Emit(sha, p, record, words, provenance).m;
      && out["state"] == WStr(StateName(record.state))
      && out["events"].WList? && |out["events"].items| == |record.events|
      && (forall i :: 0 <= i < |record.events| ==> out["events"].items[i] == EventOut(record.events[i], words))
      && out["envelope_result"].WObj?
      && (record.envelope.None? <==> out["envelope_result"].m == map[])
  {
    hide EventOut, ProvenanceOut, Verdict, StateName, ClauseList, StringList, DeltaRowOf, AssertionOf;
    if record.envelope.Some? {
      assert "status" in EnvelopeOut(record.envelope, words).m;
    }
  }

  /** The envelope result carries the assertion: its status, its clause lists by label, its unclassified keys and its delta rows. */
  lemma EnvelopeSays(c: C.ConvergenceResult, words: Wording)
    requires c.assertion.Some?
    ensures
      var (out, a) := (EnvelopeOut(Some(c), words).m, c.assertion.get);
      && out.Keys == {"status", "satisfied", "violated", "unresolved", "unclassified", "characterization", "delta"}
      && (out["status"] == WStr("satisfied") <==> a.status == E.StSatisfied)
      && (out["status"] == WStr("disproven") <==> a.status == E.StDisproven)
      && (out["status"] == WStr("indeterminate") <==> a.status == E.StIndeterminate)
      && out["satisfied"] == Labels(a.satisfied, words) && out["violated"] == Labels(a.violated, words)
      && out["unresolved"] == Labels(a.unresolved, words)
      && out["unclassified"].WList? && |out["unclassified"].items| == |a.unclassified|
      && (forall i :: 0 <= i < |a.unclassified| ==> out["unclassified"].items[i] == WStr(a.unclassified[i]))
      && out["delta"].WList? && |out["delta"].items| == |a.delta.changed + a.delta.added + a.delta.removed|
      && (forall i :: 0 <= i < |a.delta.Entries()| ==> out["delta"].items[i] == DeltaRowOf(a.delta.Entries()[i], words))
  {
    StatusNamesApart();
    LabelsAre(c.assertion.get.satisfied, words);
    LabelsAre(c.assertion.get.violated, words);
    LabelsAre(c.assertion.get.unresolved, words);
    hide DeltaRowOf, ClauseList, Labels;
  }

  lemma StatusNamesApart()
    ensures "satisfied" != "disproven" && "satisfied" != "indeterminate" && "disproven" != "indeterminate"
  {
    assert "satisfied"[0] != "disproven"[0] && "satisfied"[0] != "indeterminate"[0] && "disproven"[0] != "indeterminate"[0];
  }

  function Labels(cs: seq<E.Clause>, words: Wording): Wire {
    WList(seq(|cs|, i requires 0 <= i < |cs| => Truncated(WStr(words.clause(cs[i])))))
  }

  lemma LabelsAre(cs: seq<E.Clause>, words: Wording)
    ensures ClauseList(cs, words) == Labels(cs, words)
  {
    hide Truncated;
    assert ClauseList(cs, words).items == Labels(cs, words).items;
  }

  /** A long text keeps its first 1600 characters and says how many it had; a short one is left alone. */
  lemma TruncatedMeans(s: string)
    ensures |s| <= 1600 ==> Truncated(WStr(s)) == WStr(s)
    ensures |s| > 1600 ==> Truncated(WStr(s)) == WStr(s[..1600] + "...[" + N.Decimal(|s|) + " chars total]")
  {
  }

  /** The verdict is the reason of an indeterminate end, else the characterization, else the abort's note: its first 512 characters in one line. */
  lemma VerdictSays(p: Progress, state: State, words: Wording)
    ensures
      var v := Verdict(p, state, words);
      && |v| <= 512 && '\n' !in v && '\r' !in v
      && forall text: string :: text != "" && '\n' !in text && '\r' !in text && |text| <= 512 ==>
        && (p.machine.indeterminateReason == Some(Given(text)) ==> v == text)
        && (p.machine.indeterminateReason.None? && p.machine.characterization == Some(text) ==> v == text)
        && (p.machine.indeterminateReason.None? && p.machine.characterization.None? && p.note == Some(text) ==> v == text)
  {
    forall text: string | '\n' !in text && '\r' !in text ensures Flat(text) == text {
      assert forall i :: 0 <= i < |text| ==> text[i] in text;
    }
  }

  // ----- what the validator refuses -----

  /** An accepted record has exactly its five parts, a terminal state, a bounded verdict, and well-formed events, envelope and provenance. */
  lemma AcceptedMeans(sha: T.Sha, record: Wire, allowLegacy: bool)
    requires Validated(sha, record, allowLegacy).Some?
    ensures record.WObj? && record.m.Keys == {"state", "verdict", "envelope_result", "events", "provenance"}
    ensures
      var (m, version) := (record.m, Validated(sha, record, allowLegacy).get);
      && m["state"].WStr? && (m["state"].s == "verified" || m["state"].s == "disproven" || m["state"].s == "indeterminate")
      && m["verdict"].WStr? && |m["verdict"].s| <= 512
      && m["events"].WList? && (forall e :: e in m["events"].items ==> EventAccepted(e))
      && EnvelopeAccepted(m["envelope_result"], version == 0, m["state"].s)
      && version <= 3 && (version == 0 ==> allowLegacy) && ProvenanceAccepted(sha, m["provenance"], version)
  {
    hide EventAccepted, EnvelopeAccepted, ProvenanceAccepted;
  }

  /** Conversely every such record is accepted, in the version whose provenance it has; an unstamped one only as legacy input. */
  lemma AcceptedExactly(sha: T.Sha, record: Wire, allowLegacy: bool, version: nat)
    requires version <= 3 && (version == 0 ==> allowLegacy)
    requires record.WObj? && record.m.Keys == {"state", "verdict", "envelope_result", "events", "provenance"}
    requires
      var m := record.m;
      && m["state"].WStr? && (m["state"].s == "verified" || m["state"].s == "disproven" || m["state"].s == "indeterminate")
      && m["verdict"].WStr? && |m["verdict"].s| <= 512
      && m["events"].WList? && (forall e :: e in m["events"].items ==> EventAccepted(e))
      && EnvelopeAccepted(m["envelope_result"], version == 0, m["state"].s)
      && ProvenanceAccepted(sha, m["provenance"], version)
    ensures Validated(sha, record, allowLegacy) == Some(version)
  {
    StampTells(sha, record.m["provenance"], version);
    hide EventAccepted, EnvelopeAccepted, ProvenanceAccepted, Stamped;
  }

  lemma StampTells(sha: T.Sha, w: Wire, version: nat)
    requires version <= 3 && ProvenanceAccepted(sha, w, version)
    ensures w.WObj?
    ensures version == 0 <==> "$schema" !in w.m && "schema_version" !in w.m
    ensures version > 0 ==> Stamped(w.m) == Some(version)
  {
    ProvenanceStamps(sha, w, version);
    RefsDiffer();
    hide ProvenanceAccepted;
  }

  lemma RefsDiffer()
    ensures Ref(1) != Ref(2) && Ref(1) != Ref(3) && Ref(2) != Ref(3)
  {
    assert Ref(1)[|Ref(1)| - 6] == '1' && Ref(2)[|Ref(2)| - 6] == '2' && Ref(3)[|Ref(3)| - 6] == '3';
  }

  /** The setup scripts are those of the guest and host steps of the setup phase, in order. */
  lemma {:induction false} SetupScriptsAre(before: seq<RawStep>, step: RawStep, after: seq<RawStep>)
    ensures SetupScripts([]) == []
    ensures SetupScripts(before + [step] + after) ==
      SetupScripts(before)
        + (if step.phase == "setup" && step.action in {"guest", "host"} then [step.script] else [])
        + SetupScripts(after)
  {
    if before != [] {
      SetupScriptsAre(before[1..], step, after);
      assert (before + [step] + after)[1..] == before[1..] + [step] + after;
    } else {
      assert before + [step] + after == [step] + after && ([step] + after)[1..] == after;
    }
  }

  /** An accepted event has exactly its four parts, is numbered from one, and goes between states there are. */
  lemma AcceptedEventMeans(w: Wire)
    requires EventAccepted(w)
    ensures w.WObj? && w.m.Keys == {"sequence", "from_state", "to_state", "reason"}
    ensures w.m["sequence"].WInt? && w.m["sequence"].n >= 1 && w.m["reason"].WStr?
    ensures w.m["from_state"] == WNone || (w.m["from_state"].WStr? && IsStateName(w.m["from_state"].s))
    ensures w.m["to_state"].WStr? && IsStateName(w.m["to_state"].s)
  {
  }

  predicate IsStateName(s: string) {
    s == "prepared" || s == "armed" || s == "commit_attempted" || s == "verified" || s == "disproven" || s == "indeterminate"
  }

  /** An accepted envelope result is empty only for an indeterminate record, and otherwise complete. */
  lemma AcceptedEnvelopeMeans(w: Wire, legacy: bool, state: string)
    requires EnvelopeAccepted(w, legacy, state)
    ensures w.WObj? && (w.m == map[] ==> state == "indeterminate")
    ensures w.m != map[] ==>
      && {"status", "satisfied", "violated", "unclassified", "characterization"} <= w.m.Keys
      && w.m.Keys <= {"status", "satisfied", "violated", "unclassified", "characterization", "unresolved", "delta"}
      && (!legacy ==> "unresolved" in w.m && "delta" in w.m)
      && w.m["status"].WStr? && (w.m["status"].s == "satisfied" || w.m["status"].s == "disproven" || w.m["status"].s == "indeterminate")
      && Strings(w.m["satisfied"]) && Strings(w.m["violated"]) && Strings(w.m["unclassified"]) && w.m["characterization"].WStr?
      && ("unresolved" in w.m ==> Strings(w.m["unresolved"]))
      && ("delta" in w.m ==> w.m["delta"].WList? && forall r :: r in w.m["delta"].items ==> DeltaRow(r))
  {
    hide Strings, DeltaRow;
  }

  /** An accepted delta row has exactly its four parts, and its kind is one of three. */
  lemma AcceptedDeltaRowMeans(w: Wire)
    requires DeltaRow(w)
    ensures w.WObj? && w.m.Keys == {"key", "kind", "before", "after"} && w.m["key"].WStr? && w.m["kind"].WStr?
    ensures w.m["kind"].s == "added" || w.m["kind"].s == "changed" || w.m["kind"].s == "removed"
  {
  }

  /** 64 decimal digits and letters from `a` to `f`. */
  predicate LowerHex(s: string) {
    |s| == 64 && forall i :: 0 <= i < |s| ==> 48 <= s[i] as int <= 57 || 97 <= s[i] as int <= 102
  }

  lemma HexMeans()
    ensures forall s: string :: T.Hex64(s) <==> LowerHex(s)
  {
  }

  /** Accepted provenance has exactly the parts of its version, and the stamp that names it. */
  lemma AcceptedProvenanceMeans(sha: T.Sha, w: Wire, version: nat)
    requires version <= 3 && ProvenanceAccepted(sha, w, version)
    ensures w.WObj? && {"capability", "run_sheet", "transaction_id", "console", "steps", "cleanup", "notes"} <= w.m.Keys
    ensures w.m["capability"].WStr? && w.m["run_sheet"].WStr? && w.m["transaction_id"].WStr?
    ensures IsObject(w.m["console"]) && w.m["steps"].WList? && IsObject(w.m["cleanup"]) && Strings(w.m["notes"])
    ensures version == 0 <==> "$schema" !in w.m && "schema_version" !in w.m
    ensures version > 0 ==> "$schema" in w.m && "schema_version" in w.m && w.m["schema_version"] == WInt(version)
    ensures version == 1 ==> w.m["$schema"] == WStr("docs/transaction-record-schema-v1.json")
    ensures version == 2 ==> w.m["$schema"] == WStr("docs/transaction-record-schema-v2.json")
    ensures version == 3 ==> w.m["$schema"] == WStr("docs/transaction-record-schema-v3.json")
    ensures "capability_revision" in w.m <==> version >= 2
    ensures "capability_sha256" in w.m <==> version >= 2
    ensures "invocation" in w.m <==> version == 3
    ensures version >= 2 ==>
      w.m["capability_revision"].WInt? && w.m["capability_revision"].n >= 1 && w.m["capability_sha256"].WStr? && LowerHex(w.m["capability_sha256"].s)
    ensures version == 3 ==> InvocationAccepted(sha, w.m["invocation"])
  {
    ProvenanceParts(sha, w, version);
    ProvenanceStamps(sha, w, version);
    HexMeans();
    hide IsObject, Strings, T.Hex64, LowerHex, InvocationAccepted, ProvenanceAccepted;
  }

  lemma ProvenanceParts(sha: T.Sha, w: Wire, version: nat)
    requires version <= 3 && ProvenanceAccepted(sha, w, version)
    ensures w.WObj? && {"capability", "run_sheet", "transaction_id", "console", "steps", "cleanup", "notes"} <= w.m.Keys
    ensures w.m["capability"].WStr? && w.m["run_sheet"].WStr? && w.m["transaction_id"].WStr?
    ensures IsObject(w.m["console"]) && w.m["steps"].WList? && IsObject(w.m["cleanup"]) && Strings(w.m["notes"])
    ensures "capability_revision" in w.m <==> version >= 2
    ensures "capability_sha256" in w.m <==> version >= 2
    ensures "invocation" in w.m <==> version == 3
    ensures version >= 2 ==>
      w.m["capability_revision"].WInt? && w.m["capability_revision"].n >= 1 && w.m["capability_sha256"].WStr? && T.Hex64(w.m["capability_sha256"].s)
    ensures version == 3 ==> InvocationAccepted(sha, w.m["invocation"])
  {
    hide IsObject, Strings, T.Hex64, InvocationAccepted;
  }

  lemma ProvenanceStamps(sha: T.Sha, w: Wire, version: nat)
    requires version <= 3 && ProvenanceAccepted(sha, w, version)
    ensures w.WObj?
    ensures version == 0 <==> "$schema" !in w.m && "schema_version" !in w.m
    ensures version > 0 ==> "$schema" in w.m && "schema_version" in w.m && w.m["schema_version"] == WInt(version)
    ensures version == 1 ==> w.m["$schema"] == WStr("docs/transaction-record-schema-v1.json")
    ensures version == 2 ==> w.m["$schema"] == WStr("docs/transaction-record-schema-v2.json")
    ensures version == 3 ==> w.m["$schema"] == WStr("docs/transaction-record-schema-v3.json")
  {
    hide IsObject, Strings, T.Hex64, InvocationAccepted;
  }

  /** An accepted invocation digests to what it publishes, row by row. */
  lemma AcceptedInvocationMeans(sha: T.Sha, w: Wire)
    requires InvocationAccepted(sha, w)
    ensures w.WObj? && w.m.Keys == {"arguments", "arguments_sha256", "run_sheet_sha256", "setup_manifest"}
    ensures w.m["arguments"].WDoc? && w.m["arguments"].doc.JObj?
    ensures w.m["arguments_sha256"] == WStr(sha(J.CanonicalText(w.m["arguments"].doc)))
    ensures w.m["run_sheet_sha256"].WStr? && LowerHex(w.m["run_sheet_sha256"].s) && LowerHex(w.m["arguments_sha256"].s)
    ensures w.m["setup_manifest"].WList?
    ensures forall row :: row in w.m["setup_manifest"].items ==>
      && row.WObj? && row.m.Keys == {"script", "stdout_lines", "stdout_sha256"} && row.m["script"].WStr? && Strings(row.m["stdout_lines"])
      && (forall line :: line in Texts(row.m["stdout_lines"]) ==> '\n' !in line)
      && row.m["stdout_sha256"] == WStr(sha(T.Join(Texts(row.m["stdout_lines"]), '\n')))
  {
    HexMeans();
    hide T.Hex64, LowerHex, J.CanonicalText, T.Join;
    forall row | row in w.m["setup_manifest"].items ensures ManifestRow(sha, row) {
    }
  }

  // ----- the record against the run sheet that drove it -----

  lemma NamesAreBanked(sha: T.Sha, b: Binding, outputs: seq<(string, string)>)
    requires InvocationAccepted(sha, InvocationOut(sha, b, outputs))
    ensures
      var names := ManifestNames(sha, InvocationOut(sha, b, outputs));
      |names| == |outputs| && forall i :: 0 <= i < |names| ==> names[i] == outputs[i].0
  {
    hide InvocationAccepted;
    var rows := InvocationOut(sha, b, outputs).m["setup_manifest"].items;
    assert forall i :: 0 <= i < |rows| ==> rows[i] == ManifestOut(sha, outputs[i]);
  }

  /**
   A run's own record passes the check against its run sheet exactly when interpolation changed none of the script names it
   banked; a name that a reference changes makes the executor emit a record its own checker refuses.
   */
  lemma {:induction false} SheetBindingExactly(sha: T.Sha, plan: Plan, w: World, provenance: Provenance, file: SheetFile)
    requires Executed(plan, w).1.Emitted? && provenance.binding.Some?
    requires Bound(sha, provenance) && forall t :: T.Hex64(sha(t))
    requires provenance.binding.get.sheet == file.text && provenance.sheet == file.name && plan.setup == SetupScripts(file.steps)
    ensures
      var (p, exit) := Executed(plan, w);
      && ProvenanceAccepted(sha, WObj(ProvenanceOut(sha, provenance, p.banked)), 3)
      && |p.banked| <= |plan.setup|
      && (SheetMatches(sha, ProvenanceOut(sha, provenance, p.banked), file, StateName(exit.record.state)) <==>
        forall i :: 0 <= i < |p.banked| ==> ScriptName(plan, w, i) == Some(plan.setup[i]))
  {
    hide Executed, T.Hex64, WellFormed, ProvenanceAccepted, InvocationOut, BaseOut, SetupScripts, InvocationAccepted, ScriptName;
    var (p, exit) := Executed(plan, w);
    var b := provenance.binding.get;
    ProvenanceAccepts(sha, provenance, p.banked);
    BindingIs(sha, b, p.banked);
    BaseIs(provenance);
    NamesAreBanked(sha, b, p.banked);
    O.RunBanks(plan, w);
    FinishedNames(exit.record.state);
    SheetFields(sha, provenance, p.banked);
    var names := ManifestNames(sha, InvocationOut(sha, b, p.banked));
    hide ManifestNames, ProvenanceOut, BindingOut, StateName;
    PrefixByNames(names, plan.setup);
  }

  lemma FinishedNames(s: State)
    ensures StateName(s) == "verified" <==> s == Verified
    ensures StateName(s) == "disproven" <==> s == Disproven
  {
  }

  /** Script names without references are never changed, so then the record always matches. */
  lemma {:induction false} PlainSheetMatches(sha: T.Sha, plan: Plan, w: World, provenance: Provenance, file: SheetFile)
    requires Executed(plan, w).1.Emitted? && provenance.binding.Some?
    requires Bound(sha, provenance) && forall t :: T.Hex64(sha(t))
    requires provenance.binding.get.sheet == file.text && provenance.sheet == file.name && plan.setup == SetupScripts(file.steps)
    requires forall i :: 0 <= i < |plan.setup| ==> I.Plain(plan.setup[i])
    ensures ProvenanceAccepted(sha, WObj(ProvenanceOut(sha, provenance, Executed(plan, w).0.banked)), 3)
    ensures SheetMatches(sha, ProvenanceOut(sha, provenance, Executed(plan, w).0.banked), file, StateName(Executed(plan, w).1.record.state))
  {
    hide Executed, T.Hex64, WellFormed, ProvenanceAccepted, SetupScripts, SheetMatches, ProvenanceOut, I.Plain, I.Interpolated;
    SheetBindingExactly(sha, plan, w, provenance, file);
    forall i | 0 <= i < |Executed(plan, w).0.banked| ensures ScriptName(plan, w, i) == Some(plan.setup[i]) {
      I.PlainMeansItself(plan.setup[i], w.inputs, w.outputs(i));
    }
  }

  lemma PrefixByNames(names: seq<string>, scripts: seq<string>)
    requires |names| <= |scripts|
    ensures names <= scripts <==> forall i :: 0 <= i < |names| ==> names[i] == scripts[i]
    ensures |names| == |scripts| ==> (names == scripts <==> forall i :: 0 <= i < |names| ==> names[i] == scripts[i])
  {
  }

  lemma SheetFields(sha: T.Sha, p: Provenance, outputs: seq<(string, string)>)
    requires p.binding.Some?
    ensures
      var out := ProvenanceOut(sha, p, outputs);
      && "invocation" in out && out["invocation"] == InvocationOut(sha, p.binding.get, outputs)
      && "run_sheet" in out && out["run_sheet"] == WStr(p.sheet)
      && out["invocation"].m["run_sheet_sha256"] == WStr(sha(p.binding.get.sheet))
  {
    BaseSheet(p);
    SheetDigest(sha, p.binding.get, outputs);
    hide BaseOut, InvocationOut;
  }

  lemma BaseSheet(p: Provenance)
    ensures "run_sheet" in BaseOut(p) && BaseOut(p)["run_sheet"] == WStr(p.sheet)
  {
    hide Truncated, Cut;
  }

  lemma SheetDigest(sha: T.Sha, b: Binding, outputs: seq<(string, string)>)
    ensures InvocationOut(sha, b, outputs).WObj? && "run_sheet_sha256" in InvocationOut(sha, b, outputs).m
    ensures InvocationOut(sha, b, outputs).m["run_sheet_sha256"] == WStr(sha(b.sheet))
  {
    hide ManifestOut;
  }

  // ----- what an accepted record binds -----

  /** The invocation block of a record, if there is one. */
  function InvocationOf(record: Wire): Option<Wire> {
    if record.WObj? && "provenance" in record.m && record.m["provenance"].WObj? && "invocation" in record.m["provenance"].m then
      Some(record.m["provenance"].m["invocation"])
    else None
  }

  lemma {:induction false} AcceptedHasInvocation(sha: T.Sha, record: Wire)
    requires Validated(sha, record, false) == Some(3)
    ensures InvocationOf(record).Some? && InvocationAccepted(sha, InvocationOf(record).get)
  {
    hide EnvelopeAccepted, EventAccepted, InvocationAccepted, T.Hex64;
  }

  /**
   With collision-free hashing, two accepted records that publish one arguments digest carry the same canonical arguments,
   and manifest rows of theirs that publish one output digest carry the same output: neither can be altered on its own.
   */
  lemma {:induction false} AcceptedDigestsPinContent(sha: T.Sha, one: Wire, two: Wire)
    requires forall a: string, b: string :: sha(a) == sha(b) ==> a == b
    requires Validated(sha, one, false) == Some(3) && Validated(sha, two, false) == Some(3)
    ensures InvocationOf(one).Some? && InvocationAccepted(sha, InvocationOf(one).get)
    ensures InvocationOf(two).Some? && InvocationAccepted(sha, InvocationOf(two).get)
    ensures
      var (a, b) := (InvocationOf(one).get.m, InvocationOf(two).get.m);
      && (a["arguments_sha256"] == b["arguments_sha256"] ==> J.Sorted(a["arguments"].doc) == J.Sorted(b["arguments"].doc))
      && forall x, y :: x in a["setup_manifest"].items && y in b["setup_manifest"].items ==> SameDigestSameOutput(sha, x, y)
  {
    AcceptedHasInvocation(sha, one);
    AcceptedHasInvocation(sha, two);
    hide Validated, InvocationOf;
    InvocationsPinContent(sha, InvocationOf(one).get, InvocationOf(two).get);
  }

  /** Rows with one output digest are rows of one output. */
  predicate SameDigestSameOutput(sha: T.Sha, x: Wire, y: Wire) {
    ManifestRow(sha, x) && ManifestRow(sha, y)
    && (x.m["stdout_sha256"] == y.m["stdout_sha256"] ==>
      T.Join(Texts(x.m["stdout_lines"]), '\n') == T.Join(Texts(y.m["stdout_lines"]), '\n'))
  }

  lemma InvocationsPinContent(sha: T.Sha, one: Wire, two: Wire)
    requires forall a: string, b: string :: sha(a) == sha(b) ==> a == b
    requires InvocationAccepted(sha, one) && InvocationAccepted(sha, two)
    ensures one.m["arguments_sha256"] == two.m["arguments_sha256"] ==>
      J.Sorted(one.m["arguments"].doc) == J.Sorted(two.m["arguments"].doc)
    ensures forall x, y :: x in one.m["setup_manifest"].items && y in two.m["setup_manifest"].items ==> SameDigestSameOutput(sha, x, y)
  {
    J.CanonicalRoundTrip(one.m["arguments"].doc);
    J.CanonicalRoundTrip(two.m["arguments"].doc);
    hide T.Hex64, T.Join, Texts, J.CanonicalText, J.Read, J.Sorted;
  }
}
