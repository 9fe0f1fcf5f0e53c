/**
 scripts.ini and psscripts.ini: the line parser, its per-section accumulator, and the entries built
 from it. Lines arrive already decoded and split. `fold` is Unicode case folding.
 */
module ScriptsIni {
  import opened Options
  import T = Text
  import N = Numerals

  // ----- one line -----

  datatype Kind = Ignored | Header(name: string) | Unparsed(line: string) | KeyLine(key: string, value: string)

  function KindOf(raw: string): Kind {
    var line := T.Strip(raw);
    if line == "" || line[0] == ';' || line[0] == '#' then Ignored
    else if |line| >= 2 && line[0] == '[' && line[|line| - 1] == ']' && ']' !in line[1..|line| - 1] then
      Header(line[1..|line| - 1])
    else
      var eq := T.Find(line, '=', 0);
      if eq < 0 then Unparsed(line) else KeyLine(T.Strip(line[..eq]), T.Strip(line[eq + 1..]))
  }

  datatype KeyClass = Index(i: nat) | Prop(i: nat, prop: string) | Other

  predicate Letter(c: char) {
    'A' <= c <= 'Z' || 'a' <= c <= 'z'
  }

  predicate PropName(s: string) {
    s != "" && Letter(s[0]) && forall j :: 0 <= j < |s| ==> Letter(s[j]) || N.IsDigit(s[j]) || s[j] == '_'
  }

  function Classify(key: string): KeyClass {
    var n := N.DigitRun(key);
    if n == 0 then Other
    else
      assert forall c :: c in key[..n] ==> N.IsDigit(c);
      if n == |key| then assert key[..n] == key; Index(N.Number(key[..n]))
      else if PropName(key[n..]) then Prop(N.Number(key[..n]), key[n..])
      else Other
  }

  // ----- one section -----

  /** What the lines of one entry index have contributed. */
  datatype Slot = Slot(
    props: map<string, string>,
    cmdline: Option<string>,
    parameters: Option<string>,
    rawCmdline: Option<string>,
    rawFirst: Option<string>,
    positional: Option<string>,
    rawPositional: Option<string>,
    hasSplit: bool,
    hasPositional: bool)

  const EMPTY_SLOT := Slot(map[], None, None, None, None, None, None, false, false)

  datatype Section = Section(name: string, slots: map<nat, Slot>, otherKeys: seq<(string, string)>)

  datatype Line = Line(raw: string, key: string, value: string)

  function Keep<T>(old': Option<T>, new': T): Option<T> {
    if old'.Some? then old' else Some(new')
  }

  function AddPositional(s: Slot, l: Line): Slot {
    s.(hasPositional := true,
       rawPositional := if s.positional.None? then Some(l.raw) else s.rawPositional,
       positional := Keep(s.positional, l.value))
  }

  function AddProp(s: Slot, fold: T.Fold, prop: string, l: Line): Slot {
    var known := s.(
      hasSplit := true,
      rawFirst := if prop in s.props then s.rawFirst else Keep(s.rawFirst, l.raw),
      props := if prop in s.props then s.props else s.props[prop := l.value]);
    if fold(prop) == "cmdline" then known.(cmdline := Keep(s.cmdline, l.value), rawCmdline := Some(l.raw))
    else if fold(prop) == "parameters" then known.(parameters := Keep(s.parameters, l.value))
    else known
  }

  function SlotOf(s: Section, i: nat): Slot {
    if i in s.slots then s.slots[i] else EMPTY_SLOT
  }

  function AddTo(s: Section, fold: T.Fold, l: Line): Section {
    match Classify(l.key)
    case Index(i) => s.(slots := s.slots[i := AddPositional(SlotOf(s, i), l)])
    case Prop(i, prop) => s.(slots := s.slots[i := AddProp(SlotOf(s, i), fold, prop, l)])
    case Other => s.(otherKeys := s.otherKeys + [(l.key, l.value)])
  }

  function NewSection(name: string): Section {
    Section(name, map[], [])
  }

  /** Adding lines one after another to a fresh section. */
  function Folded(name: string, fold: T.Fold, ls: seq<Line>): Section {
    if ls == [] then NewSection(name) else AddTo(Folded(name, fold, ls[..|ls| - 1]), fold, ls[|ls| - 1])
  }

  class SectionBuilder {
    var name: string
    var slots: map<nat, Slot>
    var otherKeys: seq<(string, string)>

    function View(): Section
      reads this
    {
      Section(name, slots, otherKeys)
    }

    constructor (name: string)
      ensures View() == NewSection(name)
    {
      this.name, slots, otherKeys := name, map[], [];
    }

    method Add(fold: T.Fold, raw: string, key: string, value: string)
      modifies this
      ensures View() == AddTo(old(View()), fold, Line(raw, key, value))
    {
      var class' := Classify(key);
      if class'.Index? {
        var slot := if class'.i in slots then slots[class'.i] else EMPTY_SLOT;
        slot := slot.(hasPositional := true);
        if slot.positional.None? {
          slot := slot.(positional := Some(value), rawPositional := Some(raw));
        }
        slots := slots[class'.i := slot];
        return;
      }
      if class'.Prop? {
        var slot := if class'.i in slots then slots[class'.i] else EMPTY_SLOT;
        slot := slot.(hasSplit := true);
        var folded := fold(class'.prop);
        if class'.prop !in slot.props {
          slot := slot.(props := slot.props[class'.prop := value]);
          if slot.rawFirst.None? {
            slot := slot.(rawFirst := Some(raw));
          }
        }
        if folded == "cmdline" {
          if slot.cmdline.None? {
            slot := slot.(cmdline := Some(value));
          }
          slot := slot.(rawCmdline := Some(raw));
        } else if folded == "parameters" {
          if slot.parameters.None? {
            slot := slot.(parameters := Some(value));
          }
        }
        slots := slots[class'.i := slot];
        return;
      }
      otherKeys := otherKeys + [(key, value)];
    }
  }

  // ----- the whole document -----

  /** The case-folded name of the section that governs what follows `lines`, if any line has opened one. */
  function Governing(fold: T.Fold, lines: seq<string>): Option<string> {
    if lines == [] then None
    else
      var before := Governing(fold, lines[..|lines| - 1]);
      match KindOf(lines[|lines| - 1])
      case Header(name) => Some(fold(name))
      case KeyLine(_, _) => if before.None? then Some("") else before
      case _ => before
  }

  /** The key lines governed by headers with one folded name, in order; keys before any header belong to "". */
  function Governed(fold: T.Fold, lines: seq<string>, folded: string): seq<Line> {
    if lines == [] then []
    else
      var init, raw := lines[..|lines| - 1], lines[|lines| - 1];
      match KindOf(raw)
      case KeyLine(key, value) =>
        if Governing(fold, lines) == Some(folded) then Governed(fold, init, folded) + [Line(raw, key, value)]
        else Governed(fold, init, folded)
      case _ => Governed(fold, init, folded)
  }

  function Rejected(raw: string): seq<string> {
    match KindOf(raw)
    case Unparsed(line) => [line]
    case _ => []
  }

  /** The lines that are neither header nor key line nor blank nor comment. */
  function UnparsedLines(lines: seq<string>): seq<string> {
    if lines == [] then [] else UnparsedLines(lines[..|lines| - 1]) + Rejected(lines[|lines| - 1])
  }

  function Opens(fold: T.Fold, names: seq<string>, name: string): seq<string> {
    if exists i :: 0 <= i < |names| && fold(names[i]) == fold(name) then names else names + [name]
  }

  /** The section names in the order they are first opened, each as first written. */
  function Opened(fold: T.Fold, lines: seq<string>): seq<string> {
    if lines == [] then []
    else
      var init := lines[..|lines| - 1];
      match KindOf(lines[|lines| - 1])
      case Header(name) => Opens(fold, Opened(fold, init), name)
      case KeyLine(_, _) => if Governing(fold, init).None? then Opens(fold, Opened(fold, init), "") else Opened(fold, init)
      case _ => Opened(fold, init)
  }

  /**
   The document: one section for every name, each holding what its own lines, in their own order, fold to.
   Nothing else about the file matters to a section.
   */
  function Sections(fold: T.Fold, lines: seq<string>): seq<Section> {
    var names := Opened(fold, lines);
    seq(|names|, i requires 0 <= i < |names| => Folded(names[i], fold, Governed(fold, lines, fold(names[i]))))
  }

  /** The builder of a folded name, made on first sight. */
  method SectionFor(builders: seq<SectionBuilder>, byName: map<string, nat>, name: string, folded: string)
    returns (bs: seq<SectionBuilder>, names: map<string, nat>)
    ensures folded in names
    ensures folded in byName ==> bs == builders && names == byName
    ensures folded !in byName ==>
      |bs| == |builders| + 1 && bs[..|builders|] == builders && fresh(bs[|builders|])
      && bs[|builders|].View() == NewSection(name) && names == byName[folded := |builders|]
  {
    bs, names := builders, byName;
    if folded !in names {
      var builder := new SectionBuilder(name);
      names := names[folded := |bs|];
      bs := bs + [builder];
    }
  }

  method OnHeader(fold: T.Fold, builders: seq<SectionBuilder>, byName: map<string, nat>, ghost current: Option<nat>,
                  ghost lines: seq<string>, ghost raw: string, name: string)
    returns (bs: seq<SectionBuilder>, names: map<string, nat>, now: Option<nat>)
    requires T.Distinct(builders) && Tracks(fold, lines, Views(builders), byName, current) && KindOf(raw) == Header(name)
    ensures T.Distinct(bs) && Tracks(fold, lines + [raw], Views(bs), names, now)
    ensures forall b :: b in bs ==> b in builders || fresh(b)
  {
    var folded := fold(name);
    bs, names := SectionFor(builders, byName, name, folded);
    hide Tracks, KindOf;
    assert Views(bs) == if folded in byName then Views(builders) else Views(builders) + [NewSection(name)];
    TracksHeader(fold, lines, raw, name, Views(builders), byName, current, Views(bs), names);
    now := Some(names[folded]);
  }

  method OnKeyLine(fold: T.Fold, builders: seq<SectionBuilder>, byName: map<string, nat>, current: Option<nat>,
                   ghost lines: seq<string>, raw: string, key: string, value: string)
    returns (bs: seq<SectionBuilder>, names: map<string, nat>, now: Option<nat>)
    requires fold("") == "" && KindOf(raw) == KeyLine(key, value)
    requires T.Distinct(builders) && Tracks(fold, lines, Views(builders), byName, current)
    modifies builders
    ensures T.Distinct(bs) && Tracks(fold, lines + [raw], Views(bs), names, now)
    ensures forall b :: b in bs ==> b in builders || fresh(b)
  {
    hide Tracks, Table, Contents, KindOf, AddTo, OpenedNext;
    bs, names, now := builders, byName, current;
    if current.None? {
      bs, names := SectionFor(builders, byName, "", "");
      now := Some(names[""]);
    }
    ghost var before := Views(bs);
    assert Views(bs) == if |bs| == |builders| then Views(builders) else Views(builders) + [NewSection("")];
    TracksOpen(fold, lines, Views(builders), byName, current, before, names, now);
    var k := now.get;
    TracksKey(fold, lines, raw, key, value, before, names, k);
    bs[k].Add(fold, raw, key, value);
    assert Views(bs) == before[k := AddTo(before[k], fold, Line(raw, key, value))];
  }

  method Collect(builders: seq<SectionBuilder>) returns (sections: seq<Section>)
    ensures sections == Views(builders)
  {
    sections := [];
    for i := 0 to |builders|
      invariant sections == Views(builders)[..i]
    {
      sections := sections + [builders[i].View()];
    }
  }

  method OnLine(fold: T.Fold, builders: seq<SectionBuilder>, byName: map<string, nat>, current: Option<nat>,
                ghost lines: seq<string>, raw: string, ghost repr: set<object>)
    returns (bs: seq<SectionBuilder>, names: map<string, nat>, now: Option<nat>, rejected: seq<string>, ghost more: set<object>)
    requires fold("") == "" && (forall b :: b in builders ==> b in repr)
    requires T.Distinct(builders) && Tracks(fold, lines, Views(builders), byName, current)
    modifies repr
    ensures T.Distinct(bs) && Tracks(fold, lines + [raw], Views(bs), names, now)
    ensures rejected == Rejected(raw)
    ensures fresh(more - repr) && forall b :: b in bs ==> b in more
  {
    hide KindOf, Tracks;
    bs, names, now, rejected := builders, byName, current, [];
    match KindOf(raw) {
      case Ignored =>
        TracksQuiet(fold, lines, raw, Views(builders), byName, current);
      case Header(name) =>
        bs, names, now := OnHeader(fold, builders, byName, current, lines, raw, name);
      case Unparsed(line) =>
        rejected := [line];
        TracksQuiet(fold, lines, raw, Views(builders), byName, current);
      case KeyLine(key, value) =>
        bs, names, now := OnKeyLine(fold, builders, byName, current, lines, raw, key, value);
    }
    more := repr + set b | b in bs;
  }

  method ParseLines(fold: T.Fold, lines: seq<string>) returns (sections: seq<Section>, unparsed: seq<string>)
    requires fold("") == ""
    ensures sections == Sections(fold, lines)
    ensures unparsed == UnparsedLines(lines)
  {
    var builders: seq<SectionBuilder> := [];
    var byName: map<string, nat> := map[];
    var current: Option<nat> := None;
    ghost var repr: set<object> := {};
    unparsed := [];
    TracksStart(fold);
    assert lines[..0] == [] && Views(builders) == [];
    hide Tracks, UnparsedLines, Sections, Rejected;
    for n := 0 to |lines|
      invariant fresh(repr) && forall b :: b in builders ==> b in repr
      invariant T.Distinct(builders)
      invariant Tracks(fold, lines[..n], Views(builders), byName, current)
      invariant unparsed == UnparsedLines(lines[..n])
    {
      Taken(lines, n);
      UnparsedStep(lines[..n], lines[n]);
      var rejected;
      builders, byName, current, rejected, repr := OnLine(fold, builders, byName, current, lines[..n], lines[n], repr);
      unparsed := unparsed + rejected;
    }
    Taken(lines, |lines|);
    sections := Collect(builders);
    TracksParsed(fold, lines, sections, byName, current);
  }

  lemma Taken(lines: seq<string>, n: nat)
    requires n <= |lines|
    ensures n < |lines| ==> lines[..n + 1] == lines[..n] + [lines[n]]
    ensures n == |lines| ==> lines[..n] == lines
  {
  }

  lemma TracksStart(fold: T.Fold)
    ensures Tracks(fold, [], [], map[], None)
  {
  }

  lemma UnparsedStep(lines: seq<string>, raw: string)
    ensures UnparsedLines(lines + [raw]) == UnparsedLines(lines) + Rejected(raw)
  {
    Append(lines, raw);
    hide Rejected;
  }

  ghost function Views(bs: seq<SectionBuilder>): (r: seq<Section>)
    reads bs
    ensures |r| == |bs| && forall i :: 0 <= i < |bs| ==> r[i] == bs[i].View()
  {
    seq(|bs|, i requires 0 <= i < |bs| reads bs => bs[i].View())
  }

  /** The name table finds every section under its folded name. */
  ghost predicate Table(fold: T.Fold, ss: seq<Section>, byName: map<string, nat>) {
    (forall f :: f in byName ==> byName[f] < |ss| && fold(ss[byName[f]].name) == f)
    && (forall i :: 0 <= i < |ss| ==> fold(ss[i].name) in byName && byName[fold(ss[i].name)] == i)
  }

  ghost predicate Contents(fold: T.Fold, lines: seq<string>, ss: seq<Section>) {
    forall i :: 0 <= i < |ss| ==> ss[i] == Folded(ss[i].name, fold, Governed(fold, lines, fold(ss[i].name)))
  }

  /** The sections stand in the order their names were first opened, and no other section has had a line. */
  ghost predicate Named(fold: T.Fold, lines: seq<string>, ss: seq<Section>, byName: map<string, nat>) {
    NamesOf(ss) == Opened(fold, lines)
    && forall f :: f !in byName ==> Governed(fold, lines, f) == []
  }

  function NamesOf(ss: seq<Section>): (r: seq<string>)
    ensures |r| == |ss| && forall i :: 0 <= i < |r| ==> r[i] == ss[i].name
  {
    seq(|ss|, i requires 0 <= i < |ss| => ss[i].name)
  }

  ghost predicate Current(fold: T.Fold, lines: seq<string>, ss: seq<Section>, current: Option<nat>) {
    (current.None? <==> Governing(fold, lines).None?)
    && (current.Some? ==> current.get < |ss| && fold(ss[current.get].name) == Governing(fold, lines).get)
  }

  /** How the sections, the name table and the current section stand once `lines` are read. */
  ghost predicate Tracks(fold: T.Fold, lines: seq<string>, ss: seq<Section>, byName: map<string, nat>, current: Option<nat>) {
    Table(fold, ss, byName) && Contents(fold, lines, ss) && Named(fold, lines, ss, byName) && Current(fold, lines, ss, current)
  }

  lemma Append(lines: seq<string>, raw: string)
    ensures (lines + [raw])[..|lines|] == lines && (lines + [raw])[|lines|] == raw
  {
  }

  lemma GovernedQuiet(fold: T.Fold, lines: seq<string>, raw: string)
    requires !KindOf(raw).KeyLine?
    ensures forall f :: Governed(fold, lines + [raw], f) == Governed(fold, lines, f)
    ensures Governing(fold, lines + [raw]) == if KindOf(raw).Header? then Some(fold(KindOf(raw).name)) else Governing(fold, lines)
    ensures Opened(fold, lines + [raw]) ==
      if KindOf(raw).Header? then Opens(fold, Opened(fold, lines), KindOf(raw).name) else Opened(fold, lines)
  {
    Append(lines, raw);
    hide KindOf;
  }

  lemma {:induction false} TracksQuiet(fold: T.Fold, lines: seq<string>, raw: string, ss: seq<Section>, byName: map<string, nat>, current: Option<nat>)
    requires Tracks(fold, lines, ss, byName, current)
    requires KindOf(raw).Ignored? || KindOf(raw).Unparsed?
    ensures Tracks(fold, lines + [raw], ss, byName, current)
  {
    hide KindOf, Governed, Governing, Folded, Table, Opened, Opens;
    GovernedQuiet(fold, lines, raw);
  }

  lemma TableGrows(fold: T.Fold, ss: seq<Section>, names: map<string, nat>, name: string)
    requires Table(fold, ss, names) && fold(name) !in names
    ensures Table(fold, ss + [NewSection(name)], names[fold(name) := |ss|])
    ensures NamesOf(ss + [NewSection(name)]) == Opens(fold, NamesOf(ss), name)
  {
    var known := NamesOf(ss);
    assert forall i :: 0 <= i < |known| ==> fold(ss[i].name) in names && fold(known[i]) != fold(name);
    var tt := ss + [NewSection(name)];
    assert forall i :: 0 <= i < |ss| ==> tt[i] == ss[i];
  }

  lemma TableKnows(fold: T.Fold, ss: seq<Section>, names: map<string, nat>, name: string)
    requires Table(fold, ss, names) && fold(name) in names
    ensures NamesOf(ss) == Opens(fold, NamesOf(ss), name)
  {
    assert fold(NamesOf(ss)[names[fold(name)]]) == fold(name);
  }

  lemma ContentsGrow(fold: T.Fold, lines: seq<string>, ss: seq<Section>, names: map<string, nat>, name: string)
    requires Contents(fold, lines, ss) && Governed(fold, lines, fold(name)) == []
    ensures Contents(fold, lines, ss + [NewSection(name)])
  {
    assert Folded(name, fold, []) == NewSection(name);
    hide Folded, Governed;
    var tt := ss + [NewSection(name)];
    assert forall i :: 0 <= i < |ss| ==> tt[i] == ss[i];
  }

  lemma {:induction false} TracksHeader(fold: T.Fold, lines: seq<string>, raw: string, name: string, ss: seq<Section>, names: map<string, nat>,
                     current: Option<nat>, tt: seq<Section>, byName: map<string, nat>)
    requires Tracks(fold, lines, ss, names, current)
    requires KindOf(raw) == Header(name)
    requires
      if fold(name) in names then tt == ss && byName == names
      else tt == ss + [NewSection(name)] && byName == names[fold(name) := |ss|]
    ensures fold(name) in byName && Tracks(fold, lines + [raw], tt, byName, Some(byName[fold(name)]))
  {
    if fold(name) !in names {
      TableGrows(fold, ss, names, name);
      ContentsGrow(fold, lines, ss, names, name);
    } else {
      TableKnows(fold, ss, names, name);
    }
    hide KindOf, Governed, Governing, Folded, Opened, Opens;
    GovernedQuiet(fold, lines, raw);
    assert Contents(fold, lines + [raw], tt) by { hide Table; }
    assert Current(fold, lines + [raw], tt, Some(byName[fold(name)])) by { hide Contents; }
  }

  /** A key line before any header opens the unnamed section. */
  lemma TracksOpen(fold: T.Fold, lines: seq<string>, ss: seq<Section>, names: map<string, nat>, was: Option<nat>,
                   tt: seq<Section>, byName: map<string, nat>, current: Option<nat>)
    requires Tracks(fold, lines, ss, names, was) && fold("") == ""
    requires
      if was.Some? then tt == ss && byName == names && current == was
      else if "" in names then tt == ss && byName == names && current == Some(names[""])
      else tt == ss + [NewSection("")] && byName == names["" := |ss|] && current == Some(|ss|)
    ensures current.Some? && current.get < |tt|
    ensures fold(tt[current.get].name) == GovernsNext(fold, lines)
    ensures Table(fold, tt, byName) && Contents(fold, lines, tt)
    ensures NamesOf(tt) == OpenedNext(fold, lines)
    ensures forall f :: f !in byName ==> Governed(fold, lines, f) == []
  {
    hide Governed, Governing, Folded, Opened, Opens;
    if was.None? {
      if "" !in names {
        TableGrows(fold, ss, names, "");
        ContentsGrow(fold, lines, ss, names, "");
      } else {
        TableKnows(fold, ss, names, "");
      }
    }
  }

  /** The folded name of the section a key line after `lines` belongs to. */
  function GovernsNext(fold: T.Fold, lines: seq<string>): string {
    if Governing(fold, lines).None? then "" else Governing(fold, lines).get
  }

  function OpenedNext(fold: T.Fold, lines: seq<string>): seq<string> {
    if Governing(fold, lines).None? then Opens(fold, Opened(fold, lines), "") else Opened(fold, lines)
  }

  lemma {:induction false} TracksKey(fold: T.Fold, lines: seq<string>, raw: string, key: string, value: string,
                  ss: seq<Section>, byName: map<string, nat>, k: nat)
    requires Table(fold, ss, byName) && Contents(fold, lines, ss) && k < |ss|
    requires NamesOf(ss) == OpenedNext(fold, lines) && forall f :: f !in byName ==> Governed(fold, lines, f) == []
    requires KindOf(raw) == KeyLine(key, value) && fold(ss[k].name) == GovernsNext(fold, lines)
    ensures Tracks(fold, lines + [raw], ss[k := AddTo(ss[k], fold, Line(raw, key, value))], byName, Some(k))
  {
    hide KindOf, AddTo, Governed, Folded, Governing, Contents, OpenedNext;
    var l := Line(raw, key, value);
    var f0 := fold(ss[k].name);
    GovernedStep(fold, lines, raw, key, value, f0);
    var tt := ss[k := AddTo(ss[k], fold, l)];
    SameName(ss[k], fold, l);
    assert forall i :: 0 <= i < |tt| ==> tt[i].name == ss[i].name;
    TableKept(fold, ss, tt, byName);
    assert NamesOf(tt) == NamesOf(ss);
    assert forall f :: f !in byName ==> f != f0;
    assert forall i :: 0 <= i < |ss| && i != k ==> byName[fold(ss[i].name)] == i && fold(ss[i].name) != f0;
    ContentsKey(fold, lines, lines + [raw], ss, k, l);
    hide Table;
  }

  lemma SameName(s: Section, fold: T.Fold, l: Line)
    ensures AddTo(s, fold, l).name == s.name
  {
  }

  lemma ContentsKey(fold: T.Fold, lines: seq<string>, more: seq<string>, ss: seq<Section>, k: nat, l: Line)
    requires Contents(fold, lines, ss) && k < |ss|
    requires forall i :: 0 <= i < |ss| && i != k ==> fold(ss[i].name) != fold(ss[k].name)
    requires forall f :: f != fold(ss[k].name) ==> Governed(fold, more, f) == Governed(fold, lines, f)
    requires Governed(fold, more, fold(ss[k].name)) == Governed(fold, lines, fold(ss[k].name)) + [l]
    ensures Contents(fold, more, ss[k := AddTo(ss[k], fold, l)])
  {
    FoldedStep(ss[k].name, fold, Governed(fold, lines, fold(ss[k].name)), l);
    SameName(ss[k], fold, l);
    hide AddTo, Governed, Folded;
    ContentsAt(fold, lines, more, ss, ss[k := AddTo(ss[k], fold, l)], k);
  }

  lemma TableKept(fold: T.Fold, ss: seq<Section>, tt: seq<Section>, byName: map<string, nat>)
    requires Table(fold, ss, byName) && |tt| == |ss|
    requires forall i :: 0 <= i < |tt| ==> tt[i].name == ss[i].name
    ensures Table(fold, tt, byName)
  {
  }

  lemma ContentsAt(fold: T.Fold, lines: seq<string>, more: seq<string>, ss: seq<Section>, tt: seq<Section>, k: nat)
    requires Contents(fold, lines, ss) && |tt| == |ss| && k < |ss|
    requires forall i :: 0 <= i < |tt| && i != k ==> tt[i] == ss[i] && Governed(fold, more, fold(ss[i].name)) == Governed(fold, lines, fold(ss[i].name))
    requires tt[k] == Folded(tt[k].name, fold, Governed(fold, more, fold(tt[k].name)))
    ensures Contents(fold, more, tt)
  {
    hide Folded, Governed;
  }

  lemma GovernedStep(fold: T.Fold, lines: seq<string>, raw: string, key: string, value: string, f0: string)
    requires KindOf(raw) == KeyLine(key, value)
    requires f0 == GovernsNext(fold, lines)
    ensures Governing(fold, lines + [raw]) == Some(f0)
    ensures Opened(fold, lines + [raw]) == OpenedNext(fold, lines)
    ensures Governed(fold, lines + [raw], f0) == Governed(fold, lines, f0) + [Line(raw, key, value)]
    ensures forall f :: f != f0 ==> Governed(fold, lines + [raw], f) == Governed(fold, lines, f)
  {
    Append(lines, raw);
    hide KindOf;
  }

  lemma FoldedStep(name: string, fold: T.Fold, g: seq<Line>, l: Line)
    ensures Folded(name, fold, g + [l]) == AddTo(Folded(name, fold, g), fold, l)
  {
    assert (g + [l])[..|g|] == g;
    hide AddTo;
  }

  lemma {:induction false} TracksParsed(fold: T.Fold, lines: seq<string>, ss: seq<Section>, byName: map<string, nat>, current: Option<nat>)
    requires Tracks(fold, lines, ss, byName, current)
    ensures ss == Sections(fold, lines)
  {
    hide Folded, Governed, Opened, Current, Table;
    assert forall i :: 0 <= i < |ss| ==> NamesOf(ss)[i] == ss[i].name;
  }
}
