/**
 What a parsed scripts.ini section means: which lines it keeps, what its entries are built from, why the
 interleaving of sections does not matter, and that printing entries in split style and parsing them back is exact.
 */
module ScriptEntries {
  import opened Options
  import T = Text
  import N = Numerals
  import opened ScriptsIni

  // ----- sections depend on their own lines only -----

  /** A header forgets which section was open before it. */
  predicate StartsWithHeader(lines: seq<string>) {
    lines != [] && KindOf(lines[0]).Header?
  }

  lemma {:induction false} GovernedConcat(fold: T.Fold, a: seq<string>, b: seq<string>, f: string)
    requires b == [] || StartsWithHeader(b)
    ensures Governed(fold, a + b, f) == Governed(fold, a, f) + Governed(fold, b, f)
    ensures b != [] ==> Governing(fold, a + b) == Governing(fold, b)
    decreases |b|
  {
    if b == [] {
      assert a + b == a;
    } else {
      var init, raw := b[..|b| - 1], b[|b| - 1];
      assert init != [] ==> init[0] == b[0];
      LastLine(fold, a + b, a + init, raw, f);
      LastLine(fold, b, init, raw, f);
      hide KindOf, Governed, Governing;
      GovernedConcat(fold, a, init, f);
      var tail := if KindOf(raw).KeyLine? && Governing(fold, b) == Some(f) then [Line(raw, KindOf(raw).key, KindOf(raw).value)] else [];
      assert Governing(fold, a + b) == Governing(fold, b);
      T.Assoc(Governed(fold, a, f), Governed(fold, init, f), tail);
    }
  }

  lemma LastLine(fold: T.Fold, lines: seq<string>, init: seq<string>, raw: string, f: string)
    requires lines == init + [raw]
    ensures Governing(fold, lines) == match KindOf(raw)
      case Header(name) => Some(fold(name))
      case KeyLine(_, _) => Some(GovernsNext(fold, init))
      case _ => Governing(fold, init)
    ensures Governed(fold, lines, f) == Governed(fold, init, f)
      + if KindOf(raw).KeyLine? && Governing(fold, lines) == Some(f) then [Line(raw, KindOf(raw).key, KindOf(raw).value)] else []
  {
    assert lines[..|lines| - 1] == init;
    hide KindOf;
  }

  /** Text in which every key line belongs to one section, opened on its first line. */
  predicate Block(fold: T.Fold, lines: seq<string>, folded: string) {
    StartsWithHeader(lines)
    && forall i :: 0 <= i < |lines| && KindOf(lines[i]).Header? ==> fold(KindOf(lines[i]).name) == folded
  }

  lemma {:induction false} BlockGovernsOne(fold: T.Fold, b: seq<string>, folded: string, f: string)
    requires Block(fold, b, folded)
    ensures Governing(fold, b) == Some(folded)
    ensures f != folded ==> Governed(fold, b, f) == []
    decreases |b|
  {
    hide KindOf;
    if |b| == 1 {
      assert b[..0] == [];
    } else {
      BlockGovernsOne(fold, b[..|b| - 1], folded, f);
    }
  }

  /** Exchanging two neighbouring blocks of different sections changes no section's lines. */
  lemma {:induction false} InterleavingIsIrrelevant(fold: T.Fold, a: seq<string>, b1: seq<string>, b2: seq<string>, c: seq<string>,
                                 f1: string, f2: string, f: string)
    requires Block(fold, b1, f1) && Block(fold, b2, f2) && f1 != f2
    requires c == [] || StartsWithHeader(c)
    ensures Governed(fold, a + b1 + b2 + c, f) == Governed(fold, a + b2 + b1 + c, f)
  {
    hide Governed, Governing, KindOf, Block, StartsWithHeader;
    BlockStarts(fold, b1, f1);
    BlockStarts(fold, b2, f2);
    TwoBlocks(fold, a, b1, b2, f1, f2, f);
    TwoBlocks(fold, a, b2, b1, f2, f1, f);
    GovernedConcat(fold, a + b1 + b2, c, f);
    GovernedConcat(fold, a + b2 + b1, c, f);
  }

  lemma BlockStarts(fold: T.Fold, b: seq<string>, f: string)
    requires Block(fold, b, f)
    ensures StartsWithHeader(b)
  {
  }

  lemma {:induction false} TwoBlocks(fold: T.Fold, a: seq<string>, b1: seq<string>, b2: seq<string>, f1: string, f2: string, f: string)
    requires Block(fold, b1, f1) && Block(fold, b2, f2) && f1 != f2
    ensures Governed(fold, a + b1 + b2, f) == Governed(fold, a, f)
      + if f == f1 then Governed(fold, b1, f) else if f == f2 then Governed(fold, b2, f) else []
  {
    hide Governed, Governing, KindOf;
    GovernedConcat(fold, a, b1, f);
    GovernedConcat(fold, a + b1, b2, f);
    BlockGovernsOne(fold, b1, f1, f);
    BlockGovernsOne(fold, b2, f2, f);
  }

  lemma {:induction false} ContentIgnoresName(a: string, b: string, fold: T.Fold, ls: seq<Line>)
    ensures Folded(a, fold, ls).slots == Folded(b, fold, ls).slots
    ensures Folded(a, fold, ls).otherKeys == Folded(b, fold, ls).otherKeys
  {
    if ls != [] {
      hide Classify, AddPositional, AddProp;
      ContentIgnoresName(a, b, fold, ls[..|ls| - 1]);
    }
  }

  /** Two documents that give one section the same lines in the same order give it the same content. */
  lemma {:induction false} SectionsDependOnTheirOwnLines(fold: T.Fold, one: seq<string>, two: seq<string>, i: nat, j: nat)
    requires i < |Sections(fold, one)| && j < |Sections(fold, two)|
    requires fold(Sections(fold, one)[i].name) == fold(Sections(fold, two)[j].name)
    requires
      var f := fold(Sections(fold, one)[i].name);
      Governed(fold, one, f) == Governed(fold, two, f)
    ensures Sections(fold, one)[i].slots == Sections(fold, two)[j].slots
    ensures Sections(fold, one)[i].otherKeys == Sections(fold, two)[j].otherKeys
  {
    var a, b := Opened(fold, one)[i], Opened(fold, two)[j];
    FoldedName(a, fold, Governed(fold, one, fold(a)));
    FoldedName(b, fold, Governed(fold, two, fold(b)));
    ContentIgnoresName(a, b, fold, Governed(fold, one, fold(a)));
  }

  lemma {:induction false} FoldedName(name: string, fold: T.Fold, ls: seq<Line>)
    ensures Folded(name, fold, ls).name == name
  {
    if ls != [] {
      hide Classify, AddPositional, AddProp;
      FoldedName(name, fold, ls[..|ls| - 1]);
    }
  }

  // ----- every line is accounted for -----

  predicate Known(fold: T.Fold, names: seq<string>, folded: string) {
    exists i :: 0 <= i < |names| && fold(names[i]) == folded
  }

  predicate FoldDistinct(fold: T.Fold, names: seq<string>) {
    forall i, j :: 0 <= i < j < |names| ==> fold(names[i]) != fold(names[j])
  }

  lemma OpensKeeps(fold: T.Fold, names: seq<string>, name: string)
    requires FoldDistinct(fold, names)
    ensures FoldDistinct(fold, Opens(fold, names, name)) && names <= Opens(fold, names, name)
    ensures Known(fold, Opens(fold, names, name), fold(name))
    ensures forall f :: Known(fold, names, f) ==> Known(fold, Opens(fold, names, name), f)
  {
    var more := Opens(fold, names, name);
    assert more != names ==> more[|names|] == name;
    forall f | Known(fold, names, f) ensures Known(fold, more, f) {
      var i :| 0 <= i < |names| && fold(names[i]) == f;
      assert more[i] == names[i];
    }
  }

  /** No two sections share a folded name, and whatever section is open is one of them. */
  lemma {:induction false} OpenedDistinct(fold: T.Fold, lines: seq<string>)
    requires fold("") == ""
    ensures FoldDistinct(fold, Opened(fold, lines))
    ensures Governing(fold, lines).Some? ==> Known(fold, Opened(fold, lines), Governing(fold, lines).get)
  {
    if lines != [] {
      var init := lines[..|lines| - 1];
      OpenedDistinct(fold, init);
      hide Opens, Known, FoldDistinct, KindOf;
      var kind := KindOf(lines[|lines| - 1]);
      if kind.Header? {
        OpensKeeps(fold, Opened(fold, init), kind.name);
      } else if kind.KeyLine? {
        OpensKeeps(fold, Opened(fold, init), "");
      }
    }
  }

  lemma {:induction false} Grows(fold: T.Fold, lines: seq<string>, n: nat, f: string)
    requires n <= |lines| && fold("") == ""
    ensures Governed(fold, lines[..n], f) <= Governed(fold, lines, f)
    ensures Opened(fold, lines[..n]) <= Opened(fold, lines)
  {
    if n == |lines| {
      assert lines[..n] == lines;
    } else {
      var init := lines[..|lines| - 1];
      assert init[..n] == lines[..n];
      Grows(fold, init, n, f);
      OpenedDistinct(fold, init);
      hide Opens, KindOf;
      var kind := KindOf(lines[|lines| - 1]);
      if kind.Header? {
        OpensKeeps(fold, Opened(fold, init), kind.name);
      } else if kind.KeyLine? {
        OpensKeeps(fold, Opened(fold, init), "");
      }
    }
  }

  /** A key line is kept, in its place among the lines of one existing section, and no other section sees it. */
  lemma {:induction false} EveryKeyLineIsKept(fold: T.Fold, lines: seq<string>, n: nat)
    requires fold("") == "" && n < |lines| && KindOf(lines[n]).KeyLine?
    ensures
      var (f, before) := (GovernsNext(fold, lines[..n]), Governed(fold, lines[..n], GovernsNext(fold, lines[..n])));
      && Known(fold, Opened(fold, lines), f)
      && |before| < |Governed(fold, lines, f)|
      && Governed(fold, lines, f)[|before|] == Line(lines[n], KindOf(lines[n]).key, KindOf(lines[n]).value)
    ensures forall g :: g != GovernsNext(fold, lines[..n]) ==> Governed(fold, lines[..n + 1], g) == Governed(fold, lines[..n], g)
  {
    var f := GovernsNext(fold, lines[..n]);
    assert lines[..n + 1] == lines[..n] + [lines[n]];
    GovernedStep(fold, lines[..n], lines[n], KindOf(lines[n]).key, KindOf(lines[n]).value, f);
    Grows(fold, lines, n + 1, f);
    OpenedDistinct(fold, lines[..n + 1]);
    hide Governed, Governing, Opened, KindOf, GovernsNext;
    assert Known(fold, Opened(fold, lines[..n + 1]), f);
    var i :| 0 <= i < |Opened(fold, lines[..n + 1])| && fold(Opened(fold, lines[..n + 1])[i]) == f;
    assert Opened(fold, lines)[i] == Opened(fold, lines[..n + 1])[i];
  }

  // ----- what a section's lines contribute -----

  function Others(ls: seq<Line>): seq<(string, string)> {
    if ls == [] then []
    else
      var l := ls[|ls| - 1];
      Others(ls[..|ls| - 1]) + if Classify(l.key).Other? then [(l.key, l.value)] else []
  }

  predicate Touches(l: Line, i: nat) {
    var c := Classify(l.key);
    (c.Index? || c.Prop?) && c.i == i
  }

  /** The lines spelling the CmdLine property of one index, in order. */
  function CmdLines(fold: T.Fold, ls: seq<Line>, i: nat): seq<Line> {
    if ls == [] then []
    else
      var l := ls[|ls| - 1];
      var c := Classify(l.key);
      CmdLines(fold, ls[..|ls| - 1], i) + if c.Prop? && c.i == i && fold(c.prop) == "cmdline" then [l] else []
  }

  predicate WellFormed(s: Slot) {
    (s.hasPositional <==> s.positional.Some?) && (s.hasPositional <==> s.rawPositional.Some?)
    && (s.cmdline.Some? <==> s.rawCmdline.Some?)
    && (s.hasSplit <==> s.rawFirst.Some?) && (!s.hasSplit ==> s.props == map[] && s.cmdline.None? && s.parameters.None?)
    && (s.hasSplit ==> s.props != map[])
  }

  /** Every line of a section is either an other key, kept in order, or part of the entry of its index. */
  lemma {:induction false} LinesAreContributions(name: string, fold: T.Fold, ls: seq<Line>, i: nat)
    ensures Folded(name, fold, ls).otherKeys == Others(ls)
    ensures i in Folded(name, fold, ls).slots <==> exists n :: 0 <= n < |ls| && Touches(ls[n], i)
  {
    if ls != [] {
      var init := ls[..|ls| - 1];
      OtherStep(name, fold, ls);
      SlotStep(name, fold, ls, i);
      hide Folded, Touches, Classify, Others, SlotOf, AddPositional, AddProp;
      LinesAreContributions(name, fold, init, i);
      assert forall n :: 0 <= n < |init| ==> ls[n] == init[n];
    }
  }

  lemma SlotStep(name: string, fold: T.Fold, ls: seq<Line>, i: nat)
    requires ls != []
    ensures
      var (before, l) := (Folded(name, fold, ls[..|ls| - 1]), ls[|ls| - 1]);
      SlotOf(Folded(name, fold, ls), i) ==
        match Classify(l.key)
        case Index(j) => if j == i then AddPositional(SlotOf(before, i), l) else SlotOf(before, i)
        case Prop(j, prop) => if j == i then AddProp(SlotOf(before, i), fold, prop, l) else SlotOf(before, i)
        case Other => SlotOf(before, i)
    ensures i in Folded(name, fold, ls).slots <==> i in Folded(name, fold, ls[..|ls| - 1]).slots || Touches(ls[|ls| - 1], i)
  {
    hide Classify, AddPositional, AddProp;
  }

  lemma OtherStep(name: string, fold: T.Fold, ls: seq<Line>)
    requires ls != []
    ensures
      var l := ls[|ls| - 1];
      Folded(name, fold, ls).otherKeys ==
        Folded(name, fold, ls[..|ls| - 1]).otherKeys + if Classify(l.key).Other? then [(l.key, l.value)] else []
    ensures Others(ls) ==
      Others(ls[..|ls| - 1]) + if Classify(ls[|ls| - 1].key).Other? then [(ls[|ls| - 1].key, ls[|ls| - 1].value)] else []
  {
    hide Classify, AddPositional, AddProp;
  }

  lemma AddsKeepWellFormed(s: Slot, fold: T.Fold, l: Line)
    requires WellFormed(s)
    ensures WellFormed(AddPositional(s, l)) && AddPositional(s, l).hasPositional
    ensures forall prop :: WellFormed(AddProp(s, fold, prop, l)) && AddProp(s, fold, prop, l).hasSplit
  {
  }

  /** The assertion in `build` never fires: an entry without split properties has a positional value. */
  lemma {:induction false} SlotsAreWellFormed(name: string, fold: T.Fold, ls: seq<Line>, i: nat)
    ensures WellFormed(SlotOf(Folded(name, fold, ls), i))
    ensures i in Folded(name, fold, ls).slots ==> SlotOf(Folded(name, fold, ls), i).hasSplit || SlotOf(Folded(name, fold, ls), i).hasPositional
  {
    if ls != [] {
      hide Classify, Folded, SlotOf, Touches, WellFormed;
      SlotsAreWellFormed(name, fold, ls[..|ls| - 1], i);
      SlotStep(name, fold, ls, i);
      AddsKeepWellFormed(SlotOf(Folded(name, fold, ls[..|ls| - 1]), i), fold, ls[|ls| - 1]);
    }
  }

  lemma CmdLinesStep(fold: T.Fold, ls: seq<Line>, i: nat)
    requires ls != []
    ensures
      var (l, c) := (ls[|ls| - 1], Classify(ls[|ls| - 1].key));
      CmdLines(fold, ls, i) ==
        CmdLines(fold, ls[..|ls| - 1], i) + if c.Prop? && c.i == i && fold(c.prop) == "cmdline" then [l] else []
  {
    hide Classify;
  }

  /** The script is what the first CmdLine line of the index says; the raw line kept is the last one. */
  lemma {:induction false} CmdlineIsFirstRawIsLast(name: string, fold: T.Fold, ls: seq<Line>, i: nat)
    ensures
      var (s, lines) := (SlotOf(Folded(name, fold, ls), i), CmdLines(fold, ls, i));
      && s.cmdline == (if lines == [] then None else Some(lines[0].value))
      && s.rawCmdline == (if lines == [] then None else Some(lines[|lines| - 1].raw))
  {
    if ls != [] {
      CmdLinesStep(fold, ls, i);
      hide Classify, Folded, SlotOf, CmdLines, Touches;
      CmdlineIsFirstRawIsLast(name, fold, ls[..|ls| - 1], i);
      SlotStep(name, fold, ls, i);
    }
  }

  // ----- entries -----

  datatype Style = Positional | Split | Mixed

  datatype Entry = Entry(index: nat, script: Option<string>, parameters: Option<string>, raw: string, style: Style,
                         props: map<string, string>)

  /** `script,parameters`: the first comma separates. */
  function SplitPositional(value: string): (Option<string>, Option<string>) {
    if value == "" then (None, None)
    else
      var comma := T.Find(value, ',', 0);
      if comma < 0 then (Some(T.Strip(value)), None)
      else (Some(T.Strip(value[..comma])), Some(T.Strip(value[comma + 1..])))
  }

  /** Python's `a or b` on optional texts. */
  function Or(a: Option<string>, b: Option<string>): Option<string> {
    if a.Some? && a.get != "" then a else b
  }

  function EntryOf(i: nat, s: Slot): Entry
    requires s.hasSplit || s.positional.Some?
  {
    var raw := Or(s.rawCmdline, Or(s.rawFirst, Or(s.rawPositional, None)));
    var (script, parameters) := if s.hasSplit then (s.cmdline, s.parameters) else SplitPositional(s.positional.get);
    Entry(i, script, parameters, if raw.Some? then raw.get else "",
          if s.hasSplit && s.hasPositional then Mixed else if s.hasSplit then Split else Positional, s.props)
  }

  predicate Increasing(s: seq<nat>) {
    forall i, j :: 0 <= i < j < |s| ==> s[i] < s[j]
  }

  method SortIndices(keys: set<nat>) returns (r: seq<nat>)
    ensures Increasing(r) && forall k :: k in r <==> k in keys
  {
    r := [];
    var left := keys;
    while left != {}
      invariant Increasing(r)
      invariant left <= keys && forall k :: k in keys <==> k in left || k in r
      invariant forall k :: k in left ==> k !in r
    {
      var k :| k in left;
      var at := 0;
      while at < |r| && r[at] < k
        invariant at <= |r|
        invariant forall i :: 0 <= i < at ==> r[i] < k
      {
        at := at + 1;
      }
      r := r[..at] + [k] + r[at..];
      left := left - {k};
    }
  }

  /** The entries have increasing indices, exactly those of the slots, and each is its slot's entry. */
  ghost predicate BuiltFrom(s: Section, entries: seq<Entry>)
    requires forall i :: i in s.slots ==> s.slots[i].hasSplit || s.slots[i].positional.Some?
  {
    (forall i, j :: 0 <= i < j < |entries| ==> entries[i].index < entries[j].index)
    && (forall n :: 0 <= n < |entries| ==>
      entries[n].index in s.slots && entries[n] == EntryOf(entries[n].index, s.slots[entries[n].index]))
    && (forall i :: i in s.slots ==> exists n :: 0 <= n < |entries| && entries[n].index == i)
  }

  method Build(s: Section) returns (entries: seq<Entry>)
    requires forall i :: i in s.slots ==> s.slots[i].hasSplit || s.slots[i].positional.Some?
    ensures BuiltFrom(s, entries)
  {
    var order := SortIndices(s.slots.Keys);
    entries := [];
    hide EntryOf;
    for n := 0 to |order|
      invariant |entries| == n
      invariant forall m :: 0 <= m < n ==> order[m] in s.slots && entries[m] == EntryOf(order[m], s.slots[order[m]])
    {
      assert order[n] in order;
      entries := entries + [EntryOf(order[n], s.slots[order[n]])];
    }
    EntriesInOrder(s, order, entries);
  }

  lemma EntriesInOrder(s: Section, order: seq<nat>, entries: seq<Entry>)
    requires forall i :: i in s.slots ==> s.slots[i].hasSplit || s.slots[i].positional.Some?
    requires Increasing(order) && (forall k :: k in order <==> k in s.slots) && |entries| == |order|
    requires forall m :: 0 <= m < |order| ==> order[m] in s.slots && entries[m] == EntryOf(order[m], s.slots[order[m]])
    ensures forall m :: 0 <= m < |order| ==> entries[m].index == order[m]
    ensures forall i :: i in s.slots ==> exists n :: 0 <= n < |entries| && entries[n].index == i
  {
    hide SplitPositional, Or;
    forall i | i in s.slots ensures exists n :: 0 <= n < |entries| && entries[n].index == i {
      var n :| 0 <= n < |order| && order[n] == i;
      assert entries[n].index == i;
    }
  }

  /**
   The raw line of an entry with a CmdLine is that of its last CmdLine line, while its script is the value of the
   first: the raw line is the one that gave the script exactly when those two lines read the same.
   */
  lemma RawLineOfScript(name: string, fold: T.Fold, ls: seq<Line>, i: nat)
    requires CmdLines(fold, ls, i) != []
    requires forall n :: 0 <= n < |ls| ==> ls[n].raw != ""
    ensures
      var (s, lines) := (SlotOf(Folded(name, fold, ls), i), CmdLines(fold, ls, i));
      && s.hasSplit
      && EntryOf(i, s).script == Some(lines[0].value)
      && EntryOf(i, s).raw == lines[|lines| - 1].raw
      && (EntryOf(i, s).raw == lines[0].raw <==> lines[0].raw == lines[|lines| - 1].raw)
  {
    CmdlineIsFirstRawIsLast(name, fold, ls, i);
    SlotsAreWellFormed(name, fold, ls, i);
    CmdLinesAreLines(fold, ls, i);
    hide Folded, SlotOf, CmdLines, SplitPositional, Classify;
    var lines := CmdLines(fold, ls, i);
    assert lines[|lines| - 1] in lines;
  }

  lemma {:induction false} CmdLinesAreLines(fold: T.Fold, ls: seq<Line>, i: nat)
    ensures forall l :: l in CmdLines(fold, ls, i) ==> l in ls
  {
    if ls != [] {
      CmdLinesAreLines(fold, ls[..|ls| - 1], i);
      hide Classify;
    }
  }

  /** Two CmdLine lines for one index: the evidence line is not the one the script was read from. */
  lemma {:induction false} RepeatedCmdLineMisattributes()
    ensures
      var fold := (s: string) => if s == "CmdLine" then "cmdline" else s;
      var ls := [Line("0CmdLine=a", "0CmdLine", "a"), Line("0CmdLine=b", "0CmdLine", "b")];
      var s := SlotOf(Folded("Logon", fold, ls), 0);
      s.hasSplit && EntryOf(0, s).script == Some("a") && EntryOf(0, s).raw == "0CmdLine=b"
  {
    var fold := (s: string) => if s == "CmdLine" then "cmdline" else s;
    PrintedKeyClass(0, "CmdLine");
    assert N.Decimal(0) + "CmdLine" == "0CmdLine";
    hide Classify, SlotOf, Folded, EntryOf;
    SecondCmdLineMisattributes("Logon", fold, Line("0CmdLine=a", "0CmdLine", "a"), Line("0CmdLine=b", "0CmdLine", "b"), 0, "CmdLine");
  }

  lemma SecondCmdLineMisattributes(name: string, fold: T.Fold, k: Line, l: Line, i: nat, prop: string)
    requires Classify(k.key) == Classify(l.key) == Prop(i, prop) && fold(prop) == "cmdline" && k.raw != "" && l.raw != ""
    ensures
      var s := SlotOf(Folded(name, fold, [k, l]), i);
      s.hasSplit && EntryOf(i, s).script == Some(k.value) && EntryOf(i, s).raw == l.raw
  {
    hide Classify, SlotOf, Folded, EntryOf, CmdLines;
    TwoCmdLines(fold, k, l, i, prop);
    RawLineOfScript(name, fold, [k, l], i);
  }

  lemma {:induction false} TwoCmdLines(fold: T.Fold, k: Line, l: Line, i: nat, prop: string)
    requires Classify(k.key) == Classify(l.key) == Prop(i, prop) && fold(prop) == "cmdline"
    ensures CmdLines(fold, [k, l], i) == [k, l]
  {
    hide Classify;
    assert [k, l][..1] == [k] && [k][..0] == [];
    assert CmdLines(fold, [k], i) == [k];
  }

  lemma PrintedKeyClass(i: nat, prop: string)
    requires PropName(prop)
    ensures Classify(N.Decimal(i) + prop) == Prop(i, prop)
  {
    var d := N.Decimal(i);
    N.DigitRunOf(d, prop);
    assert (d + prop)[..|d|] == d && (d + prop)[|d|..] == prop;
    N.NumberDecimal(i);
    hide N.Decimal, N.Number, N.DigitRun;
  }

  // ----- printing in split style and parsing back -----

  datatype Command = Command(index: nat, script: string, parameters: string)

  function CmdKey(c: Command): string { N.Decimal(c.index) + "CmdLine" }

  function ParamKey(c: Command): string { N.Decimal(c.index) + "Parameters" }

  function CmdLine(c: Command): Line { Line(CmdKey(c) + "=" + c.script, CmdKey(c), c.script) }

  function ParamLine(c: Command): Line { Line(ParamKey(c) + "=" + c.parameters, ParamKey(c), c.parameters) }

  function PrintedLines(cs: seq<Command>): seq<Line> {
    if cs == [] then []
    else PrintedLines(cs[..|cs| - 1]) + [CmdLine(cs[|cs| - 1]), ParamLine(cs[|cs| - 1])]
  }

  /** A section in split style: its header, then two lines an entry. */
  function Printed(name: string, cs: seq<Command>): seq<string> {
    if cs == [] then ["[" + name + "]"]
    else Printed(name, cs[..|cs| - 1]) + [CmdLine(cs[|cs| - 1]).raw, ParamLine(cs[|cs| - 1]).raw]
  }

  lemma HeaderKind(name: string)
    requires ']' !in name
    ensures KindOf("[" + name + "]") == Header(name)
  {
    var line := "[" + name + "]";
    assert line[0] == '[' && line[|line| - 1] == ']';
    assert T.Strip(line) == line by { hide T.Strip; }
    Inside(name);
    hide T.Strip, T.Find, T.Trimmed;
  }

  lemma Inside(name: string)
    ensures var line := "[" + name + "]"; line[1..|line| - 1] == name
  {
  }

  lemma PrintedKind(key: string, value: string)
    requires key != "" && N.IsDigit(key[0]) && T.Trimmed(key) && '=' !in key && T.Trimmed(value)
    ensures KindOf(key + "=" + value) == KeyLine(key, value)
  {
    var line := key + "=" + value;
    FindFirst(key, value);
    assert T.Trimmed(line) by {
      assert line[0] == key[0];
      assert line[|line| - 1] == if value == "" then '=' else value[|value| - 1];
    }
    assert line[..|key|] == key && line[|key| + 1..] == value && line[|key|] == '=';
    hide T.Find, T.Strip;
  }

  lemma FindFirst(key: string, value: string)
    requires '=' !in key
    ensures T.Find(key + "=" + value, '=', 0) == |key|
  {
    T.FindAt(key + "=" + value, '=', 0, |key|);
  }

  lemma KeyShape(i: nat, prop: string)
    requires PropName(prop)
    ensures var key := N.Decimal(i) + prop; key != "" && N.IsDigit(key[0]) && T.Trimmed(key) && '=' !in key
  {
    var d := N.Decimal(i);
    assert d[0] in d;
    hide N.Decimal;
    var key := d + prop;
    assert key[|key| - 1] == prop[|prop| - 1];
    forall j | 0 <= j < |key| ensures key[j] != '=' {
      assert key[j] == if j < |d| then d[j] else prop[j - |d|];
      if j < |d| { assert d[j] in d; }
    }
  }

  lemma {:induction false} CommandKinds(c: Command)
    requires T.Trimmed(c.script) && T.Trimmed(c.parameters)
    ensures KindOf(CmdLine(c).raw) == KeyLine(CmdKey(c), c.script)
    ensures KindOf(ParamLine(c).raw) == KeyLine(ParamKey(c), c.parameters)
    ensures Classify(CmdKey(c)) == Prop(c.index, "CmdLine") && Classify(ParamKey(c)) == Prop(c.index, "Parameters")
  {
    hide KindOf, Classify, T.Trimmed, N.Decimal;
    KeyShape(c.index, "CmdLine");
    KeyShape(c.index, "Parameters");
    PrintedKind(CmdKey(c), c.script);
    PrintedKind(ParamKey(c), c.parameters);
    PrintedKeyClass(c.index, "CmdLine");
    PrintedKeyClass(c.index, "Parameters");
  }

  predicate Printable(cs: seq<Command>) {
    forall n :: 0 <= n < |cs| ==> T.Trimmed(cs[n].script) && T.Trimmed(cs[n].parameters)
  }

  lemma {:induction false} PrintedIsGoverned(fold: T.Fold, name: string, cs: seq<Command>)
    requires ']' !in name && Printable(cs)
    ensures Governed(fold, Printed(name, cs), fold(name)) == PrintedLines(cs)
    ensures Governing(fold, Printed(name, cs)) == Some(fold(name))
    ensures Opened(fold, Printed(name, cs)) == [name]
  {
    hide KindOf;
    if cs == [] {
      HeaderKind(name);
      assert Printed(name, cs)[..0] == [];
    } else {
      var c, before := cs[|cs| - 1], Printed(name, cs[..|cs| - 1]);
      var one, two := before + [CmdLine(c).raw], before + [CmdLine(c).raw] + [ParamLine(c).raw];
      assert Printed(name, cs) == two;
      PrintedIsGoverned(fold, name, cs[..|cs| - 1]);
      CommandKinds(c);
      GovernedStep(fold, before, CmdLine(c).raw, CmdKey(c), c.script, fold(name));
      GovernedStep(fold, one, ParamLine(c).raw, ParamKey(c), c.parameters, fold(name));
      hide Governed, Governing, Opened, CmdKey, ParamKey;
    }
  }

  /** What two printed lines leave in a fresh slot. */
  function PrintedSlot(c: Command): Slot {
    Slot(map["CmdLine" := c.script, "Parameters" := c.parameters], Some(c.script), Some(c.parameters),
         Some(CmdLine(c).raw), Some(CmdLine(c).raw), None, None, true, false)
  }

  predicate NativeFold(fold: T.Fold) {
    fold("") == "" && fold("CmdLine") == "cmdline" && fold("Parameters") == "parameters"
  }

  predicate IndicesIncrease(cs: seq<Command>) {
    forall i, j :: 0 <= i < j < |cs| ==> cs[i].index < cs[j].index
  }

  function SlotsOf(cs: seq<Command>): map<nat, Slot> {
    if cs == [] then map[] else SlotsOf(cs[..|cs| - 1])[cs[|cs| - 1].index := PrintedSlot(cs[|cs| - 1])]
  }

  lemma {:induction false} SlotsOfAt(cs: seq<Command>)
    requires IndicesIncrease(cs)
    ensures forall n :: 0 <= n < |cs| ==> cs[n].index in SlotsOf(cs) && SlotsOf(cs)[cs[n].index] == PrintedSlot(cs[n])
    ensures forall i :: i in SlotsOf(cs) ==> exists n :: 0 <= n < |cs| && cs[n].index == i
  {
    if cs != [] {
      hide PrintedSlot;
      var init := cs[..|cs| - 1];
      SlotsOfAt(init);
      assert forall n :: 0 <= n < |init| ==> cs[n] == init[n];
    }
  }

  lemma {:induction false} PrintedSlots(fold: T.Fold, name: string, cs: seq<Command>)
    requires NativeFold(fold) && Printable(cs) && IndicesIncrease(cs)
    ensures Folded(name, fold, PrintedLines(cs)).slots == SlotsOf(cs)
    ensures Folded(name, fold, PrintedLines(cs)).otherKeys == []
  {
    if cs != [] {
      var c, init := cs[|cs| - 1], cs[..|cs| - 1];
      PrintedSlots(fold, name, init);
      assert PrintedLines(cs) == PrintedLines(init) + [CmdLine(c)] + [ParamLine(c)];
      FoldedStep(name, fold, PrintedLines(init), CmdLine(c));
      FoldedStep(name, fold, PrintedLines(init) + [CmdLine(c)], ParamLine(c));
      SlotsOfAt(init);
      hide Folded, PrintedLines, PrintedSlot, AddTo;
      TwoLines(fold, Folded(name, fold, PrintedLines(init)), c);
    }
  }

  lemma {:induction false} TwoLines(fold: T.Fold, before: Section, c: Command)
    requires NativeFold(fold) && c.index !in before.slots && T.Trimmed(c.script) && T.Trimmed(c.parameters)
    ensures AddTo(AddTo(before, fold, CmdLine(c)), fold, ParamLine(c)) == before.(slots := before.slots[c.index := PrintedSlot(c)])
  {
    hide AddTo, AddProp, Classify, KindOf, PrintedSlot, CmdKey, ParamKey, NativeFold, T.Trimmed;
    CommandKinds(c);
    TwoProps(fold, c);
    LineKeys(c);
    TwoAdds(before, fold, CmdLine(c), ParamLine(c), c.index, "CmdLine", "Parameters");
  }

  lemma LineKeys(c: Command)
    ensures CmdLine(c).key == CmdKey(c) && ParamLine(c).key == ParamKey(c)
  {
  }

  lemma TwoAdds(s: Section, fold: T.Fold, k: Line, l: Line, i: nat, p: string, q: string)
    requires Classify(k.key) == Prop(i, p) && Classify(l.key) == Prop(i, q) && i !in s.slots
    ensures AddTo(AddTo(s, fold, k), fold, l)
      == s.(slots := s.slots[i := AddProp(AddProp(EMPTY_SLOT, fold, p, k), fold, q, l)])
  {
    hide AddTo, AddProp, Classify;
    AddPropTo(s, fold, k, i, p);
    AddPropTo(AddTo(s, fold, k), fold, l, i, q);
    Overwrite(s.slots, i, AddProp(EMPTY_SLOT, fold, p, k), AddProp(AddProp(EMPTY_SLOT, fold, p, k), fold, q, l));
  }

  lemma Overwrite(m: map<nat, Slot>, i: nat, x: Slot, y: Slot)
    ensures m[i := x][i := y] == m[i := y]
  {
  }

  lemma AddPropTo(s: Section, fold: T.Fold, l: Line, i: nat, prop: string)
    requires Classify(l.key) == Prop(i, prop)
    ensures AddTo(s, fold, l) == s.(slots := s.slots[i := AddProp(SlotOf(s, i), fold, prop, l)])
  {
    hide Classify, AddProp;
  }

  lemma TwoProps(fold: T.Fold, c: Command)
    requires NativeFold(fold)
    ensures AddProp(AddProp(EMPTY_SLOT, fold, "CmdLine", CmdLine(c)), fold, "Parameters", ParamLine(c)) == PrintedSlot(c)
  {
    hide CmdKey, ParamKey;
    var one := AddProp(EMPTY_SLOT, fold, "CmdLine", CmdLine(c));
    assert one.props == map["CmdLine" := c.script];
  }

  /** Printing commands in split style and parsing them back gives one section whose entries are those commands. */
  lemma {:induction false} SplitStyleRoundTrip(fold: T.Fold, name: string, cs: seq<Command>, entries: seq<Entry>)
    requires NativeFold(fold) && ']' !in name && Printable(cs) && IndicesIncrease(cs)
    requires
      var s := Folded(name, fold, PrintedLines(cs));
      (forall i :: i in s.slots ==> s.slots[i].hasSplit || s.slots[i].positional.Some?) && BuiltFrom(s, entries)
    ensures |Sections(fold, Printed(name, cs))| == 1
    ensures Sections(fold, Printed(name, cs))[0] == Folded(name, fold, PrintedLines(cs))
    ensures |entries| == |cs|
    ensures forall n :: 0 <= n < |cs| ==>
      entries[n].index == cs[n].index && entries[n].script == Some(cs[n].script)
      && entries[n].parameters == Some(cs[n].parameters) && entries[n].raw == CmdLine(cs[n]).raw && entries[n].style == Split
  {
    PrintedIsGoverned(fold, name, cs);
    PrintedSlots(fold, name, cs);
    hide Folded, PrintedLines, Governed, Governing, Opened, Printed, BuiltFrom, PrintedSlot, EntryOf, SlotsOf;
    EntriesAre(Folded(name, fold, PrintedLines(cs)), cs, entries);
    forall n | 0 <= n < |cs|
      ensures var e := EntryOf(cs[n].index, PrintedSlot(cs[n]));
        e.index == cs[n].index && e.script == Some(cs[n].script) && e.parameters == Some(cs[n].parameters)
        && e.raw == CmdLine(cs[n]).raw && e.style == Split
    {
      PrintedEntry(cs[n]);
    }
  }

  lemma {:induction false} EntriesAre(s: Section, cs: seq<Command>, entries: seq<Entry>)
    requires s.slots == SlotsOf(cs) && IndicesIncrease(cs)
    requires (forall i :: i in s.slots ==> s.slots[i].hasSplit || s.slots[i].positional.Some?) && BuiltFrom(s, entries)
    ensures |entries| == |cs|
    ensures forall n :: 0 <= n < |cs| ==> PrintedSlot(cs[n]).hasSplit && entries[n] == EntryOf(cs[n].index, PrintedSlot(cs[n]))
  {
    assert forall n :: 0 <= n < |cs| ==> PrintedSlot(cs[n]).hasSplit;
    hide SlotsOf, PrintedSlot, EntryOf, BuiltFrom, IndicesIncrease, Increasing;
    CommandIndices(cs);
    EntryIndicesAre(s, entries);
    IncreasingUnique(Indices(cs), EntryIndices(entries));
    forall n | 0 <= n < |cs| ensures entries[n] == EntryOf(cs[n].index, PrintedSlot(cs[n])) {
      assert Indices(cs)[n] == EntryIndices(entries)[n];
    }
  }

  function Indices(cs: seq<Command>): (r: seq<nat>)
    ensures |r| == |cs| && forall n :: 0 <= n < |cs| ==> r[n] == cs[n].index
  {
    seq(|cs|, n requires 0 <= n < |cs| => cs[n].index)
  }

  function EntryIndices(entries: seq<Entry>): (r: seq<nat>)
    ensures |r| == |entries| && forall n :: 0 <= n < |entries| ==> r[n] == entries[n].index
  {
    seq(|entries|, n requires 0 <= n < |entries| => entries[n].index)
  }

  lemma {:induction false} CommandIndices(cs: seq<Command>)
    requires IndicesIncrease(cs)
    ensures Increasing(Indices(cs))
    ensures forall k :: k in Indices(cs) <==> k in SlotsOf(cs)
    ensures forall n :: 0 <= n < |cs| ==> cs[n].index in SlotsOf(cs) && SlotsOf(cs)[cs[n].index] == PrintedSlot(cs[n])
  {
    SlotsOfAt(cs);
    hide SlotsOf, PrintedSlot, Indices;
    forall k | k in SlotsOf(cs) ensures k in Indices(cs) {
      var n :| 0 <= n < |cs| && cs[n].index == k;
      assert Indices(cs)[n] == k;
    }
  }

  lemma {:induction false} EntryIndicesAre(s: Section, entries: seq<Entry>)
    requires (forall i :: i in s.slots ==> s.slots[i].hasSplit || s.slots[i].positional.Some?) && BuiltFrom(s, entries)
    ensures Increasing(EntryIndices(entries))
    ensures forall k :: k in EntryIndices(entries) <==> k in s.slots
    ensures forall n :: 0 <= n < |entries| ==>
      entries[n].index in s.slots && entries[n] == EntryOf(entries[n].index, s.slots[entries[n].index])
  {
    hide EntryOf, EntryIndices;
    forall k | k in s.slots ensures k in EntryIndices(entries) {
      var n :| 0 <= n < |entries| && entries[n].index == k;
      assert EntryIndices(entries)[n] == k;
    }
  }

  lemma PrintedEntry(c: Command)
    ensures var e := EntryOf(c.index, PrintedSlot(c));
      e.index == c.index && e.script == Some(c.script) && e.parameters == Some(c.parameters)
      && e.raw == CmdLine(c).raw && e.style == Split
  {
    hide SplitPositional;
  }

  lemma {:induction false} IncreasingUnique(a: seq<nat>, b: seq<nat>)
    requires Increasing(a) && Increasing(b)
    requires forall k :: k in a <==> k in b
    ensures a == b
  {
    assert (a != [] ==> a[0] in a) && (b != [] ==> b[0] in b);
    if a != [] && b != [] {
      assert a[0] == b[0];
      forall k ensures k in a[1..] <==> k in b[1..] {
        assert k in a[1..] <==> k in a && k != a[0];
        assert k in b[1..] <==> k in b && k != b[0];
      }
      IncreasingUnique(a[1..], b[1..]);
      assert a == [a[0]] + a[1..] && b == [b[0]] + b[1..];
    }
  }
}
