/** What one line of a scripts.ini file is, and what an entry keeps of the lines that name its index. */
module ScriptSlots {
  import opened Options
  import T = Text
  import N = Numerals
  import opened ScriptsIni
  import opened ScriptEntries

  // ----- one line -----

  const SPACE_CODES := [
    9, 10, 11, 12, 13, 28, 29, 30, 31, 32, 133, 160, 5760, 8192, 8193, 8194, 8195, 8196, 8197, 8198, 8199, 8200, 8201, 8202, 8232, 8233,
    8239, 8287, 12288]

  predicate Spaces(s: string) {
    forall i :: 0 <= i < |s| ==> s[i] as int in SPACE_CODES
  }

  lemma SpacesMean(c: char)
    ensures c as int in SPACE_CODES <==> T.IsSpace(c)
  {
  }

  lemma AllSpaces(s: string)
    ensures Spaces(s) <==> forall i :: 0 <= i < |s| ==> T.IsSpace(s[i])
  {
    hide T.IsSpace, SPACE_CODES;
    forall i | 0 <= i < |s| ensures s[i] as int in SPACE_CODES <==> T.IsSpace(s[i]) {
      SpacesMean(s[i]);
    }
  }

  lemma {:induction false} StripPads(a: string, s: string, b: string)
    requires Spaces(a) && Spaces(b) && T.Trimmed(s)
    ensures T.Strip(a + s + b) == s
    decreases |a| + |b|
  {
    AllSpaces(a);
    AllSpaces(b);
    hide T.IsSpace, SPACE_CODES;
    var t := a + s + b;
    if a != "" {
      assert t[0] == a[0] && t[1..] == a[1..] + s + b;
      StripPads(a[1..], s, b);
    } else if b != "" && s != "" {
      assert t[0] == s[0] && t[|t| - 1] == b[|b| - 1] && t[..|t| - 1] == a + s + b[..|b| - 1];
      StripPads(a, s, b[..|b| - 1]);
    } else if b != "" {
      assert t[0] == b[0] && t[1..] == a + s + b[1..];
      StripPads(a, s, b[1..]);
    } else {
      assert t == s;
    }
  }

  predicate IsComment(line: string) {
    line != "" && (line[0] == ';' || line[0] == '#')
  }

  predicate IsHeader(line: string, name: string) {
    line == "[" + name + "]" && ']' !in name
  }

  /** Spaces around a line are nothing. */
  lemma PaddingIsNothing(a: string, line: string, b: string)
    requires Spaces(a) && Spaces(b) && T.Trimmed(line)
    ensures KindOf(a + line + b) == KindOf(line)
  {
    hide T.Strip, T.Trimmed, Spaces, T.Find, T.IsSpace;
    StripPads(a, line, b);
    assert T.Strip(line) == line == T.Strip(a + line + b);
  }

  /**
   Blank lines and comments are ignored, `[name]` is a header if the name has no closing bracket, any other line with an equals
   sign is a key, up to the first one, and its value, and what is left is unparsed.
   */
  lemma KindMeans(line: string, name: string, key: string, value: string)
    requires T.Trimmed(line)
    ensures KindOf(line) == Ignored <==> line == "" || IsComment(line)
    ensures KindOf(line) == Header(name) <==> IsHeader(line, name)
    ensures KindOf(line).Unparsed? ==> '=' !in line && KindOf(line).line == line
    ensures KindOf(line).KeyLine? ==> '=' in line
    ensures line == key + "=" + value && '=' !in key && !IsComment(line) && !KindOf(line).Header? ==>
      KindOf(line) == KeyLine(T.Strip(key), T.Strip(value))
  {
    HeaderMeans(line, name);
    KeyLineMeans(line, key, value);
    assert T.Strip(line) == line && line[0..] == line;
    hide T.Strip, T.Trimmed, T.IsSpace, IsHeader;
  }

  lemma HeaderMeans(line: string, name: string)
    requires T.Trimmed(line)
    ensures KindOf(line) == Header(name) <==> IsHeader(line, name)
  {
    assert T.Strip(line) == line;
    hide T.Strip, T.Trimmed, T.IsSpace, T.Find;
    if |line| >= 2 && line[0] == '[' && line[|line| - 1] == ']' {
      assert line == "[" + line[1..|line| - 1] + "]";
    }
    if line == "[" + name + "]" {
      Bracketed(name);
    }
  }

  lemma KeyLineMeans(line: string, key: string, value: string)
    requires T.Trimmed(line)
    ensures line == key + "=" + value && '=' !in key && !IsComment(line) && !KindOf(line).Header? ==>
      KindOf(line) == KeyLine(T.Strip(key), T.Strip(value))
  {
    if line == key + "=" + value && '=' !in key {
      T.FindAt(line, '=', 0, |key|);
      assert line[..|key|] == key && line[|key| + 1..] == value;
      assert T.Strip(line) == line;
    }
    hide T.Strip, T.Trimmed, T.IsSpace, T.Find;
  }

  lemma Bracketed(name: string)
    ensures var line := "[" + name + "]"; |line| >= 2 && line[0] == '[' && line[|line| - 1] == ']' && line[1..|line| - 1] == name
  {
  }

  predicate AsciiLetter(n: int) {
    65 <= n <= 90 || 97 <= n <= 122
  }

  /** An ASCII letter followed by ASCII letters, digits and underscores. */
  predicate AsciiName(s: string) {
    s != "" && AsciiLetter(s[0] as int)
    && forall i :: 0 <= i < |s| ==> AsciiLetter(s[i] as int) || 48 <= s[i] as int <= 57 || s[i] as int == 95
  }

  lemma PropNameMeans(s: string)
    ensures PropName(s) <==> AsciiName(s)
  {
  }

  predicate Digits(d: string) {
    d != "" && forall c :: c in d ==> N.IsDigit(c)
  }

  /** A key is an index or a property of one exactly when digits begin it, and nothing or a property name follows them. */
  lemma ClassifyExactly(d: string, prop: string, key: string)
    requires Digits(d)
    ensures Classify(d) == Index(N.Number(d))
    ensures AsciiName(prop) ==> Classify(d + prop) == Prop(N.Number(d), prop)
    ensures prop != "" && !N.IsDigit(prop[0]) && !AsciiName(prop) ==> Classify(d + prop) == Other
    ensures key == "" || !N.IsDigit(key[0]) ==> Classify(key) == Other
  {
    PropNameMeans(prop);
    hide AsciiName;
    N.DigitRunOf(d, "");
    assert d + "" == d && d[..|d|] == d;
    if prop != "" && !N.IsDigit(prop[0]) {
      N.DigitRunOf(d, prop);
      assert (d + prop)[..|d|] == d && (d + prop)[|d|..] == prop;
    }
    hide N.Number, N.DigitRun;
    assert PropName(prop) ==> !N.IsDigit(prop[0]);
    hide PropName;
    assert key == "" || !N.IsDigit(key[0]) ==> N.DigitRun(key) == 0;
  }

  // ----- one entry -----

  /** The lines of a section that are picked, in order. */
  function Picked(ls: seq<Line>, pick: KeyClass -> bool): seq<Line> {
    if ls == [] then []
    else
      var l := ls[|ls| - 1];
      Picked(ls[..|ls| - 1], pick) + if pick(Classify(l.key)) then [l] else []
  }

  function Bare(i: nat): KeyClass -> bool {
    (c: KeyClass) => c == Index(i)
  }

  function Property(i: nat, prop: string): KeyClass -> bool {
    (c: KeyClass) => c == Prop(i, prop)
  }

  function AnyProperty(i: nat): KeyClass -> bool {
    (c: KeyClass) => c.Prop? && c.i == i
  }

  function Spelled(fold: T.Fold, i: nat, folded: string): KeyClass -> bool {
    (c: KeyClass) => c.Prop? && c.i == i && fold(c.prop) == folded
  }

  function FirstValue(ls: seq<Line>): Option<string> {
    if ls == [] then None else Some(ls[0].value)
  }

  function FirstRaw(ls: seq<Line>): Option<string> {
    if ls == [] then None else Some(ls[0].raw)
  }

  function LastRaw(ls: seq<Line>): Option<string> {
    if ls == [] then None else Some(ls[|ls| - 1].raw)
  }

  /** An entry keeps the first positional line of its index and the first line of each of its properties. */
  ghost predicate Keeps(s: Slot, fold: T.Fold, ls: seq<Line>, i: nat) {
    && s.positional == FirstValue(Picked(ls, Bare(i))) && s.rawPositional == FirstRaw(Picked(ls, Bare(i)))
    && s.hasPositional == (Picked(ls, Bare(i)) != [])
    && s.hasSplit == (Picked(ls, AnyProperty(i)) != []) && s.rawFirst == FirstRaw(Picked(ls, AnyProperty(i)))
    && s.parameters == FirstValue(Picked(ls, Spelled(fold, i, "parameters")))
    && s.cmdline == FirstValue(Picked(ls, Spelled(fold, i, "cmdline")))
    && s.rawCmdline == LastRaw(Picked(ls, Spelled(fold, i, "cmdline")))
    && forall prop: string :: (if prop in s.props then Some(s.props[prop]) else None) == FirstValue(Picked(ls, Property(i, prop)))
  }

  lemma PickedStep(ls: seq<Line>, pick: KeyClass -> bool)
    requires ls != []
    ensures var l := ls[|ls| - 1];
      Picked(ls, pick) == Picked(ls[..|ls| - 1], pick) + if pick(Classify(l.key)) then [l] else []
  {
    hide Classify;
  }

  lemma PositionalKept(s: Slot, fold: T.Fold, ls: seq<Line>, i: nat)
    requires ls != [] && Classify(ls[|ls| - 1].key) == Index(i) && Keeps(s, fold, ls[..|ls| - 1], i)
    ensures Keeps(AddPositional(s, ls[|ls| - 1]), fold, ls, i)
  {
    hide Classify, Picked;
    PickedStep(ls, Bare(i));
    OthersKept(fold, ls, i);
  }

  lemma OthersKept(fold: T.Fold, ls: seq<Line>, i: nat)
    requires ls != [] && !(Classify(ls[|ls| - 1].key).Prop? && Classify(ls[|ls| - 1].key).i == i)
    ensures var init := ls[..|ls| - 1];
      && Picked(ls, AnyProperty(i)) == Picked(init, AnyProperty(i))
      && (forall folded: string :: Picked(ls, Spelled(fold, i, folded)) == Picked(init, Spelled(fold, i, folded)))
      && (forall prop: string :: Picked(ls, Property(i, prop)) == Picked(init, Property(i, prop)))
  {
    hide Classify, Picked;
    PickedStep(ls, AnyProperty(i));
    forall folded: string ensures Picked(ls, Spelled(fold, i, folded)) == Picked(ls[..|ls| - 1], Spelled(fold, i, folded)) {
      PickedStep(ls, Spelled(fold, i, folded));
    }
    forall prop: string ensures Picked(ls, Property(i, prop)) == Picked(ls[..|ls| - 1], Property(i, prop)) {
      PickedStep(ls, Property(i, prop));
    }
  }

  lemma PropertyKept(s: Slot, fold: T.Fold, ls: seq<Line>, i: nat, prop: string)
    requires ls != [] && Classify(ls[|ls| - 1].key) == Prop(i, prop) && Keeps(s, fold, ls[..|ls| - 1], i)
    requires WellFormed(s)
    ensures Keeps(AddProp(s, fold, prop, ls[|ls| - 1]), fold, ls, i)
  {
    hide Classify, Picked;
    var (init, l) := (ls[..|ls| - 1], ls[|ls| - 1]);
    PickedStep(ls, Bare(i));
    PickedStep(ls, AnyProperty(i));
    PickedStep(ls, Spelled(fold, i, "parameters"));
    PickedStep(ls, Spelled(fold, i, "cmdline"));
    var next := AddProp(s, fold, prop, l);
    forall p: string ensures (if p in next.props then Some(next.props[p]) else None) == FirstValue(Picked(ls, Property(i, p))) {
      PickedStep(ls, Property(i, p));
      assert p in s.props <==> Picked(init, Property(i, p)) != [];
    }
  }

  /** What an entry holds is settled by the lines of its index alone. */
  lemma {:induction false} SlotKeeps(name: string, fold: T.Fold, ls: seq<Line>, i: nat)
    ensures Keeps(SlotOf(Folded(name, fold, ls), i), fold, ls, i)
  {
    if ls != [] {
      var init := ls[..|ls| - 1];
      SlotKeeps(name, fold, init, i);
      SlotStep(name, fold, ls, i);
      SlotsAreWellFormed(name, fold, init, i);
      hide Classify, Picked, Keeps, WellFormed, AddPositional, AddProp, Folded, SlotOf;
      var (s, c) := (SlotOf(Folded(name, fold, init), i), Classify(ls[|ls| - 1].key));
      if c == Index(i) {
        PositionalKept(s, fold, ls, i);
      } else if c.Prop? && c.i == i {
        PropertyKept(s, fold, ls, i, c.prop);
      } else {
        UntouchedKept(s, fold, ls, i);
      }
    }
  }

  lemma UntouchedKept(s: Slot, fold: T.Fold, ls: seq<Line>, i: nat)
    requires ls != [] && !Touches(ls[|ls| - 1], i) && Keeps(s, fold, ls[..|ls| - 1], i)
    ensures Keeps(s, fold, ls, i)
  {
    hide Classify, Picked;
    PickedStep(ls, Bare(i));
    OthersKept(fold, ls, i);
  }

  /** `script,parameters`: the first comma separates, and spaces around either are nothing. */
  lemma PositionalMeans(script: string, parameters: string)
    requires ',' !in script
    ensures SplitPositional(script + "," + parameters) == (Some(T.Strip(script)), Some(T.Strip(parameters)))
    ensures SplitPositional(script) == if script == "" then (None, None) else (Some(T.Strip(script)), None)
  {
    var value := script + "," + parameters;
    T.FindAt(value, ',', 0, |script|);
    assert value[..|script|] == script && value[|script| + 1..] == parameters && script[0..] == script;
    hide T.Strip, T.Find;
  }

  /**
   The entry of an index with lines: its script and parameters are those of its first CmdLine and Parameters lines if it has any
   property line, else what its first positional line splits into; its style says which kinds of lines there are.
   */
  lemma EntryKeeps(name: string, fold: T.Fold, ls: seq<Line>, i: nat)
    requires i in Folded(name, fold, ls).slots
    ensures
      var s := SlotOf(Folded(name, fold, ls), i);
      var (bare, split) := (Picked(ls, Bare(i)), Picked(ls, AnyProperty(i)));
      && (s.hasSplit || s.positional.Some?) && (bare != [] || split != [])
      && var e := EntryOf(i, s);
      && e.index == i
      && e.style == (if bare == [] then Split else if split == [] then Positional else Mixed)
      && (split != [] ==>
            && e.script == FirstValue(Picked(ls, Spelled(fold, i, "cmdline")))
            && e.parameters == FirstValue(Picked(ls, Spelled(fold, i, "parameters"))))
      && (split == [] ==> (e.script, e.parameters) == SplitPositional(bare[0].value) && e.props == map[])
      && (split == [] && bare[0].raw != "" ==> e.raw == bare[0].raw)
      && (Picked(ls, Spelled(fold, i, "cmdline")) == [] && split != [] && split[0].raw != "" ==> e.raw == split[0].raw)
  {
    SlotKeeps(name, fold, ls, i);
    SlotsAreWellFormed(name, fold, ls, i);
    hide Folded, SlotOf, Picked, SplitPositional;
  }
}
