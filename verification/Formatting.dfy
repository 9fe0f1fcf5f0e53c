/**
 Python's `%` on a string: printf-style formatting, as CPython parses and performs it. What a conversion would need beyond
 integers and strings (decimal text of floats, `repr` of strings and containers) is `Beyond` this model.
 */
module Formatting {
  import opened Options
  import N = Numerals

  /** What a conversion sees of a value; lists, tuples and dictionaries are `OtherArg`. */
  datatype Arg = NoneArg | BoolArg(b: bool) | IntArg(n: int) | StrArg(s: string) | OtherArg

  /** The right operand. A list passes for a mapping, although no key fits it. */
  datatype Operand = Single(arg: Arg) | Tuple(args: seq<Arg>) | Dict(entries: map<string, Arg>) | List

  datatype Outcome<+T> =
    | Done(value: T)
    | Refused       // a TypeError or a ValueError
    | Escaped       // a KeyError or an OverflowError
    | Beyond
  {
    predicate IsFailure() {
      !Done?
    }

    function PropagateFailure<U>(): Outcome<U>
      requires !Done?
    {
      match this
      case Refused => Outcome<U>.Refused
      case Escaped => Outcome<U>.Escaped
      case Beyond => Outcome<U>.Beyond
    }

    function Extract(): T
      requires Done?
    {
      value
    }
  }

  /** What is left to convert: the operand decides what a key may look up, `rest` is what comes next without one. */
  datatype Supply = Supply(operand: Operand, rest: seq<Arg>)

  function Supplied(operand: Operand): Supply {
    Supply(operand,
           match operand
           case Single(arg) => [arg]
           case Tuple(args) => args
           case _ => [OtherArg])
  }

  /** Arguments may be left over only where they were taken from a mapping. */
  predicate AllUsed(s: Supply) {
    s.rest == [] || s.operand.Dict? || s.operand.List?
  }

  datatype Spec = Spec(flags: string, width: int, precision: Option<nat>, conversion: char)

  const MAX_SIZE := 0x7fff_ffff_ffff_ffff
  const MAX_INT := 0x7fff_ffff
  const MAX_DIGITS := 4300

  // ----- parsing one directive -----

  predicate IsFlag(c: char) {
    c == '-' || c == '+' || c == ' ' || c == '#' || c == '0'
  }

  function FlagRun(t: string): (n: nat)
    ensures n <= |t|
  {
    if t == "" || !IsFlag(t[0]) then 0 else 1 + FlagRun(t[1..])
  }

  /** Where the parenthesis that closes a key is, `open` of them being open. */
  function Closing(t: string, open: nat): (n: Option<nat>)
    requires open > 0
    ensures n.Some? ==> n.get < |t|
    decreases t
  {
    if t == "" then None
    else if t[0] == ')' && open == 1 then Some(0)
    else
      var n := Closing(t[1..], if t[0] == ')' then open - 1 else if t[0] == '(' then open + 1 else open);
      if n.None? then None else Some(n.get + 1)
  }

  /** A parenthesized key makes its entry the next argument. */
  function TakeKey(t: string, s: Supply): (r: Outcome<(string, Supply)>)
    ensures r.Done? ==> |r.value.0| <= |t|
  {
    if t == "" || t[0] != '(' then Done((t, s))
    else if !s.operand.Dict? && !s.operand.List? then Refused
    else
      var n := Closing(t[1..], 1);
      if n.None? || s.operand.List? then Refused
      else
        var key := t[1..][..n.get];
        if key in s.operand.entries then Done((t[n.get + 2..], s.(rest := [s.operand.entries[key]]))) else Escaped
  }

  /** A width or precision: digits, or `*` for the next argument, which has to be an integer of the machine's range. */
  function TakeNumber(t: string, s: Supply, lowest: int, highest: int): (r: Outcome<(Option<int>, string, Supply)>)
    ensures r.Done? ==> |r.value.1| <= |t|
  {
    if t != "" && t[0] == '*' then
      if s.rest == [] || !(s.rest[0].IntArg? || s.rest[0].BoolArg?) then Refused
      else
        var n := Whole(s.rest[0]);
        if lowest <= n <= highest then Done((Some(n), t[1..], s.(rest := s.rest[1..]))) else Escaped
    else
      var k := N.DigitRun(t);
      if k == 0 then Done((None, t, s))
      else
        assert forall c :: c in t[..k] ==> N.IsDigit(c);
        var n := N.Number(t[..k]);
        if n <= highest then Done((Some(n), t[k..], s)) else Refused
  }

  function Whole(a: Arg): int
    requires a.IntArg? || a.BoolArg?
  {
    if a.IntArg? then a.n else if a.b then 1 else 0
  }

  function TakePrecision(t: string, s: Supply): (r: Outcome<(Option<nat>, string, Supply)>)
    ensures r.Done? ==> |r.value.1| <= |t|
  {
    if t == "" || t[0] != '.' then Done((None, t, s))
    else
      var taken :- TakeNumber(t[1..], s, -MAX_INT - 1, MAX_INT);
      Done((Some(if taken.0.None? || taken.0.get < 0 then 0 else taken.0.get), taken.1, taken.2))
  }

  /** What follows a percent sign, up to the conversion character. */
  function Directive(t: string, s: Supply): (r: Outcome<(Spec, string, Supply)>)
    ensures r.Done? ==> |r.value.1| < |t|
  {
    var keyed :- TakeKey(t, s);
    Unkeyed(keyed.0, keyed.1)
  }

  /** Flags, width, precision, a length nobody looks at, and the conversion. A negative width means left adjustment. */
  function Unkeyed(t: string, s: Supply): (r: Outcome<(Spec, string, Supply)>)
    ensures r.Done? ==> |r.value.1| < |t|
  {
    var n := FlagRun(t);
    var flags := t[..n];
    var wide :- TakeNumber(t[n..], s, -MAX_SIZE - 1, MAX_SIZE);
    var precise :- TakePrecision(wide.1, wide.2);
    var tail := precise.1;
    var u := if tail != "" && (tail[0] == 'h' || tail[0] == 'l' || tail[0] == 'L') then tail[1..] else tail;
    if u == "" then Refused
    else
      var width := if wide.0.None? then 0 else wide.0.get;
      Done((Spec(if width < 0 then flags + "-" else flags, if width < 0 then -width else width, precise.0, u[0]), u[1..], precise.2))
  }

  // ----- performing one conversion -----

  function Fill(c: char, n: int): string
    decreases n
  {
    if n <= 0 then "" else [c] + Fill(c, n - 1)
  }

  function Padded(spec: Spec, head: string, body: string, numeric: bool): string {
    var n := spec.width - |head| - |body|;
    if '-' in spec.flags then head + body + Fill(' ', n)
    else if numeric && '0' in spec.flags then head + Fill('0', n) + body
    else Fill(' ', n) + head + body
  }

  function InBase(n: nat, base: nat, upper: bool): string
    requires base == 8 || base == 16
  {
    (if n < base then "" else InBase(n / base, base, upper))
      + [var d := n % base; if d < 10 then '0' + d as char else if upper then 'A' + (d - 10) as char else 'a' + (d - 10) as char]
  }

  predicate TooManyDigits(n: int) {
    |N.Decimal(if n < 0 then -n else n)| > MAX_DIGITS
  }

  function Str(n: int): string {
    if n < 0 then "-" + N.Decimal(-n) else N.Decimal(n)
  }

  predicate IsDecimal(c: char) {
    c == 'd' || c == 'i' || c == 'u'
  }

  predicate IsBased(c: char) {
    c == 'o' || c == 'x' || c == 'X'
  }

  predicate IsFloat(c: char) {
    c == 'e' || c == 'E' || c == 'f' || c == 'F' || c == 'g' || c == 'G'
  }

  predicate IsText(c: char) {
    c == 's' || c == 'r' || c == 'a'
  }

  function Power(n: nat): nat {
    if n == 0 then 1 else 2 * Power(n - 1)
  }

  /** The smallest integer that rounds to no float. */
  function FloatLimit(): int {
    Power(1024) - Power(970)
  }

  function Integral(spec: Spec, n: int): Outcome<string> {
    var c := spec.conversion;
    var size: nat := if n < 0 then -n else n;
    if spec.precision.Some? && spec.precision.get > MAX_INT - 3 then Escaped
    else if IsDecimal(c) && TooManyDigits(n) then Refused
    else
      var digits := if IsDecimal(c) then N.Decimal(size) else InBase(size, if c == 'o' then 8 else 16, c == 'X');
      var sign := if n < 0 then "-" else if '+' in spec.flags then "+" else if ' ' in spec.flags then " " else "";
      var prefix := if IsDecimal(c) || '#' !in spec.flags then "" else "0" + [c];
      var zeros := if spec.precision.None? then 0 else spec.precision.get - |digits|;
      Done(Padded(spec, sign + prefix, Fill('0', zeros) + digits, true))
  }

  function Character(spec: Spec, a: Arg): Outcome<string> {
    match a
    case StrArg(s) => if |s| == 1 then Done(Padded(spec, "", s, false)) else Refused
    case NoneArg => Refused
    case OtherArg => Refused
    case _ =>
      var n := Whole(a);
      if !(0 <= n < 0x11_0000) then Escaped
      else if 0xd800 <= n < 0xe000 then Beyond
      else Done(Padded(spec, "", [n as char], false))
  }

  function TextOf(c: char, a: Arg): Outcome<string> {
    match a
    case NoneArg => Done("None")
    case BoolArg(b) => Done(if b then "True" else "False")
    case IntArg(n) => if TooManyDigits(n) then Refused else Done(Str(n))
    case StrArg(s) => if c == 's' then Done(s) else Beyond
    case OtherArg => Beyond
  }

  function Convert(spec: Spec, a: Arg): Outcome<string> {
    var c := spec.conversion;
    if IsText(c) then
      var text :- TextOf(c, a);
      Done(Padded(spec, "", if spec.precision.Some? && |text| > spec.precision.get then text[..spec.precision.get] else text, false))
    else if c == 'c' then Character(spec, a)
    else if !(IsDecimal(c) || IsBased(c) || IsFloat(c)) || !(a.IntArg? || a.BoolArg?) then Refused
    else if IsFloat(c) then if -FloatLimit() < Whole(a) < FloatLimit() then Beyond else Escaped
    else Integral(spec, Whole(a))
  }

  // ----- the whole format -----

  function Run(t: string, s: Supply): Outcome<string>
    decreases |t|
  {
    if t == "" then if AllUsed(s) then Done("") else Refused
    else if t[0] != '%' then
      var rest :- Run(t[1..], s);
      Done([t[0]] + rest)
    else
      var d :- Directive(t[1..], s);
      var spec, after, supply := d.0, d.1, d.2;
      if spec.conversion == '%' then
        var rest :- Run(after, supply);
        Done("%" + rest)
      else if supply.rest == [] then Refused
      else
        var text :- Convert(spec, supply.rest[0]);
        var rest :- Run(after, supply.(rest := supply.rest[1..]));
        Done(text + rest)
  }

  function Format(t: string, operand: Operand): Outcome<string> {
    Run(t, Supplied(operand))
  }

  // ----- what a format means -----

  /** A text as a format that stands for it. */
  function Doubled(s: string): string {
    if s == "" then "" else (if s[0] == '%' then "%%" else [s[0]]) + Doubled(s[1..])
  }

  function Before(s: string, r: Outcome<string>): Outcome<string> {
    if r.Done? then Done(s + r.value) else r
  }

  /** A directive that is its conversion character alone. */
  lemma BareDirective(c: char, u: string, s: Supply)
    requires c == '%' || IsText(c) || IsDecimal(c)
    ensures Directive([c] + u, s) == Done((Spec("", 0, None, c), u, s))
  {
    var t := [c] + u;
    assert t[1..] == u && t[0..] == t;
    assert TakeKey(t, s) == Done((t, s));
    assert FlagRun(t) == 0 && t[..0] == "";
    assert N.DigitRun(t) == 0;
    assert TakeNumber(t, s, -MAX_SIZE - 1, MAX_SIZE) == Done((None, t, s));
    assert TakePrecision(t, s) == Done((None, t, s));
  }

  lemma CharacterStep(c: char, rest: string, s: Supply)
    requires c != '%'
    ensures Run([c] + rest, s) == Before([c], Run(rest, s))
  {
    assert ([c] + rest)[1..] == rest;
    hide Directive, Convert;
  }

  lemma BeforeBefore(a: string, b: string, r: Outcome<string>)
    ensures Before(a, Before(b, r)) == Before(a + b, r)
  {
    if r.Done? {
      assert a + (b + r.value) == a + b + r.value;
    }
  }

  /** Text with its percent signs doubled comes out as it went in, whatever follows it. */
  lemma {:induction false} DoubledStands(a: string, u: string, s: Supply)
    ensures Run(Doubled(a) + u, s) == Before(a, Run(u, s))
  {
    hide Run, Directive;
    if a == "" {
      assert Doubled(a) + u == u;
      assert Run(u, s).Done? ==> "" + Run(u, s).value == Run(u, s).value;
    } else {
      var rest := Doubled(a[1..]) + u;
      DoubledStands(a[1..], u, s);
      if a[0] == '%' {
        assert Doubled(a) + u == "%" + ("%" + rest);
        BareDirective('%', rest, s);
        PercentStep(rest, s);
      } else {
        assert Doubled(a) + u == [a[0]] + rest;
        CharacterStep(a[0], rest, s);
      }
      hide Before;
      BeforeBefore([a[0]], a[1..], Run(u, s));
      assert a == [a[0]] + a[1..];
    }
  }

  lemma PercentStep(rest: string, s: Supply)
    requires Directive("%" + rest, s) == Done((Spec("", 0, None, '%'), rest, s))
    ensures Run("%" + ("%" + rest), s) == Before("%", Run(rest, s))
  {
    var t := "%" + ("%" + rest);
    assert t[0] == '%' && t[1..] == "%" + rest;
    hide Directive;
  }

  lemma ConversionStep(c: char, rest: string, s: Supply)
    requires (IsText(c) || IsDecimal(c)) && s.rest != []
    ensures
      var text := Convert(Spec("", 0, None, c), s.rest[0]);
      Run("%" + ([c] + rest), s) == if text.Done? then Before(text.value, Run(rest, s.(rest := s.rest[1..]))) else text
  {
    BareDirective(c, rest, s);
    var t := "%" + ([c] + rest);
    assert t[0] == '%' && t[1..] == [c] + rest;
    hide Directive, Convert;
  }

  /** A lone conversion puts its text in the middle of the text around it. */
  lemma OneConversion(a: string, c: char, b: string, arg: Arg)
    requires IsText(c) || IsDecimal(c)
    ensures
      var text := Convert(Spec("", 0, None, c), arg);
      Format(Doubled(a) + ("%" + ([c] + Doubled(b))), Single(arg)) == if text.Done? then Done(a + (text.value + b)) else text
  {
    var s := Supplied(Single(arg));
    var used := s.(rest := []);
    assert s.rest[1..] == [];
    DoubledStands(a, "%" + ([c] + Doubled(b)), s);
    ConversionStep(c, Doubled(b), s);
    assert Doubled(b) + "" == Doubled(b);
    DoubledStands(b, "", used);
    hide Directive, Convert;
    assert Run("", used) == Done("");
    assert b + "" == b;
  }

  /** `%s` gives a string back unchanged, `%d` an integer in decimal, which reads back as that integer. */
  lemma PlainConversions(x: string, n: nat)
    requires !TooManyDigits(n)
    ensures Convert(Spec("", 0, None, 's'), StrArg(x)) == Done(x)
    ensures Convert(Spec("", 0, None, 'd'), IntArg(n)) == Done(N.Decimal(n)) && N.Number(N.Decimal(n)) == n
  {
    N.NumberDecimal(n);
    hide N.Decimal, N.Number;
    assert "" + "" + x == x && "" + "" + N.Decimal(n) == N.Decimal(n);
    assert Fill(' ', 0 - |x|) == "" && Fill(' ', 0 - |N.Decimal(n)|) == "" && Fill('0', 0) == "";
  }

  /** `%s` on its own shows an operand's text, whatever its width. */
  lemma PlainText(a: Arg)
    ensures Convert(Spec("", 0, None, 's'), a) == TextOf('s', a)
  {
    var text := TextOf('s', a);
    hide TextOf;
    if text.Done? {
      assert Fill(' ', 0 - 0 - |text.value|) == "";
      assert "" + "" + text.value == text.value;
    }
  }

  lemma ShownAlone(a: Arg)
    ensures Format("%s", Single(a)) == TextOf('s', a)
  {
    OneConversion("", 's', "", a);
    PlainText(a);
    hide Format, Convert, TextOf;
    assert Doubled("") + ("%" + (['s'] + Doubled(""))) == "%s";
    var text := TextOf('s', a);
    assert text.Done? ==> "" + (text.value + "") == text.value;
  }

  lemma ShowOne()
    ensures TextOf('s', IntArg(1)) == Done("1")
  {
    assert N.Decimal(1) == [N.Digit(1)] && N.Digit(1) == '1';
  }

  /** `%(key)s` shows the entry of that key, and raises exactly when there is none. */
  lemma KeyedConversion(key: string, operand: Operand)
    requires operand.Dict? && '(' !in key && ')' !in key
    ensures Format("%(" + key + ")s", operand) ==
      if key in operand.entries then TextOf('s', operand.entries[key]) else Escaped
  {
    var t := "(" + key + ")s";
    var s := Supplied(operand);
    assert "%(" + key + ")s" == "%" + t && ("%" + t)[1..] == t;
    assert t[1..] == key + ")s";
    ClosingAfter(key, "s");
    hide Closing;
    assert key + ")s" == key + ")" + "s";
    assert (key + ")s")[..|key|] == key && t[|key| + 2..] == "s";
    assert TakeKey(t, s) == if key in operand.entries then Done(("s", s.(rest := [operand.entries[key]]))) else Escaped;
    hide TakeKey, Unkeyed, Convert;
    if key in operand.entries {
      var keyed := s.(rest := [operand.entries[key]]);
      DirectiveAfterKey(t, s, "s", keyed);
      hide Directive;
      LastConversion(t, s, keyed);
      PlainText(operand.entries[key]);
    }
  }

  lemma LastConversion(t: string, s: Supply, keyed: Supply)
    requires Directive(t, s) == Directive("s", keyed) && |keyed.rest| == 1
    ensures Run("%" + t, s) == Convert(Spec("", 0, None, 's'), keyed.rest[0])
  {
    BareDirective('s', "", keyed);
    assert ['s'] + "" == "s" && ("%" + t)[1..] == t;
    hide Convert, Directive;
    assert keyed.rest[1..] == [];
    assert Run("", keyed.(rest := [])) == Done("");
    var text := Convert(Spec("", 0, None, 's'), keyed.rest[0]);
    assert text.Done? ==> text.value + "" == text.value;
  }

  lemma DirectiveAfterKey(t: string, s: Supply, u: string, keyed: Supply)
    requires TakeKey(t, s) == Done((u, keyed)) && (u == "" || u[0] != '(')
    ensures Directive(t, s) == Directive(u, keyed)
  {
    assert TakeKey(u, keyed) == Done((u, keyed));
    hide Unkeyed, TakeKey;
  }

  lemma {:induction false} ClosingAfter(key: string, u: string)
    requires '(' !in key && ')' !in key
    ensures Closing(key + ")" + u, 1) == Some(|key|)
  {
    if key != "" {
      assert (key + ")" + u)[1..] == key[1..] + ")" + u;
      ClosingAfter(key[1..], u);
    }
  }

  /** The characters through which a format can raise what the evaluator does not catch. */
  predicate Risky(c: char) {
    c == '(' || c == '*' || c == '.' || c == 'c' || IsFloat(c)
  }

  predicate Harmless(t: string) {
    forall i :: 0 <= i < |t| ==> !Risky(t[i])
  }

  lemma HarmlessNumber(t: string, n: nat, s: Supply)
    requires Harmless(t) && n <= |t|
    ensures
      var wide := TakeNumber(t[n..], s, -MAX_SIZE - 1, MAX_SIZE);
      && wide != Escaped
      && (wide.Done? ==> Harmless(wide.value.1) && TakePrecision(wide.value.1, s) == Done((None, wide.value.1, s)) && wide.value.2 == s)
  {
    hide N.Number, N.DigitRun;
    var wide := TakeNumber(t[n..], s, -MAX_SIZE - 1, MAX_SIZE);
    if wide.Done? {
      assert wide.value.1 == t[n + N.DigitRun(t[n..])..];
    }
  }

  lemma HarmlessDirective(t: string, s: Supply)
    requires Harmless(t)
    ensures Directive(t, s) != Escaped
    ensures Directive(t, s).Done? ==>
      Harmless(Directive(t, s).value.1) && !Risky(Directive(t, s).value.0.conversion) && Directive(t, s).value.0.precision == None
  {
    assert TakeKey(t, s) == Done((t, s));
    hide TakeKey;
    var n := FlagRun(t);
    HarmlessNumber(t, n, s);
    hide TakeNumber, FlagRun, TakePrecision;
  }

  lemma HarmlessConvert(spec: Spec, a: Arg)
    requires !Risky(spec.conversion) && spec.precision == None
    ensures Convert(spec, a) != Escaped
  {
    hide Padded, InBase, FloatLimit, TooManyDigits, N.Decimal;
  }

  /** A format can raise uncaught only with a key, a star, a precision, or a character or float conversion in it. */
  lemma {:induction false} HarmlessFormat(t: string, s: Supply)
    requires Harmless(t)
    ensures Run(t, s) != Escaped
    decreases |t|
  {
    if t != "" {
      if t[0] != '%' {
        HarmlessFormat(t[1..], s);
      } else {
        HarmlessDirective(t[1..], s);
        var d := Directive(t[1..], s);
        hide Directive, Convert;
        if d.Done? {
          var (spec, after, supply) := d.value;
          if spec.conversion == '%' {
            HarmlessFormat(after, supply);
          } else if supply.rest != [] {
            HarmlessConvert(spec, supply.rest[0]);
            HarmlessFormat(after, supply.(rest := supply.rest[1..]));
          }
        }
      }
    }
  }
}
