/** What a printf-style conversion shows: its width, its sign, its digits, and how its directive is written. */
module FormattingLaws {
  import opened Options
  import opened Formatting
  import N = Numerals

  // ----- padding -----

  predicate Only(s: string, c: char) {
    forall i :: 0 <= i < |s| ==> s[i] == c
  }

  lemma {:induction false} FillMeans(c: char, n: int)
    ensures |Fill(c, n)| == (if n < 0 then 0 else n) && Only(Fill(c, n), c)
    decreases n
  {
    if n > 0 {
      FillMeans(c, n - 1);
    }
  }

  /** A text as wide as the width or itself, whichever is more: filled with spaces on the right, with zeros inside, or on the left. */
  lemma PaddedMeans(spec: Spec, head: string, body: string, numeric: bool)
    requires spec.width >= 0
    ensures
      var (r, n) := (Padded(spec, head, body, numeric), |head| + |body|);
      && |r| == (if n < spec.width then spec.width else n)
      && if '-' in spec.flags then head + body <= r && Only(r[n..], ' ')
         else if numeric && '0' in spec.flags then head <= r && r[|r| - |body|..] == body && Only(r[|head|..|r| - |body|], '0')
         else r[|r| - n..] == head + body && Only(r[..|r| - n], ' ')
  {
    var fill := spec.width - |head| - |body|;
    FillMeans(' ', fill);
    FillMeans('0', fill);
    hide Fill;
    var (r, n) := (Padded(spec, head, body, numeric), |head| + |body|);
    if '-' in spec.flags {
      assert r[n..] == Fill(' ', fill);
    } else if numeric && '0' in spec.flags {
      assert r[|head|..|r| - |body|] == Fill('0', fill);
    } else {
      assert r == Fill(' ', fill) + (head + body);
      assert r[..|r| - n] == Fill(' ', fill);
    }
  }

  // ----- octal and hexadecimal -----

  function DigitValue(c: char): int {
    if '0' <= c <= '9' then c as int - '0' as int
    else if 'a' <= c <= 'f' then c as int - 'a' as int + 10
    else if 'A' <= c <= 'F' then c as int - 'A' as int + 10
    else -1
  }

  function BaseValue(s: string, base: nat): int {
    if s == "" then 0 else BaseValue(s[..|s| - 1], base) * base + DigitValue(s[|s| - 1])
  }

  predicate Cased(s: string, upper: bool) {
    forall i :: 0 <= i < |s| ==> if upper then s[i] < 'a' else s[i] < 'A' || s[i] >= 'a'
  }

  /** Digits that read back as the number, in one case, without a leading zero. */
  lemma InBaseReads(n: nat, base: nat, upper: bool)
    requires base == 8 || base == 16
    ensures var s := InBase(n, base, upper);
      s != "" && BaseValue(s, base) == n && Cased(s, upper) && (n > 0 ==> s[0] != '0')
  {
    InBaseValue(n, base, upper);
    InBaseShape(n, base, upper);
  }

  lemma {:induction false} InBaseValue(n: nat, base: nat, upper: bool)
    requires base == 8 || base == 16
    ensures BaseValue(InBase(n, base, upper), base) == n
  {
    var q := n / base;
    Divides(n, base);
    var c := InBaseStep(n, base, upper);
    BaseValueStep(if q > 0 then InBase(q, base, upper) else "", c, base);
    if q > 0 {
      InBaseValue(q, base, upper);
    }
    hide InBase, DigitValue;
  }

  lemma {:induction false} InBaseShape(n: nat, base: nat, upper: bool)
    requires base == 8 || base == 16
    ensures var s := InBase(n, base, upper); s != "" && Cased(s, upper) && (n > 0 ==> s[0] != '0')
  {
    var q := n / base;
    Divides(n, base);
    var c := InBaseStep(n, base, upper);
    assert n < base ==> n % base == n;
    if q > 0 {
      InBaseShape(q, base, upper);
    }
    hide InBase;
  }

  lemma Divides(n: nat, base: nat)
    requires base == 8 || base == 16
    ensures n == n / base * base + n % base && (n / base < n || n == 0) && (n / base > 0 <==> n >= base)
  {
    if base == 8 { assert n == n / 8 * 8 + n % 8; } else { assert n == n / 16 * 16 + n % 16; }
  }

  lemma BaseValueStep(s: string, c: char, base: nat)
    ensures BaseValue(s + [c], base) == BaseValue(s, base) * base + DigitValue(c)
  {
    assert (s + [c])[..|s|] == s;
    hide DigitValue;
  }

  lemma InBaseStep(n: nat, base: nat, upper: bool) returns (c: char)
    requires base == 8 || base == 16
    ensures Cased([c], upper) && DigitValue(c) == n % base
    ensures InBase(n, base, upper) == (if n < base then "" else InBase(n / base, base, upper)) + [c]
  {
    LastDigit(n % base, upper);
    var d := n % base;
    c := if d < 10 then '0' + d as char else if upper then 'A' + (d - 10) as char else 'a' + (d - 10) as char;
  }

  lemma LastDigit(d: nat, upper: bool)
    requires d < 16
    ensures var c := if d < 10 then '0' + d as char else if upper then 'A' + (d - 10) as char else 'a' + (d - 10) as char;
      DigitValue(c) == d && Cased([c], upper)
  {
  }

  // ----- integers -----

  /** The sign of a number under some flags. */
  predicate SignShown(flags: string, n: int, sign: string) {
    if n < 0 then sign == "-"
    else if '+' in flags then sign == "+"
    else if ' ' in flags then sign == " "
    else sign == ""
  }

  predicate DigitsShown(c: char, n: int, digits: string) {
    if IsDecimal(c) then (forall d :: d in digits ==> N.IsDigit(d)) && N.Number(digits) == n
    else BaseValue(digits, if c == 'o' then 8 else 16) == n && Cased(digits, c == 'X')
  }

  lemma {:induction false} ZerosRead(k: int, digits: string, base: nat)
    ensures BaseValue(Fill('0', k) + digits, base) == BaseValue(digits, base)
    decreases |digits| + if k < 0 then 0 else k
  {
    var s := Fill('0', k) + digits;
    if digits != "" {
      assert s[..|s| - 1] == Fill('0', k) + digits[..|digits| - 1];
      ZerosRead(k, digits[..|digits| - 1], base);
    } else if k > 0 {
      FillMeans('0', k);
      FillMeans('0', k - 1);
      assert s == Fill('0', k) && s[..|s| - 1] == Fill('0', k - 1) + digits;
      ZerosRead(k - 1, digits, base);
    } else {
      assert s == digits;
    }
  }

  lemma {:induction false} ReadsInTen(s: string)
    requires forall c :: c in s ==> N.IsDigit(c)
    ensures N.Number(s) == BaseValue(s, 10)
  {
    if s != "" {
      ReadsInTen(s[..|s| - 1]);
      assert s[|s| - 1] in s;
    }
  }

  function Digits(c: char, size: nat): string {
    if IsDecimal(c) then N.Decimal(size) else InBase(size, if c == 'o' then 8 else 16, c == 'X')
  }

  lemma DecimalDigits(size: nat, k: int)
    ensures var s := Fill('0', k) + N.Decimal(size); (forall d :: d in s ==> N.IsDigit(d)) && N.Number(s) == size
  {
    var digits := N.Decimal(size);
    FillMeans('0', k);
    N.NumberDecimal(size);
    ReadsInTen(digits);
    ZerosRead(k, digits, 10);
    hide N.Decimal, N.Number, Fill, BaseValue;
    ReadsInTen(Fill('0', k) + digits);
  }

  lemma BasedDigits(size: nat, k: int, base: nat, upper: bool)
    requires base == 8 || base == 16
    ensures var s := Fill('0', k) + InBase(size, base, upper); BaseValue(s, base) == size && Cased(s, upper)
  {
    FillMeans('0', k);
    InBaseReads(size, base, upper);
    ZerosRead(k, InBase(size, base, upper), base);
    CasedZeros(Fill('0', k), InBase(size, base, upper), upper);
    hide Fill, InBase, BaseValue, Cased;
  }

  lemma CasedZeros(zeros: string, digits: string, upper: bool)
    requires Only(zeros, '0') && Cased(digits, upper)
    ensures Cased(zeros + digits, upper)
  {
  }

  lemma Unsigned(c: char, size: nat, k: int)
    requires IsDecimal(c) || IsBased(c)
    ensures DigitsShown(c, size, Fill('0', k) + Digits(c, size))
  {
    if IsDecimal(c) {
      DecimalDigits(size, k);
    } else {
      BasedDigits(size, k, if c == 'o' then 8 else 16, c == 'X');
    }
    hide Fill, InBase, BaseValue, N.Decimal, N.Number, Cased;
  }

  /** `text` is a sign, a base prefix if asked for, and at least as many digits as the precision. */
  ghost predicate IntegerShown(flags: string, precision: Option<nat>, c: char, n: int, text: string) {
    exists sign: string, prefix: string, digits: string ::
      && text == sign + prefix + digits
      && SignShown(flags, n, sign)
      && PrefixShown(flags, c, prefix)
      && DigitsShown(c, if n < 0 then -n else n, digits)
      && (precision.Some? ==> |digits| >= precision.get)
  }

  predicate PrefixShown(flags: string, c: char, prefix: string) {
    prefix == if IsBased(c) && '#' in flags then "0" + [c] else ""
  }

  /** What an integer conversion without a width shows; 4300 decimal digits are the most it takes, and a huge precision raises. */
  lemma IntegralMeans(flags: string, precision: Option<nat>, c: char, n: int)
    requires IsDecimal(c) || IsBased(c)
    ensures
      var r := Convert(Spec(flags, 0, precision, c), IntArg(n));
      if precision.Some? && precision.get > 2147483644 then r == Escaped
      else if IsDecimal(c) && |N.Decimal(if n < 0 then -n else n)| > 4300 then r == Refused
      else r.Done? && IntegerShown(flags, precision, c, n, r.value)
  {
    assert Convert(Spec(flags, 0, precision, c), IntArg(n)) == Integral(Spec(flags, 0, precision, c), n);
    if (precision.Some? && precision.get > 2147483644) || (IsDecimal(c) && TooManyDigits(n)) {
      return;
    }
    var spec := Spec(flags, 0, precision, c);
    var size: nat := if n < 0 then -n else n;
    var k := if precision.None? then 0 else precision.get - |Digits(c, size)|;
    var sign := if n < 0 then "-" else if '+' in flags then "+" else if ' ' in flags then " " else "";
    var prefix := if IsBased(c) && '#' in flags then "0" + [c] else "";
    var digits := Fill('0', k) + Digits(c, size);
    Unsigned(c, size, k);
    FillMeans('0', k);
    assert precision.Some? ==> |digits| >= precision.get;
    Unpadded(spec, sign + prefix, digits, true);
    IntegralParts(spec, n, sign, prefix, k);
    hide Padded, Fill, Convert, DigitsShown, Digits;
    assert SignShown(flags, n, sign) && PrefixShown(flags, c, prefix);
    hide SignShown, PrefixShown;
    IntegerParts(flags, precision, c, n, sign, prefix, digits);
  }

  lemma IntegerParts(flags: string, precision: Option<nat>, c: char, n: int, sign: string, prefix: string, digits: string)
    requires SignShown(flags, n, sign) && PrefixShown(flags, c, prefix) && DigitsShown(c, if n < 0 then -n else n, digits)
    requires precision.Some? ==> |digits| >= precision.get
    ensures IntegerShown(flags, precision, c, n, sign + prefix + digits)
  {
    hide SignShown, PrefixShown, DigitsShown;
  }

  lemma IntegralParts(spec: Spec, n: int, sign: string, prefix: string, k: int)
    requires var c := spec.conversion; (IsDecimal(c) && !TooManyDigits(n)) || IsBased(c)
    requires spec.precision.Some? ==> spec.precision.get <= 2147483644
    requires SignShown(spec.flags, n, sign) && PrefixShown(spec.flags, spec.conversion, prefix)
    requires k == if spec.precision.None? then 0 else spec.precision.get - |Digits(spec.conversion, if n < 0 then -n else n)|
    ensures Convert(spec, IntArg(n)) ==
      Done(Padded(spec, sign + prefix, Fill('0', k) + Digits(spec.conversion, if n < 0 then -n else n), true))
  {
    hide Padded, Fill, InBase, TooManyDigits, N.Decimal;
  }

  lemma Unpadded(spec: Spec, head: string, body: string, numeric: bool)
    requires spec.width == 0
    ensures Padded(spec, head, body, numeric) == head + body
  {
    PaddedMeans(spec, head, body, numeric);
    hide Padded;
    var r := Padded(spec, head, body, numeric);
    assert |r| == |head| + |body|;
    assert r[0..] == r;
    if '-' !in spec.flags && numeric && '0' in spec.flags {
      assert r == r[..|head|] + r[|head|..];
    }
  }

  // ----- texts and characters -----

  /** A precision cuts a text; `%c` shows one character, of which an integer is the code. */
  lemma TextMeans(x: string, k: nat, n: nat, flags: string)
    requires n < 0xd800 || 0xe000 <= n
    ensures Convert(Spec(flags, 0, Some(k), 's'), StrArg(x)) == Done(if k < |x| then x[..k] else x)
    ensures Convert(Spec(flags, 0, None, 'c'), IntArg(n)) == if n < 0x11_0000 then Done([n as char]) else Escaped
    ensures Convert(Spec(flags, 0, None, 'c'), StrArg(x)) == if |x| == 1 then Done(x) else Refused
    ensures Convert(Spec(flags, 0, None, 's'), NoneArg) == Done("None")
    ensures forall b :: Convert(Spec(flags, 0, None, 's'), BoolArg(b)) == Done(if b then "True" else "False")
  {
    var cut := if k < |x| then x[..k] else x;
    assert "" + cut == cut && "" + x == x && (n < 0x11_0000 ==> "" + [n as char] == [n as char]);
    assert "" + "None" == "None" && "" + "True" == "True" && "" + "False" == "False";
    Unpadded(Spec(flags, 0, Some(k), 's'), "", cut, false);
    if n < 0x11_0000 {
      Unpadded(Spec(flags, 0, None, 'c'), "", [n as char], false);
    }
    Unpadded(Spec(flags, 0, None, 'c'), "", x, false);
    Unpadded(Spec(flags, 0, None, 's'), "", "None", false);
    Unpadded(Spec(flags, 0, None, 's'), "", "True", false);
    Unpadded(Spec(flags, 0, None, 's'), "", "False", false);
    hide Padded;
  }

  /** `%s` and `%d` show an integer alike. */
  lemma ShownAlike(n: int)
    ensures Convert(Spec("", 0, None, 's'), IntArg(n)) == Convert(Spec("", 0, None, 'd'), IntArg(n))
  {
    var digits := N.Decimal(if n < 0 then -n else n);
    var sign := if n < 0 then "-" else "";
    if !TooManyDigits(n) {
      Unpadded(Spec("", 0, None, 's'), "", sign + digits, false);
      Unpadded(Spec("", 0, None, 'd'), sign, digits, true);
      hide Padded, N.Decimal;
      assert sign + "" == sign && Fill('0', 0) + digits == digits && "" + (sign + digits) == sign + digits && (n >= 0 ==> sign + digits == digits);
    }
  }

  lemma {:induction false} PowerSum(a: nat, b: nat)
    ensures Power(a + b) == Power(a) * Power(b)
  {
    if a > 0 {
      PowerSum(a - 1, b);
    }
  }

  /** Integers below the middle between the largest float, 53 ones and 971 zeros, and the next power of two convert to a float. */
  lemma FloatLimitIsMiddle()
    ensures var largest := (Power(53) - 1) * Power(971); FloatLimit() - largest == Power(1024) - FloatLimit()
  {
    hide Power;
    PowerSum(53, 971);
    Twice(970);
    OneLess(Power(53), Power(971));
  }

  lemma Twice(n: nat)
    ensures Power(n + 1) == 2 * Power(n)
  {
  }

  lemma OneLess(a: int, b: int)
    ensures (a - 1) * b == a * b - b
  {
  }

  // ----- directives -----

  predicate AllFlags(flags: string) {
    forall i :: 0 <= i < |flags| ==> IsFlag(flags[i])
  }

  lemma {:induction false} FlagRunOf(flags: string, t: string)
    requires AllFlags(flags) && (t == "" || !IsFlag(t[0]))
    ensures FlagRun(flags + t) == |flags|
  {
    if flags == "" {
      assert flags + t == t;
    } else {
      assert (flags + t)[1..] == flags[1..] + t;
      FlagRunOf(flags[1..], t);
    }
  }

  lemma NumberTaken(d: string, t: string, s: Supply, lowest: int, highest: int)
    requires (forall c :: c in d ==> N.IsDigit(c)) && d != "" && (t == "" || !N.IsDigit(t[0]))
    ensures TakeNumber(d + t, s, lowest, highest) == if N.Number(d) <= highest then Done((Some(N.Number(d)), t, s)) else Refused
  {
    N.DigitRunOf(d, t);
    assert d[0] in d && (d + t)[0] == d[0] && (d + t)[..|d|] == d && (d + t)[|d|..] == t;
    hide N.Number, N.DigitRun;
  }

  predicate IsConversion(c: char) {
    IsText(c) || IsDecimal(c) || IsBased(c) || IsFloat(c) || c == 'c'
  }

  /** `%`, flags, a width and a precision in decimal, and a conversion: the directive says what is written in it. */
  lemma DirectiveReads(flags: string, width: nat, precision: nat, c: char, u: string, s: Supply)
    requires AllFlags(flags) && 1 <= width <= MAX_SIZE && precision <= MAX_INT && IsConversion(c)
    ensures Directive(flags + (N.Decimal(width) + ("." + (N.Decimal(precision) + ([c] + u)))), s)
      == Done((Spec(flags, width, Some(precision), c), u, s))
  {
    var t3 := [c] + u;
    var t2 := N.Decimal(precision) + t3;
    var t1 := "." + t2;
    var t0 := N.Decimal(width) + t1;
    LeadingDigit(width);
    assert N.Decimal(width)[0] in N.Decimal(width) && t0[0] == N.Decimal(width)[0];
    N.NumberDecimal(width);
    N.NumberDecimal(precision);
    assert t1[1..] == t2 && t3[1..] == u && t3[0] == c;
    NumberTaken(N.Decimal(width), t1, s, -MAX_SIZE - 1, MAX_SIZE);
    NumberTaken(N.Decimal(precision), t3, s, -MAX_INT - 1, MAX_INT);
    hide N.Decimal, N.Number, TakeNumber;
    assert TakePrecision(t1, s) == Done((Some(precision), t3, s));
    hide TakePrecision;
    FlagsRead(flags, t0, width, Some(precision), t1, t3, s);
  }

  lemma FlagsRead(flags: string, t0: string, width: nat, precision: Option<nat>, t1: string, t3: string, s: Supply)
    requires AllFlags(flags) && t0 != "" && !IsFlag(t0[0]) && t0[0] != '('
    requires TakeNumber(t0, s, -MAX_SIZE - 1, MAX_SIZE) == Done((Some(width), t1, s))
    requires TakePrecision(t1, s) == Done((precision, t3, s)) && t3 != "" && IsConversion(t3[0])
    ensures Directive(flags + t0, s) == Done((Spec(flags, width, precision, t3[0]), t3[1..], s))
  {
    var t := flags + t0;
    assert t[0] == if flags == "" then t0[0] else flags[0];
    assert t[0] != '(';
    hide TakeNumber, TakePrecision;
    NoKey(t, s);
    UnkeyedReads(flags, t0, width, precision, t1, t3, s);
    hide Directive, Unkeyed;
  }

  lemma NoKey(t: string, s: Supply)
    requires t == "" || t[0] != '('
    ensures Directive(t, s) == Unkeyed(t, s)
  {
    hide Unkeyed;
  }

  lemma UnkeyedReads(flags: string, t0: string, width: nat, precision: Option<nat>, t1: string, t3: string, s: Supply)
    requires AllFlags(flags) && t0 != "" && !IsFlag(t0[0])
    requires TakeNumber(t0, s, -MAX_SIZE - 1, MAX_SIZE) == Done((Some(width), t1, s))
    requires TakePrecision(t1, s) == Done((precision, t3, s)) && t3 != "" && IsConversion(t3[0])
    ensures Unkeyed(flags + t0, s) == Done((Spec(flags, width, precision, t3[0]), t3[1..], s))
  {
    FlagRunOf(flags, t0);
    hide FlagRun, TakeNumber, TakePrecision, AllFlags, IsFlag;
    assert (flags + t0)[..|flags|] == flags && (flags + t0)[|flags|..] == t0;
    assert t3[0] != 'h' && t3[0] != 'l' && t3[0] != 'L';
  }

  lemma {:induction false} LeadingDigit(n: nat)
    requires n >= 1
    ensures N.Decimal(n)[0] != '0'
  {
    if n >= 10 {
      LeadingDigit(n / 10);
    }
  }

  /** A star takes the width from the next argument, and a negative one means left adjustment. */
  lemma StarReads(n: int, rest: seq<Arg>, operand: Operand, c: char, u: string)
    requires -MAX_SIZE - 1 <= n <= MAX_SIZE && IsConversion(c)
    ensures Directive("*" + ([c] + u), Supply(operand, [IntArg(n)] + rest))
      == Done((Spec(if n < 0 then "-" else "", if n < 0 then -n else n, None, c), u, Supply(operand, rest)))
  {
    var t := "*" + ([c] + u);
    var s := Supply(operand, [IntArg(n)] + rest);
    assert t[0] == '*' && t[1..] == [c] + u && t[0..] == t && ([c] + u)[1..] == u && s.rest[1..] == rest;
    assert TakeKey(t, s) == Done((t, s));
    assert FlagRun(t) == 0 && t[..0] == "" && "" + "-" == "-";
    assert TakeNumber(t, s, -MAX_SIZE - 1, MAX_SIZE) == Done((Some(n), [c] + u, Supply(operand, rest)));
    assert TakePrecision([c] + u, Supply(operand, rest)) == Done((None, [c] + u, Supply(operand, rest)));
  }

  /** Text without conversions takes no arguments, and refuses to be given any unless they come as a mapping or a list. */
  lemma ArgumentsLeftOver(a: string, operand: Operand)
    ensures Format(Doubled(a), operand) ==
      if operand == Tuple([]) || operand.Dict? || operand.List? then Done(a) else Refused
  {
    DoubledStands(a, "", Supplied(operand));
    assert Doubled(a) + "" == Doubled(a) && a + "" == a;
    hide Doubled, Directive, Convert;
  }

  /** A conversion with no argument left refuses. */
  lemma ArgumentsMissing(a: string, c: char, b: string)
    requires IsText(c) || IsDecimal(c)
    ensures Format(Doubled(a) + ("%" + ([c] + b)), Tuple([])) == Refused
  {
    var s := Supplied(Tuple([]));
    DoubledStands(a, "%" + ([c] + b), s);
    BareDirective(c, b, s);
    var t := "%" + ([c] + b);
    assert t[0] == '%' && t[1..] == [c] + b;
    hide Doubled, Directive, Convert;
  }
}
