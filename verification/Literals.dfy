/**
 The text of a JSON scalar as `json.dumps` writes it, and the operand Python's parser reads back
 from that text inside a predicate.
 */
module Literals {
  import opened Options
  import opened Values
  import opened Predicates
  import opened Numerals

  // ----- strings, with the escapes of section 7 of RFC 8259 -----

  function Hex(d: nat): char
    requires d < 16
  {
    if d < 10 then '0' + d as char else 'a' + (d - 10) as char
  }

  function HexValue(c: char): Option<nat> {
    if '0' <= c <= '9' then Some(c as int - '0' as int)
    else if 'a' <= c <= 'f' then Some(c as int - 'a' as int + 10)
    else None
  }

  function Hex4(n: nat): (r: string)
    requires n < 0x1_0000
    ensures |r| == 4
  {
    [Hex(n / 16 / 16 / 16), Hex(n / 16 / 16 % 16), Hex(n / 16 % 16), Hex(n % 16)]
  }

  function Hex4Value(s: string): Option<nat>
    requires |s| >= 4
  {
    var a, b, c, d := HexValue(s[0]), HexValue(s[1]), HexValue(s[2]), HexValue(s[3]);
    if a.None? || b.None? || c.None? || d.None? then None
    else Some(a.get * 4096 + b.get * 256 + c.get * 16 + d.get)
  }

  lemma HexRead(d: nat)
    requires d < 16
    ensures HexValue(Hex(d)) == Some(d)
  {
  }

  lemma Hex4Read(n: nat, rest: string)
    requires n < 0x1_0000
    ensures Hex4Value(Hex4(n) + rest) == Some(n)
  {
    var q := n / 16;
    var r := q / 16;
    HexRead(r / 16);
    HexRead(r % 16);
    HexRead(q % 16);
    HexRead(n % 16);
    hide Hex, HexValue;
    assert n == 16 * q + n % 16 && q == 16 * r + q % 16 && r == 16 * (r / 16) + r % 16;
  }

  /** Beyond the basic plane a character is written as two surrogates. */
  function EscapeWide(code: nat): string
    requires 0x1_0000 <= code < 0x11_0000
  {
    var v := code - 0x1_0000;
    "\\u" + Hex4(0xd800 + v / 1024) + "\\u" + Hex4(0xdc00 + v % 1024)
  }

  function Escape(c: char): (r: string)
    ensures r != ""
  {
    if c == '"' then "\\\""
    else if c == '\\' then "\\\\"
    else if c == '\n' then "\\n"
    else if c == '\r' then "\\r"
    else if c == '\t' then "\\t"
    else if c as int == 8 then "\\b"
    else if c as int == 12 then "\\f"
    else if ' ' <= c <= '~' then [c]
    else if c as int < 0x1_0000 then "\\u" + Hex4(c as int)
    else EscapeWide(c as int)
  }

  function EscapeAll(s: string): string {
    if s == "" then "" else Escape(s[0]) + EscapeAll(s[1..])
  }

  function Quoted(s: string): string {
    "\"" + EscapeAll(s) + "\""
  }

  function Codes(s: string): seq<nat> {
    seq(|s|, i requires 0 <= i < |s| => s[i] as int)
  }

  function SimpleEscape(c: char): Option<nat> {
    match c
    case '"' => Some('"' as int)
    case '\\' => Some('\\' as int)
    case 'n' => Some('\n' as int)
    case 'r' => Some('\r' as int)
    case 't' => Some('\t' as int)
    case 'b' => Some(8)
    case 'f' => Some(12)
    case _ => None
  }

  /**
   What follows the opening quote of a Python string literal, as code points, up to a quote that must
   end the text. Only the escapes JSON writes are read.
   */
  function ReadString(t: string): Option<seq<nat>>
    decreases |t|
  {
    if t == "" || t[0] == '\n' then None
    else if t[0] == '"' then if |t| == 1 then Some([]) else None
    else if t[0] != '\\' then Before(t[0] as int, ReadString(t[1..]))
    else if |t| >= 2 && SimpleEscape(t[1]).Some? then Before(SimpleEscape(t[1]).get, ReadString(t[2..]))
    else if |t| >= 6 && t[1] == 'u' && Hex4Value(t[2..]).Some? then Before(Hex4Value(t[2..]).get, ReadString(t[6..]))
    else None
  }

  function Before(code: nat, rest: Option<seq<nat>>): Option<seq<nat>> {
    if rest.None? then None else Some([code] + rest.get)
  }

  lemma ReadUnicodeEscape(n: nat, rest: string)
    requires n < 0x1_0000
    ensures ReadString("\\u" + Hex4(n) + rest) == Before(n, ReadString(rest))
  {
    var t := "\\u" + Hex4(n) + rest;
    Hex4Read(n, rest);
    assert t[2..] == Hex4(n) + rest;
    assert t[6..] == rest;
    assert t[0] == '\\' && t[1] == 'u';
  }

  lemma ReadEscape(c: char, rest: string)
    requires c as int < 0x1_0000
    ensures ReadString(Escape(c) + rest) == Before(c as int, ReadString(rest))
  {
    var t := Escape(c) + rest;
    if Escape(c) == [c] {
      assert t[1..] == rest;
    } else if |Escape(c)| == 2 {
      assert t[2..] == rest;
    } else {
      ReadUnicodeEscape(c as int, rest);
    }
  }

  lemma ReadWideEscape(code: nat, rest: string)
    requires 0x1_0000 <= code < 0x11_0000
    ensures ReadString(EscapeWide(code) + rest)
      == Before(0xd800 + (code - 0x1_0000) / 1024, Before(0xdc00 + (code - 0x1_0000) % 1024, ReadString(rest)))
  {
    var v := code - 0x1_0000;
    var second := "\\u" + Hex4(0xdc00 + v % 1024) + rest;
    assert EscapeWide(code) + rest == "\\u" + Hex4(0xd800 + v / 1024) + second;
    ReadUnicodeEscape(0xd800 + v / 1024, second);
    ReadUnicodeEscape(0xdc00 + v % 1024, rest);
  }

  lemma EscapeIsWide(c: char)
    requires c as int >= 0x1_0000
    ensures Escape(c) == EscapeWide(c as int)
  {
  }

  predicate Basic(s: string) {
    forall i :: 0 <= i < |s| ==> s[i] as int < 0x1_0000
  }

  lemma FirstCode(s: string)
    requires s != ""
    ensures Basic(s) <==> s[0] as int < 0x1_0000 && Basic(s[1..])
    ensures Codes(s) == [s[0] as int] + Codes(s[1..])
  {
    assert forall i :: 1 <= i < |s| ==> s[i] == s[1..][i - 1];
  }

  /** Every character beyond the basic plane comes back as two code points, every other as itself. */
  lemma {:induction false} ReadEscapeAll(s: string)
    ensures ReadString(EscapeAll(s) + "\"").Some?
    ensures |ReadString(EscapeAll(s) + "\"").get| >= |s|
    ensures Basic(s) ==> ReadString(EscapeAll(s) + "\"").get == Codes(s)
    ensures !Basic(s) ==> |ReadString(EscapeAll(s) + "\"").get| > |s|
  {
    if s == "" {
      assert EscapeAll(s) + "\"" == "\"";
      assert ReadString("\"") == Some([]);
    } else {
      hide Escape, EscapeWide, ReadString;
      var rest := EscapeAll(s[1..]) + "\"";
      ReadEscapeAll(s[1..]);
      assert EscapeAll(s) + "\"" == Escape(s[0]) + rest;
      FirstCode(s);
      hide Basic, Codes, EscapeAll;
      if s[0] as int < 0x1_0000 {
        ReadEscape(s[0], rest);
      } else {
        EscapeIsWide(s[0]);
        ReadWideEscape(s[0] as int, rest);
      }
    }
  }

  /** A string survives being written as JSON and read as a Python literal exactly when it stays in the basic plane. */
  lemma QuotedReadsBack(s: string)
    ensures ReadString(Quoted(s)[1..]) == Some(Codes(s)) <==> Basic(s)
  {
    ReadEscapeAll(s);
    assert Quoted(s)[1..] == EscapeAll(s) + "\"";
    assert |Codes(s)| == |s|;
  }

  // ----- scalars as operands -----

  function JsonText(v: Value): string
    requires Scalar(v)
  {
    match v
    case VNone => "null"
    case VBool(b) => if b then "true" else "false"
    case VInt(n) => if n >= 0 then Decimal(n) else "-" + Decimal(-n)
    case VStr(s) => Quoted(s)
  }

  predicate Numeral(t: string) {
    t != "" && forall i :: 0 <= i < |t| ==> IsDigit(t[i])
  }

  predicate Word(t: string) {
    t != "" && forall i :: 0 <= i < |t| ==> 'a' <= t[i] <= 'z'
  }

  predicate CharCode(c: nat) {
    c < 0xd800 || 0xe000 <= c < 0x11_0000
  }

  function Chars(codes: seq<nat>): string
    requires forall i :: 0 <= i < |codes| ==> CharCode(codes[i])
  {
    seq(|codes|, i requires 0 <= i < |codes| => assert CharCode(codes[i]); codes[i] as char)
  }

  /** The operand Python's parser makes of the text of a scalar; `None` for any other text. */
  function ReadOperand(t: string): Option<Node> {
    if t != "" && t[0] == '"' then
      var codes := ReadString(t[1..]);
      if codes.None? || exists i :: 0 <= i < |codes.get| && !CharCode(codes.get[i]) then None
      else Some(Const(VStr(Chars(codes.get))))
    else if Numeral(t) then Some(Const(VInt(Number(t))))
    else if t != "" && t[0] == '-' && Numeral(t[1..]) then Some(Unary(Neg, Const(VInt(Number(t[1..])))))
    else if Word(t) then Some(Name(t))
    else None
  }

  /** Which operand a scalar becomes once it has gone through its JSON text. */
  function Operand(v: Value): Node
    requires Scalar(v)
  {
    match v
    case VNone => Name("null")
    case VBool(b) => Name(if b then "true" else "false")
    case VInt(n) => if n >= 0 then Const(v) else Unary(Neg, Const(VInt(-n)))
    case VStr(_) => Const(v)
  }

  predicate Carried(v: Value) {
    Scalar(v) && (v.VStr? ==> Basic(v.s))
  }

  lemma WordRead(t: string)
    requires Word(t)
    ensures ReadOperand(t) == Some(Name(t))
  {
    assert 'a' <= t[0] <= 'z';
    assert !Numeral(t) by { assert !IsDigit(t[0]); }
    hide ReadString, Number;
  }

  lemma NumeralRead(n: nat)
    ensures ReadOperand(Decimal(n)) == Some(Const(VInt(n)))
    ensures ReadOperand("-" + Decimal(n)) == Some(Unary(Neg, Const(VInt(n))))
  {
    NumberDecimal(n);
    var d := Decimal(n);
    hide ReadString, Number, Decimal;
    assert Numeral(d) by { assert forall i :: 0 <= i < |d| ==> d[i] in d; }
    assert d[0] in d;
    var t := "-" + d;
    assert t[1..] == d && !IsDigit(t[0]);
    assert !Numeral(t);
  }

  lemma QuotedRead(s: string)
    requires Basic(s)
    ensures ReadOperand(Quoted(s)) == Some(Const(VStr(s)))
  {
    QuotedReadsBack(s);
    assert Quoted(s)[0] == '"';
    hide ReadString, Quoted;
    assert forall i :: 0 <= i < |s| ==> CharCode(s[i] as int);
    assert Chars(Codes(s)) == s;
  }

  lemma OperandRead(v: Value)
    requires Carried(v)
    ensures ReadOperand(JsonText(v)) == Some(Operand(v))
  {
    hide ReadOperand, Quoted, Decimal;
    match v
    case VNone => WordRead("null");
    case VBool(b) => if b { WordRead("true"); } else { WordRead("false"); }
    case VInt(n) => NumeralRead(if n >= 0 then n else -n);
    case VStr(s) => QuotedRead(s);
  }
}
