/**
 Values of facts and predicates, and the Python operators the predicate language uses on them.
 Floats are not values here. `True` and `False` are integers to every operator but identity,
 so Python's equality is structural equality of the values with their booleans read as 0 and 1.
 */
module Values {
  import T = Text
  import Printf = Formatting

  datatype Value =
    | VNone
    | VBool(b: bool)
    | VInt(n: int)
    | VStr(s: string)
    | VList(items: seq<Value>)
    | VTuple(parts: seq<Value>)
    | VMap(m: map<string, Value>)

  type Facts = map<string, Value>

  /** What evaluating an expression can end in besides a value. */
  datatype Fault =
    | Unresolved   // a reference that does not resolve
    | Failed       // a type error or a division by zero, which the evaluator turns into its own error
    | Uncaught     // an OverflowError, MemoryError or KeyError, which nothing in the evaluator catches
    | Unmodelled   // identity of two ordinary objects, and what string formatting needs floats or `repr` for

  datatype Result<+T> = Ok(value: T) | Err(fault: Fault) {
    predicate IsFailure() {
      Err?
    }

    function PropagateFailure<U>(): Result<U>
      requires Err?
    {
      Err(fault)
    }

    function Extract(): T
      requires Ok?
    {
      value
    }
  }

  /** The value with every boolean in it read as an integer. */
  function Canon(v: Value): Value
    decreases v, 1
  {
    match v
    case VBool(b) => VInt(if b then 1 else 0)
    case VList(xs) => VList(CanonSeq(xs))
    case VTuple(xs) => VTuple(CanonSeq(xs))
    case VMap(_) => VMap(CanonMap(v))
    case _ => v
  }

  function CanonMap(v: Value): (r: map<string, Value>)
    requires v.VMap?
    ensures forall k :: k in r <==> k in v.m
    ensures forall k :: k in r ==> r[k] == Canon(v.m[k])
    decreases v, 0
  {
    map k | k in v.m :: Canon(v.m[k])
  }

  function CanonSeq(xs: seq<Value>): (r: seq<Value>)
    ensures |r| == |xs|
    ensures forall i :: 0 <= i < |xs| ==> r[i] == Canon(xs[i])
    decreases xs
  {
    seq(|xs|, i requires 0 <= i < |xs| => Canon(xs[i]))
  }

  /** Python's `==`. */
  predicate PyEq(a: Value, b: Value) {
    Canon(a) == Canon(b)
  }

  function CanonR(r: Result<Value>): Result<Value> {
    match r
    case Ok(v) => Ok(Canon(v))
    case Err(f) => Err(f)
  }

  /** Both runs end the same way, with equal values. */
  predicate SameResult(a: Result<Value>, b: Result<Value>) {
    CanonR(a) == CanonR(b)
  }

  lemma {:induction false} CanonIdempotent(v: Value)
    ensures Canon(Canon(v)) == Canon(v)
    decreases v
  {
    match v
    case VList(xs) => CanonSeqIdempotent(xs);
    case VTuple(xs) => CanonSeqIdempotent(xs);
    case VMap(m) =>
      forall k | k in m ensures Canon(Canon(m[k])) == Canon(m[k]) {
        CanonIdempotent(m[k]);
      }
      assert CanonMap(Canon(v)) == CanonMap(v);
    case _ =>
  }

  lemma {:induction false} CanonSeqIdempotent(xs: seq<Value>)
    ensures CanonSeq(CanonSeq(xs)) == CanonSeq(xs)
    decreases xs
  {
    forall i | 0 <= i < |xs| ensures Canon(Canon(xs[i])) == Canon(xs[i]) {
      CanonIdempotent(xs[i]);
    }
  }

  function Truthy(v: Value): bool {
    match v
    case VNone => false
    case VBool(b) => b
    case VInt(n) => n != 0
    case VStr(s) => s != ""
    case VList(xs) => xs != []
    case VTuple(xs) => xs != []
    case VMap(m) => m != map[]
  }

  lemma {:induction false} TruthyCanon(v: Value)
    ensures Truthy(Canon(v)) == Truthy(v)
  {
    if v.VMap? {
      var c := Canon(v).m;
      assert forall k :: k in v.m <==> k in c;
      assert c == map[] <==> v.m == map[];
    }
  }

  // ----- arithmetic -----

  predicate IsNum(v: Value) {
    v.VInt? || v.VBool?
  }

  function Num(v: Value): int
    requires IsNum(v)
  {
    if v.VInt? then v.n else if v.b then 1 else 0
  }

  datatype BinOp = Add | Subtract | Mult | FloorDiv | Mod

  /** Python's `//`, which rounds toward minus infinity. */
  function Floor(a: int, b: int): int
    requires b != 0
  {
    if b > 0 then a / b else (-a) / (-b)
  }

  /** Python's `%`. */
  function FloorRem(a: int, b: int): int
    requires b != 0
  {
    a - b * Floor(a, b)
  }

  /** The remainder has the sign of the divisor, and is smaller. */
  lemma {:induction false} FloorRemRange(a: int, b: int)
    requires b != 0
    ensures if b > 0 then 0 <= FloorRem(a, b) < b else b < FloorRem(a, b) <= 0
  {
    if b < 0 {
      var q := (-a) / (-b);
      assert 0 <= (-a) - (-b) * q < -b;
      assert (-b) * q == -(b * q);
    }
  }

  function Repeat<T>(s: seq<T>, n: int): (r: seq<T>)
    decreases if n < 0 then 0 else n
  {
    if n <= 0 then [] else s + Repeat(s, n - 1)
  }

  /** Machine sizes run from -MAX_SIZE - 1 to MAX_SIZE. */
  const MAX_SIZE := 0x7fff_ffff_ffff_ffff

  predicate IsSequence(v: Value) {
    v.VStr? || v.VList? || v.VTuple?
  }

  function Length(v: Value): nat
    requires IsSequence(v)
  {
    match v
    case VStr(s) => |s|
    case VList(xs) => |xs|
    case VTuple(xs) => |xs|
  }

  /** The count is no machine size, or the repetition would be longer than any sequence can be. */
  predicate Oversized(length: nat, n: int) {
    !(-MAX_SIZE - 1 <= n <= MAX_SIZE) || (n > 0 && length * n > MAX_SIZE)
  }

  function Multiply(l: Value, r: Value): Result<Value> {
    if IsNum(l) && IsNum(r) then Ok(VInt(Num(l) * Num(r)))
    else if IsNum(l) && IsSequence(r) then RepeatValue(r, Num(l))
    else if IsNum(r) && IsSequence(l) then RepeatValue(l, Num(r))
    else Err(Failed)
  }

  function RepeatValue(v: Value, n: int): Result<Value>
    requires IsSequence(v)
  {
    if Oversized(Length(v), n) then Err(Uncaught)
    else match v
      case VStr(s) => Ok(VStr(Repeat(s, n)))
      case VList(xs) => Ok(VList(Repeat(xs, n)))
      case VTuple(xs) => Ok(VTuple(Repeat(xs, n)))
  }

  // ----- formatting -----

  function ArgOf(v: Value): Printf.Arg {
    match v
    case VNone => Printf.NoneArg
    case VBool(b) => Printf.BoolArg(b)
    case VInt(n) => Printf.IntArg(n)
    case VStr(s) => Printf.StrArg(s)
    case _ => Printf.OtherArg
  }

  function OperandOf(v: Value): Printf.Operand {
    match v
    case VTuple(parts) => Printf.Tuple(seq(|parts|, i requires 0 <= i < |parts| => ArgOf(parts[i])))
    case VMap(m) => Printf.Dict(map k | k in m :: ArgOf(m[k]))
    case VList(_) => Printf.List
    case _ => Printf.Single(ArgOf(v))
  }

  function FormatValue(s: string, r: Value): Result<Value> {
    match Printf.Format(s, OperandOf(r))
    case Done(text) => Ok(VStr(text))
    case Refused => Err(Failed)
    case Escaped => Err(Uncaught)
    case Beyond => Err(Unmodelled)
  }

  function Plus(l: Value, r: Value): Result<Value> {
    if IsNum(l) && IsNum(r) then Ok(VInt(Num(l) + Num(r)))
    else if l.VStr? && r.VStr? then Ok(VStr(l.s + r.s))
    else if l.VList? && r.VList? then Ok(VList(l.items + r.items))
    else if l.VTuple? && r.VTuple? then Ok(VTuple(l.parts + r.parts))
    else Err(Failed)
  }

  function Arith(op: BinOp, l: Value, r: Value): Result<Value> {
    match op
    case Add => Plus(l, r)
    case Subtract =>
      if IsNum(l) && IsNum(r) then Ok(VInt(Num(l) - Num(r))) else Err(Failed)
    case Mult => Multiply(l, r)
    case FloorDiv =>
      if IsNum(l) && IsNum(r) && Num(r) != 0 then Ok(VInt(Floor(Num(l), Num(r)))) else Err(Failed)
    case Mod =>
      if l.VStr? then FormatValue(l.s, r)
      else if IsNum(l) && IsNum(r) && Num(r) != 0 then Ok(VInt(FloorRem(Num(l), Num(r))))
      else Err(Failed)
  }

  lemma {:induction false} CanonRepeat(xs: seq<Value>, n: int)
    ensures CanonSeq(Repeat(xs, n)) == Repeat(CanonSeq(xs), n)
    decreases if n < 0 then 0 else n
  {
    if n > 0 {
      CanonRepeat(xs, n - 1);
      CanonAppend(xs, Repeat(xs, n - 1));
    }
  }

  lemma {:induction false} CanonAppend(xs: seq<Value>, ys: seq<Value>)
    ensures CanonSeq(xs + ys) == CanonSeq(xs) + CanonSeq(ys)
  {
  }

  lemma {:induction false} RepeatCanon(v: Value, n: int)
    requires IsSequence(v)
    ensures SameResult(RepeatValue(v, n), RepeatValue(Canon(v), n))
  {
    CanonIdempotent(v);
    if v.VList? {
      CanonRepeat(v.items, n);
      CanonRepeat(CanonSeq(v.items), n);
      CanonSeqIdempotent(v.items);
    } else if v.VTuple? {
      CanonRepeat(v.parts, n);
      CanonRepeat(CanonSeq(v.parts), n);
      CanonSeqIdempotent(v.parts);
    }
  }

  lemma {:induction false} CanonList(xs: seq<Value>)
    ensures Canon(VList(xs)) == VList(CanonSeq(xs)) && Canon(VTuple(xs)) == VTuple(CanonSeq(xs))
  {
  }

  lemma {:induction false} CanonNum(v: Value)
    ensures IsNum(v) ==> Canon(v) == VInt(Num(v))
    ensures IsNum(Canon(v)) <==> IsNum(v)
    ensures v.VStr? ==> Canon(v) == v
    ensures Canon(v).VStr? <==> v.VStr?
    ensures Canon(v).VList? <==> v.VList?
    ensures Canon(v).VTuple? <==> v.VTuple?
    ensures v.VList? ==> Canon(v) == VList(CanonSeq(v.items))
    ensures v.VTuple? ==> Canon(v) == VTuple(CanonSeq(v.parts))
    ensures Canon(v).VNone? <==> v.VNone?
    ensures Canon(v).VMap? <==> v.VMap?
  {
  }

  lemma {:induction false} PlusCanon(l: Value, r: Value)
    ensures SameResult(Plus(l, r), Plus(Canon(l), Canon(r)))
  {
    CanonNum(l);
    CanonNum(r);
    hide Canon, CanonSeq;
    if l.VList? && r.VList? {
      AppendCanon(l.items, r.items);
      CanonList(l.items + r.items);
      CanonList(CanonSeq(l.items) + CanonSeq(r.items));
    } else if l.VTuple? && r.VTuple? {
      AppendCanon(l.parts, r.parts);
      CanonList(l.parts + r.parts);
      CanonList(CanonSeq(l.parts) + CanonSeq(r.parts));
    } else if IsNum(l) && IsNum(r) {
      CanonNum(VInt(Num(l) + Num(r)));
    } else if l.VStr? && r.VStr? {
      CanonNum(VStr(l.s + r.s));
    }
  }

  lemma {:induction false} AppendCanon(xs: seq<Value>, ys: seq<Value>)
    ensures CanonSeq(xs + ys) == CanonSeq(CanonSeq(xs) + CanonSeq(ys))
  {
    CanonAppend(xs, ys);
    CanonAppend(CanonSeq(xs), CanonSeq(ys));
    CanonSeqIdempotent(xs);
    CanonSeqIdempotent(ys);
  }

  lemma {:induction false} MultiplyCanon(l: Value, r: Value)
    ensures SameResult(Multiply(l, r), Multiply(Canon(l), Canon(r)))
  {
    CanonNum(l);
    CanonNum(r);
    hide Canon, CanonSeq, RepeatValue;
    if !(IsNum(l) && IsNum(r)) {
      if IsNum(l) && IsSequence(r) {
        RepeatCanon(r, Num(l));
      } else if IsNum(r) && IsSequence(l) {
        RepeatCanon(l, Num(r));
      }
    }
  }

  lemma {:induction false} IntegerResult(r: Result<Value>)
    requires r.Ok? ==> r.value.VInt?
    ensures CanonR(r) == r
  {
  }

  lemma {:induction false} IntegerOpCanon(op: BinOp, l: Value, r: Value)
    requires op.Subtract? || op.FloorDiv? || (op.Mod? && !l.VStr?)
    ensures SameResult(Arith(op, l, r), Arith(op, Canon(l), Canon(r)))
  {
    CanonNum(l);
    CanonNum(r);
    hide Canon, CanonR, Plus, Multiply, Floor, FloorRem;
    IntegerResult(Arith(op, l, r));
  }

  lemma {:induction false} ArithCanon(op: BinOp, l: Value, r: Value)
    requires !(op.Mod? && l.VStr?)
    ensures SameResult(Arith(op, l, r), Arith(op, Canon(l), Canon(r)))
  {
    hide Canon, Plus, Multiply, Floor, FloorRem;
    match op
    case Add => PlusCanon(l, r);
    case Mult => MultiplyCanon(l, r);
    case _ => IntegerOpCanon(op, l, r);
  }

  /** Arithmetic cannot tell equal operands apart, but for what formatting shows of its right operand. */
  lemma {:induction false} ArithRespectsEq(op: BinOp, l1: Value, r1: Value, l2: Value, r2: Value)
    requires PyEq(l1, l2) && PyEq(r1, r2)
    requires op.Mod? && l1.VStr? ==> r1 == r2
    ensures SameResult(Arith(op, l1, r1), Arith(op, l2, r2))
  {
    if op.Mod? && l1.VStr? {
      StringsEqual(l1, l2);
    } else {
      CanonNum(l1);
      CanonNum(l2);
      ArithCanon(op, l1, r1);
      ArithCanon(op, l2, r2);
    }
  }

  lemma StringsEqual(a: Value, b: Value)
    requires PyEq(a, b) && a.VStr?
    ensures a == b
  {
    CanonNum(a);
    CanonNum(b);
  }

  /** `"%s" % True` and `"%s" % 1` differ, although `True == 1`. */
  lemma FormattingTellsTrueFromOne()
    ensures PyEq(VBool(true), VInt(1))
    ensures Arith(Mod, VStr("%s"), VBool(true)) == Ok(VStr("True")) && Arith(Mod, VStr("%s"), VInt(1)) == Ok(VStr("1"))
  {
    Printf.ShownAlone(Printf.BoolArg(true));
    Printf.ShownAlone(Printf.IntArg(1));
    Printf.ShowOne();
    hide Printf.Format;
  }

  // ----- comparison -----

  datatype CmpOp = Eq | NotEq | Lt | LtE | Gt | GtE | In | NotIn | Is | IsNot

  function CompareInt(op: CmpOp, a: int, b: int): bool {
    match op
    case Lt => a < b
    case LtE => a <= b
    case Gt => a > b
    case GtE => a >= b
    case _ => false
  }

  function CompareStr(op: CmpOp, a: string, b: string): bool {
    match op
    case Lt => T.Leq(a, b) && a != b
    case LtE => T.Leq(a, b)
    case Gt => T.Leq(b, a) && a != b
    case GtE => T.Leq(b, a)
    case _ => false
  }

  /** The ordering operators: numbers, strings, and lists or tuples element by element. */
  function Order(op: CmpOp, l: Value, r: Value): Result<bool>
    decreases l
  {
    if IsNum(l) && IsNum(r) then Ok(CompareInt(op, Num(l), Num(r)))
    else if l.VStr? && r.VStr? then Ok(CompareStr(op, l.s, r.s))
    else if l.VList? && r.VList? then OrderSeq(op, l.items, r.items)
    else if l.VTuple? && r.VTuple? then OrderSeq(op, l.parts, r.parts)
    else Err(Failed)
  }

  function OrderSeq(op: CmpOp, xs: seq<Value>, ys: seq<Value>): Result<bool>
    decreases xs
  {
    if xs == [] || ys == [] then Ok(CompareInt(op, |xs|, |ys|))
    else if PyEq(xs[0], ys[0]) then OrderSeq(op, xs[1..], ys[1..])
    else Order(op, xs[0], ys[0])
  }

  lemma {:induction false} OrderCanon(op: CmpOp, l: Value, r: Value)
    ensures Order(op, l, r) == Order(op, Canon(l), Canon(r))
    decreases l
  {
    if l.VList? && r.VList? {
      OrderSeqCanon(op, l.items, r.items);
    } else if l.VTuple? && r.VTuple? {
      OrderSeqCanon(op, l.parts, r.parts);
    }
  }

  lemma {:induction false} OrderSeqCanon(op: CmpOp, xs: seq<Value>, ys: seq<Value>)
    ensures OrderSeq(op, xs, ys) == OrderSeq(op, CanonSeq(xs), CanonSeq(ys))
    decreases xs
  {
    if xs != [] && ys != [] {
      CanonIdempotent(xs[0]);
      CanonIdempotent(ys[0]);
      assert CanonSeq(xs)[1..] == CanonSeq(xs[1..]);
      assert CanonSeq(ys)[1..] == CanonSeq(ys[1..]);
      if PyEq(xs[0], ys[0]) {
        OrderSeqCanon(op, xs[1..], ys[1..]);
      } else {
        OrderCanon(op, xs[0], ys[0]);
      }
    }
  }

  predicate Hashable(v: Value) {
    match v
    case VList(_) => false
    case VMap(_) => false
    case VTuple(xs) => forall i :: 0 <= i < |xs| ==> Hashable(xs[i])
    case _ => true
  }

  lemma {:induction false} HashableCanon(v: Value)
    ensures Hashable(Canon(v)) == Hashable(v)
  {
    if v.VTuple? {
      forall i | 0 <= i < |v.parts| ensures Hashable(Canon(v.parts[i])) == Hashable(v.parts[i]) {
        HashableCanon(v.parts[i]);
      }
    }
  }

  predicate Substring(a: string, b: string) {
    exists i :: 0 <= i <= |b| && a <= b[i..]
  }

  predicate Member(x: Value, xs: seq<Value>) {
    exists i :: 0 <= i < |xs| && PyEq(x, xs[i])
  }

  /** Membership, with `None` containing nothing. */
  function Contains(l: Value, r: Value): Result<bool> {
    match r
    case VNone => Ok(false)
    case VStr(s) => if l.VStr? then Ok(Substring(l.s, s)) else Err(Failed)
    case VList(xs) => Ok(Member(l, xs))
    case VTuple(xs) => Ok(Member(l, xs))
    case VMap(m) => if Hashable(l) then Ok(l.VStr? && l.s in m) else Err(Failed)
    case _ => Err(Failed)
  }

  lemma {:induction false} MemberCanon(x: Value, xs: seq<Value>)
    ensures Member(x, xs) == Member(Canon(x), CanonSeq(xs))
  {
    CanonIdempotent(x);
    CanonSeqIdempotent(xs);
    var ys := CanonSeq(xs);
    assert forall i :: 0 <= i < |xs| ==> Canon(ys[i]) == Canon(xs[i]) by {
      assert CanonSeq(ys) == ys;
    }
    if Member(x, xs) {
      var i :| 0 <= i < |xs| && PyEq(x, xs[i]);
      assert PyEq(Canon(x), ys[i]);
    }
  }

  lemma {:induction false} ContainsCanon(l: Value, r: Value)
    ensures Contains(l, r) == Contains(Canon(l), Canon(r))
  {
    hide Substring, Member, Hashable, CanonSeq;
    match r
    case VList(xs) => MemberCanon(l, xs);
    case VTuple(xs) => MemberCanon(l, xs);
    case VMap(m) => HashableCanon(l);
    case _ =>
  }

  /** Identity, decided for the singletons `None`, `True` and `False` only. */
  function Identical(l: Value, r: Value): Result<bool> {
    if l.VNone? || r.VNone? || l.VBool? || r.VBool? then Ok(l == r) else Err(Unmodelled)
  }

  function Negate(r: Result<bool>): Result<bool> {
    match r
    case Ok(b) => Ok(!b)
    case Err(f) => Err(f)
  }

  function Compare(op: CmpOp, l: Value, r: Value): Result<bool> {
    match op
    case Eq => Ok(PyEq(l, r))
    case NotEq => Ok(!PyEq(l, r))
    case In => Contains(l, r)
    case NotIn => Negate(Contains(l, r))
    case Is => Identical(l, r)
    case IsNot => Negate(Identical(l, r))
    case _ => Order(op, l, r)
  }

  /** Comparison cannot tell equal operands apart, identity with `None` included. */
  lemma {:induction false} CompareRespectsEq(op: CmpOp, l1: Value, r1: Value, l2: Value, r2: Value)
    requires PyEq(l1, l2) && PyEq(r1, r2)
    requires op.Is? || op.IsNot? ==> r1.VNone?
    ensures Compare(op, l1, r1) == Compare(op, l2, r2)
  {
    match op
    case In =>
      ContainsCanon(l1, r1);
      ContainsCanon(l2, r2);
    case NotIn =>
      ContainsCanon(l1, r1);
      ContainsCanon(l2, r2);
    case Is =>
    case IsNot =>
    case _ =>
      OrderCanon(op, l1, r1);
      OrderCanon(op, l2, r2);
  }
}
