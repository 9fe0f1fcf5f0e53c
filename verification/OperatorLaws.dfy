/** What the operators of the predicate language say of their operands, told without the functions that compute them. */
module OperatorLaws {
  import opened Options
  import opened Values
  import opened Predicates
  import V = Values
  import T = Text
  import Printf = Formatting
  import Laws = EvaluationLaws

  // ----- equality and truth -----

  datatype Kind = NoneKind | NumberKind | TextKind | ListKind | TupleKind | MapKind

  function KindOf(v: Value): Kind {
    match v
    case VNone => NoneKind
    case VBool(_) => NumberKind
    case VInt(_) => NumberKind
    case VStr(_) => TextKind
    case VList(_) => ListKind
    case VTuple(_) => TupleKind
    case VMap(_) => MapKind
  }

  /** `==` is structural, but for `True` and `False` being 1 and 0 wherever they stand. */
  lemma EqualityLaws(a: Value, b: Value)
    ensures KindOf(a) != KindOf(b) ==> !PyEq(a, b)
    ensures a.VNone? && b.VNone? ==> PyEq(a, b)
    ensures a.VInt? && b.VInt? ==> (PyEq(a, b) <==> a.n == b.n)
    ensures PyEq(VBool(true), VInt(1)) && PyEq(VBool(false), VInt(0)) && !PyEq(VBool(true), VBool(false))
    ensures a.VStr? && b.VStr? ==> (PyEq(a, b) <==> a.s == b.s)
    ensures a.VList? && b.VList? ==> (PyEq(a, b) <==> Elementwise(a.items, b.items))
    ensures a.VTuple? && b.VTuple? ==> (PyEq(a, b) <==> Elementwise(a.parts, b.parts))
    ensures a.VMap? && b.VMap? ==> (PyEq(a, b) <==> a.m.Keys == b.m.Keys && forall k :: k in a.m && k in b.m ==> PyEq(a.m[k], b.m[k]))
  {
    if a.VList? && b.VList? { Laws.ListEq(a.items, b.items); }
    if a.VTuple? && b.VTuple? { Laws.ListEq(a.parts, b.parts); }
    if a.VMap? && b.VMap? { MapEq(a, b); }
  }

  predicate Elementwise(xs: seq<Value>, ys: seq<Value>) {
    |xs| == |ys| && forall i :: 0 <= i < |xs| ==> PyEq(xs[i], ys[i])
  }

  lemma MapEq(a: Value, b: Value)
    requires a.VMap? && b.VMap?
    ensures PyEq(a, b) <==> a.m.Keys == b.m.Keys && forall k :: k in a.m && k in b.m ==> PyEq(a.m[k], b.m[k])
  {
    var x, y := CanonMap(a), CanonMap(b);
    assert Canon(a) == VMap(x) && Canon(b) == VMap(y);
    assert x.Keys == a.m.Keys && y.Keys == b.m.Keys;
    hide Canon;
    if a.m.Keys == b.m.Keys && forall k :: k in a.m && k in b.m ==> PyEq(a.m[k], b.m[k]) {
      assert forall k :: k in x ==> k in y && x[k] == y[k];
      assert x == y;
    }
    if x == y {
      assert forall k :: k in a.m ==> x[k] == Canon(a.m[k]) && y[k] == Canon(b.m[k]);
    }
  }

  /** What is false: `None`, zero, and everything empty. */
  lemma TruthLaw(v: Value)
    ensures !Truthy(v) <==>
      PyEq(v, VNone) || PyEq(v, VInt(0)) || v == VStr("") || v == VList([]) || v == VTuple([]) || v == VMap(map[])
  {
  }

  // ----- arithmetic -----

  predicate Number(v: Value) {
    KindOf(v) == NumberKind
  }

  /** Sums of numbers. */
  lemma SumLaws(l: Value, r: Value)
    requires Number(l) && Number(r)
    ensures V.Plus(l, r).Ok? && V.Plus(l, r) == V.Plus(r, l) && PyEq(V.Plus(l, VInt(0)).value, l)
    ensures V.Plus(l, VInt(1)).Ok? && V.Plus(VInt(1), r).Ok? && V.Plus(l, V.Plus(VInt(1), r).value) == V.Plus(V.Plus(l, r).value, VInt(1))
    ensures V.Plus(VInt(1), VInt(1)) == Ok(VInt(2))
    ensures Arith(Add, l, r) == V.Plus(l, r)
  {
    NumberEq(l);
    hide PyEq, Canon, Multiply, Floor, FloorRem, FormatValue;
  }

  /** Adding the right operand to a difference gives back the left one. */
  lemma DifferenceLaw(l: Value, r: Value)
    requires Number(l) && Number(r)
    ensures
      var d := Arith(Subtract, l, r);
      d.Ok? && Number(d.value) && V.Plus(d.value, r).Ok? && PyEq(V.Plus(d.value, r).value, l)
  {
    NumberEq(l);
    hide PyEq, Canon, Multiply, Floor, FloorRem, FormatValue;
  }

  lemma NumberEq(l: Value)
    requires Number(l)
    ensures IsNum(l) && PyEq(VInt(Num(l)), l)
  {
  }

  /** Products of numbers are repeated sums. */
  lemma ProductLaws(l: Value, n: int)
    requires Number(l)
    ensures Arith(Mult, l, VInt(0)) == Ok(VInt(0)) && Arith(Mult, l, VInt(n)) == Arith(Mult, VInt(n), l)
    ensures Arith(Mult, l, VInt(n)).Ok?
    ensures Arith(Mult, l, VInt(n + 1)) == Arith(Add, Arith(Mult, l, VInt(n)).value, l)
  {
    assert Num(l) * (n + 1) == Num(l) * n + Num(l);
    assert Num(l) * n == n * Num(l);
  }

  /** Sums of sequences put them end to end; a sequence times a number repeats it, from either side. */
  lemma SequenceLaws(s: string, t: string, xs: seq<Value>, ys: seq<Value>, n: int)
    ensures Arith(Add, VStr(s), VStr(t)) == Ok(VStr(s + t))
    ensures Arith(Add, VList(xs), VList(ys)) == Ok(VList(xs + ys)) && Arith(Add, VTuple(xs), VTuple(ys)) == Ok(VTuple(xs + ys))
    ensures forall v: Value :: IsSequence(v) ==> Arith(Mult, v, VInt(n)) == Arith(Mult, VInt(n), v)
    ensures n <= 0 && -0x8000_0000_0000_0000 <= n ==> Arith(Mult, VStr(s), VInt(n)) == Ok(VStr(""))
    ensures 0 < n <= 0x7fff_ffff_ffff_ffff && |s| * n <= 0x7fff_ffff_ffff_ffff ==>
      Arith(Mult, VStr(s), VInt(n)).Ok? && Arith(Mult, VStr(s), VInt(n)).value.VStr? && |Arith(Mult, VStr(s), VInt(n)).value.s| == |s| * n
    ensures n > 0x7fff_ffff_ffff_ffff || n < -0x8000_0000_0000_0000 || (n > 0 && |s| * n > 0x7fff_ffff_ffff_ffff) ==>
      Arith(Mult, VStr(s), VInt(n)) == Err(Uncaught)
  {
    if 0 < n { Laws.RepetitionLength(s, n); }
    hide Repeat;
    assert n <= 0 ==> Repeat(s, n) == [] by { NoRepetition(s, n); }
  }

  lemma NoRepetition<A>(s: seq<A>, n: int)
    ensures n <= 0 ==> Repeat(s, n) == []
  {
  }

  /** Which operands an operator takes: anything else is a type error, and so is a zero divisor. */
  lemma OperandLaws(op: BinOp, l: Value, r: Value)
    ensures Arith(op, l, r) == Err(Failed) <==>
      match op
      case Add => !((Number(l) && Number(r)) || (KindOf(l) == KindOf(r) && IsSequence(l)))
      case Subtract => !(Number(l) && Number(r))
      case Mult => !(Number(l) && (Number(r) || IsSequence(r))) && !(IsSequence(l) && Number(r))
      case FloorDiv => !(Number(l) && Number(r)) || PyEq(r, VInt(0))
      case Mod => if l.VStr? then FormatValue(l.s, r) == Err(Failed) else !(Number(l) && Number(r)) || PyEq(r, VInt(0))
  {
    hide Printf.Format, Floor, Oversized, Repeat;
  }

  /** A minus sign gives what sums with the operand to zero, a plus sign the operand as a number, `not` its falsity. */
  lemma SignLaws(v: Value)
    ensures Number(v) ==>
      && Negative(Neg, v).Ok? && Arith(Add, v, Negative(Neg, v).value) == Ok(VInt(0))
      && Negative(Pos, v).Ok? && PyEq(Negative(Pos, v).value, v)
    ensures !Number(v) ==> Negative(Neg, v) == Err(Failed) && Negative(Pos, v) == Err(Failed)
    ensures Negative(Not, v) == Ok(VBool(!Truthy(v)))
  {
  }

  // ----- ordering -----

  /** On numbers, less means a positive number short. */
  lemma NumbersOrdered(l: Value, r: Value)
    requires Number(l) && Number(r)
    ensures Order(Lt, l, r).Ok?
    ensures Order(Lt, l, r) == Ok(true) <==> exists n :: n > 0 && SumIs(l, n, r)
  {
    EqualityLaws(l, r);
    if Order(Lt, l, r) == Ok(true) {
      assert SumIs(l, Num(r) - Num(l), r);
    }
  }

  predicate SumIs(l: Value, n: int, r: Value) {
    Arith(Add, l, VInt(n)).Ok? && PyEq(Arith(Add, l, VInt(n)).value, r)
  }

  /** The texts agree up to `k`, and there the first has ended or has the smaller character. */
  predicate StringLess(a: string, b: string, k: nat) {
    k <= |a| && k <= |b| && a[..k] == b[..k] && ((k == |a| && k < |b|) || (k < |a| && k < |b| && a[k] < b[k]))
  }

  lemma {:induction false} StringsOrdered(a: string, b: string)
    ensures Order(Lt, VStr(a), VStr(b)).Ok?
    ensures Order(Lt, VStr(a), VStr(b)) == Ok(true) <==> exists k: nat :: StringLess(a, b, k)
  {
    if T.Leq(a, b) && a != b {
      LessHasPlace(a, b);
    }
    if exists k: nat :: StringLess(a, b, k) {
      var k: nat :| StringLess(a, b, k);
      PlaceMeansLess(a, b, k);
    }
    hide T.Leq, StringLess;
  }

  lemma {:induction false} LessHasPlace(a: string, b: string)
    requires T.Leq(a, b) && a != b
    ensures exists k: nat :: StringLess(a, b, k)
  {
    if a == "" || b == "" || a[0] != b[0] {
      assert StringLess(a, b, 0);
    } else {
      LessHasPlace(a[1..], b[1..]);
      var k: nat :| StringLess(a[1..], b[1..], k);
      assert a[..k + 1] == [a[0]] + a[1..][..k] && b[..k + 1] == [b[0]] + b[1..][..k];
      assert StringLess(a, b, k + 1);
    }
  }

  lemma {:induction false} PlaceMeansLess(a: string, b: string, k: nat)
    requires StringLess(a, b, k)
    ensures T.Leq(a, b) && a != b
  {
    if k > 0 {
      assert a[..k][0] == b[..k][0];
      assert a[1..][..k - 1] == a[..k][1..] && b[1..][..k - 1] == b[..k][1..];
      PlaceMeansLess(a[1..], b[1..], k - 1);
    }
  }

  /** The lists agree up to `k`, and there the first has ended or has the smaller element. */
  predicate SequenceLess(xs: seq<Value>, ys: seq<Value>, k: nat) {
    k <= |xs| && k <= |ys| && (forall i :: 0 <= i < k ==> PyEq(xs[i], ys[i]))
    && ((k == |xs| && k < |ys|) || (k < |xs| && k < |ys| && !PyEq(xs[k], ys[k]) && Order(Lt, xs[k], ys[k]) == Ok(true)))
  }

  lemma {:induction false} SequencesOrdered(xs: seq<Value>, ys: seq<Value>)
    ensures OrderSeq(Lt, xs, ys) == Ok(true) <==> exists k: nat :: SequenceLess(xs, ys, k)
    ensures Order(Lt, VList(xs), VList(ys)) == OrderSeq(Lt, xs, ys) == Order(Lt, VTuple(xs), VTuple(ys))
    decreases xs
  {
    hide PyEq;
    if xs == [] || ys == [] {
      if OrderSeq(Lt, xs, ys) == Ok(true) { assert SequenceLess(xs, ys, 0); }
    } else if !PyEq(xs[0], ys[0]) {
      if OrderSeq(Lt, xs, ys) == Ok(true) { assert SequenceLess(xs, ys, 0); }
      forall k: nat | SequenceLess(xs, ys, k) ensures k == 0 {
      }
    } else {
      SequencesOrdered(xs[1..], ys[1..]);
      hide Order;
      forall k: nat | SequenceLess(xs[1..], ys[1..], k) ensures SequenceLess(xs, ys, k + 1) {
        assert forall i :: 0 <= i < k + 1 ==> PyEq(xs[i], ys[i]) by {
          forall i | 0 <= i < k + 1 ensures PyEq(xs[i], ys[i]) {
            if i > 0 { assert PyEq(xs[1..][i - 1], ys[1..][i - 1]); }
          }
        }
      }
      forall k: nat | SequenceLess(xs, ys, k) ensures k > 0 && SequenceLess(xs[1..], ys[1..], k - 1) {
        assert forall i :: 0 <= i < k - 1 ==> PyEq(xs[1..][i], ys[1..][i]) by {
          forall i | 0 <= i < k - 1 ensures PyEq(xs[1..][i], ys[1..][i]) { assert PyEq(xs[i + 1], ys[i + 1]); }
        }
      }
    }
  }

  /** Values of different kinds, `None`s and maps have no order. */
  lemma UnorderedKinds(op: CmpOp, l: Value, r: Value)
    requires KindOf(l) != KindOf(r) || l.VNone? || l.VMap?
    ensures Order(op, l, r) == Err(Failed)
  {
  }

  // ----- containment, identity, and the operators as written -----

  /** A text contains its stretches, a list or tuple what equals an element, a map its keys, and `None` nothing. */
  lemma ContainmentLaws(x: Value, s: string, xs: seq<Value>, m: map<string, Value>)
    ensures Contains(x, VNone) == Ok(false)
    ensures x.VStr? ==> Contains(x, VStr(s)).Ok? && (Contains(x, VStr(s)).value <==> exists before, after :: s == before + x.s + after)
    ensures !x.VStr? ==> Contains(x, VStr(s)) == Err(Failed)
    ensures Contains(x, VList(xs)) == Contains(x, VTuple(xs)) && Contains(x, VList(xs)).Ok?
    ensures Contains(x, VList(xs)).value <==> exists i :: 0 <= i < |xs| && PyEq(x, xs[i])
    ensures x.VStr? ==> Contains(x, VMap(m)) == Ok(x.s in m.Keys)
    ensures Number(x) || x.VNone? ==> Contains(x, VMap(m)) == Ok(false)
    ensures x.VList? || x.VMap? ==> Contains(x, VMap(m)) == Err(Failed)
    ensures forall r :: Number(r) ==> Contains(x, r) == Err(Failed)
  {
    if x.VStr? {
      StretchLaw(x.s, s);
    }
    hide Substring;
  }

  lemma StretchLaw(x: string, s: string)
    ensures Substring(x, s) <==> exists before, after :: s == before + x + after
  {
    if Substring(x, s) {
      var i :| 0 <= i <= |s| && x <= s[i..];
      assert s == s[..i] + x + s[i + |x|..];
    }
    forall before: string, after: string | s == before + x + after ensures Substring(x, s) {
      assert x <= s[|before|..];
    }
  }

  /** A tuple with a list or a map in it cannot be looked up in a map; one of plain values can, and no map has it for a key. */
  lemma TupleLookups(ts: seq<Value>, m: map<string, Value>)
    ensures (exists i :: 0 <= i < |ts| && (ts[i].VList? || ts[i].VMap?)) ==> Contains(VTuple(ts), VMap(m)) == Err(Failed)
    ensures (forall i :: 0 <= i < |ts| ==> Number(ts[i]) || ts[i].VStr? || ts[i].VNone?) ==> Contains(VTuple(ts), VMap(m)) == Ok(false)
  {
    if i :| 0 <= i < |ts| && (ts[i].VList? || ts[i].VMap?) {
      assert !Hashable(ts[i]);
      assert !Hashable(VTuple(ts));
    }
    if forall i :: 0 <= i < |ts| ==> Number(ts[i]) || ts[i].VStr? || ts[i].VNone? {
      assert forall i :: 0 <= i < |ts| ==> Hashable(ts[i]);
    }
  }

  /** How each comparison as written is decided. */
  lemma ComparisonLaws(l: Value, r: Value)
    ensures Compare(Eq, l, r) == Ok(PyEq(l, r)) && Compare(NotEq, l, r) == Ok(!PyEq(l, r))
    ensures Compare(Lt, l, r) == Order(Lt, l, r) && Compare(LtE, l, r) == Order(LtE, l, r)
    ensures Compare(Gt, l, r) == Compare(Lt, r, l) && Compare(GtE, l, r) == Compare(LtE, r, l)
    ensures Compare(In, l, r) == Contains(l, r)
    ensures Contains(l, r).Ok? ==> Compare(NotIn, l, r) == Ok(!Contains(l, r).value)
    ensures Contains(l, r).Err? ==> Compare(NotIn, l, r) == Contains(l, r)
    ensures Compare(Is, l, VNone) == Ok(l == VNone) && Compare(IsNot, l, VNone) == Ok(l != VNone)
    ensures forall b :: Compare(Is, l, VBool(b)) == Ok(l == VBool(b)) && Compare(IsNot, l, VBool(b)) == Ok(l != VBool(b))
  {
    Laws.OrderLaws(l, r);
    hide PyEq, Order, Contains;
  }

  // ----- displays -----

  function Constants(vs: seq<Value>): seq<Node> {
    if vs == [] then [] else [Const(vs[0])] + Constants(vs[1..])
  }

  predicate AllScalars(vs: seq<Value>) {
    forall i :: 0 <= i < |vs| ==> Scalar(vs[i])
  }

  lemma {:induction false} ConstantsEvaluate(vs: seq<Value>, b: Facts)
    requires AllScalars(vs)
    ensures AllInSubset(Constants(vs)) && |Constants(vs)| == |vs| && EvalAll(Constants(vs), b) == Ok(vs)
  {
    if vs != [] {
      assert forall i :: 0 <= i < |vs| - 1 ==> vs[1..][i] == vs[i + 1];
      ConstantsEvaluate(vs[1..], b);
      assert Constants(vs)[1..] == Constants(vs[1..]);
      assert vs == [vs[0]] + vs[1..];
    }
  }

  /** A display of constants is the list, or the tuple, of them; 32 are taken, 33 are not. */
  lemma DisplayLaw(vs: seq<Value>, b: Facts)
    requires AllScalars(vs)
    ensures InSubset(Display(false, Constants(vs))) <==> |vs| <= 32
    ensures |vs| <= 32 ==>
      InSubset(Display(true, Constants(vs)))
      && Eval(Display(false, Constants(vs)), b) == Ok(VList(vs)) && Eval(Display(true, Constants(vs)), b) == Ok(VTuple(vs))
  {
    ConstantsEvaluate(vs, b);
    hide EvalAll, Constants;
  }
}
