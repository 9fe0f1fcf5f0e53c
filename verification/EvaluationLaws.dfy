/** What the evaluator means, independently of how it recurses. */
module EvaluationLaws {
  import opened Options
  import opened Values
  import opened Predicates
  import T = Text

  // ----- boolean operators -----

  /** The first `i` operands evaluate to the other truth value than `stop`. */
  predicate Passed(ns: seq<Node>, b: Facts, stop: bool, i: nat)
    requires AllInSubset(ns) && i <= |ns|
  {
    forall j :: 0 <= j < i ==> (InSubsetAt(ns, j); Eval(ns[j], b).Ok? && Truthy(Eval(ns[j], b).value) != stop)
  }

  lemma {:induction false} InSubsetAt(ns: seq<Node>, j: nat)
    requires AllInSubset(ns) && j < |ns|
    ensures InSubset(ns[j])
  {
    if j > 0 {
      InSubsetAt(ns[1..], j - 1);
    }
  }

  /** An operator is decided by its first deciding operand, fails with its first failing one, and reads no further. */
  lemma {:induction false} FirstOperandDecides(ns: seq<Node>, b: Facts, stop: bool, i: nat)
    requires AllInSubset(ns) && i <= |ns| && Passed(ns, b, stop, i)
    ensures i == |ns| ==> EvalUntil(ns, b, stop) == Ok(!stop)
    ensures i < |ns| ==>
      (InSubsetAt(ns, i);
       && (Eval(ns[i], b).Err? ==> EvalUntil(ns, b, stop) == Err(Eval(ns[i], b).fault))
       && (Eval(ns[i], b).Ok? && Truthy(Eval(ns[i], b).value) == stop ==> EvalUntil(ns, b, stop) == Ok(stop)))
  {
    if i > 0 {
      InSubsetAt(ns, 0);
      assert Eval(ns[0], b).Ok? && Truthy(Eval(ns[0], b).value) != stop;
      forall j | 0 <= j < i - 1 ensures (InSubsetAt(ns[1..], j); Eval(ns[1..][j], b).Ok? && Truthy(Eval(ns[1..][j], b).value) != stop) {
        InSubsetAt(ns, j + 1);
        assert ns[1..][j] == ns[j + 1];
      }
      hide Eval;
      FirstOperandDecides(ns[1..], b, stop, i - 1);
    }
  }

  function Nots(ns: seq<Node>): (r: seq<Node>)
    ensures AllInSubset(ns) ==> AllInSubset(r)
  {
    if ns == [] then [] else [Unary(Not, ns[0])] + Nots(ns[1..])
  }

  lemma {:induction false} NotsDecide(ns: seq<Node>, b: Facts, stop: bool)
    requires AllInSubset(ns)
    ensures EvalUntil(Nots(ns), b, stop) == Negate(EvalUntil(ns, b, !stop))
  {
    if ns != [] {
      NotsDecide(ns[1..], b, stop);
      assert Nots(ns)[0] == Unary(Not, ns[0]) && Nots(ns)[1..] == Nots(ns[1..]);
      NotOf(ns[0], b);
      hide Eval, Nots;
    }
  }

  lemma NotOf(n: Node, b: Facts)
    requires InSubset(n)
    ensures Eval(Unary(Not, n), b) == match Eval(n, b) case Ok(v) => Ok(VBool(!Truthy(v))) case Err(f) => Err(f)
  {
  }

  /** De Morgan, errors included. */
  lemma DeMorgan(isAnd: bool, ns: seq<Node>, b: Facts)
    requires AllInSubset(ns)
    ensures Eval(Unary(Not, BoolOp(isAnd, ns)), b) == Eval(BoolOp(!isAnd, Nots(ns)), b)
  {
    NotsDecide(ns, b, isAnd);
    hide EvalUntil, Nots;
  }

  // ----- chained comparisons -----

  lemma OneInSubset(n: Node)
    requires InSubset(n)
    ensures AllInSubset([n])
  {
    assert [n][1..] == [];
  }

  lemma TwoInSubset(one: Node, two: Node)
    requires InSubset(one) && InSubset(two)
    ensures AllInSubset([one, two])
  {
    OneInSubset(two);
    assert [one, two][1..] == [two];
  }

  /** `a op b rest` means `(a op b) and (b rest)`, and evaluates `b` alike in both. */
  lemma ChainIsConjunction(first: Node, op: CmpOp, mid: Node, ops: seq<CmpOp>, rights: seq<Node>, b: Facts)
    requires InSubset(first) && InSubset(mid) && AllInSubset(rights)
    ensures AllInSubset([mid]) && AllInSubset([mid] + rights)
    ensures InSubset(BoolOp(true, [Cmp(first, [op], [mid]), Cmp(mid, ops, rights)]))
    ensures Eval(Cmp(first, [op] + ops, [mid] + rights), b) ==
      Eval(BoolOp(true, [Cmp(first, [op], [mid]), Cmp(mid, ops, rights)]), b)
  {
    var link, rest := Cmp(first, [op], [mid]), Cmp(mid, ops, rights);
    assert ([op] + ops)[1..] == ops && ([mid] + rights)[1..] == rights;
    OneInSubset(mid);
    TwoInSubset(link, rest);
    OneLink(first, op, mid, b);
    TwoOperands(link, rest, b);
    hide Compare;
  }

  lemma OneLink(first: Node, op: CmpOp, mid: Node, b: Facts)
    requires InSubset(first) && InSubset(mid) && AllInSubset([mid])
    ensures Eval(Cmp(first, [op], [mid]), b) ==
      if Eval(first, b).Err? then Eval(first, b)
      else if Eval(mid, b).Err? then Eval(mid, b)
      else match Compare(op, Eval(first, b).value, Eval(mid, b).value) case Ok(ok) => Ok(VBool(ok)) case Err(f) => Err(f)
  {
    hide Compare;
    if Eval(first, b).Ok? {
      SingleLink(Eval(first, b).value, op, mid, b);
    }
    hide EvalLinks;
  }

  lemma SingleLink(left: Value, op: CmpOp, mid: Node, b: Facts)
    requires InSubset(mid) && AllInSubset([mid])
    ensures EvalLinks(left, [op], [mid], b) ==
      if Eval(mid, b).Err? then Err(Eval(mid, b).fault) else Compare(op, left, Eval(mid, b).value)
  {
    assert [op][1..] == [] && [mid][1..] == [];
    assert forall v :: EvalLinks(v, [], [], b) == Ok(true);
    hide Compare, Eval;
  }

  lemma {:induction false} TwoOperands(one: Node, two: Node, b: Facts)
    requires InSubset(one) && InSubset(two)
    ensures AllInSubset([one, two])
    ensures Eval(BoolOp(true, [one, two]), b) ==
      if Eval(one, b).Err? then Eval(one, b)
      else if !Truthy(Eval(one, b).value) then Ok(VBool(false))
      else if Eval(two, b).Err? then Eval(two, b)
      else Ok(VBool(Truthy(Eval(two, b).value)))
  {
    OneInSubset(two);
    TwoInSubset(one, two);
    assert [one, two][1..] == [two] && [two][1..] == [];
    LastOperand(two, b);
    hide Truthy;
  }

  lemma LastOperand(n: Node, b: Facts)
    requires InSubset(n) && AllInSubset([n])
    ensures EvalUntil([n], b, false) == if Eval(n, b).Err? then Err(Eval(n, b).fault) else Ok(Truthy(Eval(n, b).value))
  {
    assert [n][1..] == [];
    hide Eval, Truthy;
  }

  // ----- operators -----

  /** Floor division and remainder belong together, and the remainder keeps the divisor's sign. */
  lemma DivisionLaw(l: Value, r: Value)
    requires IsNum(l) && IsNum(r) && Num(r) != 0
    ensures
      var (q, m) := (Arith(FloorDiv, l, r), Arith(Mod, l, r));
      && q.Ok? && q.value.VInt? && m.Ok? && m.value.VInt?
      && Num(l) == Num(r) * q.value.n + m.value.n
      && (if Num(r) > 0 then 0 <= m.value.n < Num(r) else Num(r) < m.value.n <= 0)
  {
    FloorRemRange(Num(l), Num(r));
    hide Floor;
  }

  /** A repetition is as long as it says, and every stretch of it is the repeated text again. */
  lemma {:induction false} RepetitionLaw<A>(s: seq<A>, n: nat, k: nat)
    requires k < n
    ensures |Repeat(s, n)| == n * |s| && 0 <= k * |s| <= k * |s| + |s| <= |Repeat(s, n)|
    ensures Repeat(s, n)[k * |s|..k * |s| + |s|] == s
  {
    RepetitionLength(s, n);
    var r := Repeat(s, n);
    assert r == s + Repeat(s, n - 1);
    if k > 0 {
      RepetitionLaw(s, n - 1, k - 1);
      var at := (k - 1) * |s|;
      assert k * |s| == |s| + at;
      assert r[|s| + at..|s| + at + |s|] == Repeat(s, n - 1)[at..at + |s|];
    } else {
      assert 0 * |s| == 0;
    }
  }

  lemma {:induction false} RepetitionLength<A>(s: seq<A>, n: nat)
    ensures |Repeat(s, n)| == n * |s|
  {
    if n > 0 {
      RepetitionLength(s, n - 1);
      assert n * |s| == |s| + (n - 1) * |s|;
    }
  }

  /** The four orderings and equality fit together wherever the values can be ordered at all. */
  lemma {:induction false} OrderLaws(l: Value, r: Value)
    ensures Order(Lt, l, r).Ok? <==> Order(LtE, l, r).Ok?
    ensures Order(Lt, l, r).Ok? ==> Order(LtE, l, r) == Ok(Order(Lt, l, r).value || PyEq(l, r))
    ensures Order(Gt, l, r) == Order(Lt, r, l) && Order(GtE, l, r) == Order(LtE, r, l)
    decreases l
  {
    if l.VList? && r.VList? {
      OrderSeqLaws(l.items, r.items);
    } else if l.VTuple? && r.VTuple? {
      OrderSeqLaws(l.parts, r.parts);
    } else if l.VStr? && r.VStr? {
      T.LeqTotal(l.s, r.s);
      StrEq(l.s, r.s);
      assert l.s == r.s ==> T.Leq(l.s, r.s);
    } else if IsNum(l) && IsNum(r) {
      NumEq(l, r);
    }
    hide Canon, T.Leq;
  }

  lemma NumEq(l: Value, r: Value)
    requires IsNum(l) && IsNum(r)
    ensures PyEq(l, r) <==> Num(l) == Num(r)
  {
  }

  lemma StrEq(a: string, b: string)
    ensures PyEq(VStr(a), VStr(b)) <==> a == b
  {
  }

  predicate SeqEq(xs: seq<Value>, ys: seq<Value>) {
    |xs| == |ys| && forall i :: 0 <= i < |xs| ==> PyEq(xs[i], ys[i])
  }

  lemma {:induction false} OrderSeqLaws(xs: seq<Value>, ys: seq<Value>)
    ensures OrderSeq(Lt, xs, ys).Ok? <==> OrderSeq(LtE, xs, ys).Ok?
    ensures OrderSeq(Lt, xs, ys).Ok? ==> OrderSeq(LtE, xs, ys) == Ok(OrderSeq(Lt, xs, ys).value || SeqEq(xs, ys))
    ensures OrderSeq(Gt, xs, ys) == OrderSeq(Lt, ys, xs) && OrderSeq(GtE, xs, ys) == OrderSeq(LtE, ys, xs)
    ensures PyEq(VList(xs), VList(ys)) <==> SeqEq(xs, ys)
    ensures PyEq(VTuple(xs), VTuple(ys)) <==> SeqEq(xs, ys)
    decreases xs
  {
    ListEq(xs, ys);
    hide Canon;
    if xs != [] && ys != [] {
      if PyEq(xs[0], ys[0]) {
        OrderSeqLaws(xs[1..], ys[1..]);
        SeqEqTail(xs, ys);
        hide SeqEq;
      } else {
        OrderLaws(xs[0], ys[0]);
        hide Order;
      }
    }
  }

  lemma SeqEqTail(xs: seq<Value>, ys: seq<Value>)
    requires xs != [] && ys != [] && PyEq(xs[0], ys[0])
    ensures SeqEq(xs, ys) <==> SeqEq(xs[1..], ys[1..])
  {
    hide PyEq;
    if SeqEq(xs[1..], ys[1..]) {
      forall i | 0 <= i < |xs| ensures PyEq(xs[i], ys[i]) {
        if i > 0 { assert PyEq(xs[1..][i - 1], ys[1..][i - 1]); }
      }
    }
    if SeqEq(xs, ys) {
      forall i | 0 <= i < |xs| - 1 ensures PyEq(xs[1..][i], ys[1..][i]) { assert PyEq(xs[i + 1], ys[i + 1]); }
    }
  }

  lemma ListEq(xs: seq<Value>, ys: seq<Value>)
    ensures PyEq(VList(xs), VList(ys)) <==> SeqEq(xs, ys)
    ensures PyEq(VTuple(xs), VTuple(ys)) <==> SeqEq(xs, ys)
  {
    assert Canon(VList(xs)) == VList(CanonSeq(xs)) && Canon(VList(ys)) == VList(CanonSeq(ys));
    assert Canon(VTuple(xs)) == VTuple(CanonSeq(xs)) && Canon(VTuple(ys)) == VTuple(CanonSeq(ys));
    var cx, cy := CanonSeq(xs), CanonSeq(ys);
    hide Canon, CanonSeq;
    if SeqEq(xs, ys) {
      assert cx == cy;
    }
    if cx == cy {
      forall i | 0 <= i < |xs| ensures PyEq(xs[i], ys[i]) { assert cx[i] == cy[i]; }
    }
  }
}
