/** Which parts of a predicate an evaluation comes to, and the exceptions it can end in there. */
module EvaluationPaths {
  import opened Options
  import opened Values
  import opened Predicates
  import Printf = Formatting

  /** The nodes that evaluating `n` begins to evaluate. */
  function Visited(n: Node, b: Facts): set<Node>
    requires InSubset(n)
    decreases n, 1
  {
    {n} +
    match n
    case Sub(base, _) => Visited(base, b)
    case Unary(_, x) => Visited(x, b)
    case Bin(_, l, r) => Visited(l, b) + if Eval(l, b).Ok? then Visited(r, b) else {}
    case BoolOp(isAnd, vs) => VisitedUntil(vs, b, !isAnd)
    case Cmp(first, ops, rights) =>
      Visited(first, b) + if Eval(first, b).Ok? then VisitedLinks(Eval(first, b).value, ops, rights, b) else {}
    case Display(_, es) => VisitedAll(es, b)
    case _ => {}
  }

  function VisitedUntil(ns: seq<Node>, b: Facts, stop: bool): set<Node>
    requires AllInSubset(ns)
    decreases ns, 0
  {
    if ns == [] then {}
    else
      Visited(ns[0], b)
        + if Eval(ns[0], b).Ok? && Truthy(Eval(ns[0], b).value) != stop then VisitedUntil(ns[1..], b, stop) else {}
  }

  function VisitedLinks(left: Value, ops: seq<CmpOp>, rights: seq<Node>, b: Facts): set<Node>
    requires AllInSubset(rights)
    decreases rights, 0
  {
    if ops == [] || rights == [] then {}
    else
      var right := Eval(rights[0], b);
      Visited(rights[0], b)
        + if right.Ok? && Compare(ops[0], left, right.value) == Ok(true) then VisitedLinks(right.value, ops[1..], rights[1..], b)
          else {}
  }

  function VisitedAll(ns: seq<Node>, b: Facts): set<Node>
    requires AllInSubset(ns)
    decreases ns, 0
  {
    if ns == [] then {} else Visited(ns[0], b) + if Eval(ns[0], b).Ok? then VisitedAll(ns[1..], b) else {}
  }

  // ----- exceptions the evaluator does not catch -----

  /** A repetition no sequence can be as long as, or a formatting that raises a `KeyError` or an `OverflowError`. */
  predicate Raises(op: BinOp, u: Value, v: Value) {
    match op
    case Mult => (IsNum(u) && IsSequence(v) && Oversized(Length(v), Num(u))) || (IsSequence(u) && IsNum(v) && Oversized(Length(u), Num(v)))
    case Mod => u.VStr? && Printf.Format(u.s, OperandOf(v)) == Printf.Escaped
    case _ => false
  }

  predicate RaisesAt(n: Node, b: Facts) {
    n.Bin? && InSubset(n) && Eval(n.left, b).Ok? && Eval(n.right, b).Ok?
    && Raises(n.binop.get, Eval(n.left, b).value, Eval(n.right, b).value)
  }

  predicate AnyRaises(ns: set<Node>, b: Facts) {
    exists n :: n in ns && RaisesAt(n, b)
  }

  lemma AnyOfBoth(xs: set<Node>, ys: set<Node>, b: Facts)
    ensures AnyRaises(xs + ys, b) <==> AnyRaises(xs, b) || AnyRaises(ys, b)
  {
    hide RaisesAt;
  }

  lemma AnyOfOne(n: Node, b: Facts)
    ensures AnyRaises({n}, b) <==> RaisesAt(n, b)
  {
    hide RaisesAt;
    assert n in {n};
  }

  lemma AnyOfNone(b: Facts)
    ensures !AnyRaises({}, b)
  {
  }

  lemma ArithRaises(op: BinOp, u: Value, v: Value)
    ensures Arith(op, u, v) == Err(Uncaught) <==> Raises(op, u, v)
  {
    hide Printf.Format;
  }

  lemma {:induction false} OrderFaults(op: CmpOp, l: Value, r: Value)
    ensures Order(op, l, r).Ok? || Order(op, l, r) == Err(Failed)
    decreases l
  {
    if l.VList? && r.VList? {
      OrderSeqFaults(op, l.items, r.items);
    } else if l.VTuple? && r.VTuple? {
      OrderSeqFaults(op, l.parts, r.parts);
    }
  }

  lemma {:induction false} OrderSeqFaults(op: CmpOp, xs: seq<Value>, ys: seq<Value>)
    ensures OrderSeq(op, xs, ys).Ok? || OrderSeq(op, xs, ys) == Err(Failed)
    decreases xs
  {
    if xs != [] && ys != [] {
      if PyEq(xs[0], ys[0]) { OrderSeqFaults(op, xs[1..], ys[1..]); } else { OrderFaults(op, xs[0], ys[0]); }
    }
  }

  lemma CompareFaults(op: CmpOp, l: Value, r: Value)
    ensures Compare(op, l, r) != Err(Uncaught)
    ensures Compare(op, l, r).Ok? || Compare(op, l, r) == Err(Failed) || op.Is? || op.IsNot?
    ensures r.VNone? || r.VBool? ==> Compare(op, l, r) != Err(Unmodelled)
  {
    OrderFaults(op, l, r);
    hide Order, Member, Substring, PyEq;
  }

  /** An evaluation ends in an uncaught exception exactly when it comes to an operation that raises one. */
  lemma {:induction false} UncaughtExactly(n: Node, b: Facts)
    requires InSubset(n)
    ensures Eval(n, b) == Err(Uncaught) <==> AnyRaises(Visited(n, b), b)
    decreases n, 1
  {
    hide Arith, AnyRaises, Raises;
    AnyOfNone(b);
    AnyOfOne(n, b);
    match n
    case Sub(base, _) =>
      UncaughtExactly(base, b);
      AnyOfBoth({n}, Visited(base, b), b);
    case Unary(_, x) =>
      UncaughtExactly(x, b);
      AnyOfBoth({n}, Visited(x, b), b);
    case Bin(op, l, r) =>
      UncaughtExactly(l, b);
      UncaughtExactly(r, b);
      var right := if Eval(l, b).Ok? then Visited(r, b) else {};
      AnyOfBoth(Visited(l, b), right, b);
      AnyOfBoth({n}, Visited(l, b) + right, b);
      if Eval(l, b).Ok? && Eval(r, b).Ok? {
        ArithRaises(op.get, Eval(l, b).value, Eval(r, b).value);
      }
    case BoolOp(isAnd, vs) =>
      UntilExactly(vs, b, !isAnd);
      AnyOfBoth({n}, VisitedUntil(vs, b, !isAnd), b);
    case Cmp(first, ops, rights) =>
      UncaughtExactly(first, b);
      var links := if Eval(first, b).Ok? then VisitedLinks(Eval(first, b).value, ops, rights, b) else {};
      if Eval(first, b).Ok? {
        LinksExactly(Eval(first, b).value, ops, rights, b);
      }
      AnyOfBoth(Visited(first, b), links, b);
      AnyOfBoth({n}, Visited(first, b) + links, b);
    case Display(_, es) =>
      AllExactly(es, b);
      AnyOfBoth({n}, VisitedAll(es, b), b);
    case _ =>
      AnyOfBoth({n}, {}, b);
  }

  lemma {:induction false} UntilExactly(ns: seq<Node>, b: Facts, stop: bool)
    requires AllInSubset(ns)
    ensures EvalUntil(ns, b, stop) == Err(Uncaught) <==> AnyRaises(VisitedUntil(ns, b, stop), b)
    decreases ns, 0
  {
    hide AnyRaises, Truthy;
    AnyOfNone(b);
    if ns != [] {
      UncaughtExactly(ns[0], b);
      UntilExactly(ns[1..], b, stop);
      hide Eval, Visited;
      var rest := if Eval(ns[0], b).Ok? && Truthy(Eval(ns[0], b).value) != stop then VisitedUntil(ns[1..], b, stop) else {};
      AnyOfBoth(Visited(ns[0], b), rest, b);
    }
  }

  lemma {:induction false} LinksExactly(left: Value, ops: seq<CmpOp>, rights: seq<Node>, b: Facts)
    requires AllInSubset(rights)
    ensures EvalLinks(left, ops, rights, b) == Err(Uncaught) <==> AnyRaises(VisitedLinks(left, ops, rights, b), b)
    decreases rights, 0
  {
    hide AnyRaises, Compare;
    AnyOfNone(b);
    if ops != [] && rights != [] {
      UncaughtExactly(rights[0], b);
      var right := Eval(rights[0], b);
      if right.Ok? {
        CompareFaults(ops[0], left, right.value);
        LinksExactly(right.value, ops[1..], rights[1..], b);
      }
      hide Eval, Visited;
      var rest :=
        if right.Ok? && Compare(ops[0], left, right.value) == Ok(true) then VisitedLinks(right.value, ops[1..], rights[1..], b) else {};
      AnyOfBoth(Visited(rights[0], b), rest, b);
    }
  }

  lemma {:induction false} AllExactly(ns: seq<Node>, b: Facts)
    requires AllInSubset(ns)
    ensures EvalAll(ns, b) == Err(Uncaught) <==> AnyRaises(VisitedAll(ns, b), b)
    decreases ns, 0
  {
    hide AnyRaises;
    AnyOfNone(b);
    if ns != [] {
      UncaughtExactly(ns[0], b);
      AllExactly(ns[1..], b);
      hide Eval, Visited;
      AnyOfBoth(Visited(ns[0], b), if Eval(ns[0], b).Ok? then VisitedAll(ns[1..], b) else {}, b);
    }
  }

  // ----- predicates that cannot raise, by their looks -----

  /** Whatever the facts, the value is no string, list or tuple. */
  predicate NeverSequence(n: Node) {
    match n
    case Const(v) => !IsSequence(v)
    case Unary(_, _) => true
    case BoolOp(_, _) => true
    case Cmp(_, _, _) => true
    case Bin(op, l, r) =>
      op.Some? &&
      (match op.get
       case Add => NeverSequence(l) || NeverSequence(r)
       case Mult => NeverSequence(l) && NeverSequence(r)
       case Mod => NeverSequence(l)
       case _ => true)
    case _ => false
  }

  lemma {:induction false} NeverSequenceValue(n: Node, b: Facts)
    requires InSubset(n) && NeverSequence(n)
    ensures Eval(n, b).Ok? ==> !IsSequence(Eval(n, b).value)
  {
    if n.Bin? {
      if NeverSequence(n.left) { NeverSequenceValue(n.left, b); }
      if NeverSequence(n.right) { NeverSequenceValue(n.right, b); }
      if Eval(n.left, b).Ok? && Eval(n.right, b).Ok? {
        ArithSequence(n.binop.get, Eval(n.left, b).value, Eval(n.right, b).value);
      }
      hide Arith;
    }
  }

  lemma ArithSequence(op: BinOp, u: Value, v: Value)
    ensures
      Arith(op, u, v).Ok? && IsSequence(Arith(op, u, v).value) ==>
        match op
        case Add => IsSequence(u) && IsSequence(v)
        case Mult => IsSequence(u) || IsSequence(v)
        case Mod => IsSequence(u)
        case _ => false
  {
    hide Printf.Format;
  }

  predicate Singleton(n: Node) {
    n.Const? && (n.value.VNone? || n.value.VBool?)
  }

  /** No operand of `*` and no left operand of `%` can be a sequence, and identity is only tested against a singleton. */
  predicate Tame(n: Node)
    requires InSubset(n)
    decreases n, 1
  {
    match n
    case Bin(op, l, r) =>
      Tame(l) && Tame(r) && (op.get.Mult? ==> NeverSequence(l) && NeverSequence(r)) && (op.get.Mod? ==> NeverSequence(l))
    case Sub(base, _) => Tame(base)
    case Unary(_, x) => Tame(x)
    case BoolOp(_, vs) => AllTame(vs)
    case Cmp(first, ops, rights) => Tame(first) && AllTame(rights) && SingletonTests(ops, rights)
    case Display(_, es) => AllTame(es)
    case _ => true
  }

  predicate SingletonTests(ops: seq<CmpOp>, rights: seq<Node>) {
    forall i :: 0 <= i < |ops| && i < |rights| && (ops[i].Is? || ops[i].IsNot?) ==> Singleton(rights[i])
  }

  predicate AllTame(ns: seq<Node>)
    requires AllInSubset(ns)
    decreases ns, 0
  {
    ns == [] || (Tame(ns[0]) && AllTame(ns[1..]))
  }

  predicate Caught<T>(r: Result<T>) {
    r.Ok? || r.fault == Unresolved || r.fault == Failed
  }

  lemma TameArith(op: BinOp, u: Value, v: Value)
    requires op.Mult? ==> !IsSequence(u) && !IsSequence(v)
    requires op.Mod? ==> !IsSequence(u)
    ensures Caught(Arith(op, u, v))
  {
  }

  /** Whatever a tame predicate ends in, the evaluator has a name for it. */
  lemma {:induction false} TameIsCaught(n: Node, b: Facts)
    requires InSubset(n) && Tame(n)
    ensures Caught(Eval(n, b))
    decreases n, 1
  {
    hide Arith;
    match n
    case Bin(op, l, r) =>
      TameIsCaught(l, b);
      TameIsCaught(r, b);
      if Eval(l, b).Ok? && Eval(r, b).Ok? {
        if NeverSequence(l) { NeverSequenceValue(l, b); }
        if NeverSequence(r) { NeverSequenceValue(r, b); }
        TameArith(op.get, Eval(l, b).value, Eval(r, b).value);
      }
    case Sub(base, _) => TameIsCaught(base, b);
    case Unary(_, x) => TameIsCaught(x, b);
    case BoolOp(isAnd, vs) => UntilIsCaught(vs, b, !isAnd);
    case Cmp(first, ops, rights) =>
      TameIsCaught(first, b);
      if Eval(first, b).Ok? { LinksAreCaught(Eval(first, b).value, ops, rights, b); }
    case Display(_, es) => AllAreCaught(es, b);
    case _ =>
  }

  lemma {:induction false} UntilIsCaught(ns: seq<Node>, b: Facts, stop: bool)
    requires AllInSubset(ns) && AllTame(ns)
    ensures Caught(EvalUntil(ns, b, stop))
    decreases ns, 0
  {
    if ns != [] {
      TameIsCaught(ns[0], b);
      UntilIsCaught(ns[1..], b, stop);
    }
  }

  lemma {:induction false} LinksAreCaught(left: Value, ops: seq<CmpOp>, rights: seq<Node>, b: Facts)
    requires AllInSubset(rights) && AllTame(rights) && SingletonTests(ops, rights)
    ensures Caught(EvalLinks(left, ops, rights, b))
    decreases rights, 0
  {
    hide Compare;
    if ops != [] && rights != [] {
      TameIsCaught(rights[0], b);
      var right := Eval(rights[0], b);
      if right.Ok? {
        assert ops[0].Is? || ops[0].IsNot? ==> Singleton(rights[0]) && right.value == rights[0].value;
        CompareFaults(ops[0], left, right.value);
        assert Caught(Compare(ops[0], left, right.value)) by { TestIsCaught(ops[0], left, right.value); }
        assert SingletonTests(ops[1..], rights[1..]) by {
          assert forall i :: 0 <= i < |ops| - 1 ==> ops[1..][i] == ops[i + 1];
          assert forall i :: 0 <= i < |rights| - 1 ==> rights[1..][i] == rights[i + 1];
        }
        LinksAreCaught(right.value, ops[1..], rights[1..], b);
      }
      hide Eval;
    }
  }

  lemma TestIsCaught(op: CmpOp, l: Value, r: Value)
    requires op.Is? || op.IsNot? ==> r.VNone? || r.VBool?
    ensures Caught(Compare(op, l, r))
  {
    CompareFaults(op, l, r);
    hide Order, Member, Substring, PyEq;
  }

  lemma {:induction false} AllAreCaught(ns: seq<Node>, b: Facts)
    requires AllInSubset(ns) && AllTame(ns)
    ensures Caught(EvalAll(ns, b))
    decreases ns, 0
  {
    if ns != [] {
      TameIsCaught(ns[0], b);
      AllAreCaught(ns[1..], b);
    }
  }
}
