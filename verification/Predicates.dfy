/**
 The bounded predicate language: validator, evaluator and reference extractor,
 over the syntax trees Python's parser can produce for an expression.
 */
module Predicates {
  import opened Options
  import opened Values

  datatype UnaryOp = Not | Neg | Pos | Invert

  datatype Node =
    | Const(value: Value)                       // an ast.Constant; a non-scalar stands for bytes, complex, ...
    | Name(id: string)
    | Attr(base: Node, attr: string)
    | Sub(base: Node, key: Node)
    | BoolOp(isAnd: bool, values: seq<Node>)
    | Unary(unop: UnaryOp, operand: Node)
    | Bin(binop: Option<BinOp>, left: Node, right: Node)   // None: an operator outside the subset
    | Cmp(first: Node, ops: seq<CmpOp>, rights: seq<Node>)
    | Display(isTuple: bool, elts: seq<Node>)
    | Foreign(children: seq<Node>)              // calls, lambdas, comprehensions, ...

  const MAX_PREDICATE_LENGTH := 1024
  const MAX_AST_NODES := 128
  const MAX_LIST_ITEMS := 32
  const MAX_DEPTH := 16

  predicate Scalar(v: Value) {
    v.VNone? || v.VBool? || v.VInt? || v.VStr?
  }

  predicate StringKey(n: Node) {
    n.Const? && n.value.VStr?
  }

  predicate Chain(n: Node) {
    n.Name? || n.Attr?
  }

  // ----- the validator -----

  /** Accept a tree of the subset and count its nodes, or refuse it. */
  function Validate(n: Node, depth: nat): Option<nat>
    decreases n, 1
  {
    if depth > MAX_DEPTH then None
    else match n
      case Const(v) => if Scalar(v) then Some(1) else None
      case Name(_) => Some(1)
      case Attr(base, _) => if Chain(base) then Plus(1, Validate(base, depth + 1)) else None
      case Sub(base, key) =>
        if (Chain(base) || base.Sub?) && StringKey(key) then Plus(2, Validate(base, depth + 1)) else None
      case BoolOp(_, vs) => Plus(1, ValidateAll(vs, depth + 1))
      case Unary(op, x) => if op.Invert? then None else Plus(1, Validate(x, depth + 1))
      case Bin(op, l, r) =>
        if op.None? then None
        else PlusBoth(Plus(1, Validate(l, depth + 1)), Validate(r, depth + 1))
      case Cmp(first, _, rights) => PlusBoth(Plus(1, Validate(first, depth + 1)), ValidateAll(rights, depth + 1))
      case Display(_, es) => if |es| > MAX_LIST_ITEMS then None else Plus(1, ValidateAll(es, depth + 1))
      case Foreign(_) => None
  }

  function ValidateAll(ns: seq<Node>, depth: nat): Option<nat>
    decreases ns, 0
  {
    if ns == [] then Some(0) else PlusBoth(Validate(ns[0], depth), ValidateAll(ns[1..], depth))
  }

  function Plus(k: nat, r: Option<nat>): Option<nat> {
    if r.None? then None else Some(k + r.get)
  }

  function PlusBoth(a: Option<nat>, b: Option<nat>): Option<nat> {
    if a.None? || b.None? then None else Some(a.get + b.get)
  }

  /** The subset itself, with no mention of depth or counting. */
  predicate InSubset(n: Node)
    decreases n, 1
  {
    match n
    case Const(v) => Scalar(v)
    case Name(_) => true
    case Attr(base, _) => Chain(base) && InSubset(base)
    case Sub(base, key) => (Chain(base) || base.Sub?) && StringKey(key) && InSubset(base)
    case BoolOp(_, vs) => AllInSubset(vs)
    case Unary(op, x) => !op.Invert? && InSubset(x)
    case Bin(op, l, r) => op.Some? && InSubset(l) && InSubset(r)
    case Cmp(first, _, rights) => InSubset(first) && AllInSubset(rights)
    case Display(_, es) => |es| <= MAX_LIST_ITEMS && AllInSubset(es)
    case Foreign(_) => false
  }

  predicate AllInSubset(ns: seq<Node>)
    decreases ns, 0
  {
    ns == [] || (InSubset(ns[0]) && AllInSubset(ns[1..]))
  }

  /** The tree, string keys left out, is no deeper than `d` levels below its root. */
  predicate Within(n: Node, d: int)
    decreases n, 1
  {
    d >= 0 &&
    match n
    case Attr(base, _) => Within(base, d - 1)
    case Sub(base, _) => Within(base, d - 1)
    case BoolOp(_, vs) => AllWithin(vs, d - 1)
    case Unary(_, x) => Within(x, d - 1)
    case Bin(_, l, r) => Within(l, d - 1) && Within(r, d - 1)
    case Cmp(first, _, rights) => Within(first, d - 1) && AllWithin(rights, d - 1)
    case Display(_, es) => AllWithin(es, d - 1)
    case _ => true
  }

  predicate AllWithin(ns: seq<Node>, d: int)
    decreases ns, 0
  {
    ns == [] || (Within(ns[0], d) && AllWithin(ns[1..], d))
  }

  /** Every node of the tree, string keys included. */
  function Size(n: Node): nat
    decreases n, 1
  {
    match n
    case Attr(base, _) => 1 + Size(base)
    case Sub(base, key) => 1 + Size(base) + Size(key)
    case BoolOp(_, vs) => 1 + SizeAll(vs)
    case Unary(_, x) => 1 + Size(x)
    case Bin(_, l, r) => 1 + Size(l) + Size(r)
    case Cmp(first, _, rights) => 1 + Size(first) + SizeAll(rights)
    case Display(_, es) => 1 + SizeAll(es)
    case Foreign(cs) => 1 + SizeAll(cs)
    case _ => 1
  }

  function SizeAll(ns: seq<Node>): nat
    decreases ns, 0
  {
    if ns == [] then 0 else Size(ns[0]) + SizeAll(ns[1..])
  }

  /** The validator accepts exactly the subset within the nesting bound, and its count is the tree's size. */
  lemma {:induction false} ValidateExact(n: Node, depth: nat)
    ensures Validate(n, depth).Some? <==> InSubset(n) && Within(n, MAX_DEPTH - depth)
    ensures Validate(n, depth).Some? ==> Validate(n, depth).get == Size(n)
    decreases n, 1
  {
    if depth <= MAX_DEPTH {
      match n
      case Attr(base, _) => ValidateExact(base, depth + 1);
      case Sub(base, _) => ValidateExact(base, depth + 1);
      case BoolOp(_, vs) => ValidateAllExact(vs, depth + 1);
      case Unary(_, x) => ValidateExact(x, depth + 1);
      case Bin(_, l, r) =>
        ValidateExact(l, depth + 1);
        ValidateExact(r, depth + 1);
      case Cmp(first, _, rights) =>
        ValidateExact(first, depth + 1);
        ValidateAllExact(rights, depth + 1);
      case Display(_, es) => ValidateAllExact(es, depth + 1);
      case _ =>
    }
  }

  lemma {:induction false} ValidateAllExact(ns: seq<Node>, depth: nat)
    ensures ValidateAll(ns, depth).Some? <==> AllInSubset(ns) && AllWithin(ns, MAX_DEPTH - depth)
    ensures ValidateAll(ns, depth).Some? ==> ValidateAll(ns, depth).get == SizeAll(ns)
    decreases ns, 0
  {
    if ns != [] {
      ValidateExact(ns[0], depth);
      ValidateAllExact(ns[1..], depth);
    }
  }

  /** A validated tree. */
  type Predicate = n: Node | InSubset(n) witness Const(VNone)

  /** What compiling accepts of a text of this length that parses as `n`. */
  predicate Compiles(length: nat, n: Node) {
    length <= MAX_PREDICATE_LENGTH && Validate(n, 0).Some? && Validate(n, 0).get <= MAX_AST_NODES
  }

  // ----- the evaluator -----

  /** A name and the attributes read from it, as one dotted key. */
  function Dotted(n: Node): Option<string> {
    match n
    case Name(id) => Some(id)
    case Attr(base, attr) =>
      var d := Dotted(base);
      if d.None? then None else Some(d.get + "." + attr)
    case _ => None
  }

  function Lookup(key: string, b: Facts): Result<Value> {
    if key in b then Ok(b[key]) else Err(Unresolved)
  }

  function Index(base: Value, key: string): Result<Value> {
    if !base.VMap? then Err(Failed)
    else if key in base.m then Ok(base.m[key])
    else Err(Unresolved)
  }

  function Negative(op: UnaryOp, v: Value): Result<Value> {
    if op.Not? then Ok(VBool(!Truthy(v)))
    else if !IsNum(v) then Err(Failed)
    else Ok(VInt(if op.Neg? then -Num(v) else Num(v)))
  }

  function Eval(n: Node, b: Facts): Result<Value>
    requires InSubset(n)
    decreases n, 1
  {
    match n
    case Const(v) => Ok(v)
    case Name(id) => Lookup(id, b)
    case Attr(_, _) => DottedInSubset(n); Lookup(Dotted(n).get, b)
    case Sub(base, key) =>
      var v :- Eval(base, b);
      Index(v, key.value.s)
    case BoolOp(isAnd, vs) =>
      var t :- EvalUntil(vs, b, !isAnd);
      Ok(VBool(t))
    case Unary(op, x) =>
      var v :- Eval(x, b);
      Negative(op, v)
    case Bin(op, l, r) =>
      var u :- Eval(l, b);
      var v :- Eval(r, b);
      Arith(op.get, u, v)
    case Cmp(first, ops, rights) =>
      var v :- Eval(first, b);
      var t :- EvalLinks(v, ops, rights, b);
      Ok(VBool(t))
    case Display(isTuple, es) =>
      var vs :- EvalAll(es, b);
      Ok(if isTuple then VTuple(vs) else VList(vs))
  }

  /** Evaluate operands left to right until one has truth value `stop`; the answer is whether to be `stop`. */
  function EvalUntil(ns: seq<Node>, b: Facts, stop: bool): Result<bool>
    requires AllInSubset(ns)
    decreases ns, 0
  {
    if ns == [] then Ok(!stop)
    else
      var v :- Eval(ns[0], b);
      if Truthy(v) == stop then Ok(stop) else EvalUntil(ns[1..], b, stop)
  }

  /** A chained comparison: it stops at the first link that does not hold. */
  function EvalLinks(left: Value, ops: seq<CmpOp>, rights: seq<Node>, b: Facts): Result<bool>
    requires AllInSubset(rights)
    decreases rights, 0
  {
    if ops == [] || rights == [] then if ops == [] && rights == [] then Ok(true) else Err(Failed)
    else
      var right :- Eval(rights[0], b);
      var ok :- Compare(ops[0], left, right);
      if ok then EvalLinks(right, ops[1..], rights[1..], b) else Ok(false)
  }

  function EvalAll(ns: seq<Node>, b: Facts): Result<seq<Value>>
    requires AllInSubset(ns)
    decreases ns, 0
  {
    if ns == [] then Ok([])
    else
      var v :- Eval(ns[0], b);
      var vs :- EvalAll(ns[1..], b);
      Ok([v] + vs)
  }

  /** An attribute chain the validator accepts is rooted at a name, so it always has a dotted key. */
  lemma {:induction false} DottedInSubset(n: Node)
    requires Chain(n) && InSubset(n)
    ensures Dotted(n).Some?
  {
    if n.Attr? {
      DottedInSubset(n.base);
    }
  }

  // ----- the reference extractor -----

  function References(n: Node): seq<string>
    requires InSubset(n)
    decreases n, 1
  {
    match n
    case Attr(_, _) => DottedInSubset(n); [Dotted(n).get]
    case Name(id) => [id]
    case Sub(base, key) =>
      if Chain(base) then DottedInSubset(base); [Dotted(base).get + "." + key.value.s]
      else References(base)
    case Unary(_, x) => References(x)
    case Bin(_, l, r) => References(l) + References(r)
    case Cmp(first, _, rights) => References(first) + AllReferences(rights)
    case BoolOp(_, vs) => AllReferences(vs)
    case Display(_, es) => AllReferences(es)
    case Const(_) => []
  }

  function AllReferences(ns: seq<Node>): seq<string>
    requires AllInSubset(ns)
    decreases ns, 0
  {
    if ns == [] then [] else References(ns[0]) + AllReferences(ns[1..])
  }

  const POST := "post."
  const FACTS := "facts."

  /** The fact keys a predicate refers to on the post side. */
  function PostSideKeys(n: Node): seq<string>
    requires InSubset(n)
  {
    PostSide(References(n))
  }

  function PostSide(paths: seq<string>): seq<string> {
    if paths == [] then []
    else
      var p := paths[0];
      (if POST <= p then [p[|POST|..]] else if FACTS <= p then [p[|FACTS|..]] else []) + PostSide(paths[1..])
  }

  lemma {:induction false} PostSideAppend(a: seq<string>, b: seq<string>)
    ensures PostSide(a + b) == PostSide(a) + PostSide(b)
  {
    hide PostSide;
    if a == [] {
      assert a + b == b;
      PostSideNone();
    } else {
      PostSideAppend(a[1..], b);
      assert (a + b)[1..] == a[1..] + b && (a + b)[0] == a[0];
      PostSideHead(a + b);
      PostSideHead(a);
    }
  }

  lemma PostSideNone()
    ensures PostSide([]) == []
  {
  }

  lemma PostSideHead(paths: seq<string>)
    requires paths != []
    ensures PostSide(paths) == PostSide([paths[0]]) + PostSide(paths[1..])
  {
    assert [paths[0]][1..] == [] && PostSide([paths[0]][1..]) == [];
  }
}
