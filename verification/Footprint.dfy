/**
 The syntactic footprint of an envelope against what its clauses really read: two post states that
 freeze alike give every clause the same outcome, provided the predicates refer to the post
 state directly.
 */
module Footprint {
  import opened Options
  import opened Values
  import opened Predicates
  import opened Envelopes
  import opened EvaluationPaths

  /**
   The post state is only read fact by fact. Where states are only known to be equal (`!exact`), identity is tested against
   `None` alone, and nothing but a constant is formatted: both can tell apart values that are equal.
   */
  predicate Pointed(n: Node, exact: bool)
    requires InSubset(n)
    decreases n, 1
  {
    match n
    case Name(id) => id != "post" && id != "facts"
    case Sub(base, _) => Chain(base) || Pointed(base, exact)
    case Unary(_, x) => Pointed(x, exact)
    case Bin(op, l, r) => Pointed(l, exact) && Pointed(r, exact) && (exact || !op.get.Mod? || NeverSequence(l) || r.Const?)
    case BoolOp(_, vs) => AllPointed(vs, exact)
    case Cmp(first, ops, rights) => Pointed(first, exact) && AllPointed(rights, exact) && (exact || NoneTests(ops, rights))
    case Display(_, es) => AllPointed(es, exact)
    case _ => true
  }

  predicate NoneTests(ops: seq<CmpOp>, rights: seq<Node>) {
    forall i :: 0 <= i < |ops| && i < |rights| && (ops[i].Is? || ops[i].IsNot?) ==> rights[i] == Const(VNone)
  }

  predicate AllPointed(ns: seq<Node>, exact: bool)
    requires AllInSubset(ns)
    decreases ns, 0
  {
    ns == [] || (Pointed(ns[0], exact) && AllPointed(ns[1..], exact))
  }

  /** The post facts that evaluating a predicate can look at. */
  function Reads(n: Node): set<string>
    requires InSubset(n)
    decreases n, 1
  {
    match n
    case Name(id) => FactOf(id)
    case Attr(_, _) => DottedInSubset(n); FactOf(Dotted(n).get)
    case Sub(base, key) =>
      if !Chain(base) then Reads(base)
      else
        DottedInSubset(base);
        if Dotted(base).get == "post" || Dotted(base).get == "facts" then {key.value.s} else FactOf(Dotted(base).get)
    case Unary(_, x) => Reads(x)
    case Bin(_, l, r) => Reads(l) + Reads(r)
    case BoolOp(_, vs) => AllReads(vs)
    case Cmp(first, _, rights) => Reads(first) + AllReads(rights)
    case Display(_, es) => AllReads(es)
    case Const(_) => {}
  }

  function AllReads(ns: seq<Node>): set<string>
    requires AllInSubset(ns)
    decreases ns, 0
  {
    if ns == [] then {} else Reads(ns[0]) + AllReads(ns[1..])
  }

  function FactOf(path: string): set<string> {
    if POST <= path then {path[|POST|..]} else {}
  }

  // ----- agreement, exact or up to `==` -----

  predicate Alike(exact: bool, u: Value, v: Value) {
    if exact then u == v else PyEq(u, v)
  }

  predicate AlikeAt(exact: bool, p: Facts, q: Facts, k: string) {
    (k in p <==> k in q) && (k in p ==> Alike(exact, p[k], q[k]))
  }

  predicate AlikeResults(exact: bool, r: Result<Value>, s: Result<Value>) {
    if exact then r == s else SameResult(r, s)
  }

  lemma AlikeParts(exact: bool, r: Result<Value>, s: Result<Value>)
    requires AlikeResults(exact, r, s)
    ensures r.Ok? <==> s.Ok?
    ensures r.Ok? ==> Alike(exact, r.value, s.value)
    ensures r.Err? ==> r.fault == s.fault
  {
  }

  predicate AgreeOn(exact: bool, keys: set<string>, p: Facts, q: Facts) {
    forall k :: k in keys ==> AlikeAt(exact, p, q, k)
  }

  lemma AgreeOnSplit(exact: bool, a: set<string>, b: set<string>, p: Facts, q: Facts)
    requires AgreeOn(exact, a + b, p, q)
    ensures AgreeOn(exact, a, p, q) && AgreeOn(exact, b, p, q)
  {
    hide AlikeAt;
  }

  /** Two sets of bindings that differ only in the post state: `p` in one, `q` in the other. */
  ghost predicate Over(exact: bool, b: Facts, c: Facts, p: Facts, q: Facts) {
    "post" in b && b["post"] == VMap(p) && "facts" in b && b["facts"] == VMap(p)
    && "post" in c && c["post"] == VMap(q) && "facts" in c && c["facts"] == VMap(q)
    && (forall key :: POST <= key ==>
      Get(b, key) == Get(p, key[|POST|..]) && Get(c, key) == Get(q, key[|POST|..]))
    && (forall key :: !(POST <= key) && key != "post" && key != "facts" ==> AlikeAt(exact, b, c, key))
  }

  lemma LookupSame(exact: bool, path: string, b: Facts, c: Facts, p: Facts, q: Facts)
    requires Over(exact, b, c, p, q) && AgreeOn(exact, FactOf(path), p, q)
    requires path != "post" && path != "facts"
    ensures AlikeResults(exact, Lookup(path, b), Lookup(path, c))
  {
    if POST <= path {
      assert AlikeAt(exact, p, q, path[|POST|..]);
      assert Get(b, path) == Get(p, path[|POST|..]);
      assert Get(c, path) == Get(q, path[|POST|..]);
    } else {
      assert AlikeAt(exact, b, c, path);
    }
  }

  // ----- operations cannot tell alike operands apart -----

  lemma IndexAlike(exact: bool, u: Value, v: Value, key: string)
    requires Alike(exact, u, v)
    ensures AlikeResults(exact, Index(u, key), Index(v, key))
  {
    if u.VMap? {
      var cu, cv := Canon(u).m, Canon(v).m;
      assert key in u.m <==> key in cu;
      assert key in v.m <==> key in cv;
    }
  }

  lemma NegativeAlike(exact: bool, op: UnaryOp, u: Value, v: Value)
    requires Alike(exact, u, v)
    ensures AlikeResults(exact, Negative(op, u), Negative(op, v))
  {
    TruthyCanon(u);
    TruthyCanon(v);
  }

  lemma TruthyAlike(exact: bool, u: Value, v: Value)
    requires Alike(exact, u, v)
    ensures Truthy(u) == Truthy(v)
  {
    TruthyCanon(u);
    TruthyCanon(v);
  }

  lemma ArithAlike(exact: bool, op: BinOp, l1: Value, r1: Value, l2: Value, r2: Value)
    requires Alike(exact, l1, l2) && Alike(exact, r1, r2)
    requires exact || !op.Mod? || !l1.VStr? || r1 == r2
    ensures AlikeResults(exact, Arith(op, l1, r1), Arith(op, l2, r2))
  {
    if !exact {
      ArithRespectsEq(op, l1, r1, l2, r2);
    }
    hide Arith;
  }

  lemma CompareAlike(exact: bool, op: CmpOp, l1: Value, r1: Value, l2: Value, r2: Value)
    requires Alike(exact, l1, l2) && Alike(exact, r1, r2)
    requires exact || !(op.Is? || op.IsNot?) || r1.VNone?
    ensures Compare(op, l1, r1) == Compare(op, l2, r2)
  {
    if !exact {
      CompareRespectsEq(op, l1, r1, l2, r2);
    }
    hide Compare;
  }

  /** A dotted key of more than one name has a dot in it. */
  lemma DottedHasDot(n: Node)
    requires n.Attr? && InSubset(n)
    ensures Dotted(n).Some? && Dotted(n).get != "post" && Dotted(n).get != "facts"
  {
    DottedInSubset(n);
    DottedInSubset(n.base);
    var d := Dotted(n).get;
    assert d[|Dotted(n.base).get|] == '.';
    assert forall i :: 0 <= i < 4 ==> "post"[i] != '.';
    assert forall i :: 0 <= i < 5 ==> "facts"[i] != '.';
  }

  lemma SubSame(exact: bool, n: Node, b: Facts, c: Facts, p: Facts, q: Facts)
    requires InSubset(n) && n.Sub? && Chain(n.base)
    requires Over(exact, b, c, p, q) && AgreeOn(exact, Reads(n), p, q)
    ensures AlikeResults(exact, Eval(n, b), Eval(n, c))
  {
    DottedInSubset(n.base);
    var path := Dotted(n.base).get;
    var key := n.key.value.s;
    assert Eval(n.base, b) == Lookup(path, b) && Eval(n.base, c) == Lookup(path, c);
    if path == "post" || path == "facts" {
      assert AlikeAt(exact, p, q, key) by { hide Over; }
      hide Alike, AlikeResults;
      AlikeLookups(exact, p, q, key);
    } else {
      assert AgreeOn(exact, FactOf(path), p, q);
      LookupSame(exact, path, b, c, p, q);
      AlikeParts(exact, Lookup(path, b), Lookup(path, c));
      hide Alike, AlikeResults, Over, AgreeOn, AlikeAt;
      if Lookup(path, b).Ok? {
        IndexAlike(exact, Lookup(path, b).value, Lookup(path, c).value, key);
      } else {
        SameFault(exact, Lookup(path, b).fault);
      }
    }
  }

  lemma AlikeLookups(exact: bool, p: Facts, q: Facts, key: string)
    requires AlikeAt(exact, p, q, key)
    ensures AlikeResults(exact, Index(VMap(p), key), Index(VMap(q), key))
  {
  }

  lemma SameFault(exact: bool, f: Fault)
    ensures AlikeResults(exact, Err(f), Err(f))
  {
  }

  /** The evaluator looks at no fact of the post state beyond these. */
  lemma {:induction false} EvalSame(exact: bool, n: Node, b: Facts, c: Facts, p: Facts, q: Facts)
    requires InSubset(n) && Pointed(n, exact)
    requires Over(exact, b, c, p, q) && AgreeOn(exact, Reads(n), p, q)
    ensures AlikeResults(exact, Eval(n, b), Eval(n, c))
    decreases n, 1
  {
    hide Alike, AlikeResults, Over, AgreeOn, Arith;
    match n
    case Const(v) => SameConstant(exact, v);
    case Name(id) => LookupSame(exact, id, b, c, p, q);
    case Attr(_, _) =>
      DottedHasDot(n);
      LookupSame(exact, Dotted(n).get, b, c, p, q);
    case Sub(base, key) =>
      if Chain(base) {
        SubSame(exact, n, b, c, p, q);
      } else {
        EvalSame(exact, base, b, c, p, q);
        AlikeParts(exact, Eval(base, b), Eval(base, c));
        if Eval(base, b).Ok? { IndexAlike(exact, Eval(base, b).value, Eval(base, c).value, key.value.s); }
      }
    case Unary(op, x) =>
      EvalSame(exact, x, b, c, p, q);
      AlikeParts(exact, Eval(x, b), Eval(x, c));
      if Eval(x, b).Ok? { NegativeAlike(exact, op, Eval(x, b).value, Eval(x, c).value); }
    case Bin(op, l, r) =>
      AgreeOnSplit(exact, Reads(l), Reads(r), p, q);
      EvalSame(exact, l, b, c, p, q);
      EvalSame(exact, r, b, c, p, q);
      BinSame(exact, n, b, c);
    case BoolOp(isAnd, vs) =>
      UntilSame(exact, vs, !isAnd, b, c, p, q);
      SameTruth(exact, EvalUntil(vs, b, !isAnd));
    case Cmp(first, ops, rights) =>
      AgreeOnSplit(exact, Reads(first), AllReads(rights), p, q);
      EvalSame(exact, first, b, c, p, q);
      AlikeParts(exact, Eval(first, b), Eval(first, c));
      if Eval(first, b).Ok? {
        LinksSame(exact, Eval(first, b).value, Eval(first, c).value, ops, rights, b, c, p, q);
        SameTruth(exact, EvalLinks(Eval(first, b).value, ops, rights, b));
      }
    case Display(isTuple, es) =>
      AllSame(exact, es, b, c, p, q);
      DisplaySame(exact, isTuple, EvalAll(es, b), EvalAll(es, c));
  }

  lemma SameConstant(exact: bool, v: Value)
    ensures AlikeResults(exact, Ok(v), Ok(v))
  {
  }

  lemma SameTruth(exact: bool, r: Result<bool>)
    ensures AlikeResults(exact, if r.Ok? then Ok(VBool(r.value)) else Err(r.fault), if r.Ok? then Ok(VBool(r.value)) else Err(r.fault))
  {
  }

  lemma BinSame(exact: bool, n: Node, b: Facts, c: Facts)
    requires InSubset(n) && n.Bin? && Pointed(n, exact)
    requires AlikeResults(exact, Eval(n.left, b), Eval(n.left, c)) && AlikeResults(exact, Eval(n.right, b), Eval(n.right, c))
    ensures AlikeResults(exact, Eval(n, b), Eval(n, c))
  {
    hide Alike, AlikeResults, Arith;
    AlikeParts(exact, Eval(n.left, b), Eval(n.left, c));
    AlikeParts(exact, Eval(n.right, b), Eval(n.right, c));
    if Eval(n.left, b).Ok? && Eval(n.right, b).Ok? {
      if NeverSequence(n.left) {
        NeverSequenceValue(n.left, b);
      }
      ArithAlike(exact, n.binop.get, Eval(n.left, b).value, Eval(n.right, b).value, Eval(n.left, c).value, Eval(n.right, c).value);
    } else if Eval(n.left, b).Err? {
      SameFault(exact, Eval(n.left, b).fault);
    } else {
      SameFault(exact, Eval(n.right, b).fault);
    }
  }

  predicate AlikeLists(exact: bool, r: Result<seq<Value>>, s: Result<seq<Value>>) {
    && (r.Ok? <==> s.Ok?)
    && (r.Ok? ==> if exact then r.value == s.value else CanonSeq(r.value) == CanonSeq(s.value))
    && (r.Err? ==> r.fault == s.fault)
  }

  lemma DisplaySame(exact: bool, isTuple: bool, r: Result<seq<Value>>, s: Result<seq<Value>>)
    requires AlikeLists(exact, r, s)
    ensures
      AlikeResults(exact,
                   if r.Err? then Err(r.fault) else Ok(if isTuple then VTuple(r.value) else VList(r.value)),
                   if s.Err? then Err(s.fault) else Ok(if isTuple then VTuple(s.value) else VList(s.value)))
  {
  }

  lemma {:induction false} UntilSame(exact: bool, ns: seq<Node>, stop: bool, b: Facts, c: Facts, p: Facts, q: Facts)
    requires AllInSubset(ns) && AllPointed(ns, exact)
    requires Over(exact, b, c, p, q) && AgreeOn(exact, AllReads(ns), p, q)
    ensures EvalUntil(ns, b, stop) == EvalUntil(ns, c, stop)
    decreases ns, 0
  {
    hide Alike, AlikeResults, Over, AgreeOn, Truthy;
    if ns != [] {
      AgreeOnSplit(exact, Reads(ns[0]), AllReads(ns[1..]), p, q);
      EvalSame(exact, ns[0], b, c, p, q);
      UntilSame(exact, ns[1..], stop, b, c, p, q);
      AlikeParts(exact, Eval(ns[0], b), Eval(ns[0], c));
      if Eval(ns[0], b).Ok? {
        TruthyAlike(exact, Eval(ns[0], b).value, Eval(ns[0], c).value);
      }
      hide Eval;
    }
  }

  lemma {:induction false} LinksSame(exact: bool, u: Value, v: Value, ops: seq<CmpOp>, ns: seq<Node>,
                                     b: Facts, c: Facts, p: Facts, q: Facts)
    requires Alike(exact, u, v)
    requires AllInSubset(ns) && AllPointed(ns, exact) && (exact || NoneTests(ops, ns))
    requires Over(exact, b, c, p, q) && AgreeOn(exact, AllReads(ns), p, q)
    ensures EvalLinks(u, ops, ns, b) == EvalLinks(v, ops, ns, c)
    decreases ns, 0
  {
    hide Alike, AlikeResults, Over, AgreeOn, Compare, NoneTests;
    if ops != [] && ns != [] {
      AgreeOnSplit(exact, Reads(ns[0]), AllReads(ns[1..]), p, q);
      EvalSame(exact, ns[0], b, c, p, q);
      AlikeParts(exact, Eval(ns[0], b), Eval(ns[0], c));
      LinksUnfold(u, ops, ns, b);
      LinksUnfold(v, ops, ns, c);
      NoneTestsSplit(exact, ops, ns, b);
      hide Eval, EvalLinks, Reads, AllReads;
      if Eval(ns[0], b).Ok? {
        var x, y := Eval(ns[0], b).value, Eval(ns[0], c).value;
        CompareAlike(exact, ops[0], u, x, v, y);
        LinksSame(exact, x, y, ops[1..], ns[1..], b, c, p, q);
      }
    }
  }

  lemma LinksUnfold(left: Value, ops: seq<CmpOp>, ns: seq<Node>, b: Facts)
    requires AllInSubset(ns) && ops != [] && ns != []
    ensures EvalLinks(left, ops, ns, b) ==
      var right := Eval(ns[0], b);
      if right.Err? then Err(right.fault)
      else
        var ok := Compare(ops[0], left, right.value);
        if ok.Err? then Err(ok.fault)
        else if ok.value then EvalLinks(right.value, ops[1..], ns[1..], b)
        else Ok(false)
  {
    hide Eval, Compare;
  }

  lemma NoneTestsSplit(exact: bool, ops: seq<CmpOp>, ns: seq<Node>, b: Facts)
    requires ops != [] && ns != [] && AllInSubset(ns) && (exact || NoneTests(ops, ns))
    ensures exact || !(ops[0].Is? || ops[0].IsNot?) || Eval(ns[0], b) == Ok(VNone)
    ensures exact || NoneTests(ops[1..], ns[1..])
  {
    assert forall i :: 0 <= i < |ops| - 1 ==> ops[1..][i] == ops[i + 1];
    assert forall i :: 0 <= i < |ns| - 1 ==> ns[1..][i] == ns[i + 1];
  }

  lemma {:induction false} AllSame(exact: bool, ns: seq<Node>, b: Facts, c: Facts, p: Facts, q: Facts)
    requires AllInSubset(ns) && AllPointed(ns, exact)
    requires Over(exact, b, c, p, q) && AgreeOn(exact, AllReads(ns), p, q)
    ensures AlikeLists(exact, EvalAll(ns, b), EvalAll(ns, c))
    decreases ns, 0
  {
    hide Over, AgreeOn, CanonSeq, Canon;
    if ns != [] {
      AgreeOnSplit(exact, Reads(ns[0]), AllReads(ns[1..]), p, q);
      EvalSame(exact, ns[0], b, c, p, q);
      AllSame(exact, ns[1..], b, c, p, q);
      AlikeParts(exact, Eval(ns[0], b), Eval(ns[0], c));
      hide Eval;
      if EvalAll(ns, b).Ok? {
        ConsAlike(exact, Eval(ns[0], b).value, Eval(ns[0], c).value, EvalAll(ns[1..], b).value, EvalAll(ns[1..], c).value);
      }
    }
  }

  lemma ConsAlike(exact: bool, u: Value, v: Value, xs: seq<Value>, ys: seq<Value>)
    requires Alike(exact, u, v) && (if exact then xs == ys else CanonSeq(xs) == CanonSeq(ys))
    ensures if exact then [u] + xs == [v] + ys else CanonSeq([u] + xs) == CanonSeq([v] + ys)
  {
    CanonAppend([u], xs);
    CanonAppend([v], ys);
  }

  // ----- clauses -----

  /** Whatever post fact a clause can look at is among the normalized keys. */
  predicate ObservedBy(exact: bool, e: Envelope) {
    (forall i :: 0 <= i < |e.require| ==> Observes(exact, e, e.require[i].test))
    && (forall i :: 0 <= i < |e.derive| ==> Observes(exact, e, e.derive[i]))
    && (forall i :: 0 <= i < |e.forbid| ==> Observes(exact, e, e.forbid[i].test))
  }

  predicate Observes(exact: bool, e: Envelope, t: Predicate) {
    Pointed(t, exact) && forall k :: k in Reads(t) ==> k in NormalizedKeys(e)
  }

  predicate FullyObserved(e: Envelope) {
    ObservedBy(false, e)
  }

  lemma HoldsSame(exact: bool, t: Predicate, b: Facts, c: Facts, p: Facts, q: Facts)
    requires Pointed(t, exact) && Over(exact, b, c, p, q) && AgreeOn(exact, Reads(t), p, q)
    ensures Holds(t, b) == Holds(t, c)
  {
    EvalSame(exact, t, b, c, p, q);
    AlikeParts(exact, Eval(t, b), Eval(t, c));
    hide Eval, Over, AgreeOn, Alike, AlikeResults;
    if Eval(t, b).Ok? {
      TruthyAlike(exact, Eval(t, b).value, Eval(t, c).value);
    }
  }

  lemma {:induction false} BindingsOverAt(exact: bool, pre: Facts, p: Facts, q: Facts, key: string)
    ensures POST <= key ==>
      Get(Bindings(pre, p), key) == Get(p, key[|POST|..]) && Get(Bindings(pre, q), key) == Get(q, key[|POST|..])
    ensures !(POST <= key) && key != "post" && key != "facts" ==> AlikeAt(exact, Bindings(pre, p), Bindings(pre, q), key)
    ensures key == "post" || key == "facts" ==>
      Get(Bindings(pre, p), key) == Some(VMap(p)) && Get(Bindings(pre, q), key) == Some(VMap(q))
  {
    BindingsAt(pre, p, key);
    BindingsAt(pre, q, key);
    hide Bindings;
  }

  lemma {:induction false} BindingsOver(exact: bool, pre: Facts, p: Facts, q: Facts)
    ensures Over(exact, Bindings(pre, p), Bindings(pre, q), p, q)
  {
    hide Bindings, AlikeAt;
    forall key
      ensures POST <= key ==>
        Get(Bindings(pre, p), key) == Get(p, key[|POST|..]) && Get(Bindings(pre, q), key) == Get(q, key[|POST|..])
      ensures !(POST <= key) && key != "post" && key != "facts" ==> AlikeAt(exact, Bindings(pre, p), Bindings(pre, q), key)
    {
      BindingsOverAt(exact, pre, p, q, key);
    }
    BindingsOverAt(exact, pre, p, q, "post");
    BindingsOverAt(exact, pre, p, q, "facts");
  }

  lemma ScopeOver(exact: bool, b: Facts, c: Facts, p: Facts, q: Facts, key: string, u: Value, v: Value)
    requires Over(exact, b, c, p, q) && Alike(exact, u, v)
    ensures Over(exact, ScopeBindings(b, key, u), ScopeBindings(c, key, v), p, q)
  {
    assert "scope" != "post" && "scope_key" != "post" by { assert "scope"[0] != "post"[0] && "scope_key"[0] != "post"[0]; }
    assert "scope" != "facts" && "scope_key" != "facts" by { assert "scope"[0] != "facts"[0] && "scope_key"[0] != "facts"[0]; }
    assert !(POST <= "scope") && !(POST <= "scope_key") by { assert "scope"[0] != POST[0] && "scope_key"[0] != POST[0]; }
    var b', c' := ScopeBindings(b, key, u), ScopeBindings(c, key, v);
    forall k | !(POST <= k) && k != "post" && k != "facts" ensures AlikeAt(exact, b', c', k) {
      assert AlikeAt(exact, b, c, k);
    }
    forall k | POST <= k ensures Get(b', k) == Get(b, k) && Get(c', k) == Get(c, k) {
    }
  }

  /**
   Footprint soundness: when two post states agree, value or absence, on the normalized keys, every require, derive and
   forbid clause of an envelope that observes all it reads has the same outcome in both.
   */
  lemma {:induction false} NormalizedKeysDecideClauses(exact: bool, e: Envelope, pre: Facts, p: Facts, q: Facts, clause: Clause)
    requires ObservedBy(exact, e) && HasClause(e, clause)
    requires forall k :: k in NormalizedKeys(e) ==> AlikeAt(exact, p, q, k)
    ensures ClauseOutcome(e, pre, p, clause) == ClauseOutcome(e, pre, q, clause)
  {
    BindingsOver(exact, pre, p, q);
    var b, c := Bindings(pre, p), Bindings(pre, q);
    hide Bindings, Over, Holds, Alike, AlikeAt, Pointed, Reads;
    match clause
    case Require(i) =>
      assert Observes(exact, e, e.require[i].test);
      HoldsSame(exact, e.require[i].test, b, c, p, q);
    case Derive(i) =>
      assert Observes(exact, e, e.derive[i]);
      HoldsSame(exact, e.derive[i], b, c, p, q);
    case Forbid(i) =>
      var f := e.forbid[i];
      assert Observes(exact, e, f.test);
      ForbidKeysHave(e.forbid, i);
      ScopeAlike(exact, p, q, f.scopeKey);
      if f.scopeKey in p {
        var u, v := p[f.scopeKey], q[f.scopeKey];
        ScopeOver(exact, b, c, p, q, f.scopeKey, u, v);
        HoldsSame(exact, f.test, ScopeBindings(b, f.scopeKey, u), ScopeBindings(c, f.scopeKey, v), p, q);
      }
  }

  lemma ScopeAlike(exact: bool, p: Facts, q: Facts, k: string)
    requires AlikeAt(exact, p, q, k)
    ensures k in p <==> k in q
    ensures k in p ==> Alike(exact, p[k], q[k])
  {
  }

  /** So it has when they freeze alike, which is to say up to `==`. */
  lemma {:induction false} FrozenStateDecidesClauses(e: Envelope, pre: Facts, p: Facts, q: Facts, clause: Clause)
    requires FullyObserved(e) && SameFrozen(e, p, q) && HasClause(e, clause)
    ensures ClauseOutcome(e, pre, p, clause) == ClauseOutcome(e, pre, q, clause)
  {
    SameFrozenMeansAgreement(e, p, q);
    assert forall k :: AgreeAt(p, q, k) ==> AlikeAt(false, p, q, k);
    hide ClauseOutcome, SameFrozen;
    NormalizedKeysDecideClauses(false, e, pre, p, q, clause);
  }

  // ----- the extractor reports what is read -----

  /** No fact is subscripted under its dotted name: the extractor would take `post.a["b"]` for a fact `a.b`. */
  predicate Direct(n: Node)
    requires InSubset(n)
    decreases n, 1
  {
    match n
    case Sub(base, _) => if Chain(base) then DottedInSubset(base); !(POST <= Dotted(base).get) else Direct(base)
    case Unary(_, x) => Direct(x)
    case Bin(_, l, r) => Direct(l) && Direct(r)
    case BoolOp(_, vs) => AllDirect(vs)
    case Cmp(first, _, rights) => Direct(first) && AllDirect(rights)
    case Display(_, es) => AllDirect(es)
    case _ => true
  }

  predicate AllDirect(ns: seq<Node>)
    requires AllInSubset(ns)
    decreases ns, 0
  {
    ns == [] || (Direct(ns[0]) && AllDirect(ns[1..]))
  }

  lemma OnePath(path: string)
    ensures forall k :: k in FactOf(path) ==> k in PostSide([path])
    ensures FACTS <= path ==> path[|FACTS|..] in PostSide([path])
  {
    assert PostSide([path][1..]) == [];
    assert POST[0] != FACTS[0];
  }

  /** Of a direct predicate, every fact it can look at is among the keys the extractor reports. */
  lemma {:induction false} ReadsAreReported(n: Node)
    requires InSubset(n) && Direct(n)
    ensures forall k :: k in Reads(n) ==> k in PostSide(References(n))
    decreases n, 1
  {
    hide PostSide;
    match n
    case Name(id) => OnePath(id);
    case Attr(_, _) =>
      DottedInSubset(n);
      OnePath(Dotted(n).get);
    case Sub(base, key) =>
      if Chain(base) {
        DottedInSubset(base);
        var path := Dotted(base).get + "." + key.value.s;
        OnePath(path);
        if Dotted(base).get == "post" {
          assert path == POST + key.value.s && path[|POST|..] == key.value.s;
        } else if Dotted(base).get == "facts" {
          assert path == FACTS + key.value.s && path[|FACTS|..] == key.value.s;
        }
      } else {
        ReadsAreReported(base);
      }
    case Unary(_, x) => ReadsAreReported(x);
    case Bin(_, l, r) =>
      ReadsAreReported(l);
      ReadsAreReported(r);
      PostSideAppend(References(l), References(r));
    case BoolOp(_, vs) => AllReadsAreReported(vs);
    case Cmp(first, _, rights) =>
      ReadsAreReported(first);
      AllReadsAreReported(rights);
      PostSideAppend(References(first), AllReferences(rights));
    case Display(_, es) => AllReadsAreReported(es);
    case Const(_) =>
  }

  lemma {:induction false} AllReadsAreReported(ns: seq<Node>)
    requires AllInSubset(ns) && AllDirect(ns)
    ensures forall k :: k in AllReads(ns) ==> k in PostSide(AllReferences(ns))
    decreases ns, 0
  {
    hide PostSide;
    if ns != [] {
      ReadsAreReported(ns[0]);
      AllReadsAreReported(ns[1..]);
      PostSideAppend(References(ns[0]), AllReferences(ns[1..]));
    }
  }

  predicate DirectTest(exact: bool, t: Predicate) {
    Pointed(t, exact) && Direct(t)
  }

  /** So an envelope of direct predicates observes all it reads, by their looks alone. */
  lemma {:induction false} DirectIsObserved(exact: bool, e: Envelope)
    requires forall i :: 0 <= i < |e.require| ==> DirectTest(exact, e.require[i].test)
    requires forall i :: 0 <= i < |e.derive| ==> DirectTest(exact, e.derive[i])
    requires forall i :: 0 <= i < |e.forbid| ==> DirectTest(exact, e.forbid[i].test)
    ensures ObservedBy(exact, e)
  {
    hide Pointed, Direct, Reads, PostSide, References;
    forall i | 0 <= i < |e.require| ensures Observes(exact, e, e.require[i].test) {
      assert DirectTest(exact, e.require[i].test);
      ReadsAreReported(e.require[i].test);
      RequireKeysHave(e.require, i);
    }
    forall i | 0 <= i < |e.derive| ensures Observes(exact, e, e.derive[i]) {
      assert DirectTest(exact, e.derive[i]);
      ReadsAreReported(e.derive[i]);
      DeriveKeysHave(e.derive, i);
    }
    forall i | 0 <= i < |e.forbid| ensures Observes(exact, e, e.forbid[i].test) {
      assert DirectTest(exact, e.forbid[i].test);
      ReadsAreReported(e.forbid[i].test);
      ForbidKeysHave(e.forbid, i);
    }
  }

  /** `post.a["b"]` is harmless where some clause is about fact `a`. */
  lemma {:induction false} SubscriptObservedByItsFact(exact: bool, u: int)
    ensures ObservedBy(exact, Envelope([RequireClause("a", SubscriptedAttribute(u))], [], [], [], DERIVED))
  {
    var e := Envelope([RequireClause("a", SubscriptedAttribute(u))], [], [], [], DERIVED);
    SubscriptedReads(exact, u);
    RequireKeysHave(e.require, 0);
    hide Pointed, Reads, SubscriptedAttribute;
  }

  // ----- why the side conditions are there -----

  const DERIVED := Policy(90.0, 5.0, 2)

  function DeriveOnly(t: Predicate): Envelope {
    Envelope([], [], [], [t], DERIVED)
  }

  lemma DeriveOnlyFreeze(t: Predicate, p: Facts, q: Facts)
    requires forall k :: k in PostSideKeys(t) ==> AgreeAt(p, q, k)
    ensures SameFrozen(DeriveOnly(t), p, q)
  {
    var e := DeriveOnly(t);
    assert DeriveKeys(e.derive) == PostSideKeys(t) + DeriveKeys(e.derive[1..]) && e.derive[1..] == [];
    assert NormalizedKeys(e) == PostSideKeys(t);
    SameFrozenMeansAgreement(e, p, q);
  }

  function Read(attr: string): (n: Predicate)
    ensures n.Attr? && Dotted(n) == Some("post" + "." + attr) && References(n) == ["post" + "." + attr]
  {
    var post := Name("post");
    assert InSubset(post) && Dotted(post) == Some("post");
    Attr(post, attr)
  }

  function CompareWith(first: Result<Value>, op: CmpOp, right: Value): Result<Value> {
    var v :- first;
    var t :- Compare(op, v, right);
    Ok(VBool(t))
  }

  function Against(first: Predicate, op: CmpOp, right: Value): (n: Predicate)
    requires Scalar(right)
    ensures References(n) == References(first)
    ensures forall b: Facts :: Eval(n, b) == CompareWith(Eval(first, b), op, right)
  {
    var rights := [Const(right)];
    assert InSubset(rights[0]) && AllInSubset(rights[1..]) && AllInSubset(rights);
    assert AllReferences(rights) == References(rights[0]) + AllReferences(rights[1..]);
    assert forall b: Facts :: Eval(rights[0], b) == Ok(right);
    assert forall b: Facts :: EvalLinks(right, [op][1..], rights[1..], b) == Ok(true);
    assert forall b: Facts, v: Value :: EvalLinks(v, [op], rights, b) == Compare(op, v, right);
    Cmp(first, [op], rights)
  }

  /** `post.a["b"] == u` */
  function SubscriptedAttribute(u: int): (n: Predicate)
    ensures References(n) == ["post.a.b"]
    ensures forall b: Facts, w: int :: "post.a" in b && b["post.a"] == VMap(map["b" := VInt(w)]) ==> Eval(n, b) == Ok(VBool(w == u))
  {
    var sub: Predicate := Sub(Read("a"), Const(VStr("b")));
    assert "post" + "." + "a" == "post.a" && "post.a" + "." + "b" == "post.a.b";
    assert forall b: Facts :: Eval(Read("a"), b) == Lookup("post.a", b);
    Against(sub, Eq, VInt(u))
  }

  lemma SubscriptedReads(exact: bool, u: int)
    ensures Pointed(SubscriptedAttribute(u), exact) && Reads(SubscriptedAttribute(u)) == {"a"}
  {
    var n := SubscriptedAttribute(u);
    var right := Const(VInt(u));
    assert n.rights == [right] && [right][1..] == [];
    assert "post" + "." + "a" == POST + "a" && (POST + "a")[|POST|..] == "a";
    assert POST + "a" != "post" && POST + "a" != "facts" by { assert |POST + "a"| == 6; }
    assert Reads(n.first) == {"a"};
    assert AllReads([right]) == Reads(right) + AllReads([]);
    assert AllPointed([right], exact) == (Pointed(right, exact) && AllPointed([], exact));
  }

  /** `post.k is True` */
  function IsTrue(): (n: Predicate)
    ensures References(n) == ["post.k"]
    ensures forall b: Facts :: "post.k" in b && (b["post.k"].VBool? || b["post.k"].VInt?) ==>
      Eval(n, b) == Ok(VBool(b["post.k"] == VBool(true)))
  {
    assert "post" + "." + "k" == "post.k";
    assert forall b: Facts :: Eval(Read("k"), b) == Lookup("post.k", b);
    Against(Read("k"), Is, VBool(true))
  }

  lemma OneReference(path: string)
    requires POST <= path
    ensures PostSide([path]) == [path[|POST|..]]
  {
    assert PostSide([path][1..]) == [];
  }

  /** `post.a["b"] == u`: the extractor reports the key `a.b`, the evaluator reads the fact `a`. */
  lemma {:induction false} SubscriptedAttributeIsNotCovered(pre: Facts, u: int, v: int)
    requires u != v
    ensures
      var e := DeriveOnly(SubscriptedAttribute(u));
      var p, q := map["a" := VMap(map["b" := VInt(u)])], map["a" := VMap(map["b" := VInt(v)])];
      SameFrozen(e, p, q)
      && ClauseOutcome(e, pre, p, Derive(0)) == Satisfied && ClauseOutcome(e, pre, q, Derive(0)) == Violated
  {
    hide Bindings, SameFrozen, SubscriptedAttribute, Eval, References, Canon;
    var p, q := map["a" := VMap(map["b" := VInt(u)])], map["a" := VMap(map["b" := VInt(v)])];
    assert POST + "a.b" == "post.a.b" && "post.a.b"[|POST|..] == "a.b";
    OneReference("post.a.b");
    assert "a.b" !in p && "a.b" !in q by { assert |"a.b"| != |"a"|; }
    DeriveOnlyFreeze(SubscriptedAttribute(u), p, q);
    assert POST + "a" == "post.a" && "post.a"[|POST|..] == "a";
    BindingsAt(pre, p, "post.a");
    BindingsAt(pre, q, "post.a");
  }

  /** `not post` */
  function NotPost(): (n: Predicate)
    ensures References(n) == ["post"]
    ensures forall b: Facts :: "post" in b ==> Eval(n, b) == Ok(VBool(!Truthy(b["post"])))
  {
    var post := Name("post");
    assert forall b: Facts :: Eval(post, b) == Lookup("post", b);
    Unary(Not, post)
  }

  /** An envelope about one fact, whose predicate is `not post`. */
  function BareEnvelope(key: string): Envelope {
    Envelope([RequireClause(key, NotPost())], [], [], [], DERIVED)
  }

  /** `not post`: a bare `post` reads every fact and is reported as none, so any other fact decides the clause unobserved. */
  lemma {:induction false} BarePostIsNotCovered(pre: Facts, key: string, k: string, v: Value)
    requires k != key
    ensures
      var e := BareEnvelope(key);
      NormalizedKeys(e) == [key] && SameFrozen(e, map[], map[k := v])
      && ClauseOutcome(e, pre, map[], Require(0)) == Satisfied
      && ClauseOutcome(e, pre, map[k := v], Require(0)) == Violated
  {
    hide Bindings, SameFrozen, NotPost, Eval, PostSide, NormalizedKeys, ClauseOutcome, BareEnvelope;
    var e := BareEnvelope(key);
    BareKeys(key);
    SameFrozenMeansAgreement(e, map[], map[k := v]);
    assert AgreeAt(map[], map[k := v], key);
    BareOutcome(pre, map[], key);
    BareOutcome(pre, map[k := v], key);
    assert k in map[k := v];
  }

  lemma BareKeys(key: string)
    ensures NormalizedKeys(BareEnvelope(key)) == [key]
  {
    hide NotPost, PostSide, PostSideKeys;
    BareIsNoKey();
    var e := BareEnvelope(key);
    assert e.require[1..] == [] && RequireKeys([]) == [];
    assert RequireKeys(e.require) == [key] + PostSideKeys(NotPost()) + RequireKeys(e.require[1..]);
    assert DeriveKeys([]) == [] && ForbidKeys([]) == [];
  }

  lemma BareIsNoKey()
    ensures PostSideKeys(NotPost()) == []
  {
    assert PostSide(["post"]) == [] by {
      assert !(POST <= "post") && !(FACTS <= "post") by { assert |POST| > |"post"| && |FACTS| > |"post"|; }
      assert PostSide(["post"][1..]) == [];
    }
    hide NotPost, PostSide;
  }

  lemma {:induction false} BareOutcome(pre: Facts, post: Facts, key: string)
    ensures HasClause(BareEnvelope(key), Require(0))
    ensures ClauseOutcome(BareEnvelope(key), pre, post, Require(0)) == if post == map[] then Satisfied else Violated
  {
    hide Bindings, NotPost, Eval;
    BindingsAt(pre, post, "post");
    assert |post| == 0 <==> post == map[];
  }

  /** `"%s" % post.k == "True"` */
  function ShownAsTrue(): (n: Predicate)
    ensures References(n) == ["post.k"]
    ensures forall b: Facts :: "post.k" in b ==>
      Eval(n, b) == CompareWith(Arith(Mod, VStr("%s"), b["post.k"]), Eq, VStr("True"))
  {
    assert "post" + "." + "k" == "post.k";
    var format: Predicate := Const(VStr("%s"));
    var first := Bin(Some(Mod), format, Read("k"));
    assert InSubset(first);
    assert forall b: Facts :: Eval(Read("k"), b) == Lookup("post.k", b);
    Against(first, Eq, VStr("True"))
  }

  /** `"%s" % post.k == "True"`: formatting, too, tells `True` from the 1 it freezes like. */
  lemma {:induction false} FormattingIsNotCovered(pre: Facts)
    ensures
      var e := DeriveOnly(ShownAsTrue());
      var p, q := map["k" := VBool(true)], map["k" := VInt(1)];
      SameFrozen(e, p, q)
      && ClauseOutcome(e, pre, p, Derive(0)) == Satisfied && ClauseOutcome(e, pre, q, Derive(0)) == Violated
  {
    hide Bindings, SameFrozen, ShownAsTrue, Eval, Arith, References, PostSide;
    var p, q := map["k" := VBool(true)], map["k" := VInt(1)];
    assert POST + "k" == "post.k" && "post.k"[|POST|..] == "k";
    OneReference("post.k");
    DeriveOnlyFreeze(ShownAsTrue(), p, q);
    BindingsAt(pre, p, "post.k");
    BindingsAt(pre, q, "post.k");
    FormattingTellsTrueFromOne();
    TextsApart();
  }

  lemma TextsApart()
    ensures PyEq(VStr("True"), VStr("True")) && !PyEq(VStr("1"), VStr("True"))
  {
    assert |"1"| != |"True"|;
  }

  /** `post.k is True`: frozen states are compared with `==`, to which 1 is as good as True. */
  lemma {:induction false} IdentityWithTrueIsNotCovered(pre: Facts)
    ensures
      var e := DeriveOnly(IsTrue());
      var p, q := map["k" := VBool(true)], map["k" := VInt(1)];
      SameFrozen(e, p, q)
      && ClauseOutcome(e, pre, p, Derive(0)) == Satisfied && ClauseOutcome(e, pre, q, Derive(0)) == Violated
  {
    var p, q := map["k" := VBool(true)], map["k" := VInt(1)];
    assert POST + "k" == "post.k" && "post.k"[|POST|..] == "k";
    OneReference("post.k");
    DeriveOnlyFreeze(IsTrue(), p, q);
    BindingsAt(pre, p, "post.k");
    BindingsAt(pre, q, "post.k");
    hide Bindings, SameFrozen, IsTrue, Eval;
  }

  /** `facts` is documented as an alias of `post`, but no dotted `facts.k` is ever bound, so it never resolves. */
  lemma {:induction false} DottedFactsNeverResolve(pre: Facts, post: Facts, n: Predicate)
    requires n.Attr? && (DottedInSubset(n); FACTS <= Dotted(n).get)
    ensures Holds(n, Bindings(pre, post)) == Unclear
  {
    hide Bindings;
    DottedInSubset(n);
    var key := Dotted(n).get;
    BindingsAt(pre, post, key);
    assert key[0] == FACTS[0] == 'f' && |key| >= |FACTS| > |"facts"|;
    assert POST[0] == PRE[0] == "pre"[0] == "post"[0] == 'p';
    assert Eval(n, Bindings(pre, post)) == Lookup(key, Bindings(pre, post));
  }

  /** The alias holds where it is not dotted: bare `facts`, and `facts["k"]`. */
  lemma {:induction false} FactsIsPost(pre: Facts, post: Facts, id: string, k: string)
    requires id == "facts" || id == "post"
    ensures
      var b := Bindings(pre, post);
      Eval(Bare(id), b) == Ok(VMap(post)) && Eval(Subscripted(id, k), b) == Lookup(k, post)
  {
    BindingsAt(pre, post, id);
    hide Bindings;
    BareValue(id, Bindings(pre, post));
    SubscriptedValue(id, k, Bindings(pre, post));
    hide Eval;
  }

  function Bare(id: string): Predicate {
    Name(id)
  }

  function Subscripted(id: string, k: string): Predicate {
    var key := Const(VStr(k));
    assert InSubset(key) && InSubset(Bare(id));
    Sub(Bare(id), key)
  }

  lemma BareValue(id: string, b: Facts)
    ensures Eval(Bare(id), b) == Lookup(id, b)
  {
  }

  lemma SubscriptedValue(id: string, k: string, b: Facts)
    ensures Eval(Subscripted(id, k), b) ==
      var v := Eval(Bare(id), b); if v.Ok? then Index(v.value, k) else v
  {
  }

  /** Dotted, `facts.k` and `post.k` mean the same exactly when there is no fact `k` to mean. */
  lemma {:induction false} DottedAliasExactly(pre: Facts, post: Facts, n: Predicate, m: Predicate, k: string)
    requires n.Attr? && m.Attr? && Dotted(n) == Some(FACTS + k) && Dotted(m) == Some(POST + k)
    ensures Eval(n, Bindings(pre, post)) == Eval(m, Bindings(pre, post)) <==> k !in post
  {
    hide Bindings;
    DottedFactsNeverResolve(pre, post, n);
    assert (POST + k)[|POST|..] == k;
    BindingsAt(pre, post, POST + k);
    assert Eval(m, Bindings(pre, post)) == Lookup(POST + k, Bindings(pre, post));
    assert Eval(n, Bindings(pre, post)) == Lookup(FACTS + k, Bindings(pre, post));
    UnclearLookup(n, Bindings(pre, post));
  }

  lemma UnclearLookup(n: Predicate, b: Facts)
    requires n.Attr? && Holds(n, b) == Unclear
    ensures Eval(n, b) == Err(Unresolved)
  {
    DottedInSubset(n);
    assert Eval(n, b) == Lookup(Dotted(n).get, b);
  }

  /**
   What a reproduction does not re-prove: for any envelope that observes all it reads and allows nothing unclassified, a fresh
   uncategorized key changes no clause and no frozen value, yet no such state can be satisfied.
   */
  lemma ReproductionMissesUnclassifiedChange(e: Envelope, pre: Facts, p: Facts, categories: map<string, string>, k: string, v: Value)
    requires FullyObserved(e)
    requires k !in pre && k !in p && k !in categories
    requires UNCLASSIFIED !in e.allow && !IsPredicted(k, PredictedKeys(e)) && k !in NormalizedKeys(e)
    ensures SameFrozen(e, p, p[k := v])
    ensures forall c :: HasClause(e, c) ==> ClauseOutcome(e, pre, p, c) == ClauseOutcome(e, pre, p[k := v], c)
    ensures Verdict(e, pre, p[k := v], categories) != Some(StSatisfied)
  {
    SameFrozenMeansAgreement(e, p, p[k := v]);
    assert Differs(pre, p[k := v], k) && !Covered(e, categories, k);
    CoveredMeans(e, categories, k);
    hide ClauseOutcome, SameFrozen, Differs, Covered, AccountedFor, FullyObserved, NormalizedKeys, Verdict;
    SatisfiedExactly(e, pre, p[k := v], categories);
    forall c | HasClause(e, c) ensures ClauseOutcome(e, pre, p, c) == ClauseOutcome(e, pre, p[k := v], c) {
      FrozenStateDecidesClauses(e, pre, p, p[k := v], c);
    }
  }
}
