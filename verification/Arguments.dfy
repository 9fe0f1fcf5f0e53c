/** Binding capability arguments into an envelope's predicates as literals. */
module Arguments {
  import opened Options
  import opened Values
  import opened Predicates
  import opened Envelopes
  import opened EvaluationPaths
  import L = Literals

  predicate ArgKey(k: string) {
    k != "" && forall i :: 0 <= i < |k| ==>
      'A' <= k[i] <= 'Z' || 'a' <= k[i] <= 'z' || '0' <= k[i] <= '9' || k[i] == '_' || k[i] == '.'
  }

  /** An argument's name is ASCII letters, digits, underscores and dots. */
  lemma ArgKeyMeans(k: string)
    ensures ArgKey(k) <==> k != "" && forall i :: 0 <= i < |k| ==>
      var n := k[i] as int;
      48 <= n <= 57 || 65 <= n <= 90 || 97 <= n <= 122 || n == 95 || n == 46
  {
  }

  /** `args['k']` */
  predicate IsArgRef(n: Node) {
    n.Sub? && n.base == Name("args") && StringKey(n.key) && ArgKey(n.key.value.s)
  }

  /** `args` occurs only in references of that form, and none of them is subscripted further. */
  predicate ArgsBound(n: Node)
    requires InSubset(n)
    decreases n, 1
  {
    match n
    case Name(id) => id != "args"
    case Sub(base, _) => IsArgRef(n) || (base != Name("args") && !IsArgRef(base) && (base.Sub? ==> ArgsBound(base)))
    case Unary(_, x) => ArgsBound(x)
    case Bin(_, l, r) => ArgsBound(l) && ArgsBound(r)
    case BoolOp(_, vs) => AllArgsBound(vs)
    case Cmp(first, _, rights) => ArgsBound(first) && AllArgsBound(rights)
    case Display(_, es) => AllArgsBound(es)
    case _ => true
  }

  predicate AllArgsBound(ns: seq<Node>)
    requires AllInSubset(ns)
    decreases ns, 0
  {
    ns == [] || (ArgsBound(ns[0]) && AllArgsBound(ns[1..]))
  }

  /** The arguments a predicate refers to. */
  function ArgRefs(n: Node): set<string>
    requires InSubset(n)
    decreases n, 1
  {
    match n
    case Sub(base, key) => if IsArgRef(n) then {key.value.s} else ArgRefs(base)
    case Unary(_, x) => ArgRefs(x)
    case Bin(_, l, r) => ArgRefs(l) + ArgRefs(r)
    case BoolOp(_, vs) => AllArgRefs(vs)
    case Cmp(first, _, rights) => ArgRefs(first) + AllArgRefs(rights)
    case Display(_, es) => AllArgRefs(es)
    case _ => {}
  }

  function AllArgRefs(ns: seq<Node>): set<string>
    requires AllInSubset(ns)
    decreases ns, 0
  {
    if ns == [] then {} else ArgRefs(ns[0]) + AllArgRefs(ns[1..])
  }

  /** Of these arguments, the ones there are keep their value through JSON and Python's parser. */
  predicate Carries(keys: set<string>, flat: Facts) {
    forall k :: k in keys && k in flat ==> L.Carried(flat[k])
  }

  /** Flat arguments are the scalars of the nested ones. */
  predicate AllScalar(flat: Facts) {
    forall k :: k in flat ==> Scalar(flat[k])
  }

  /** Replace every reference by the operand its JSON text reads as; `None` for a missing argument. */
  function Bind(n: Node, flat: Facts): Option<Node>
    requires InSubset(n) && ArgsBound(n)
    requires Carries(ArgRefs(n), flat)
    decreases n, 1
  {
    match n
    case Sub(base, key) =>
      if IsArgRef(n) then
        if key.value.s !in flat then None
        else
          var v := flat[key.value.s];
          assert L.Carried(v);
          L.ReadOperand(L.JsonText(v))
      else if base.Sub? then
        var m := Bind(base, flat);
        if m.None? then None else Some(Sub(m.get, key))
      else Some(n)
    case Unary(op, x) =>
      var m := Bind(x, flat);
      if m.None? then None else Some(Unary(op, m.get))
    case Bin(op, l, r) =>
      var l', r' := Bind(l, flat), Bind(r, flat);
      if l'.None? || r'.None? then None else Some(Bin(op, l'.get, r'.get))
    case BoolOp(isAnd, vs) =>
      var ms := BindAll(vs, flat);
      if ms.None? then None else Some(BoolOp(isAnd, ms.get))
    case Cmp(first, ops, rights) =>
      var m, ms := Bind(first, flat), BindAll(rights, flat);
      if m.None? || ms.None? then None else Some(Cmp(m.get, ops, ms.get))
    case Display(isTuple, es) =>
      var ms := BindAll(es, flat);
      if ms.None? then None else Some(Display(isTuple, ms.get))
    case _ => Some(n)
  }

  function BindAll(ns: seq<Node>, flat: Facts): Option<seq<Node>>
    requires AllInSubset(ns) && AllArgsBound(ns)
    requires Carries(AllArgRefs(ns), flat)
    decreases ns, 0
  {
    if ns == [] then Some([])
    else
      var m, ms := Bind(ns[0], flat), BindAll(ns[1..], flat);
      if m.None? || ms.None? then None else Some([m.get] + ms.get)
  }

  // ----- bound predicates stay inside the validator's bounds -----

  /** A tree is no deeper than it is large. */
  lemma {:induction false} WithinSize(n: Node, d: int)
    requires Size(n) <= d
    ensures Within(n, d)
    decreases n, 1
  {
    match n
    case Attr(base, _) => WithinSize(base, d - 1);
    case Sub(base, _) => WithinSize(base, d - 1);
    case BoolOp(_, vs) => AllWithinSize(vs, d - 1);
    case Unary(_, x) => WithinSize(x, d - 1);
    case Bin(_, l, r) =>
      WithinSize(l, d - 1);
      WithinSize(r, d - 1);
    case Cmp(first, _, rights) =>
      WithinSize(first, d - 1);
      AllWithinSize(rights, d - 1);
    case Display(_, es) => AllWithinSize(es, d - 1);
    case _ =>
  }

  lemma {:induction false} AllWithinSize(ns: seq<Node>, d: int)
    requires SizeAll(ns) <= d
    ensures AllWithin(ns, d)
    decreases ns, 0
  {
    if ns != [] {
      WithinSize(ns[0], d);
      AllWithinSize(ns[1..], d);
    }
  }

  /** Binding keeps a predicate in the subset, no deeper and no larger than it was. */
  lemma {:induction false} BindKeepsBounds(n: Node, flat: Facts, d: int)
    requires InSubset(n) && ArgsBound(n) && Within(n, d)
    requires Carries(ArgRefs(n), flat)
    requires Bind(n, flat).Some?
    ensures var m := Bind(n, flat).get; InSubset(m) && Within(m, d) && Size(m) <= Size(n)
    ensures n.Sub? && !IsArgRef(n) ==> Bind(n, flat).get.Sub?
    decreases n, 1
  {
    match n
    case Sub(base, key) =>
      if IsArgRef(n) {
        L.OperandRead(flat[key.value.s]);
        assert Size(n) == 3;
      } else if base.Sub? {
        BindKeepsBounds(base, flat, d - 1);
      }
    case Unary(_, x) => BindKeepsBounds(x, flat, d - 1);
    case Bin(_, l, r) =>
      BindKeepsBounds(l, flat, d - 1);
      BindKeepsBounds(r, flat, d - 1);
    case BoolOp(_, vs) => BindAllKeepsBounds(vs, flat, d - 1);
    case Cmp(first, _, rights) =>
      BindKeepsBounds(first, flat, d - 1);
      BindAllKeepsBounds(rights, flat, d - 1);
    case Display(_, es) => BindAllKeepsBounds(es, flat, d - 1);
    case _ =>
  }

  lemma {:induction false} BindAllKeepsBounds(ns: seq<Node>, flat: Facts, d: int)
    requires AllInSubset(ns) && AllArgsBound(ns) && AllWithin(ns, d)
    requires Carries(AllArgRefs(ns), flat)
    requires BindAll(ns, flat).Some?
    ensures var ms := BindAll(ns, flat).get; |ms| == |ns| && AllInSubset(ms) && AllWithin(ms, d) && SizeAll(ms) <= SizeAll(ns)
    decreases ns, 0
  {
    if ns != [] {
      BindKeepsBounds(ns[0], flat, d);
      BindAllKeepsBounds(ns[1..], flat, d);
      var ms := BindAll(ns, flat).get;
      assert ms[1..] == BindAll(ns[1..], flat).get;
    }
  }

  lemma BindStaysInSubset(n: Node, flat: Facts)
    requires InSubset(n) && ArgsBound(n)
    requires Carries(ArgRefs(n), flat) && Bind(n, flat).Some?
    ensures InSubset(Bind(n, flat).get)
  {
    WithinSize(n, Size(n));
    BindKeepsBounds(n, flat, Size(n));
  }

  // ----- the text that is compiled -----

  /** A stretch of a predicate's text: a match of the reference pattern, or what lies between matches. */
  datatype Piece = Between(text: string) | Ref(quote: char, key: string)

  function PieceText(p: Piece): string {
    match p
    case Between(text) => text
    case Ref(quote, key) => "args[" + [quote] + key + [quote] + "]"
  }

  function Written(ps: seq<Piece>): string {
    if ps == [] then "" else PieceText(ps[0]) + Written(ps[1..])
  }

  /** The text with every match replaced by its argument's JSON text; `None` for a missing argument. */
  function Substituted(ps: seq<Piece>, flat: Facts): Option<string>
    requires AllScalar(flat)
  {
    if ps == [] then Some("")
    else
      var rest := Substituted(ps[1..], flat);
      match ps[0]
      case Between(text) => if rest.None? then None else Some(text + rest.get)
      case Ref(_, key) =>
        if key !in flat || rest.None? then None
        else assert Scalar(flat[key]); Some(L.JsonText(flat[key]) + rest.get)
  }

  /** The references of the text are those of the tree it parses as. */
  ghost predicate Spells(ps: seq<Piece>, n: Node)
    requires InSubset(n)
  {
    forall k :: k in ArgRefs(n) <==> exists i :: 0 <= i < |ps| && ps[i].Ref? && ps[i].key == k
  }

  /** How much longer the text gets: each reference gives up its key and eight characters for the JSON text. */
  function Growth(ps: seq<Piece>, flat: Facts): int
    requires AllScalar(flat)
  {
    if ps == [] then 0
    else
      (if ps[0].Ref? && ps[0].key in flat then
         assert Scalar(flat[ps[0].key]); |L.JsonText(flat[ps[0].key])| - |ps[0].key| - 8
       else 0) + Growth(ps[1..], flat)
  }

  lemma {:induction false} SubstitutedLength(ps: seq<Piece>, flat: Facts)
    requires AllScalar(flat)
    requires Substituted(ps, flat).Some?
    ensures |Substituted(ps, flat).get| == |Written(ps)| + Growth(ps, flat)
  {
    hide L.JsonText;
    if ps != [] {
      SubstitutedLength(ps[1..], flat);
    }
  }

  lemma {:induction false} SubstitutedExactly(ps: seq<Piece>, flat: Facts)
    requires AllScalar(flat)
    ensures Substituted(ps, flat).Some? <==> forall i :: 0 <= i < |ps| && ps[i].Ref? ==> ps[i].key in flat
  {
    hide L.JsonText;
    if ps != [] {
      SubstitutedExactly(ps[1..], flat);
      assert forall i :: 1 <= i < |ps| ==> ps[i] == ps[1..][i - 1];
    }
  }

  /** The text and the tree are refused together when an argument is missing. */
  lemma {:induction false} TextAndTreeRefuse(ps: seq<Piece>, n: Node, flat: Facts)
    requires InSubset(n) && ArgsBound(n) && Spells(ps, n)
    requires AllScalar(flat) && Carries(ArgRefs(n), flat)
    ensures Substituted(ps, flat).Some? <==> Bind(n, flat).Some?
  {
    hide Bind, ArgRefs;
    SubstitutedExactly(ps, flat);
    BindRefusesMissing(n, flat);
    if Bind(n, flat).Some? {
      forall i | 0 <= i < |ps| && ps[i].Ref? ensures ps[i].key in flat {
        assert ps[i].key in ArgRefs(n);
      }
    }
  }

  lemma CompilesExactly(length: nat, n: Node)
    requires InSubset(n)
    ensures Compiles(length, n) <==> length <= 1024 && Within(n, 16) && Size(n) <= 128
  {
    ValidateExact(n, 0);
    hide Validate, Within, Size;
  }

  /**
   A predicate that compiles still compiles once its arguments are bound exactly when its text has not outgrown the length
   bound; the tree never gets in the way.
   */
  lemma BoundCompilesExactly(ps: seq<Piece>, n: Node, flat: Facts)
    requires InSubset(n) && ArgsBound(n) && Spells(ps, n) && Compiles(|Written(ps)|, n)
    requires AllScalar(flat) && Carries(ArgRefs(n), flat)
    requires Bind(n, flat).Some?
    ensures Substituted(ps, flat).Some?
    ensures Compiles(|Substituted(ps, flat).get|, Bind(n, flat).get) <==> |Written(ps)| + Growth(ps, flat) <= 1024
  {
    hide Validate, Within, Size, Bind, Spells, Compiles;
    TextAndTreeRefuse(ps, n, flat);
    SubstitutedLength(ps, flat);
    CompilesExactly(|Written(ps)|, n);
    BindKeepsBounds(n, flat, 16);
    CompilesExactly(|Substituted(ps, flat).get|, Bind(n, flat).get);
  }

  lemma {:induction false} EscapesAreNoShorter(s: string)
    ensures |L.EscapeAll(s)| >= |s|
  {
    hide L.Escape;
    if s != "" {
      EscapesAreNoShorter(s[1..]);
    }
  }

  lemma {:induction false} ArgumentWithin(ps: seq<Piece>, flat: Facts, i: nat)
    requires i < |ps| && ps[i].Ref? && ps[i].key in flat
    requires AllScalar(flat)
    requires Substituted(ps, flat).Some?
    ensures |Substituted(ps, flat).get| >= |L.JsonText(flat[ps[i].key])|
  {
    hide L.JsonText;
    if i > 0 {
      assert ps[i] == ps[1..][i - 1];
      ArgumentWithin(ps[1..], flat, i - 1);
    }
  }

  /** A string argument of more than 1024 characters makes every predicate that refers to it too long. */
  lemma LongArgumentIsRefused(ps: seq<Piece>, m: Node, flat: Facts, i: nat)
    requires i < |ps| && ps[i].Ref? && ps[i].key in flat
    requires AllScalar(flat)
    requires Substituted(ps, flat).Some? && flat[ps[i].key].VStr? && |flat[ps[i].key].s| > 1024
    ensures !Compiles(|Substituted(ps, flat).get|, m)
  {
    hide Substituted, Validate;
    ArgumentWithin(ps, flat, i);
    EscapesAreNoShorter(flat[ps[i].key].s);
  }

  /** `post.d == args['d']` compiles as written, and with no argument of that length bound into it. */
  lemma CompilesUntilBound(s: string)
    requires L.Basic(s) && |s| > 1024
    ensures
      var ps := [Between("post.d == "), Ref('\'', "d")];
      var n := Cmp(Attr(Name("post"), "d"), [Eq], [Sub(Name("args"), Const(VStr("d")))]);
      && Written(ps) == "post.d == args['d']" && Compiles(|Written(ps)|, n)
      && Substituted(ps, map["d" := VStr(s)]).Some?
      && forall m :: !Compiles(|Substituted(ps, map["d" := VStr(s)]).get|, m)
  {
    var ps := [Between("post.d == "), Ref('\'', "d")];
    var flat := map["d" := VStr(s)];
    var right := Sub(Name("args"), Const(VStr("d")));
    var n := Cmp(Attr(Name("post"), "d"), [Eq], [right]);
    assert ps[1..] == [ps[1]] && ps[1..][1..] == [];
    assert Written([ps[1]]) == PieceText(ps[1]) + Written([]);
    assert PieceText(ps[1]) == "args['d']";
    assert Written(ps) == "post.d == " + Written(ps[1..]);
    hide L.JsonText, Compiles;
    SubstitutedExactly(ps, flat);
    ComparisonCompiles(n, right);
    forall m ensures !Compiles(|Substituted(ps, flat).get|, m) {
      LongArgumentIsRefused(ps, m, flat, 1);
    }
  }

  lemma ComparisonCompiles(n: Node, right: Node)
    requires n == Cmp(Attr(Name("post"), "d"), [Eq], [right]) && right == Sub(Name("args"), Const(VStr("d")))
    ensures Compiles(19, n)
  {
    assert [right][1..] == [];
    assert Validate(right, 1) == Some(3);
    assert Validate(Name("post"), 2) == Some(1);
    assert ValidateAll([right], 1) == Some(3);
  }

  /** `not not ... x`, n times. */
  function Negations(n: nat, x: Node): Node {
    if n == 0 then x else Unary(Not, Negations(n - 1, x))
  }

  lemma {:induction false} NegationsBind(n: nat, x: Node, flat: Facts)
    requires InSubset(x) && ArgsBound(x)
    requires Carries(ArgRefs(x), flat)
    requires Bind(x, flat).Some?
    ensures InSubset(Negations(n, x)) && ArgsBound(Negations(n, x)) && ArgRefs(Negations(n, x)) == ArgRefs(x)
    ensures Bind(Negations(n, x), flat) == Some(Negations(n, Bind(x, flat).get))
  {
    if n > 0 {
      NegationsBind(n - 1, x, flat);
      hide Bind;
      NegationBinds(Negations(n - 1, x), flat);
    }
  }

  lemma NegationBinds(x: Node, flat: Facts)
    requires InSubset(x) && ArgsBound(x)
    requires Carries(ArgRefs(x), flat)
    ensures Bind(Unary(Not, x), flat) == if Bind(x, flat).Some? then Some(Unary(Not, Bind(x, flat).get)) else None
  {
  }

  lemma {:induction false} NegationsWithin(n: nat, x: Node, d: int)
    ensures n <= d ==> (Within(Negations(n, x), d) <==> Within(x, d - n))
    ensures Size(Negations(n, x)) == n + Size(x)
  {
    if n > 0 {
      NegationsWithin(n - 1, x, d - 1);
    }
  }

  /** The other way round it fails: a reference at the nesting bound is refused, and accepted once bound. */
  lemma {:induction false} DeepReferenceCompilesOnlyBound(k: string, v: int, length: nat)
    requires ArgKey(k) && v >= 0 && length <= 1024
    ensures
      var n, flat := Negations(16, Sub(Name("args"), Const(VStr(k)))), map[k := VInt(v)];
      InSubset(n) && ArgsBound(n) && Bind(n, flat).Some? && !Compiles(length, n) && Compiles(length, Bind(n, flat).get)
  {
    var x, flat := Sub(Name("args"), Const(VStr(k))), map[k := VInt(v)];
    L.OperandRead(VInt(v));
    assert Bind(x, flat) == Some(Const(VInt(v)));
    NegationsBind(16, x, flat);
    NegationsWithin(16, x, 16);
    NegationsWithin(16, Const(VInt(v)), 16);
    assert !Within(x, 0) && Within(Const(VInt(v)), 0);
    var n := Negations(16, x);
    hide Bind, Within, Size, Compiles, Negations;
    BindStaysInSubset(n, flat);
    CompilesExactly(length, n);
    CompilesExactly(length, Bind(n, flat).get);
    assert Size(Const(VInt(v))) == 1 by { OneNode(VInt(v)); }
  }

  lemma OneNode(v: Value)
    ensures Size(Const(v)) == 1
  {
  }

  // ----- binding preserves meaning -----

  /** JSON writes these as words that Python reads as names, which nothing binds. */
  predicate Lost(v: Value) {
    v.VBool? || v.VNone?
  }

  predicate IsLostRef(n: Node, flat: Facts) {
    IsArgRef(n) && n.key.value.s in flat && Lost(flat[n.key.value.s])
  }

  predicate AnyLost(ns: set<Node>, flat: Facts) {
    exists n :: n in ns && IsLostRef(n, flat)
  }

  lemma AnyLostOfBoth(xs: set<Node>, ys: set<Node>, flat: Facts)
    ensures AnyLost(xs + ys, flat) <==> AnyLost(xs, flat) || AnyLost(ys, flat)
  {
    hide IsLostRef;
  }

  lemma AnyLostOfOne(n: Node, flat: Facts)
    ensures AnyLost({n}, flat) <==> IsLostRef(n, flat)
    ensures !AnyLost({}, flat)
  {
    assert n in {n};
  }

  predicate FreeOfLiteralNames(b: Facts) {
    "args" !in b && "true" !in b && "false" !in b && "null" !in b
  }

  /** The bindings in which the unbound predicate is read: every argument as it is. */
  function WithArgs(b: Facts, flat: Facts): Facts {
    b["args" := VMap(flat)]
  }

  /** A bound predicate ends as the original does with its arguments, unless that reads a boolean or null argument. */
  predicate BoundAs(bound: Result<Value>, lost: bool, original: Result<Value>) {
    bound == if lost then Err(Unresolved) else original
  }

  lemma RefMeaning(n: Node, flat: Facts, b: Facts)
    requires InSubset(n) && IsArgRef(n) && n.key.value.s in flat && L.Carried(flat[n.key.value.s])
    requires FreeOfLiteralNames(b)
    ensures
      var v := flat[n.key.value.s];
      InSubset(L.Operand(v)) && BoundAs(Eval(L.Operand(v), b), Lost(v), Eval(n, WithArgs(b, flat)))
    ensures AnyLost(Visited(n, WithArgs(b, flat)), flat) <==> Lost(flat[n.key.value.s])
  {
    var k := n.key.value.s;
    var v := flat[k];
    var args := WithArgs(b, flat);
    assert Eval(Name("args"), args) == Ok(VMap(flat));
    assert Eval(n, args) == Index(VMap(flat), k);
    assert Visited(Name("args"), args) == {Name("args")};
    AnyLostOfOne(n, flat);
    AnyLostOfOne(Name("args"), flat);
    AnyLostOfBoth({n}, {Name("args")}, flat);
    if v.VInt? && v.n < 0 {
      assert Eval(Const(VInt(-v.n)), b) == Ok(VInt(-v.n));
    }
  }

  /**
   Evaluating a bound predicate equals evaluating the original with `args` bound to the arguments, exactly as long as
   that evaluation comes to no boolean or null argument; once it does, the bound predicate is unresolved.
   */
  lemma {:induction false} BindPreservesMeaning(n: Node, flat: Facts, b: Facts)
    requires InSubset(n) && ArgsBound(n)
    requires Carries(ArgRefs(n), flat)
    requires FreeOfLiteralNames(b) && Bind(n, flat).Some? && InSubset(Bind(n, flat).get)
    ensures BoundAs(Eval(Bind(n, flat).get, b), AnyLost(Visited(n, WithArgs(b, flat)), flat), Eval(n, WithArgs(b, flat)))
    decreases n, 1
  {
    hide AnyLost, Arith, L.ReadOperand, L.JsonText, L.Operand;
    var m, args := Bind(n, flat).get, WithArgs(b, flat);
    AnyLostOfOne(n, flat);
    match n
    case Const(_) => AnyLostOfBoth({n}, {}, flat);
    case Name(_) => AnyLostOfBoth({n}, {}, flat);
    case Attr(base, attr) =>
      AttrIsNotArgs(n);
      AnyLostOfBoth({n}, {}, flat);
    case Sub(base, key) =>
      if IsArgRef(n) {
        L.OperandRead(flat[key.value.s]);
        RefMeaning(n, flat, b);
      } else {
        SubMeaning(n, flat, b);
      }
    case Unary(_, x) =>
      BindPreservesMeaning(x, flat, b);
      AnyLostOfBoth({n}, Visited(x, args), flat);
    case Bin(_, l, r) =>
      BindPreservesMeaning(l, flat, b);
      BindPreservesMeaning(r, flat, b);
      var right := if Eval(l, args).Ok? then Visited(r, args) else {};
      AnyLostOfBoth(Visited(l, args), right, flat);
      AnyLostOfBoth({n}, Visited(l, args) + right, flat);
    case BoolOp(isAnd, vs) =>
      BindUntil(vs, flat, b, !isAnd);
      AnyLostOfBoth({n}, VisitedUntil(vs, args, !isAnd), flat);
    case Cmp(first, ops, rights) =>
      BindPreservesMeaning(first, flat, b);
      var links := if Eval(first, args).Ok? then VisitedLinks(Eval(first, args).value, ops, rights, args) else {};
      if Eval(first, args).Ok? {
        BindLinks(Eval(first, args).value, ops, rights, flat, b);
      }
      AnyLostOfBoth(Visited(first, args), links, flat);
      AnyLostOfBoth({n}, Visited(first, args) + links, flat);
    case Display(_, es) =>
      BindEvalAll(es, flat, b);
      AnyLostOfBoth({n}, VisitedAll(es, args), flat);
  }

  lemma AttrIsNotArgs(n: Node)
    requires n.Attr? && InSubset(n)
    ensures Dotted(n).Some? && Dotted(n).get != "args"
  {
    DottedInSubset(n);
    DottedInSubset(n.base);
    assert Dotted(n).get[|Dotted(n.base).get|] == '.';
    assert forall i :: 0 <= i < 4 ==> "args"[i] != '.';
  }

  lemma {:induction false} SubMeaning(n: Node, flat: Facts, b: Facts)
    requires InSubset(n) && ArgsBound(n) && n.Sub? && !IsArgRef(n)
    requires Carries(ArgRefs(n), flat)
    requires FreeOfLiteralNames(b) && Bind(n, flat).Some? && InSubset(Bind(n, flat).get)
    ensures BoundAs(Eval(Bind(n, flat).get, b), AnyLost(Visited(n, WithArgs(b, flat)), flat), Eval(n, WithArgs(b, flat)))
    decreases n, 0
  {
    hide AnyLost, L.ReadOperand, L.JsonText;
    var args := WithArgs(b, flat);
    AnyLostOfOne(n, flat);
    AnyLostOfOne(n.base, flat);
    AnyLostOfBoth({n}, Visited(n.base, args), flat);
    if n.base.Sub? {
      BindPreservesMeaning(n.base, flat, b);
    } else {
      if n.base.Attr? { AttrIsNotArgs(n.base); }
      AnyLostOfBoth({n.base}, {}, flat);
      assert Eval(n.base, b) == Eval(n.base, args);
    }
  }

  lemma {:induction false} BindUntil(ns: seq<Node>, flat: Facts, b: Facts, stop: bool)
    requires AllInSubset(ns) && AllArgsBound(ns)
    requires Carries(AllArgRefs(ns), flat)
    requires FreeOfLiteralNames(b) && BindAll(ns, flat).Some? && AllInSubset(BindAll(ns, flat).get)
    ensures EvalUntil(BindAll(ns, flat).get, b, stop) ==
      if AnyLost(VisitedUntil(ns, WithArgs(b, flat), stop), flat) then Err(Unresolved) else EvalUntil(ns, WithArgs(b, flat), stop)
    decreases ns, 0
  {
    hide AnyLost, Truthy;
    var args := WithArgs(b, flat);
    AnyLostOfOne(Const(VNone), flat);
    if ns != [] {
      var ms := BindAll(ns, flat).get;
      assert ms[1..] == BindAll(ns[1..], flat).get;
      BindPreservesMeaning(ns[0], flat, b);
      BindUntil(ns[1..], flat, b, stop);
      hide Eval, Visited, Bind, BindAll, WithArgs;
      var rest := if Eval(ns[0], args).Ok? && Truthy(Eval(ns[0], args).value) != stop then VisitedUntil(ns[1..], args, stop) else {};
      AnyLostOfBoth(Visited(ns[0], args), rest, flat);
    }
  }

  lemma {:induction false} BindLinks(left: Value, ops: seq<CmpOp>, ns: seq<Node>, flat: Facts, b: Facts)
    requires AllInSubset(ns) && AllArgsBound(ns)
    requires Carries(AllArgRefs(ns), flat)
    requires FreeOfLiteralNames(b) && BindAll(ns, flat).Some? && AllInSubset(BindAll(ns, flat).get)
    ensures EvalLinks(left, ops, BindAll(ns, flat).get, b) ==
      if AnyLost(VisitedLinks(left, ops, ns, WithArgs(b, flat)), flat) then Err(Unresolved) else EvalLinks(left, ops, ns, WithArgs(b, flat))
    decreases ns, 0
  {
    hide AnyLost, Compare;
    var args := WithArgs(b, flat);
    AnyLostOfOne(Const(VNone), flat);
    if ns != [] && ops != [] {
      var ms := BindAll(ns, flat).get;
      assert ms[1..] == BindAll(ns[1..], flat).get;
      BindPreservesMeaning(ns[0], flat, b);
      var right := Eval(ns[0], args);
      if right.Ok? {
        BindLinks(right.value, ops[1..], ns[1..], flat, b);
      }
      hide Eval, Visited, Bind, BindAll, WithArgs;
      var rest :=
        if right.Ok? && Compare(ops[0], left, right.value) == Ok(true) then VisitedLinks(right.value, ops[1..], ns[1..], args) else {};
      AnyLostOfBoth(Visited(ns[0], args), rest, flat);
    }
  }

  lemma {:induction false} BindEvalAll(ns: seq<Node>, flat: Facts, b: Facts)
    requires AllInSubset(ns) && AllArgsBound(ns)
    requires Carries(AllArgRefs(ns), flat)
    requires FreeOfLiteralNames(b) && BindAll(ns, flat).Some? && AllInSubset(BindAll(ns, flat).get)
    ensures EvalAll(BindAll(ns, flat).get, b) ==
      if AnyLost(VisitedAll(ns, WithArgs(b, flat)), flat) then Err(Unresolved) else EvalAll(ns, WithArgs(b, flat))
    decreases ns, 0
  {
    hide AnyLost;
    var args := WithArgs(b, flat);
    AnyLostOfOne(Const(VNone), flat);
    if ns != [] {
      var ms := BindAll(ns, flat).get;
      assert ms[1..] == BindAll(ns[1..], flat).get;
      BindPreservesMeaning(ns[0], flat, b);
      BindEvalAll(ns[1..], flat, b);
      hide Eval, Visited, Bind, BindAll, WithArgs;
      AnyLostOfBoth(Visited(ns[0], args), if Eval(ns[0], args).Ok? then VisitedAll(ns[1..], args) else {}, flat);
    }
  }

  /** The bindings of a clause leave the names of JSON's literals, and `args`, unbound. */
  lemma {:induction false} ClauseBindingsAreFree(pre: Facts, post: Facts, key: string, scope: Value)
    ensures FreeOfLiteralNames(Bindings(pre, post))
    ensures FreeOfLiteralNames(ScopeBindings(Bindings(pre, post), key, scope))
  {
    BindingsAt(pre, post, "args");
    BindingsAt(pre, post, "true");
    BindingsAt(pre, post, "false");
    BindingsAt(pre, post, "null");
    hide Bindings;
    assert "args"[0] != 'p' && "args"[0] != 'f' && "true"[0] != 'p' && "true"[0] != 'f' && "null"[0] != 'p' && "null"[0] != 'f';
    assert POST[0] == PRE[0] == 'p' && "false"[0] == "facts"[0] == 'f' && "false"[2] != "facts"[2];
    assert "scope"[0] == "scope_key"[0] == 's';
    assert "args"[0] != 's' && "true"[0] != 's' && "null"[0] != 's' && "false"[0] != 's';
  }

  /**
   A clause over bound arguments is unresolved whenever its evaluation comes to a boolean or null argument, never satisfied
   or violated; otherwise it has the outcome of the clause as written.
   */
  lemma {:induction false} BoundClauseOutcome(n: Node, flat: Facts, b: Facts)
    requires InSubset(n) && ArgsBound(n)
    requires Carries(ArgRefs(n), flat)
    requires FreeOfLiteralNames(b) && Bind(n, flat).Some?
    ensures InSubset(Bind(n, flat).get)
    ensures Holds(Bind(n, flat).get, b) == if AnyLost(Visited(n, WithArgs(b, flat)), flat) then Unclear else Holds(n, WithArgs(b, flat))
  {
    BindStaysInSubset(n, flat);
    BindPreservesMeaning(n, flat, b);
    hide Eval, Visited, Bind, AnyLost;
  }

  // ----- whole envelopes -----

  /** `o` is `e` with the arguments bound into its predicates. */
  predicate BoundFrom(e: Envelope, flat: Facts, o: Envelope) {
    && |o.require| == |e.require| && |o.derive| == |e.derive| && |o.forbid| == |e.forbid|
    && o.allow == e.allow && o.convergence == e.convergence
    && (forall i :: 0 <= i < |e.require| ==> BoundTo(e.require[i].test, flat, o.require[i].test) && o.require[i].factKey == e.require[i].factKey)
    && (forall i :: 0 <= i < |e.derive| ==> BoundTo(e.derive[i], flat, o.derive[i]))
    && (forall i :: 0 <= i < |e.forbid| ==> BoundTo(e.forbid[i].test, flat, o.forbid[i].test) && o.forbid[i].scopeKey == e.forbid[i].scopeKey)
  }

  predicate BoundTo(n: Predicate, flat: Facts, m: Predicate) {
    ArgsBound(n) && Carries(ArgRefs(n), flat) && Bind(n, flat) == Some(m)
  }

  /** The bindings a clause as written is read in: those of the clause, and the arguments. */
  function WrittenBindings(e: Envelope, flat: Facts, pre: Facts, post: Facts, c: Clause): Facts
    requires HasClause(e, c) && Evaluated(e, post, c)
  {
    WithArgs(ClauseBindings(e, pre, post, c), flat)
  }

  /**
   Over every pre and post state, a clause of a bound envelope is unresolved if its evaluation comes to a boolean or null
   argument, and otherwise has the outcome of the clause as written; a forbid clause without its scope is violated in both.
   */
  lemma {:induction false} BoundEnvelopeOutcome(e: Envelope, flat: Facts, o: Envelope, pre: Facts, post: Facts, c: Clause)
    requires BoundFrom(e, flat, o) && HasClause(e, c)
    ensures HasClause(o, c) && (Evaluated(o, post, c) <==> Evaluated(e, post, c))
    ensures ClauseOutcome(o, pre, post, c) ==
      if !Evaluated(e, post, c) then Violated
      else if AnyLost(Visited(TestOf(e, c), WrittenBindings(e, flat, pre, post, c)), flat) then Unclear
      else Holds(TestOf(e, c), WrittenBindings(e, flat, pre, post, c))
  {
    hide Bind, Bindings, Visited, AnyLost, Holds, ClauseOutcome, ArgRefs, ArgsBound, FreeOfLiteralNames, ScopeBindings;
    OutcomeIsHolds(o, pre, post, c);
    if Evaluated(e, post, c) {
      var key, scope := if c.Forbid? then e.forbid[c.i].scopeKey else "", if c.Forbid? then post[e.forbid[c.i].scopeKey] else VNone;
      ClauseBindingsAreFree(pre, post, key, scope);
      assert BoundTo(TestOf(e, c), flat, TestOf(o, c));
      BoundClauseOutcome(TestOf(e, c), flat, ClauseBindings(e, pre, post, c));
    }
  }

  /** So a clause that is such a reference and nothing else is always unresolved. */
  lemma {:induction false} BareReferenceOutcome(n: Node, flat: Facts, b: Facts)
    requires InSubset(n) && IsLostRef(n, flat)
    requires Carries(ArgRefs(n), flat)
    requires FreeOfLiteralNames(b)
    ensures Bind(n, flat).Some? && InSubset(Bind(n, flat).get) && Holds(Bind(n, flat).get, b) == Unclear
  {
    L.OperandRead(flat[n.key.value.s]);
    BoundClauseOutcome(n, flat, b);
    RefMeaning(n, flat, b);
    hide Eval, Visited, AnyLost, Holds;
  }

  // ----- missing arguments -----

  /** Binding refuses exactly when some referenced argument is missing. */
  lemma {:induction false} BindRefusesMissing(n: Node, flat: Facts)
    requires InSubset(n) && ArgsBound(n)
    requires Carries(ArgRefs(n), flat)
    ensures Bind(n, flat).Some? <==> ArgRefs(n) <= flat.Keys
    decreases n, 1
  {
    match n
    case Sub(base, key) =>
      if IsArgRef(n) {
        if key.value.s in flat { L.OperandRead(flat[key.value.s]); }
      } else if base.Sub? {
        BindRefusesMissing(base, flat);
      }
    case Unary(_, x) => BindRefusesMissing(x, flat);
    case Bin(_, l, r) =>
      BindRefusesMissing(l, flat);
      BindRefusesMissing(r, flat);
    case BoolOp(_, vs) => BindAllRefusesMissing(vs, flat);
    case Cmp(first, _, rights) =>
      BindRefusesMissing(first, flat);
      BindAllRefusesMissing(rights, flat);
    case Display(_, es) => BindAllRefusesMissing(es, flat);
    case _ =>
  }

  lemma {:induction false} BindAllRefusesMissing(ns: seq<Node>, flat: Facts)
    requires AllInSubset(ns) && AllArgsBound(ns)
    requires Carries(AllArgRefs(ns), flat)
    ensures BindAll(ns, flat).Some? <==> AllArgRefs(ns) <= flat.Keys
    decreases ns, 0
  {
    if ns != [] {
      BindRefusesMissing(ns[0], flat);
      BindAllRefusesMissing(ns[1..], flat);
    }
  }
}
