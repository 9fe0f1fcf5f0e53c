/** Flattening nested capability arguments into the dotted names that predicates refer to. */
module Flattening {
  import opened Options
  import opened CanonicalJson
  import T = Text
  import L = Literals
  import N = Numerals
  import V = Values
  import P = Predicates
  import A = Arguments

  predicate IsLeaf(v: Json) {
    !v.JObj? && !v.JArr?
  }

  /** What a member's key is appended to. */
  function Stem(prefix: string): string {
    if prefix != "" then prefix + "." else ""
  }

  /** Every scalar in `v` under its dotted name below `prefix`; of equal names the one visited last stays. */
  function Flat(prefix: string, v: Json): map<string, Json>
    decreases v, 1
  {
    match v
    case JObj(members) => FlatMembers(prefix, members)
    case JArr(items) => FlatItems(prefix, items, 0)
    case _ => map[prefix := v]
  }

  function FlatMembers(prefix: string, members: seq<Member>): map<string, Json>
    decreases members, 0
  {
    if members == [] then map[]
    else Flat(Stem(prefix) + members[0].key, members[0].value) + FlatMembers(prefix, members[1..])
  }

  function FlatItems(prefix: string, items: seq<Json>, index: nat): map<string, Json>
    decreases items, 0
  {
    if items == [] then map[]
    else Flat(prefix + "." + N.Decimal(index), items[0]) + FlatItems(prefix, items[1..], index + 1)
  }

  /** The dictionary that the recursion fills in. */
  class Flattener {
    var out: map<string, Json>

    constructor ()
      ensures out == map[]
    {
      out := map[];
    }

    method FlattenArgs(prefix: string, v: Json)
      modifies this
      ensures out == old(out) + Flat(prefix, v)
      decreases v
    {
      ghost var before := out;
      match v
      case JObj(members) =>
        hide FlatMembers, FlatItems, N.Decimal;
        assert members[0..] == members;
        for i := 0 to |members|
          invariant before + FlatMembers(prefix, members) == out + FlatMembers(prefix, members[i..])
        {
          NextMember(prefix, members, i, out);
          FlattenArgs(Stem(prefix) + members[i].key, members[i].value);
        }
        NoMembers(prefix);
      case JArr(items) =>
        hide FlatMembers, FlatItems, N.Decimal;
        assert items[0..] == items;
        for i := 0 to |items|
          invariant before + FlatItems(prefix, items, 0) == out + FlatItems(prefix, items[i..], i)
        {
          NextItem(prefix, items, i, out);
          FlattenArgs(prefix + "." + N.Decimal(i), items[i]);
        }
        NoItems(prefix, |items|);
      case _ =>
        out := out[prefix := v];
    }
  }

  lemma NextMember(prefix: string, members: seq<Member>, i: nat, out: map<string, Json>)
    requires i < |members|
    ensures out + FlatMembers(prefix, members[i..])
      == out + Flat(Stem(prefix) + members[i].key, members[i].value) + FlatMembers(prefix, members[i + 1..])
  {
    hide Flat;
    assert members[i..][1..] == members[i + 1..];
  }

  lemma NextItem(prefix: string, items: seq<Json>, i: nat, out: map<string, Json>)
    requires i < |items|
    ensures out + FlatItems(prefix, items[i..], i)
      == out + Flat(prefix + "." + N.Decimal(i), items[i]) + FlatItems(prefix, items[i + 1..], i + 1)
  {
    hide Flat, N.Decimal;
    assert items[i..][1..] == items[i + 1..];
  }

  lemma NoMembers(prefix: string)
    ensures FlatMembers(prefix, []) == map[]
  {
  }

  lemma NoItems(prefix: string, index: nat)
    ensures FlatItems(prefix, [], index) == map[]
  {
  }

  // ----- what a dotted name means -----

  /** The value reached from `v` by member keys and item numbers. */
  function Walk(v: Json, path: seq<string>): Option<Json>
    decreases |path|
  {
    if path == [] then Some(v)
    else
      var child := Child(v, path[0]);
      if child.None? then None else Walk(child.get, path[1..])
  }

  function Child(v: Json, step: string): Option<Json> {
    match v
    case JObj(members) => MemberAt(members, step)
    case JArr(items) => MemberAt(Numbered(items, 0), step)
    case _ => None
  }

  function MemberAt(members: seq<Member>, key: string): Option<Json> {
    if members == [] then None
    else if members[0].key == key then Some(members[0].value)
    else MemberAt(members[1..], key)
  }

  /** The items of a list as members keyed by their index. */
  function Numbered(items: seq<Json>, index: nat): seq<Member> {
    if items == [] then [] else [Member(N.Decimal(index), items[0])] + Numbered(items[1..], index + 1)
  }

  function LeafAt(v: Json, path: seq<string>): Option<Json> {
    var r := Walk(v, path);
    if r.Some? && IsLeaf(r.get) then r else None
  }

  function Get(m: map<string, Json>, k: string): Option<Json> {
    if k in m then Some(m[k]) else None
  }

  predicate GoodKey(k: string) {
    k != "" && T.Free(k, '.')
  }

  /** Every key is nonempty and without a dot, and no dictionary repeats one. */
  predicate Plain(v: Json)
    decreases v, 1
  {
    match v
    case JObj(members) => AllPlain(members)
    case JArr(items) => ItemsPlain(items)
    case _ => true
  }

  predicate AllPlain(members: seq<Member>) {
    members == []
    || (GoodKey(members[0].key) && Plain(members[0].value) && MemberAt(members[1..], members[0].key).None?
        && AllPlain(members[1..]))
  }

  predicate ItemsPlain(items: seq<Json>) {
    items == [] || (Plain(items[0]) && ItemsPlain(items[1..]))
  }

  // ----- names below a prefix -----

  /** `k` is `prefix` or lies below it. */
  predicate Below(prefix: string, k: string) {
    k == prefix || prefix + "." <= k
  }

  /** The name of what `path` leads to from something named `prefix`. */
  function Named(prefix: string, path: seq<string>): string {
    if path == [] then prefix else prefix + "." + T.Join(path, '.')
  }

  lemma DigitsGood(n: nat)
    ensures GoodKey(N.Decimal(n))
  {
    hide N.Decimal;
    assert forall c :: c in N.Decimal(n) ==> N.IsDigit(c);
  }

  /** What follows the stem begins with the key. */
  lemma FirstPart(stem: string, a: string, k: string)
    requires T.Free(a, '.') && Below(stem + a, k)
    ensures T.Split(k[|stem|..], '.')[0] == a
  {
    var rest := k[|stem|..];
    if k == stem + a {
      assert rest == a;
      T.SplitFree(a, '.');
    } else {
      var tail := k[|stem + a| + 1..];
      assert k == stem + a + "." + tail;
      assert rest == a + "." + tail;
      T.SplitAt(a, '.', tail);
    }
  }

  /** Whatever an entry is named, it is named below the prefix. */
  lemma {:induction false} FlatBelow(prefix: string, v: Json, k: string)
    requires prefix != "" && k in Flat(prefix, v)
    ensures Below(prefix, k)
    decreases v, 1
  {
    match v
    case JObj(members) => MembersBelow(prefix, members, k);
    case JArr(items) => ItemsBelow(prefix, items, 0, k);
    case _ =>
  }

  lemma {:induction false} MembersBelow(prefix: string, members: seq<Member>, k: string)
    requires prefix != "" && k in FlatMembers(prefix, members)
    ensures prefix + "." <= k
    decreases members, 0
  {
    var name := Stem(prefix) + members[0].key;
    if k in Flat(name, members[0].value) {
      FlatBelow(name, members[0].value, k);
    } else {
      MembersBelow(prefix, members[1..], k);
    }
  }

  lemma {:induction false} ItemsBelow(prefix: string, items: seq<Json>, index: nat, k: string)
    requires prefix != "" && k in FlatItems(prefix, items, index)
    ensures prefix + "." <= k
    decreases items, 0
  {
    var name := prefix + "." + N.Decimal(index);
    if k in Flat(name, items[0]) {
      FlatBelow(name, items[0], k);
    } else {
      ItemsBelow(prefix, items[1..], index + 1, k);
    }
  }

  // ----- lists as dictionaries of their indices -----

  lemma {:induction false} ItemsAreMembers(prefix: string, items: seq<Json>, index: nat)
    requires prefix != ""
    ensures FlatItems(prefix, items, index) == FlatMembers(prefix, Numbered(items, index))
  {
    hide N.Decimal;
    if items != [] {
      ItemsAreMembers(prefix, items[1..], index + 1);
      assert Numbered(items, index)[1..] == Numbered(items[1..], index + 1);
    }
  }

  lemma {:induction false} NumberedLater(items: seq<Json>, index: nat, n: nat)
    requires n < index
    ensures MemberAt(Numbered(items, index), N.Decimal(n)).None?
  {
    hide N.Decimal, N.Number;
    if items != [] {
      NumberedLater(items[1..], index + 1, n);
      N.NumberDecimal(n);
      N.NumberDecimal(index);
      assert Numbered(items, index)[1..] == Numbered(items[1..], index + 1);
    }
  }

  lemma {:induction false} NumberedPlain(items: seq<Json>, index: nat)
    requires ItemsPlain(items)
    ensures AllPlain(Numbered(items, index))
    ensures forall m :: m in Numbered(items, index) ==> m.value in items
  {
    hide N.Decimal;
    if items != [] {
      NumberedPlain(items[1..], index + 1);
      NumberedLater(items[1..], index + 1, index);
      DigitsGood(index);
      assert Numbered(items, index)[1..] == Numbered(items[1..], index + 1);
    }
  }

  // ----- entries are exactly the leaves -----

  lemma {:induction false} FlatAt(prefix: string, v: Json, path: seq<string>)
    requires prefix != "" && Plain(v) && forall p :: p in path ==> T.Free(p, '.')
    ensures Get(Flat(prefix, v), Named(prefix, path)) == LeafAt(v, path)
    decreases v, |path|, 1
  {
    match v
    case JObj(members) =>
      BranchAt(v, prefix, members, path);
    case JArr(items) =>
      ItemsAreMembers(prefix, items, 0);
      NumberedPlain(items, 0);
      BranchAt(v, prefix, Numbered(items, 0), path);
    case _ =>
  }

  lemma {:induction false} BranchAt(v: Json, prefix: string, members: seq<Member>, path: seq<string>)
    requires prefix != "" && AllPlain(members) && forall p :: p in path ==> T.Free(p, '.')
    requires forall m :: m in members ==> (v decreases to m.value)
    requires !IsLeaf(v) && forall step :: Child(v, step) == MemberAt(members, step)
    ensures Get(FlatMembers(prefix, members), Named(prefix, path)) == LeafAt(v, path)
    decreases v, |path|, 0
  {
    if path == [] {
      if prefix in FlatMembers(prefix, members) {
        MembersBelow(prefix, members, prefix);
      }
    } else {
      MembersAt(v, prefix, members, path);
    }
  }

  lemma {:induction false} MembersAt(v: Json, prefix: string, members: seq<Member>, path: seq<string>)
    requires AllPlain(members) && path != [] && forall p :: p in path ==> T.Free(p, '.')
    requires forall m :: m in members ==> (v decreases to m.value)
    ensures var child := MemberAt(members, path[0]);
      Get(FlatMembers(prefix, members), Stem(prefix) + T.Join(path, '.'))
      == if child.None? then None else LeafAt(child.get, path[1..])
    decreases v, 0, |members|
  {
    hide Flat, Plain, LeafAt, T.Split;
    if members != [] {
      var m := members[0];
      var name, k := Stem(prefix) + m.key, Stem(prefix) + T.Join(path, '.');
      MembersAt(v, prefix, members[1..], path);
      NameOfPath(Stem(prefix), path);
      if path[0] == m.key {
        FlatAt(name, m.value, path[1..]);
      } else if k in Flat(name, m.value) {
        FlatBelow(name, m.value, k);
        FirstPart(Stem(prefix), m.key, k);
        FirstPart(Stem(prefix), path[0], k);
        assert false;
      }
    }
  }

  lemma NameOfPath(stem: string, path: seq<string>)
    requires path != []
    ensures stem + T.Join(path, '.') == Named(stem + path[0], path[1..])
    ensures Below(stem + path[0], stem + T.Join(path, '.'))
  {
    if |path| > 1 {
      assert stem + (path[0] + "." + T.Join(path[1..], '.')) == stem + path[0] + "." + T.Join(path[1..], '.');
    }
  }

  /**
   For plain arguments, a dotted name is defined exactly when walking along its parts ends at a scalar, and
   then names that scalar.
   */
  lemma FlatIsWalk(members: seq<Member>, k: string)
    requires AllPlain(members)
    ensures Get(Flat("", JObj(members)), k) == LeafAt(JObj(members), T.Split(k, '.'))
  {
    hide FlatMembers, AllPlain, T.Join;
    var path := T.Split(k, '.');
    T.JoinSplit(k, '.');
    MembersAt(JObj(members), "", members, path);
    assert Stem("") + T.Join(path, '.') == k;
  }

  /** The flat arguments of a run. */
  method Flatten(arguments: seq<Member>) returns (flat: map<string, Json>)
    ensures flat == Flat("", JObj(arguments))
    ensures AllPlain(arguments) ==> forall k :: Get(flat, k) == LeafAt(JObj(arguments), T.Split(k, '.'))
  {
    var f := new Flattener();
    f.FlattenArgs("", JObj(arguments));
    flat := f.out;
    if AllPlain(arguments) {
      forall k ensures Get(flat, k) == LeafAt(JObj(arguments), T.Split(k, '.')) {
        FlatIsWalk(arguments, k);
      }
    }
  }

  function AsValue(v: Json): V.Value
    requires IsLeaf(v)
  {
    match v
    case JNull => V.VNone
    case JBool(b) => V.VBool(b)
    case JInt(n) => V.VInt(n)
    case JStr(s) => V.VStr(s)
  }

  /** The flat arguments as operands of predicates. */
  function FlatFacts(arguments: seq<Member>): (facts: V.Facts)
    requires AllPlain(arguments)
    ensures forall k :: k in facts <==> LeafAt(JObj(arguments), T.Split(k, '.')).Some?
    ensures forall k :: k in facts ==> facts[k] == AsValue(LeafAt(JObj(arguments), T.Split(k, '.')).get)
  {
    var flat := Flat("", JObj(arguments));
    assert forall k :: Get(flat, k) == LeafAt(JObj(arguments), T.Split(k, '.')) by {
      forall k ensures Get(flat, k) == LeafAt(JObj(arguments), T.Split(k, '.')) {
        FlatIsWalk(arguments, k);
      }
    }
    assert forall k :: k in flat ==> Get(flat, k) == Some(flat[k]);
    map k | k in flat :: AsValue(flat[k])
  }

  /** Over plain arguments a predicate binds exactly when every dotted name it refers to leads to a scalar. */
  lemma BindsExactly(n: P.Node, arguments: seq<Member>)
    requires P.InSubset(n) && A.ArgsBound(n) && AllPlain(arguments)
    requires A.Carries(A.ArgRefs(n), FlatFacts(arguments))
    ensures A.Bind(n, FlatFacts(arguments)).Some?
      <==> forall k :: k in A.ArgRefs(n) ==> LeafAt(JObj(arguments), T.Split(k, '.')).Some?
  {
    hide A.Bind, A.ArgRefs, A.ArgsBound, P.InSubset, FlatFacts, LeafAt, T.Split, AllPlain;
    A.BindRefusesMissing(n, FlatFacts(arguments));
  }

  // ----- and no other key is safe -----

  /** Arguments `{"a": {k: 1, before: {after: 2}}}` for the first dot of `k`; `{"": {"a": 1}, "a": 2}` for the empty key. */
  function Colliding(k: string): seq<Member>
    requires !GoodKey(k)
  {
    if k == "" then [Member("", JObj([Member("a", JInt(1))])), Member("a", JInt(2))]
    else
      var at := T.Find(k, '.', 0);
      [Member("a", JObj([Member(k, JInt(1)), Member(k[..at], JObj([Member(k[at + 1..], JInt(2))]))]))]
  }

  lemma SingleMember(prefix: string, key: string, value: Json)
    ensures FlatMembers(prefix, [Member(key, value)]) == Flat(Stem(prefix) + key, value)
  {
    hide Flat;
    assert [Member(key, value)][1..] == [];
  }

  lemma LeafHere(prefix: string, n: int)
    ensures LeafAt(JInt(n), []) == Some(JInt(n)) && Flat(prefix, JInt(n)) == map[prefix := JInt(n)]
  {
  }

  lemma Steps(members: seq<Member>, m: Member, path: seq<string>, leaf: Json)
    requires MemberAt(members, m.key) == Some(m.value) && LeafAt(m.value, path) == Some(leaf)
    ensures LeafAt(JObj(members), [m.key] + path) == Some(leaf)
  {
    assert ([m.key] + path)[1..] == path;
  }

  /** For every empty or dotted key there are arguments that use it in which two different leaves have one name. */
  lemma BadKeyLosesALeaf(k: string)
    requires !GoodKey(k)
    ensures exists p, q :: (k in p
      && LeafAt(JObj(Colliding(k)), p) == Some(JInt(1)) && LeafAt(JObj(Colliding(k)), q) == Some(JInt(2)))
    ensures |Flat("", JObj(Colliding(k)))| == 1
  {
    hide LeafAt, Flat, T.Find;
    if k == "" {
      EmptyKeyLosesALeaf();
      assert k in ["", "a"] && LeafAt(JObj(Colliding(k)), ["a"]) == Some(JInt(2));
    } else {
      DottedKeyLosesALeaf(k);
      var at := T.Find(k, '.', 0);
      assert k in ["a", k] && LeafAt(JObj(Colliding(k)), ["a", k[..at], k[at + 1..]]) == Some(JInt(2));
    }
  }

  lemma EmptyKeyLosesALeaf()
    ensures var v := JObj([Member("", JObj([Member("a", JInt(1))])), Member("a", JInt(2))]);
      LeafAt(v, ["", "a"]) == Some(JInt(1)) && LeafAt(v, ["a"]) == Some(JInt(2)) && Flat("", v).Keys == {"a"}
  {
    var inner := [Member("a", JInt(1))];
    var ms := [Member("", JObj(inner)), Member("a", JInt(2))];
    LeafHere("a", 1);
    LeafHere("a", 2);
    hide LeafAt, Flat, FlatMembers;
    assert ["a"] + [] == ["a"] && [""] + ["a"] == ["", "a"];
    Steps(inner, inner[0], [], JInt(1));
    Steps(ms, ms[0], ["a"], JInt(1));
    TwoMembers(ms, "a");
    Steps(ms, ms[1], [], JInt(2));
    Branch("", ms);
    TwoFlat("", ms[0], ms[1]);
    Branch("", inner);
    SingleMember("", "a", JInt(1));
    assert Stem("") + "" == "" && Stem("") + "a" == "a";
  }

  lemma DottedKeyLosesALeaf(k: string)
    requires k != "" && !GoodKey(k)
    ensures var v, at := JObj(Colliding(k)), T.Find(k, '.', 0);
      LeafAt(v, ["a", k]) == Some(JInt(1)) && LeafAt(v, ["a", k[..at], k[at + 1..]]) == Some(JInt(2)) && |Flat("", v)| == 1
  {
    hide LeafAt, Flat, FlatMembers;
    var at := T.Find(k, '.', 0);
    assert k == k[..at] + "." + k[at + 1..];
    DottedLeaves(k, k[..at], k[at + 1..]);
    DottedFlat(k, k[..at], k[at + 1..]);
  }

  lemma DottedLeaves(k: string, before: string, after: string)
    requires k == before + "." + after
    ensures var v := JObj([Member("a", JObj([Member(k, JInt(1)), Member(before, JObj([Member(after, JInt(2))]))]))]);
      LeafAt(v, ["a", k]) == Some(JInt(1)) && LeafAt(v, ["a", before, after]) == Some(JInt(2))
  {
    var one, two := JInt(1), JInt(2);
    var nested := [Member(after, two)];
    var inner := [Member(k, one), Member(before, JObj(nested))];
    var ms := [Member("a", JObj(inner))];
    LeafHere("", 1);
    LeafHere("", 2);
    hide LeafAt, Flat;
    assert [k] + [] == [k] && [after] + [] == [after] && [before] + [after] == [before, after];
    assert ["a"] + [k] == ["a", k] && ["a"] + [before, after] == ["a", before, after];
    Steps(inner, inner[0], [], one);
    Steps(ms, ms[0], [k], one);
    Steps(nested, nested[0], [], two);
    TwoMembers(inner, before);
    Steps(inner, inner[1], [after], two);
    Steps(ms, ms[0], [before, after], two);
  }

  lemma TwoMembers(members: seq<Member>, key: string)
    requires |members| == 2 && members[1].key == key && members[0].key != key
    ensures MemberAt(members, key) == Some(members[1].value)
  {
  }

  lemma Branch(prefix: string, members: seq<Member>)
    ensures Flat(prefix, JObj(members)) == FlatMembers(prefix, members)
  {
  }

  lemma TwoFlat(prefix: string, a: Member, b: Member)
    ensures FlatMembers(prefix, [a, b]) == Flat(Stem(prefix) + a.key, a.value) + Flat(Stem(prefix) + b.key, b.value)
  {
    hide Flat;
    assert [a, b][1..] == [b];
    SingleMember(prefix, b.key, b.value);
  }

  lemma DottedFlat(k: string, before: string, after: string)
    requires k == before + "." + after
    ensures Flat("", JObj([Member("a", JObj([Member(k, JInt(1)), Member(before, JObj([Member(after, JInt(2))]))]))])).Keys
      == {"a." + k}
  {
    var nested := [Member(after, JInt(2))];
    var inner := [Member(k, JInt(1)), Member(before, JObj(nested))];
    LeafHere("a." + k, 1);
    LeafHere("a." + k, 2);
    hide Flat, FlatMembers, LeafAt;
    Branch("", [Member("a", JObj(inner))]);
    SingleMember("", "a", JObj(inner));
    Branch("a", inner);
    TwoFlat("a", inner[0], inner[1]);
    Branch("a." + before, nested);
    SingleMember("a." + before, after, JInt(2));
    assert "a." + before + "." + after == "a." + k;
    assert Stem("a") + k == "a." + k && Stem("a") + before == "a." + before && Stem("") + "a" == "a";
  }
}
