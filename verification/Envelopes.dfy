/**
 Envelopes: the bindings clauses are evaluated over, the categorized delta, and the
 three-valued assertion of a transition.
 */
module Envelopes {
  import opened Options
  import opened Values
  import opened Predicates
  import T = Text
  import Paths = EvaluationPaths
  import Printf = Formatting

  datatype RequireClause = RequireClause(factKey: string, test: Predicate)

  datatype ForbidClause = ForbidClause(scopeKey: string, test: Predicate)

  datatype Policy = Policy(window: real, poll: real, reproduce: nat)

  datatype Envelope = Envelope(
    require: seq<RequireClause>,
    allow: seq<string>,
    forbid: seq<ForbidClause>,
    derive: seq<Predicate>,
    convergence: Policy)

  // ----- bindings -----

  const PRE := "pre."

  function PrefixedKeys(p: string, m: Facts): (r: set<string>)
    ensures forall key :: key in r <==> p <= key && key[|p|..] in m
  {
    var r := set k | k in m :: p + k;
    assert forall k :: (p + k)[|p|..] == k;
    assert forall key :: p <= key && key[|p|..] in m ==> key == p + key[|p|..] && key in r;
    r
  }

  function Prefixed(p: string, m: Facts): Facts {
    map key | key in PrefixedKeys(p, m) :: m[key[|p|..]]
  }

  lemma PrefixedAt(p: string, m: Facts, key: string)
    ensures key in Prefixed(p, m) <==> p <= key && key[|p|..] in m
    ensures key in Prefixed(p, m) ==> Prefixed(p, m)[key] == m[key[|p|..]]
  {
  }

  /** The names and dotted keys a clause may refer to. */
  function Bindings(pre: Facts, post: Facts): Facts {
    map["pre" := VMap(pre), "post" := VMap(post), "facts" := VMap(post)]
      + Prefixed(PRE, pre) + Prefixed(POST, post)
  }

  lemma {:induction false} BindingsAt(pre: Facts, post: Facts, key: string)
    ensures POST <= key ==>
      (key in Bindings(pre, post) <==> key[|POST|..] in post) &&
      (key in Bindings(pre, post) ==> Bindings(pre, post)[key] == post[key[|POST|..]])
    ensures PRE <= key ==>
      (key in Bindings(pre, post) <==> key[|PRE|..] in pre) &&
      (key in Bindings(pre, post) ==> Bindings(pre, post)[key] == pre[key[|PRE|..]])
    ensures key == "pre" ==> key in Bindings(pre, post) && Bindings(pre, post)[key] == VMap(pre)
    ensures key == "post" || key == "facts" ==> key in Bindings(pre, post) && Bindings(pre, post)[key] == VMap(post)
    ensures key in Bindings(pre, post) ==> POST <= key || PRE <= key || key == "pre" || key == "post" || key == "facts"
  {
    PrefixedAt(PRE, pre, key);
    PrefixedAt(POST, post, key);
    NamesApart(key);
    hide Prefixed;
  }

  /** A fact of either state is bound under its dotted name, and to the same value in its state's map. */
  lemma DottedNames(pre: Facts, post: Facts, k: string)
    ensures Get(Bindings(pre, post), "pre." + k) == Get(pre, k)
    ensures Get(Bindings(pre, post), "post." + k) == Get(post, k)
    ensures Get(Bindings(pre, post), "facts." + k) == None
  {
    BindingsAt(pre, post, "pre." + k);
    BindingsAt(pre, post, "post." + k);
    BindingsAt(pre, post, "facts." + k);
    assert ("pre." + k)[4..] == k && ("post." + k)[5..] == k && ("facts." + k)[0] == 'f';
    assert "pre." <= "pre." + k && "post." <= "post." + k && |"facts." + k| > 5;
    hide Bindings;
  }

  lemma NamesApart(key: string)
    ensures PRE <= key ==> !(POST <= key) && key != "pre" && key != "post" && key != "facts"
    ensures POST <= key ==> key != "pre" && key != "post" && key != "facts"
    ensures "pre" != "post" && "pre" != "facts" && "post" != "facts"
  {
    assert PRE[1] == "pre"[1] == 'r' && POST[1] == "post"[1] == 'o' && "facts"[1] == 'a';
  }

  /** Add every fact to the bindings under its prefixed name. */
  method BindPrefixed(b: Facts, p: string, m: Facts) returns (r: Facts)
    ensures r == b + Prefixed(p, m)
  {
    PrefixedEnds(b, p, m);
    hide Prefixed;
    r := b;
    var left := m.Keys;
    while left != {}
      invariant left <= m.Keys
      invariant r == b + Prefixed(p, m - left)
      decreases left
    {
      var k: string :| k in left;
      PrefixedStep(b, p, m, left, k);
      r := r[p + k := m[k]];
      left := left - {k};
    }
  }

  lemma PrefixedEnds(b: Facts, p: string, m: Facts)
    ensures b + Prefixed(p, m - m.Keys) == b
    ensures m - {} == m
  {
    hide PrefixedKeys;
    var none := Prefixed(p, m - m.Keys);
    forall key ensures key !in none {
      PrefixedAt(p, m - m.Keys, key);
    }
  }

  method BuildBindings(pre: Facts, post: Facts) returns (b: Facts)
    ensures b == Bindings(pre, post)
  {
    b := map["pre" := VMap(pre), "post" := VMap(post), "facts" := VMap(post)];
    b := BindPrefixed(b, PRE, pre);
    b := BindPrefixed(b, POST, post);
  }

  lemma SameMap(a: Facts, b: Facts)
    requires forall k :: Get(a, k) == Get(b, k)
    ensures a == b
  {
    assert forall k :: k in a <==> Get(a, k).Some?;
    assert forall k :: k in b <==> Get(b, k).Some?;
    assert forall k :: k in a ==> a[k] == Get(a, k).get == Get(b, k).get;
  }

  lemma PrefixedStep(b: Facts, p: string, m: Facts, left: set<string>, k: string)
    requires k in left && left <= m.Keys
    ensures b + Prefixed(p, m - (left - {k})) == (b + Prefixed(p, m - left))[p + k := m[k]]
  {
    hide PrefixedKeys;
    var big, small := Prefixed(p, m - (left - {k})), Prefixed(p, m - left);
    assert (p + k)[|p|..] == k;
    forall key ensures Get(big, key) == Get(small[p + k := m[k]], key) {
      PrefixedAt(p, m - (left - {k}), key);
      PrefixedAt(p, m - left, key);
      assert p <= key && key[|p|..] == k ==> key == p + k;
    }
    SameMap(big, small[p + k := m[k]]);
  }

  // ----- clauses -----

  datatype Clause = Require(i: nat) | Derive(i: nat) | Forbid(i: nat)

  datatype Outcome = Satisfied | Violated | Unclear | Escapes(fault: Fault)

  predicate HasClause(e: Envelope, c: Clause) {
    match c
    case Require(i) => i < |e.require|
    case Derive(i) => i < |e.derive|
    case Forbid(i) => i < |e.forbid|
  }

  /** Evaluate a predicate as a clause; `Escapes` when the evaluator does not turn the fault into its own error. */
  function Holds(p: Predicate, b: Facts): Outcome {
    match Eval(p, b)
    case Ok(v) => if Truthy(v) then Satisfied else Violated
    case Err(Unresolved) => Unclear
    case Err(Failed) => Unclear
    case Err(f) => Escapes(f)
  }

  function ScopeBindings(b: Facts, key: string, value: Value): Facts {
    b["scope" := value]["scope_key" := VStr(key)]
  }

  /** A forbid clause whose scope fact is absent is violated, whatever its predicate. */
  function OutcomeOf(e: Envelope, b: Facts, post: Facts, c: Clause): Outcome
    requires HasClause(e, c)
  {
    match c
    case Require(i) => Holds(e.require[i].test, b)
    case Derive(i) => Holds(e.derive[i], b)
    case Forbid(i) =>
      var f := e.forbid[i];
      if f.scopeKey !in post then Violated
      else Holds(f.test, ScopeBindings(b, f.scopeKey, post[f.scopeKey]))
  }

  function ClauseOutcome(e: Envelope, pre: Facts, post: Facts, c: Clause): Outcome
    requires HasClause(e, c)
  {
    OutcomeOf(e, Bindings(pre, post), post, c)
  }

  // ----- the keys an envelope predicts and observes -----

  function PredictedKeys(e: Envelope): seq<string> {
    RequireKeys(e.require) + DeriveKeys(e.derive)
  }

  function RequireKeys(cs: seq<RequireClause>): seq<string> {
    if cs == [] then [] else [cs[0].factKey] + PostSideKeys(cs[0].test) + RequireKeys(cs[1..])
  }

  function DeriveKeys(ps: seq<Predicate>): seq<string> {
    if ps == [] then [] else PostSideKeys(ps[0]) + DeriveKeys(ps[1..])
  }

  function ForbidKeys(cs: seq<ForbidClause>): seq<string> {
    if cs == [] then [] else [cs[0].scopeKey] + PostSideKeys(cs[0].test) + ForbidKeys(cs[1..])
  }

  /** The post-side keys whose values make up the frozen state; repetitions do not matter. */
  function NormalizedKeys(e: Envelope): seq<string> {
    PredictedKeys(e) + ForbidKeys(e.forbid)
  }

  /** The observation cut down to the normalized keys; an absent key stays absent. */
  function Normalized(e: Envelope, observation: Facts): Facts {
    map k | k in observation && k in NormalizedKeys(e) :: observation[k]
  }

  /** The dictionary comparison of two normalized observations. */
  predicate SameFrozen(e: Envelope, a: Facts, b: Facts) {
    PyEq(VMap(Normalized(e, a)), VMap(Normalized(e, b)))
  }

  predicate AgreeAt(a: Facts, b: Facts, k: string) {
    (k in a <==> k in b) && (k in a ==> PyEq(a[k], b[k]))
  }

  /** Two observations freeze alike exactly when they agree, value or absence, on every normalized key. */
  lemma SameFrozenMeansAgreement(e: Envelope, a: Facts, b: Facts)
    ensures SameFrozen(e, a, b) <==> forall k :: k in NormalizedKeys(e) ==> AgreeAt(a, b, k)
  {
    var m, n := Normalized(e, a), Normalized(e, b);
    var cm, cn := Canon(VMap(m)).m, Canon(VMap(n)).m;
    assert forall k :: k in m <==> k in cm;
    assert forall k :: k in n <==> k in cn;
    if SameFrozen(e, a, b) {
      forall k | k in NormalizedKeys(e) ensures AgreeAt(a, b, k) {
        assert k in cm <==> k in cn;
        assert k in m ==> cm[k] == cn[k];
      }
    }
    if forall k :: k in NormalizedKeys(e) ==> AgreeAt(a, b, k) {
      assert forall k :: k in cm <==> k in cn;
      assert forall k :: k in cm ==> AgreeAt(a, b, k);
      assert cm == cn;
    }
  }

  lemma {:induction false} RequireKeysHave(cs: seq<RequireClause>, i: nat)
    requires i < |cs|
    ensures cs[i].factKey in RequireKeys(cs)
    ensures forall k :: k in PostSideKeys(cs[i].test) ==> k in RequireKeys(cs)
  {
    if i > 0 { RequireKeysHave(cs[1..], i - 1); }
  }

  lemma {:induction false} DeriveKeysHave(ps: seq<Predicate>, i: nat)
    requires i < |ps|
    ensures forall k :: k in PostSideKeys(ps[i]) ==> k in DeriveKeys(ps)
  {
    if i > 0 { DeriveKeysHave(ps[1..], i - 1); }
  }

  lemma {:induction false} ForbidKeysHave(cs: seq<ForbidClause>, i: nat)
    requires i < |cs|
    ensures cs[i].scopeKey in ForbidKeys(cs)
    ensures forall k :: k in PostSideKeys(cs[i].test) ==> k in ForbidKeys(cs)
  {
    if i > 0 { ForbidKeysHave(cs[1..], i - 1); }
  }

  // ----- the delta -----

  datatype ChangeKind = Changed | Added | Removed

  /** `None` on the side where the fact is missing. */
  datatype DeltaEntry = DeltaEntry(key: string, kind: ChangeKind, before: Option<Value>, after: Option<Value>, category: string)

  datatype FactDelta = FactDelta(changed: seq<DeltaEntry>, added: seq<DeltaEntry>, removed: seq<DeltaEntry>) {
    function Entries(): seq<DeltaEntry> {
      changed + added + removed
    }
  }

  const UNCLASSIFIED := "unclassified"

  function Get(m: Facts, k: string): Option<Value> {
    if k in m then Some(m[k]) else None
  }

  predicate Differs(pre: Facts, post: Facts, k: string) {
    !AgreeAt(pre, post, k)
  }

  function EntryFor(pre: Facts, post: Facts, categories: map<string, string>, k: string): DeltaEntry {
    DeltaEntry(
      k,
      if k in pre && k in post then Changed else if k in post then Added else Removed,
      Get(pre, k),
      Get(post, k),
      if k in categories then categories[k] else UNCLASSIFIED)
  }

  predicate SortedByKey(es: seq<DeltaEntry>) {
    forall i, j :: 0 <= i < j < |es| ==> T.Leq(es[i].key, es[j].key) && es[i].key != es[j].key
  }

  /** `es` lists, in key order and once each, the differing keys of one kind, as they are. */
  ghost predicate Lists(es: seq<DeltaEntry>, kind: ChangeKind, pre: Facts, post: Facts, categories: map<string, string>) {
    SortedByKey(es)
    && (forall e :: e in es ==>
      Differs(pre, post, e.key) && e == EntryFor(pre, post, categories, e.key) && e.kind == kind)
    && (forall k :: Differs(pre, post, k) && EntryFor(pre, post, categories, k).kind == kind ==>
      EntryFor(pre, post, categories, k) in es)
  }

  ghost predicate IsDelta(d: FactDelta, pre: Facts, post: Facts, categories: map<string, string>) {
    Lists(d.changed, Changed, pre, post, categories)
    && Lists(d.added, Added, pre, post, categories)
    && Lists(d.removed, Removed, pre, post, categories)
  }

  /** The entries of one kind for a list of keys, in its order. */
  function Pick(kind: ChangeKind, keys: seq<string>, pre: Facts, post: Facts, categories: map<string, string>): seq<DeltaEntry> {
    if keys == [] then []
    else
      var e := EntryFor(pre, post, categories, keys[|keys| - 1]);
      Pick(kind, keys[..|keys| - 1], pre, post, categories)
        + if Differs(pre, post, keys[|keys| - 1]) && e.kind == kind then [e] else []
  }

  method ComputeDelta(pre: Facts, post: Facts, categories: map<string, string>) returns (d: FactDelta)
    ensures IsDelta(d, pre, post, categories)
  {
    hide T.Leq, IsDelta, Lists, PyEq, Pick;
    PickNone(pre, post, categories);
    var changed, added, removed: seq<DeltaEntry> := [], [], [];
    var keys := T.SortKeys(pre.Keys + post.Keys);
    for n := 0 to |keys|
      invariant changed == Pick(Changed, keys[..n], pre, post, categories)
      invariant added == Pick(Added, keys[..n], pre, post, categories)
      invariant removed == Pick(Removed, keys[..n], pre, post, categories)
    {
      var key := keys[n];
      assert key in keys;
      PickStep(Changed, keys, n, pre, post, categories);
      PickStep(Added, keys, n, pre, post, categories);
      PickStep(Removed, keys, n, pre, post, categories);
      var category := if key in categories then categories[key] else UNCLASSIFIED;
      if key in pre && key in post {
        if !PyEq(pre[key], post[key]) {
          changed := changed + [DeltaEntry(key, Changed, Some(pre[key]), Some(post[key]), category)];
        }
      } else if key in post {
        added := added + [DeltaEntry(key, Added, None, Some(post[key]), category)];
      } else {
        removed := removed + [DeltaEntry(key, Removed, Some(pre[key]), None, category)];
      }
    }
    assert keys[..|keys|] == keys;
    d := FactDelta(changed, added, removed);
    PickLists(Changed, keys, pre, post, categories);
    PickLists(Added, keys, pre, post, categories);
    PickLists(Removed, keys, pre, post, categories);
    ListsMakeDelta(d, pre, post, categories);
  }

  lemma PickNone(pre: Facts, post: Facts, categories: map<string, string>)
    ensures forall kind :: Pick(kind, [], pre, post, categories) == []
  {
  }

  lemma PickStep(kind: ChangeKind, keys: seq<string>, n: nat, pre: Facts, post: Facts, categories: map<string, string>)
    requires n < |keys|
    ensures
      var e := EntryFor(pre, post, categories, keys[n]);
      Pick(kind, keys[..n + 1], pre, post, categories) ==
        Pick(kind, keys[..n], pre, post, categories) + if Differs(pre, post, keys[n]) && e.kind == kind then [e] else []
  {
    assert keys[..n + 1][..n] == keys[..n];
    hide EntryFor, Differs;
  }

  lemma ListsMakeDelta(d: FactDelta, pre: Facts, post: Facts, categories: map<string, string>)
    requires Lists(d.changed, Changed, pre, post, categories)
    requires Lists(d.added, Added, pre, post, categories)
    requires Lists(d.removed, Removed, pre, post, categories)
    ensures IsDelta(d, pre, post, categories)
  {
    hide Lists;
  }

  predicate Picked(es: seq<DeltaEntry>, kind: ChangeKind, keys: seq<string>, pre: Facts, post: Facts, categories: map<string, string>) {
    forall i :: 0 <= i < |es| ==> es[i].key in keys && IsPick(es[i], kind, pre, post, categories)
  }

  predicate IsPick(e: DeltaEntry, kind: ChangeKind, pre: Facts, post: Facts, categories: map<string, string>) {
    Differs(pre, post, e.key) && e == EntryFor(pre, post, categories, e.key) && e.kind == kind
  }

  lemma {:induction false} PickInOrder(kind: ChangeKind, keys: seq<string>, pre: Facts, post: Facts, categories: map<string, string>)
    requires T.Sorted(keys) && T.Distinct(keys)
    ensures SortedByKey(Pick(kind, keys, pre, post, categories))
    ensures Picked(Pick(kind, keys, pre, post, categories), kind, keys, pre, post, categories)
  {
    hide EntryFor, Differs, T.Leq, T.Sorted, T.Distinct, Pick, IsPick;
    if keys == [] {
      PickNone(pre, post, categories);
    } else {
      var init, k := keys[..|keys| - 1], keys[|keys| - 1];
      Behind(keys, |keys| - 1);
      PickInOrder(kind, init, pre, post, categories);
      hide SortedByKey, Picked;
      PickGrows(Pick(kind, init, pre, post, categories), kind, init, keys, pre, post, categories, k);
      assert keys[..|keys| - 1 + 1] == keys;
      PickStep(kind, keys, |keys| - 1, pre, post, categories);
      var e := EntryFor(pre, post, categories, k);
      if !(Differs(pre, post, k) && e.kind == kind) {
        assert Pick(kind, init, pre, post, categories) + [] == Pick(kind, init, pre, post, categories);
      }
    }
  }

  lemma PickGrows(es: seq<DeltaEntry>, kind: ChangeKind, init: seq<string>, keys: seq<string>, pre: Facts, post: Facts,
                  categories: map<string, string>, k: string)
    requires SortedByKey(es) && Picked(es, kind, init, pre, post, categories)
    requires k in keys && forall x :: x in init ==> x in keys && T.Leq(x, k) && x != k
    ensures Picked(es, kind, keys, pre, post, categories)
    ensures
      var e := EntryFor(pre, post, categories, k);
      Differs(pre, post, k) && e.kind == kind ==> SortedByKey(es + [e]) && Picked(es + [e], kind, keys, pre, post, categories)
  {
    EntryKey(pre, post, categories, k);
    var e := EntryFor(pre, post, categories, k);
    assert Differs(pre, post, k) && e.kind == kind ==> IsPick(e, kind, pre, post, categories);
    hide EntryFor, Differs, T.Leq, IsPick;
    assert forall i :: 0 <= i < |es| ==> es[i].key in init;
  }

  lemma EntryKey(pre: Facts, post: Facts, categories: map<string, string>, k: string)
    ensures EntryFor(pre, post, categories, k).key == k
  {
  }

  /** What precedes a key in a sorted list of distinct keys is before it. */
  lemma Behind(keys: seq<string>, n: nat)
    requires n < |keys| && T.Sorted(keys) && T.Distinct(keys)
    ensures forall k :: k in keys[..n] ==> k in keys && T.Leq(k, keys[n]) && k != keys[n]
    ensures T.Sorted(keys[..n]) && T.Distinct(keys[..n])
  {
    hide T.Leq;
  }

  lemma {:induction false} PickMissesNone(kind: ChangeKind, keys: seq<string>, pre: Facts, post: Facts, categories: map<string, string>,
                                          k: string)
    requires k in keys && Differs(pre, post, k) && EntryFor(pre, post, categories, k).kind == kind
    ensures EntryFor(pre, post, categories, k) in Pick(kind, keys, pre, post, categories)
  {
    hide EntryFor, Differs;
    var n := |keys| - 1;
    if keys[n] != k {
      PickMissesNone(kind, keys[..n], pre, post, categories, k);
    }
  }

  lemma PickLists(kind: ChangeKind, keys: seq<string>, pre: Facts, post: Facts, categories: map<string, string>)
    requires T.Sorted(keys) && T.Distinct(keys) && forall k :: k in keys <==> k in pre.Keys + post.Keys
    ensures Lists(Pick(kind, keys, pre, post, categories), kind, pre, post, categories)
  {
    hide EntryFor, T.Leq, Pick, SortedByKey, T.Sorted, T.Distinct;
    PickInOrder(kind, keys, pre, post, categories);
    assert forall k :: Differs(pre, post, k) ==> k in keys by { hide Picked; }
    hide Differs;
    forall k | Differs(pre, post, k) && EntryFor(pre, post, categories, k).kind == kind
      ensures EntryFor(pre, post, categories, k) in Pick(kind, keys, pre, post, categories)
    {
      PickMissesNone(kind, keys, pre, post, categories, k);
    }
  }

  /** Every entry of a delta, once per key. */
  lemma DeltaEntries(d: FactDelta, pre: Facts, post: Facts, categories: map<string, string>)
    requires IsDelta(d, pre, post, categories)
    ensures forall e :: e in d.Entries() ==> Differs(pre, post, e.key) && e == EntryFor(pre, post, categories, e.key)
    ensures forall k :: Differs(pre, post, k) ==> EntryFor(pre, post, categories, k) in d.Entries()
    ensures forall i, j :: 0 <= i < j < |d.Entries()| ==> d.Entries()[i].key != d.Entries()[j].key
  {
    var es := d.Entries();
    forall k | Differs(pre, post, k) ensures EntryFor(pre, post, categories, k) in es {
      var e := EntryFor(pre, post, categories, k);
      match e.kind
      case Changed => assert e in d.changed;
      case Added => assert e in d.added;
      case Removed => assert e in d.removed;
    }
    forall e | e in es ensures Differs(pre, post, e.key) && e == EntryFor(pre, post, categories, e.key) {
      assert e in d.changed || e in d.added || e in d.removed;
    }
    forall i, j | 0 <= i < j < |es| ensures es[i].key != es[j].key {
      assert es[i] in es && es[j] in es;
      var a, b := |d.changed|, |d.changed| + |d.added|;
      assert i < a ==> es[i] == d.changed[i] && es[i] in d.changed;
      assert a <= i < b ==> es[i] == d.added[i - a] && es[i] in d.added;
      assert b <= i ==> es[i] == d.removed[i - b] && es[i] in d.removed;
      assert j < a ==> es[j] == d.changed[j] && es[j] in d.changed;
      assert a <= j < b ==> es[j] == d.added[j - a] && es[j] in d.added;
      assert b <= j ==> es[j] == d.removed[j - b] && es[j] in d.removed;
    }
  }

  /** What a delta lists of one kind is determined by the states. */
  lemma ListsUnique(a: seq<DeltaEntry>, b: seq<DeltaEntry>, kind: ChangeKind, pre: Facts, post: Facts, categories: map<string, string>)
    requires Lists(a, kind, pre, post, categories) && Lists(b, kind, pre, post, categories)
    ensures a == b
  {
    hide EntryFor, Differs, T.Leq;
    SameKeys(a, b, kind, pre, post, categories);
    T.SortedDistinctUnique(KeysOf(a), KeysOf(b));
    forall i | 0 <= i < |a| ensures |a| == |b| && a[i] == b[i] {
      assert |KeysOf(a)| == |KeysOf(b)| && KeysOf(a)[i] == KeysOf(b)[i];
      assert a[i] in a && b[i] in b;
    }
    assert |KeysOf(a)| == |KeysOf(b)|;
  }

  function KeysOf(es: seq<DeltaEntry>): (r: seq<string>)
    ensures |r| == |es| && forall i :: 0 <= i < |es| ==> r[i] == es[i].key
  {
    seq(|es|, i requires 0 <= i < |es| => es[i].key)
  }

  lemma SameKeys(a: seq<DeltaEntry>, b: seq<DeltaEntry>, kind: ChangeKind, pre: Facts, post: Facts, categories: map<string, string>)
    requires Lists(a, kind, pre, post, categories) && Lists(b, kind, pre, post, categories)
    ensures T.Sorted(KeysOf(a)) && T.Distinct(KeysOf(a)) && T.Sorted(KeysOf(b)) && T.Distinct(KeysOf(b))
    ensures forall k :: k in KeysOf(a) <==> k in KeysOf(b)
  {
    KeysListed(a, kind, pre, post, categories);
    KeysListed(b, kind, pre, post, categories);
    hide EntryFor, Differs, T.Leq, Lists;
  }

  lemma KeysListed(a: seq<DeltaEntry>, kind: ChangeKind, pre: Facts, post: Facts, categories: map<string, string>)
    requires Lists(a, kind, pre, post, categories)
    ensures T.Sorted(KeysOf(a)) && T.Distinct(KeysOf(a))
    ensures forall k :: k in KeysOf(a) <==> Differs(pre, post, k) && EntryFor(pre, post, categories, k).kind == kind
  {
    hide Differs, T.Leq;
    forall k ensures k in KeysOf(a) <==> Differs(pre, post, k) && EntryFor(pre, post, categories, k).kind == kind {
      EntryKey(pre, post, categories, k);
      if k in KeysOf(a) {
        var i :| 0 <= i < |a| && KeysOf(a)[i] == k;
        assert a[i] in a;
      }
      if Differs(pre, post, k) && EntryFor(pre, post, categories, k).kind == kind {
        var i :| 0 <= i < |a| && a[i] == EntryFor(pre, post, categories, k);
        assert KeysOf(a)[i] == k;
      }
    }
  }

  lemma DeltaUnique(d: FactDelta, e: FactDelta, pre: Facts, post: Facts, categories: map<string, string>)
    requires IsDelta(d, pre, post, categories) && IsDelta(e, pre, post, categories)
    ensures d == e
  {
    ListsUnique(d.changed, e.changed, Changed, pre, post, categories);
    ListsUnique(d.added, e.added, Added, pre, post, categories);
    ListsUnique(d.removed, e.removed, Removed, pre, post, categories);
    hide Lists;
  }

  // ----- patching -----

  function Put(m: Facts, k: string, v: Option<Value>): Facts {
    match v
    case None => m - {k}
    case Some(x) => m[k := x]
  }

  function Patch(m: Facts, es: seq<DeltaEntry>): Facts
    decreases es
  {
    if es == [] then m else Patch(Put(m, es[0].key, es[0].after), es[1..])
  }

  function Unpatch(m: Facts, es: seq<DeltaEntry>): Facts
    decreases es
  {
    if es == [] then m else Unpatch(Put(m, es[0].key, es[0].before), es[1..])
  }

  lemma {:induction false} PatchAt(m: Facts, es: seq<DeltaEntry>, k: string)
    requires forall i, j :: 0 <= i < j < |es| ==> es[i].key != es[j].key
    ensures forall i :: 0 <= i < |es| && es[i].key == k ==>
      Get(Patch(m, es), k) == es[i].after && Get(Unpatch(m, es), k) == es[i].before
    ensures (forall i :: 0 <= i < |es| ==> es[i].key != k) ==>
      Get(Patch(m, es), k) == Get(m, k) == Get(Unpatch(m, es), k)
    decreases es
  {
    if es != [] {
      PatchAt(Put(m, es[0].key, es[0].after), es[1..], k);
      PatchAt(Put(m, es[0].key, es[0].before), es[1..], k);
      assert forall i :: 1 <= i < |es| ==> es[i] == es[1..][i - 1];
    }
  }

  /** The delta loses nothing: it turns pre into post and post back into pre, values compared with `==`. */
  lemma DeltaLossless(d: FactDelta, pre: Facts, post: Facts, categories: map<string, string>, k: string)
    requires IsDelta(d, pre, post, categories)
    ensures AgreeAt(Patch(pre, d.Entries()), post, k)
    ensures AgreeAt(Unpatch(post, d.Entries()), pre, k)
    ensures Differs(pre, post, k) ==>
      Get(Patch(pre, d.Entries()), k) == Get(post, k) && Get(Unpatch(post, d.Entries()), k) == Get(pre, k)
  {
    DeltaEntries(d, pre, post, categories);
    var es := d.Entries();
    PatchAt(pre, es, k);
    PatchAt(post, es, k);
    if Differs(pre, post, k) {
      var e := EntryFor(pre, post, categories, k);
      assert e in es;
      var i :| 0 <= i < |es| && es[i] == e;
      assert es[i].key == k;
    } else {
      forall i | 0 <= i < |es| ensures es[i].key != k {
        assert es[i] in es;
      }
      assert Get(Patch(pre, es), k) == Get(pre, k);
      assert Get(Unpatch(post, es), k) == Get(post, k);
    }
  }

  // ----- the assertion -----

  datatype Status = StSatisfied | StDisproven | StIndeterminate

  datatype Assertion = Assertion(
    status: Status,
    satisfied: seq<Clause>,
    violated: seq<Clause>,
    unresolved: seq<Clause>,
    unclassified: seq<string>,
    delta: FactDelta)

  /** A changed key is predicted when it is a predicted key or lies under one. */
  predicate IsPredicted(key: string, predicted: seq<string>) {
    exists i :: 0 <= i < |predicted| && (key == predicted[i] || predicted[i] + "." <= key)
  }

  /** A key lies under another when its dotted parts begin with the other's: `entries.10` is not under `entries.1`. */
  predicate Under(key: string, p: string) {
    T.Split(p, '.') <= T.Split(key, '.')
  }

  lemma PredictedByPath(key: string, predicted: seq<string>)
    ensures IsPredicted(key, predicted) <==> exists p :: p in predicted && Under(key, p)
  {
    forall p ensures (key == p || p + "." <= key) <==> Under(key, p) {
      T.PartsPrefix(p, key, '.');
    }
    hide T.Split, Under;
    if IsPredicted(key, predicted) {
      var i :| 0 <= i < |predicted| && (key == predicted[i] || predicted[i] + "." <= key);
      assert predicted[i] in predicted && Under(key, predicted[i]);
    }
    if exists p :: p in predicted && Under(key, p) {
      var p :| p in predicted && Under(key, p);
      var i :| 0 <= i < |predicted| && predicted[i] == p;
    }
  }

  predicate Covered(e: Envelope, categories: map<string, string>, k: string) {
    (if k in categories then categories[k] else UNCLASSIFIED) in e.allow || IsPredicted(k, PredictedKeys(e))
  }

  /** The verdict, said with no list and no loop: `None` when some clause's evaluation raises, or leaves the model. */
  ghost function Verdict(e: Envelope, pre: Facts, post: Facts, categories: map<string, string>): Option<Status> {
    if exists c :: HasClause(e, c) && ClauseOutcome(e, pre, post, c).Escapes? then None
    else if exists c :: HasClause(e, c) && ClauseOutcome(e, pre, post, c).Unclear? then Some(StIndeterminate)
    else if (exists c :: HasClause(e, c) && ClauseOutcome(e, pre, post, c).Violated?)
      || (exists k :: Differs(pre, post, k) && !Covered(e, categories, k)) then Some(StDisproven)
    else Some(StSatisfied)
  }

  /** Require clauses, then derive, then forbid, each in declaration order. */
  function Clauses(e: Envelope): seq<Clause> {
    seq(|e.require|, i requires 0 <= i => Require(i))
      + seq(|e.derive|, i requires 0 <= i => Derive(i))
      + seq(|e.forbid|, i requires 0 <= i => Forbid(i))
  }

  lemma ClausesAll(e: Envelope)
    ensures forall c :: c in Clauses(e) <==> HasClause(e, c)
  {
    forall c | HasClause(e, c) ensures c in Clauses(e) {
      match c
      case Require(i) => assert Clauses(e)[i] == c;
      case Derive(i) => assert Clauses(e)[|e.require| + i] == c;
      case Forbid(i) => assert Clauses(e)[|e.require| + |e.derive| + i] == c;
    }
  }

  /** The clauses with one outcome, in order. */
  function Select(e: Envelope, pre: Facts, post: Facts, cs: seq<Clause>, o: Outcome): seq<Clause>
    requires forall c :: c in cs ==> HasClause(e, c)
  {
    if cs == [] then []
    else
      assert cs[|cs| - 1] in cs;
      Select(e, pre, post, cs[..|cs| - 1], o)
        + if ClauseOutcome(e, pre, post, cs[|cs| - 1]) == o then [cs[|cs| - 1]] else []
  }

  lemma {:induction false} SelectIs(e: Envelope, pre: Facts, post: Facts, cs: seq<Clause>, o: Outcome)
    requires forall c :: c in cs ==> HasClause(e, c)
    ensures forall c :: c in Select(e, pre, post, cs, o) <==> c in cs && ClauseOutcome(e, pre, post, c) == o
  {
    hide ClauseOutcome, HasClause;
    if cs != [] {
      var init, last := cs[..|cs| - 1], cs[|cs| - 1];
      SelectIs(e, pre, post, init, o);
      assert last in cs && forall c :: c in cs <==> c in init || c == last;
    }
  }

  function Uncovered(e: Envelope, categories: map<string, string>, es: seq<DeltaEntry>): (r: seq<string>)
    ensures forall k :: k in r <==> exists d :: d in es && d.key == k && !(d.category in e.allow || IsPredicted(k, PredictedKeys(e)))
  {
    if es == [] then []
    else
      var d := es[|es| - 1];
      assert es == es[..|es| - 1] + [d];
      Uncovered(e, categories, es[..|es| - 1])
        + if d.category in e.allow || IsPredicted(d.key, PredictedKeys(e)) then [] else [d.key]
  }

  ghost predicate IsAssertion(a: Assertion, e: Envelope, pre: Facts, post: Facts, categories: map<string, string>) {
    IsDelta(a.delta, pre, post, categories)
    && (forall c :: c in Clauses(e) ==> HasClause(e, c))
    && a.satisfied == Select(e, pre, post, Clauses(e), Satisfied)
    && a.violated == Select(e, pre, post, Clauses(e), Violated)
    && a.unresolved == Select(e, pre, post, Clauses(e), Unclear)
    && a.unclassified == Uncovered(e, categories, a.delta.Entries())
    && Some(a.status) == Verdict(e, pre, post, categories)
  }

  /** The states and the envelope leave an assertion no choice. */
  lemma AssertionUnique(a: Assertion, b: Assertion, e: Envelope, pre: Facts, post: Facts, categories: map<string, string>)
    requires IsAssertion(a, e, pre, post, categories) && IsAssertion(b, e, pre, post, categories)
    ensures a == b
  {
    DeltaUnique(a.delta, b.delta, pre, post, categories);
    hide IsDelta, Verdict, Clauses, ClauseOutcome, Select;
  }

  /** Evaluate every clause; stop without an answer when one raises. */
  method Classify(e: Envelope, pre: Facts, post: Facts, cs: seq<Clause>)
    returns (raised: bool, satisfied: seq<Clause>, violated: seq<Clause>, unresolved: seq<Clause>)
    requires forall c :: c in cs ==> HasClause(e, c)
    ensures raised <==> exists c :: c in cs && ClauseOutcome(e, pre, post, c).Escapes?
    ensures !raised ==>
      satisfied == Select(e, pre, post, cs, Satisfied) &&
      violated == Select(e, pre, post, cs, Violated) &&
      unresolved == Select(e, pre, post, cs, Unclear)
  {
    hide Bindings, OutcomeOf, Selected, Select, ClauseOutcome;
    var bindings := BuildBindings(pre, post);
    raised, satisfied, violated, unresolved := false, [], [], [];
    SelectNone(e, pre, post, cs);
    for n := 0 to |cs|
      invariant Selected(e, pre, post, cs, n, satisfied, violated, unresolved)
    {
      assert cs[n] in cs;
      SelectStep(e, pre, post, cs, n, satisfied, violated, unresolved);
      OutcomeIs(e, pre, post, cs[n]);
      match OutcomeOf(e, bindings, post, cs[n]) {
        case Satisfied => satisfied := satisfied + [cs[n]];
        case Violated => violated := violated + [cs[n]];
        case Unclear => unresolved := unresolved + [cs[n]];
        case Escapes(_) => raised := true; return;
      }
    }
    SelectAll(e, pre, post, cs, satisfied, violated, unresolved);
  }

  lemma OutcomeIs(e: Envelope, pre: Facts, post: Facts, c: Clause)
    requires HasClause(e, c)
    ensures OutcomeOf(e, Bindings(pre, post), post, c) == ClauseOutcome(e, pre, post, c)
  {
  }

  /** The three lists after the first `n` clauses, none of which raised. */
  predicate Selected(e: Envelope, pre: Facts, post: Facts, cs: seq<Clause>, n: nat,
                     satisfied: seq<Clause>, violated: seq<Clause>, unresolved: seq<Clause>)
    requires n <= |cs| && forall c :: c in cs ==> HasClause(e, c)
  {
    satisfied == Select(e, pre, post, cs[..n], Satisfied)
    && violated == Select(e, pre, post, cs[..n], Violated)
    && unresolved == Select(e, pre, post, cs[..n], Unclear)
    && forall i :: 0 <= i < n ==> (assert cs[i] in cs; !ClauseOutcome(e, pre, post, cs[i]).Escapes?)
  }

  lemma SelectNone(e: Envelope, pre: Facts, post: Facts, cs: seq<Clause>)
    requires forall c :: c in cs ==> HasClause(e, c)
    ensures Selected(e, pre, post, cs, 0, [], [], [])
  {
    assert cs[..0] == [];
    hide ClauseOutcome;
  }

  lemma {:induction false} SelectAll(e: Envelope, pre: Facts, post: Facts, cs: seq<Clause>,
                  satisfied: seq<Clause>, violated: seq<Clause>, unresolved: seq<Clause>)
    requires (forall c :: c in cs ==> HasClause(e, c)) && Selected(e, pre, post, cs, |cs|, satisfied, violated, unresolved)
    ensures forall c :: c in cs ==> !ClauseOutcome(e, pre, post, c).Escapes?
    ensures satisfied == Select(e, pre, post, cs, Satisfied) && violated == Select(e, pre, post, cs, Violated)
    ensures unresolved == Select(e, pre, post, cs, Unclear)
  {
    assert cs[..|cs|] == cs;
    hide ClauseOutcome, Select;
  }

  lemma {:induction false} SelectStep(e: Envelope, pre: Facts, post: Facts, cs: seq<Clause>, n: nat,
                   satisfied: seq<Clause>, violated: seq<Clause>, unresolved: seq<Clause>)
    requires n < |cs| && (forall c :: c in cs ==> HasClause(e, c)) && Selected(e, pre, post, cs, n, satisfied, violated, unresolved)
    requires cs[n] in cs
    ensures
      var o := ClauseOutcome(e, pre, post, cs[n]);
      !o.Escapes? ==> Selected(e, pre, post, cs, n + 1,
                               if o.Satisfied? then satisfied + [cs[n]] else satisfied,
                               if o.Violated? then violated + [cs[n]] else violated,
                               if o.Unclear? then unresolved + [cs[n]] else unresolved)
  {
    hide ClauseOutcome;
    assert cs[..n + 1][..n] == cs[..n] && cs[..n + 1][n] == cs[n];
  }

  method FindUncovered(e: Envelope, categories: map<string, string>, es: seq<DeltaEntry>) returns (r: seq<string>)
    ensures r == Uncovered(e, categories, es)
  {
    r := [];
    for n := 0 to |es|
      invariant r == Uncovered(e, categories, es[..n])
    {
      assert es[..n + 1][..n] == es[..n];
      if !(es[n].category in e.allow || IsPredicted(es[n].key, PredictedKeys(e))) {
        r := r + [es[n].key];
      }
    }
    assert es[..|es|] == es;
  }

  /** Assert a transition; `None` when evaluating a clause raises an exception the evaluator does not catch. */
  method AssertEnvelope(e: Envelope, pre: Facts, post: Facts, categories: map<string, string>) returns (r: Option<Assertion>)
    ensures r.Some? <==> Verdict(e, pre, post, categories).Some?
    ensures r.Some? ==> IsAssertion(r.get, e, pre, post, categories)
  {
    ClausesAll(e);
    hide ClauseOutcome, Differs, Covered, IsDelta, PredictedKeys, IsPredicted, Clauses, HasClause, Verdict;
    var raised, satisfied, violated, unresolved := Classify(e, pre, post, Clauses(e));
    RaisedVerdict(e, pre, post, categories);
    if raised {
      return None;
    }
    var delta := ComputeDelta(pre, post, categories);
    var unclassified := FindUncovered(e, categories, delta.Entries());
    var status :=
      if unresolved != [] then StIndeterminate
      else if violated != [] || unclassified != [] then StDisproven
      else StSatisfied;
    VerdictFromLists(e, pre, post, categories, delta);
    r := Some(Assertion(status, satisfied, violated, unresolved, unclassified, delta));
  }

  lemma RaisedVerdict(e: Envelope, pre: Facts, post: Facts, categories: map<string, string>)
    requires forall c :: c in Clauses(e) <==> HasClause(e, c)
    ensures Verdict(e, pre, post, categories).None? <==> exists c :: c in Clauses(e) && ClauseOutcome(e, pre, post, c).Escapes?
  {
    hide ClauseOutcome, Differs, Covered, Clauses, HasClause;
  }

  lemma {:induction false} VerdictFromLists(e: Envelope, pre: Facts, post: Facts, categories: map<string, string>, d: FactDelta)
    requires IsDelta(d, pre, post, categories)
    requires forall c :: c in Clauses(e) <==> HasClause(e, c)
    requires forall c :: HasClause(e, c) ==> !ClauseOutcome(e, pre, post, c).Escapes?
    ensures Verdict(e, pre, post, categories) == Some(
      if Select(e, pre, post, Clauses(e), Unclear) != [] then StIndeterminate
      else if Select(e, pre, post, Clauses(e), Violated) != [] || Uncovered(e, categories, d.Entries()) != [] then StDisproven
      else StSatisfied)
  {
    hide ClauseOutcome, Differs, Covered, Clauses, HasClause;
    NonemptySelect(e, pre, post, Unclear);
    NonemptySelect(e, pre, post, Violated);
    NonemptyUncovered(e, pre, post, categories, d);
  }

  lemma NonemptyUncovered(e: Envelope, pre: Facts, post: Facts, categories: map<string, string>, d: FactDelta)
    requires IsDelta(d, pre, post, categories)
    ensures Uncovered(e, categories, d.Entries()) != [] <==> exists k :: Differs(pre, post, k) && !Covered(e, categories, k)
  {
    DeltaEntries(d, pre, post, categories);
    var u := Uncovered(e, categories, d.Entries());
    if u != [] {
      assert u[0] in u;
    }
    forall k | Differs(pre, post, k) && !Covered(e, categories, k) ensures k in u {
      assert EntryFor(pre, post, categories, k) in d.Entries();
    }
  }

  lemma {:induction false} NonemptySelect(e: Envelope, pre: Facts, post: Facts, o: Outcome)
    requires forall c :: c in Clauses(e) <==> HasClause(e, c)
    ensures Select(e, pre, post, Clauses(e), o) != [] <==> exists c :: HasClause(e, c) && ClauseOutcome(e, pre, post, c) == o
  {
    hide ClauseOutcome, Clauses, HasClause;
    SelectIs(e, pre, post, Clauses(e), o);
    hide Select;
    var s := Select(e, pre, post, Clauses(e), o);
    if s != [] {
      assert s[0] in s;
    }
  }

  lemma {:induction false} AbsentScopeViolates(e: Envelope, pre: Facts, post: Facts, i: nat)
    requires i < |e.forbid|
    ensures e.forbid[i].scopeKey !in post ==> ClauseOutcome(e, pre, post, Forbid(i)) == Violated
  {
    hide Holds, Bindings;
  }

  /** The key's declared category, or "unclassified", is allowed by name, or the key lies under a predicted one. */
  predicate AccountedFor(e: Envelope, categories: map<string, string>, k: string) {
    (k in categories && categories[k] in e.allow)
    || (k !in categories && "unclassified" in e.allow)
    || exists p :: p in PredictedKeys(e) && Under(k, p)
  }

  lemma CoveredMeans(e: Envelope, categories: map<string, string>, k: string)
    ensures Covered(e, categories, k) <==> AccountedFor(e, categories, k)
  {
    PredictedByPath(k, PredictedKeys(e));
    hide IsPredicted, Under, PredictedKeys;
  }

  lemma SatisfiedByCoverage(e: Envelope, pre: Facts, post: Facts, categories: map<string, string>)
    ensures Verdict(e, pre, post, categories) == Some(StSatisfied) <==>
      (forall c :: HasClause(e, c) ==> ClauseOutcome(e, pre, post, c) == Satisfied)
      && (forall k :: Differs(pre, post, k) ==> Covered(e, categories, k))
  {
    hide ClauseOutcome, Differs, Covered;
    if Verdict(e, pre, post, categories) == Some(StSatisfied) {
      forall c | HasClause(e, c) ensures ClauseOutcome(e, pre, post, c) == Satisfied {
        var o := ClauseOutcome(e, pre, post, c);
        assert !o.Escapes? && !o.Unclear? && !o.Violated?;
      }
    }
  }

  /** Satisfied says exactly that every clause holds, over an observed scope, and every change is accounted for. */
  lemma SatisfiedExactly(e: Envelope, pre: Facts, post: Facts, categories: map<string, string>)
    ensures Verdict(e, pre, post, categories) == Some(StSatisfied) <==>
      (forall c :: HasClause(e, c) ==> ClauseOutcome(e, pre, post, c) == Satisfied)
      && (forall k :: Differs(pre, post, k) ==> AccountedFor(e, categories, k))
    ensures Verdict(e, pre, post, categories) == Some(StSatisfied) ==>
      forall i :: 0 <= i < |e.forbid| ==> e.forbid[i].scopeKey in post
  {
    SatisfiedByCoverage(e, pre, post, categories);
    hide ClauseOutcome, Differs, Covered, AccountedFor, Verdict;
    forall k ensures Covered(e, categories, k) <==> AccountedFor(e, categories, k) {
      CoveredMeans(e, categories, k);
    }
    if Verdict(e, pre, post, categories) == Some(StSatisfied) {
      forall i | 0 <= i < |e.forbid| ensures e.forbid[i].scopeKey in post {
        assert ClauseOutcome(e, pre, post, Forbid(i)) == Satisfied;
        AbsentScopeViolates(e, pre, post, i);
      }
    }
  }

  /**
   With a category map taken from the pre state only, as the executor takes it, a satisfied
   verdict leaves no added key unpredicted, unless the envelope allows "unclassified" by name.
   */
  lemma AddedKeysArePredicted(e: Envelope, pre: Facts, post: Facts, categories: map<string, string>, k: string)
    requires categories.Keys == pre.Keys
    requires Verdict(e, pre, post, categories) == Some(StSatisfied)
    requires k in post && k !in pre
    ensures "unclassified" in e.allow || exists p :: p in PredictedKeys(e) && Under(k, p)
  {
    SatisfiedExactly(e, pre, post, categories);
    assert Differs(pre, post, k);
    hide Verdict, ClauseOutcome, Under, PredictedKeys;
    assert AccountedFor(e, categories, k);
  }

  /**
   An assertion with an answer is indeterminate exactly when some clause is unresolved, whatever else is violated, and
   disproven exactly when none is, but some clause is violated or some change is not accounted for.
   */
  lemma NotSatisfiedExactly(e: Envelope, pre: Facts, post: Facts, categories: map<string, string>)
    requires forall c :: HasClause(e, c) ==> !ClauseOutcome(e, pre, post, c).Escapes?
    ensures Verdict(e, pre, post, categories) == Some(StIndeterminate) <==>
      exists c :: HasClause(e, c) && ClauseOutcome(e, pre, post, c) == Unclear
    ensures Verdict(e, pre, post, categories) == Some(StDisproven) <==>
      (forall c :: HasClause(e, c) ==> ClauseOutcome(e, pre, post, c) != Unclear)
      && ((exists c :: HasClause(e, c) && ClauseOutcome(e, pre, post, c) == Violated)
          || exists k :: Differs(pre, post, k) && !AccountedFor(e, categories, k))
  {
    forall k ensures Covered(e, categories, k) <==> AccountedFor(e, categories, k) {
      CoveredMeans(e, categories, k);
    }
    hide ClauseOutcome, Differs, Covered, AccountedFor, HasClause;
  }

  /**
   What each outcome of a clause means: satisfied and violated are evaluations, to something true and to something false;
   an absent reference or a type error leaves the clause unresolved.
   */
  lemma {:induction false} ClauseMeans(e: Envelope, pre: Facts, post: Facts, c: Clause)
    requires HasClause(e, c) && Evaluated(e, post, c)
    ensures
      var (o, r) := (ClauseOutcome(e, pre, post, c), Eval(TestOf(e, c), ClauseBindings(e, pre, post, c)));
      && (o == Satisfied <==> r.Ok? && Truthy(r.value))
      && (o == Violated <==> r.Ok? && !Truthy(r.value))
      && (o == Unclear <==> r == Err(Unresolved) || r == Err(Failed))
      && (o == Escapes(Uncaught) <==> r == Err(Uncaught)) && (o == Escapes(Unmodelled) <==> r == Err(Unmodelled))
  {
    hide Eval, Bindings, ClauseOutcome, ClauseBindings, TestOf;
    OutcomeIsHolds(e, pre, post, c);
  }

  /** A forbid clause is read with its scope's value and key bound besides, every other clause in the plain bindings. */
  lemma {:induction false} ClauseBindingsMean(e: Envelope, pre: Facts, post: Facts, c: Clause)
    requires HasClause(e, c) && Evaluated(e, post, c)
    ensures !c.Forbid? ==> ClauseBindings(e, pre, post, c) == Bindings(pre, post)
    ensures c.Forbid? ==>
      && Get(ClauseBindings(e, pre, post, c), "scope") == Some(post[e.forbid[c.i].scopeKey])
      && Get(ClauseBindings(e, pre, post, c), "scope_key") == Some(VStr(e.forbid[c.i].scopeKey))
      && forall k :: k != "scope" && k != "scope_key" ==> Get(ClauseBindings(e, pre, post, c), k) == Get(Bindings(pre, post), k)
  {
    hide Bindings;
    if c.Forbid? {
      ScopeBindingsMean(Bindings(pre, post), e.forbid[c.i].scopeKey, post[e.forbid[c.i].scopeKey]);
    }
    hide ScopeBindings;
  }

  lemma ScopeBindingsMean(b: Facts, key: string, value: Value)
    ensures Get(ScopeBindings(b, key, value), "scope") == Some(value) && Get(ScopeBindings(b, key, value), "scope_key") == Some(VStr(key))
    ensures forall k :: k != "scope" && k != "scope_key" ==> Get(ScopeBindings(b, key, value), k) == Get(b, k)
  {
    assert "scope" != "scope_key" by { assert |"scope"| != |"scope_key"|; }
  }

  /** A key is predicted by the fact of a require clause, and by the post facts that require and derive clauses refer to; by nothing else. */
  lemma PredictedExactly(e: Envelope, k: string)
    ensures k in PredictedKeys(e) <==>
      || (exists i :: 0 <= i < |e.require| && (k == e.require[i].factKey || k in PostSideKeys(e.require[i].test)))
      || (exists i :: 0 <= i < |e.derive| && k in PostSideKeys(e.derive[i]))
    ensures k in NormalizedKeys(e) <==>
      k in PredictedKeys(e)
      || exists i :: 0 <= i < |e.forbid| && (k == e.forbid[i].scopeKey || k in PostSideKeys(e.forbid[i].test))
  {
    RequireKeysFrom(e.require, k);
    DeriveKeysFrom(e.derive, k);
    ForbidKeysFrom(e.forbid, k);
    hide PostSideKeys;
  }

  lemma {:induction false} RequireKeysFrom(cs: seq<RequireClause>, k: string)
    ensures k in RequireKeys(cs) <==> exists i :: 0 <= i < |cs| && (k == cs[i].factKey || k in PostSideKeys(cs[i].test))
  {
    hide PostSideKeys;
    if cs != [] {
      RequireKeysFrom(cs[1..], k);
      assert forall i :: 0 <= i < |cs| - 1 ==> cs[1..][i] == cs[i + 1];
    }
  }

  lemma {:induction false} DeriveKeysFrom(ps: seq<Predicate>, k: string)
    ensures k in DeriveKeys(ps) <==> exists i :: 0 <= i < |ps| && k in PostSideKeys(ps[i])
  {
    hide PostSideKeys;
    if ps != [] {
      DeriveKeysFrom(ps[1..], k);
      assert forall i :: 0 <= i < |ps| - 1 ==> ps[1..][i] == ps[i + 1];
    }
  }

  lemma {:induction false} ForbidKeysFrom(cs: seq<ForbidClause>, k: string)
    ensures k in ForbidKeys(cs) <==> exists i :: 0 <= i < |cs| && (k == cs[i].scopeKey || k in PostSideKeys(cs[i].test))
  {
    hide PostSideKeys;
    if cs != [] {
      ForbidKeysFrom(cs[1..], k);
      assert forall i :: 0 <= i < |cs| - 1 ==> cs[1..][i] == cs[i + 1];
    }
  }

  /** The post-side keys of a predicate are those its references name under `post` or `facts`. */
  lemma {:induction false} PostSideExactly(paths: seq<string>, k: string)
    ensures k in PostSide(paths) <==> "post." + k in paths || "facts." + k in paths
  {
    if paths != [] {
      PostSideExactly(paths[1..], k);
      assert paths == [paths[0]] + paths[1..];
      assert ("post." + k)[5..] == k && ("facts." + k)[6..] == k;
      assert "post." <= paths[0] ==> paths[0] == "post." + paths[0][5..];
      assert "facts." <= paths[0] ==> paths[0] == "facts." + paths[0][6..];
      assert !("post." <= paths[0] && "facts." <= paths[0]) by { assert "post."[0] != "facts."[0]; }
    }
  }

  /** What each list of a delta holds: the keys on both sides with unequal values, on the post side only, on the pre side only. */
  lemma DeltaKinds(d: FactDelta, pre: Facts, post: Facts, categories: map<string, string>, k: string)
    requires IsDelta(d, pre, post, categories)
    ensures k in KeysOf(d.changed) <==> k in pre && k in post && !PyEq(pre[k], post[k])
    ensures k in KeysOf(d.added) <==> k !in pre && k in post
    ensures k in KeysOf(d.removed) <==> k in pre && k !in post
    ensures forall x :: x in d.Entries() ==>
      x.before == Get(pre, x.key) && x.after == Get(post, x.key)
      && x.category == if x.key in categories then categories[x.key] else "unclassified"
  {
    KeysListed(d.changed, Changed, pre, post, categories);
    KeysListed(d.added, Added, pre, post, categories);
    KeysListed(d.removed, Removed, pre, post, categories);
    DeltaEntries(d, pre, post, categories);
    hide Lists, IsDelta, T.Leq, PyEq;
  }

  // ----- when there is no answer -----

  function TestOf(e: Envelope, c: Clause): Predicate
    requires HasClause(e, c)
  {
    match c
    case Require(i) => e.require[i].test
    case Derive(i) => e.derive[i]
    case Forbid(i) => e.forbid[i].test
  }

  /** A forbid clause is evaluated only over a scope that is there. */
  predicate Evaluated(e: Envelope, post: Facts, c: Clause)
    requires HasClause(e, c)
  {
    c.Forbid? ==> e.forbid[c.i].scopeKey in post
  }

  function ClauseBindings(e: Envelope, pre: Facts, post: Facts, c: Clause): Facts
    requires HasClause(e, c) && Evaluated(e, post, c)
  {
    if c.Forbid? then ScopeBindings(Bindings(pre, post), e.forbid[c.i].scopeKey, post[e.forbid[c.i].scopeKey]) else Bindings(pre, post)
  }

  /** Evaluating the clause comes to a repetition or a formatting that raises what the evaluator does not catch. */
  predicate ClauseRaises(e: Envelope, pre: Facts, post: Facts, c: Clause)
    requires HasClause(e, c)
  {
    Evaluated(e, post, c)
    && var b := ClauseBindings(e, pre, post, c); Paths.AnyRaises(Paths.Visited(TestOf(e, c), b), b)
  }

  lemma OutcomeIsHolds(e: Envelope, pre: Facts, post: Facts, c: Clause)
    requires HasClause(e, c)
    ensures ClauseOutcome(e, pre, post, c) ==
      if Evaluated(e, post, c) then Holds(TestOf(e, c), ClauseBindings(e, pre, post, c)) else Violated
  {
    hide Holds, Bindings;
  }

  lemma {:induction false} RaisesExactly(e: Envelope, pre: Facts, post: Facts, c: Clause)
    requires HasClause(e, c)
    ensures ClauseOutcome(e, pre, post, c) == Escapes(Uncaught) <==> ClauseRaises(e, pre, post, c)
  {
    hide Eval, Bindings, Paths.AnyRaises, Paths.Visited, ClauseOutcome, ClauseBindings;
    OutcomeIsHolds(e, pre, post, c);
    if Evaluated(e, post, c) {
      Paths.UncaughtExactly(TestOf(e, c), ClauseBindings(e, pre, post, c));
    }
  }

  lemma EscapesOneWay(e: Envelope, pre: Facts, post: Facts, c: Clause)
    requires HasClause(e, c)
    ensures ClauseOutcome(e, pre, post, c).Escapes? ==>
      ClauseOutcome(e, pre, post, c) == Escapes(Uncaught) || ClauseOutcome(e, pre, post, c) == Escapes(Unmodelled)
  {
    hide Eval, Bindings, ClauseOutcome, ClauseBindings;
    OutcomeIsHolds(e, pre, post, c);
  }

  /**
   Assertion is documented as total. It has no answer exactly when some clause's evaluation comes to a repetition over the
   size limit or to a formatting that raises, or leaves the model.
   */
  lemma NoAnswerExactly(e: Envelope, pre: Facts, post: Facts, categories: map<string, string>)
    ensures Verdict(e, pre, post, categories).None? <==>
      exists c :: HasClause(e, c) && (ClauseRaises(e, pre, post, c) || ClauseOutcome(e, pre, post, c) == Escapes(Unmodelled))
  {
    hide ClauseOutcome, ClauseRaises, Differs, Covered, HasClause;
    forall c | HasClause(e, c)
      ensures ClauseOutcome(e, pre, post, c).Escapes? <==>
        ClauseRaises(e, pre, post, c) || ClauseOutcome(e, pre, post, c) == Escapes(Unmodelled)
    {
      RaisesExactly(e, pre, post, c);
      EscapesOneWay(e, pre, post, c);
    }
  }

  predicate TameEnvelope(e: Envelope) {
    (forall i :: 0 <= i < |e.require| ==> Paths.Tame(e.require[i].test))
    && (forall i :: 0 <= i < |e.derive| ==> Paths.Tame(e.derive[i]))
    && (forall i :: 0 <= i < |e.forbid| ==> Paths.Tame(e.forbid[i].test))
  }

  /** The documented totality, for envelopes that by their looks repeat and format nothing. */
  lemma {:induction false} TameAssertionIsTotal(e: Envelope, pre: Facts, post: Facts, categories: map<string, string>)
    requires TameEnvelope(e)
    ensures Verdict(e, pre, post, categories).Some?
  {
    hide ClauseOutcome, Differs, Covered, HasClause;
    forall c | HasClause(e, c) ensures !ClauseOutcome(e, pre, post, c).Escapes? {
      TameClause(e, pre, post, c);
    }
  }

  lemma {:induction false} TameClause(e: Envelope, pre: Facts, post: Facts, c: Clause)
    requires TameEnvelope(e) && HasClause(e, c)
    ensures !ClauseOutcome(e, pre, post, c).Escapes?
  {
    hide Eval, Bindings, ClauseBindings, Paths.Tame, ClauseOutcome;
    OutcomeIsHolds(e, pre, post, c);
    if Evaluated(e, post, c) {
      Paths.TameIsCaught(TestOf(e, c), ClauseBindings(e, pre, post, c));
    }
  }

  // ----- envelopes without an answer -----

  /** `u op v == ''` */
  function OperationTest(op: BinOp, u: Predicate, v: Predicate): Predicate {
    var right := Const(VStr(""));
    assert InSubset(right) && [right][1..] == [];
    var first := Bin(Some(op), u, v);
    assert AllInSubset([right]) && InSubset(first);
    Cmp(first, [Eq], [right])
  }

  function PostFact(k: string): (n: Predicate)
    ensures Dotted(n) == Some("post." + k) && n.Attr?
  {
    var post := Name("post");
    assert InSubset(post) && Dotted(post) == Some("post") && "post" + "." + k == "post." + k;
    Attr(post, k)
  }

  lemma {:induction false} PostFactValue(pre: Facts, post: Facts, k: string)
    requires k in post
    ensures Eval(PostFact(k), Bindings(pre, post)) == Ok(post[k])
  {
    assert POST + k == "post." + k && (POST + k)[|POST|..] == k;
    BindingsAt(pre, post, POST + k);
    hide Bindings;
    assert Eval(PostFact(k), Bindings(pre, post)) == Lookup(POST + k, Bindings(pre, post));
  }

  lemma OperationTestRaises(op: BinOp, u: Predicate, v: Predicate, b: Facts)
    requires Eval(u, b).Ok? && Eval(v, b).Ok?
    ensures Holds(OperationTest(op, u, v), b) == Escapes(Uncaught) <==> Paths.Raises(op, Eval(u, b).value, Eval(v, b).value)
  {
    var first := Bin(Some(op), u, v);
    var r := Arith(op, Eval(u, b).value, Eval(v, b).value);
    hide Arith, Paths.Raises, PyEq;
    assert Eval(first, b) == r;
    Paths.ArithRaises(op, Eval(u, b).value, Eval(v, b).value);
    if r.Ok? {
      EmptyTextLink(r.value, b);
    }
    hide EvalLinks;
  }

  lemma EmptyTextLink(v: Value, b: Facts)
    ensures EvalLinks(v, [Eq], [Const(VStr(""))], b) == Ok(PyEq(v, VStr("")))
  {
    assert [Eq][1..] == [] && [Const(VStr(""))][1..] == [];
    hide PyEq;
  }

  /** `post.k * n == ''`, over a string fact: it raises exactly when the repetition is over the size limit. */
  lemma {:induction false} RepetitionRaisesExactly(pre: Facts, post: Facts, k: string, n: int)
    requires k in post && post[k].VStr?
    ensures Holds(OperationTest(Mult, PostFact(k), Const(VInt(n))), Bindings(pre, post)) == Escapes(Uncaught) <==> Oversized(|post[k].s|, n)
  {
    hide Bindings, Eval, Holds, OperationTest, PostFact;
    PostFactValue(pre, post, k);
    EvalConst(VInt(n), Bindings(pre, post));
    OperationTestRaises(Mult, PostFact(k), Const(VInt(n)), Bindings(pre, post));
  }

  lemma EvalConst(v: Value, b: Facts)
    requires Scalar(v)
    ensures Eval(Const(v), b) == Ok(v)
  {
  }

  /** `'%(x)s' % post.k == ''`, over a map fact: it raises exactly when the map has no `x`. */
  lemma {:induction false} FormattingRaisesExactly(pre: Facts, post: Facts, k: string)
    requires k in post && post[k].VMap?
    ensures Holds(OperationTest(Mod, Const(VStr("%(x)s")), PostFact(k)), Bindings(pre, post)) == Escapes(Uncaught) <==> "x" !in post[k].m
  {
    hide Bindings, Eval, Holds, OperationTest, PostFact, Printf.Format;
    PostFactValue(pre, post, k);
    EvalConst(VStr("%(x)s"), Bindings(pre, post));
    OperationTestRaises(Mod, Const(VStr("%(x)s")), PostFact(k), Bindings(pre, post));
    KeyedRaises(post[k]);
  }

  lemma ShownNeverRaises()
    ensures forall a :: Printf.TextOf('s', a) != Printf.Escaped
  {
  }

  lemma KeyedRaises(v: Value)
    requires v.VMap?
    ensures Printf.Format("%(x)s", OperandOf(v)) == Printf.Escaped <==> "x" !in v.m
  {
    hide Printf.Format, Printf.TextOf;
    assert "%(" + "x" + ")s" == "%(x)s";
    Printf.KeyedConversion("x", OperandOf(v));
    ShownNeverRaises();
  }

  /** So the assertion of an envelope with such a clause has no answer, where it is documented to be total. */
  lemma AssertionCanRaise(e: Envelope, pre: Facts, post: Facts, categories: map<string, string>, k: string, n: int, i: nat)
    requires i < |e.require| && e.require[i].test == OperationTest(Mult, PostFact(k), Const(VInt(n)))
    requires k in post && post[k].VStr? && Oversized(|post[k].s|, n)
    ensures Verdict(e, pre, post, categories) == None
  {
    RepetitionRaisesExactly(pre, post, k, n);
    hide Holds, Bindings, OperationTest;
    assert HasClause(e, Require(i));
    assert ClauseOutcome(e, pre, post, Require(i)) == Escapes(Uncaught);
  }
}
