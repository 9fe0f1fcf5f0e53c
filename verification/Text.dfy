/** Strings: code-point order, sorting, and splitting and joining at one character. */
module Text {

  /** A case folding. */
  type Fold = string -> string

  /** A digest, written in hexadecimal. */
  type Sha = string -> string

  predicate Hex64(s: string) {
    |s| == 64 && forall i :: 0 <= i < 64 ==> '0' <= s[i] <= '9' || 'a' <= s[i] <= 'f'
  }

  lemma Assoc<T>(a: seq<T>, b: seq<T>, c: seq<T>)
    ensures a + b + c == a + (b + c)
  {
  }

  /** Lexicographic order by code point, the order of Python's `sorted` on strings. */
  predicate Leq(a: string, b: string) {
    a == [] || (b != [] && (a[0] < b[0] || (a[0] == b[0] && Leq(a[1..], b[1..]))))
  }

  lemma {:induction false} LeqTotal(a: string, b: string)
    ensures Leq(a, b) || Leq(b, a)
  {
    if a != [] && b != [] && a[0] == b[0] {
      LeqTotal(a[1..], b[1..]);
    }
  }

  lemma {:induction false} LeqAntisymmetric(a: string, b: string)
    requires Leq(a, b) && Leq(b, a)
    ensures a == b
  {
    if a != [] && b != [] {
      LeqAntisymmetric(a[1..], b[1..]);
      assert a == [a[0]] + a[1..] && b == [b[0]] + b[1..];
    }
  }

  lemma {:induction false} LeqTransitive(a: string, b: string, c: string)
    requires Leq(a, b) && Leq(b, c)
    ensures Leq(a, c)
  {
    if a != [] && a[0] == b[0] && b[0] == c[0] {
      LeqTransitive(a[1..], b[1..], c[1..]);
    }
  }

  predicate Sorted(s: seq<string>) {
    forall i, j :: 0 <= i < j < |s| ==> Leq(s[i], s[j])
  }

  predicate Distinct<T(==)>(s: seq<T>) {
    forall i, j :: 0 <= i < j < |s| ==> s[i] != s[j]
  }

  /** Put `x` at its place in a sorted list. */
  function Insert(x: string, s: seq<string>): (r: seq<string>)
    requires Sorted(s)
    ensures Sorted(r)
    ensures multiset(r) == multiset(s) + multiset{x}
  {
    if s == [] then [x]
    else if Leq(x, s[0]) then
      SortedInFront(x, s);
      [x] + s
    else
      var rest := Insert(x, s[1..]);
      SortedBehind(x, s, rest);
      [s[0]] + rest
  }

  lemma SortedInFront(x: string, s: seq<string>)
    requires Sorted(s) && s != [] && Leq(x, s[0])
    ensures Sorted([x] + s)
    ensures multiset([x] + s) == multiset(s) + multiset{x}
  {
    hide Leq;
    forall j | 0 <= j < |s| ensures Leq(x, s[j]) {
      if j > 0 { LeqTransitive(x, s[0], s[j]); }
    }
  }

  lemma SortedBehind(x: string, s: seq<string>, rest: seq<string>)
    requires Sorted(s) && s != [] && !Leq(x, s[0])
    requires Sorted(rest) && multiset(rest) == multiset(s[1..]) + multiset{x}
    ensures Sorted([s[0]] + rest)
    ensures multiset([s[0]] + rest) == multiset(s) + multiset{x}
  {
    LeqTotal(x, s[0]);
    hide Leq;
    assert s == [s[0]] + s[1..];
    forall j | 0 <= j < |rest| ensures Leq(s[0], rest[j]) {
      assert rest[j] in multiset(rest);
      if rest[j] != x {
        assert rest[j] in multiset(s[1..]) && rest[j] in s[1..];
      }
    }
  }

  /** Python's `sorted` on a list of strings. */
  function Sort(s: seq<string>): (r: seq<string>)
    ensures Sorted(r)
    ensures multiset(r) == multiset(s)
  {
    if s == [] then [] else
      assert s == [s[0]] + s[1..];
      Insert(s[0], Sort(s[1..]))
  }

  lemma SortedHead(s: seq<string>, y: string)
    requires Sorted(s) && y in s
    ensures Leq(s[0], y)
  {
    LeqTotal(y, y);
  }

  lemma {:induction false} SortedUnique(a: seq<string>, b: seq<string>)
    requires Sorted(a) && Sorted(b) && multiset(a) == multiset(b)
    ensures a == b
  {
    hide Leq, Sorted;
    assert |a| == |multiset(a)| && |b| == |multiset(b)|;
    if a != [] {
      assert a[0] in multiset(b) && b[0] in multiset(a);
      SortedHead(b, a[0]);
      SortedHead(a, b[0]);
      LeqAntisymmetric(a[0], b[0]);
      TailMultiset(a);
      TailMultiset(b);
      TailSorted(a);
      TailSorted(b);
      SortedUnique(a[1..], b[1..]);
      assert a == [a[0]] + a[1..] && b == [b[0]] + b[1..];
    }
  }

  /** A sorted list without repetitions is determined by what is in it. */
  lemma {:induction false} SortedDistinctUnique(a: seq<string>, b: seq<string>)
    requires Sorted(a) && Sorted(b) && Distinct(a) && Distinct(b)
    requires forall k :: k in a <==> k in b
    ensures a == b
  {
    hide Leq, Sorted;
    assert b != [] ==> b[0] in b && b[0] in a;
    if a != [] {
      assert a[0] in b && b[0] in a;
      HeadLeast(a, b[0]);
      HeadLeast(b, a[0]);
      LeqAntisymmetric(a[0], b[0]);
      TailSorted(a);
      TailSorted(b);
      forall k ensures k in a[1..] <==> k in b[1..] {
        DistinctTail(a, k);
        DistinctTail(b, k);
      }
      assert Distinct(a[1..]) && Distinct(b[1..]);
      SortedDistinctUnique(a[1..], b[1..]);
      assert a == [a[0]] + a[1..] && b == [b[0]] + b[1..];
    }
  }

  lemma DistinctTail(s: seq<string>, k: string)
    requires s != [] && Distinct(s)
    ensures k in s[1..] <==> k in s && k != s[0]
  {
    if k in s && k != s[0] {
      var i :| 0 <= i < |s| && s[i] == k;
      assert s[1..][i - 1] == k;
    }
  }

  lemma HeadLeast(s: seq<string>, k: string)
    requires Sorted(s) && k in s
    ensures s != [] && Leq(s[0], k)
  {
    var i :| 0 <= i < |s| && s[i] == k;
    LeqTotal(k, k);
    hide Leq;
  }

  lemma TailMultiset(s: seq<string>)
    requires s != []
    ensures multiset(s[1..]) == multiset(s) - multiset{s[0]}
  {
    assert s == [s[0]] + s[1..];
  }

  lemma TailSorted(s: seq<string>)
    requires Sorted(s) && s != []
    ensures Sorted(s[1..])
  {
    hide Leq;
  }

  lemma {:induction false} InsertDistinct(x: string, s: seq<string>)
    requires Sorted(s) && Distinct(s) && x !in s
    ensures Distinct(Insert(x, s))
    ensures forall y :: y in Insert(x, s) <==> y == x || y in s
  {
    hide Leq, Sorted;
    if s == [] {
      assert Insert(x, s) == [x];
    } else if Leq(x, s[0]) {
      assert Insert(x, s) == [x] + s;
    } else {
      assert Sorted(s[1..]) by { TailSorted(s); }
      InsertDistinct(x, s[1..]);
      var rest := Insert(x, s[1..]);
      assert Insert(x, s) == [s[0]] + rest;
      assert s == [s[0]] + s[1..] && s[0] !in rest;
    }
  }

  /** The keys of a set in order, as `sorted(set)` gives them. */
  method SortKeys(keys: set<string>) returns (r: seq<string>)
    ensures Sorted(r) && Distinct(r)
    ensures forall k :: k in r <==> k in keys
  {
    r := [];
    var left := keys;
    while left != {}
      invariant left <= keys
      invariant Sorted(r) && Distinct(r)
      invariant forall k :: k in r <==> k in keys && k !in left
      decreases left
    {
      var k :| k in left;
      InsertDistinct(k, r);
      r := Insert(k, r);
      left := left - {k};
    }
  }

  // ----- splitting and joining at one character -----

  predicate Free(s: string, c: char) {
    c !in s
  }

  function Split(s: string, c: char): (r: seq<string>)
    ensures r != []
    ensures forall p :: p in r ==> Free(p, c)
  {
    if s == [] then [[]]
    else
      var rest := Split(s[1..], c);
      if s[0] == c then [[]] + rest
      else
        assert rest[0] in rest;
        [[s[0]] + rest[0]] + rest[1..]
  }

  function Join(parts: seq<string>, c: char): string {
    if parts == [] then []
    else if |parts| == 1 then parts[0]
    else parts[0] + [c] + Join(parts[1..], c)
  }

  /** Nothing is lost by carrying a text as its lines. */
  lemma {:induction false} JoinSplit(s: string, c: char)
    ensures Join(Split(s, c), c) == s
  {
    if s != [] {
      JoinSplit(s[1..], c);
      var rest := Split(s[1..], c);
      assert s == [s[0]] + s[1..];
      if s[0] == c {
        assert Split(s, c) == [[]] + rest;
        hide Split;
        JoinAfterEmpty(rest, c);
      } else {
        assert Split(s, c) == [[s[0]] + rest[0]] + rest[1..];
        hide Split;
        JoinPush([s[0]], rest, c);
      }
    }
  }

  lemma JoinAfterEmpty(parts: seq<string>, c: char)
    requires parts != []
    ensures Join([[]] + parts, c) == [c] + Join(parts, c)
  {
    assert ([[]] + parts)[1..] == parts;
  }

  lemma JoinPush(x: string, parts: seq<string>, c: char)
    requires parts != []
    ensures Join([x + parts[0]] + parts[1..], c) == x + Join(parts, c)
  {
    var r := [x + parts[0]] + parts[1..];
    assert r[1..] == parts[1..];
    if |parts| > 1 {
      assert x + (parts[0] + [c] + Join(parts[1..], c)) == (x + parts[0]) + [c] + Join(parts[1..], c);
    }
  }

  lemma {:induction false} SplitFree(p: string, c: char)
    requires Free(p, c)
    ensures Split(p, c) == [p]
  {
    if p != [] {
      SplitFree(p[1..], c);
      assert [p[0]] + p[1..] == p;
    }
  }

  lemma {:induction false} SplitAt(p: string, c: char, s: string)
    requires Free(p, c)
    ensures Split(p + [c] + s, c) == [p] + Split(s, c)
  {
    var t := p + [c] + s;
    if p == [] {
      assert t[1..] == s;
    } else {
      SplitAt(p[1..], c, s);
      assert t[1..] == p[1..] + [c] + s;
      assert [p[0]] + p[1..] == p;
      assert ([p[1..]] + Split(s, c))[1..] == Split(s, c);
    }
  }

  /** Splitting around a separator splits both sides. */
  lemma {:induction false} SplitConcat(p: string, c: char, s: string)
    ensures Split(p + [c] + s, c) == Split(p, c) + Split(s, c)
  {
    var t := p + [c] + s;
    SplitHead(t, c);
    if p == [] {
      assert t[1..] == s;
      assert Split(p, c) == [[]];
    } else {
      SplitHead(p, c);
      hide Split;
      SplitConcat(p[1..], c, s);
      assert t[1..] == p[1..] + [c] + s && t[0] == p[0];
      SplitGrows(p[0], c, Split(p[1..], c), Split(s, c));
    }
  }

  lemma SplitGrows(x: char, c: char, a: seq<string>, b: seq<string>)
    requires a != []
    ensures [[]] + (a + b) == ([[]] + a) + b
    ensures [[x] + (a + b)[0]] + (a + b)[1..] == ([[x] + a[0]] + a[1..]) + b
  {
    assert (a + b)[0] == a[0] && (a + b)[1..] == a[1..] + b;
  }

  lemma SplitHead(s: string, c: char)
    requires s != []
    ensures Split(s, c) == var rest := Split(s[1..], c); if s[0] == c then [[]] + rest else [[s[0]] + rest[0]] + rest[1..]
  {
  }

  lemma {:induction false} JoinConcat(a: seq<string>, b: seq<string>, c: char)
    requires a != [] && b != []
    ensures Join(a + b, c) == Join(a, c) + [c] + Join(b, c)
  {
    if |a| == 1 {
      assert (a + b)[1..] == b;
    } else {
      JoinConcat(a[1..], b, c);
      assert (a + b)[1..] == a[1..] + b;
      assert a[0] + [c] + (Join(a[1..], c) + [c] + Join(b, c)) == a[0] + [c] + Join(a[1..], c) + [c] + Join(b, c);
    }
  }

  /** `k` is `p`, or continues it after a separator, exactly when the parts of `p` are the first parts of `k`. */
  lemma PartsPrefix(p: string, k: string, c: char)
    ensures k == p || p + [c] <= k <==> Split(p, c) <= Split(k, c)
  {
    if p + [c] <= k {
      var s := k[|p| + 1..];
      assert k == p + [c] + s;
      SplitConcat(p, c, s);
    }
    if Split(p, c) <= Split(k, c) {
      var rest := Split(k, c)[|Split(p, c)|..];
      assert Split(k, c) == Split(p, c) + rest;
      JoinSplit(p, c);
      JoinSplit(k, c);
      hide Split, Join;
      if rest != [] {
        JoinConcat(Split(p, c), rest, c);
        assert k == p + [c] + Join(rest, c);
      } else {
        assert Split(p, c) + rest == Split(p, c);
      }
    }
  }

  lemma {:induction false} SplitJoin(parts: seq<string>, c: char)
    requires parts != []
    requires forall p :: p in parts ==> Free(p, c)
    ensures Split(Join(parts, c), c) == parts
  {
    if |parts| == 1 {
      SplitFree(parts[0], c);
    } else {
      SplitJoin(parts[1..], c);
      SplitAt(parts[0], c, Join(parts[1..], c));
      assert parts == [parts[0]] + parts[1..];
    }
  }

  /** Joining is injective on lists of nonempty parts that are free of the separator. */
  lemma JoinInjective(a: seq<string>, b: seq<string>, c: char)
    requires forall p :: p in a ==> p != "" && Free(p, c)
    requires forall p :: p in b ==> p != "" && Free(p, c)
    requires Join(a, c) == Join(b, c)
    ensures a == b
  {
    if a != [] && b != [] {
      SplitJoin(a, c);
      SplitJoin(b, c);
    } else {
      JoinEmpty(a, c);
      JoinEmpty(b, c);
    }
  }

  lemma JoinEmpty(a: seq<string>, c: char)
    requires forall p :: p in a ==> p != ""
    ensures Join(a, c) == "" <==> a == []
  {
    if a != [] {
      assert a[0] in a;
    }
  }

  // ----- whitespace -----

  /** Python's `str.isspace` for one character. */
  predicate IsSpace(c: char) {
    var n := c as int;
    9 <= n <= 13 || 28 <= n <= 32 || n == 0x85 || n == 0xa0 || n == 0x1680 || 0x2000 <= n <= 0x200a
    || n == 0x2028 || n == 0x2029 || n == 0x202f || n == 0x205f || n == 0x3000
  }

  predicate Trimmed(s: string) {
    s == "" || (!IsSpace(s[0]) && !IsSpace(s[|s| - 1]))
  }

  /** Python's `str.strip`. */
  function Strip(s: string): (r: string)
    ensures Trimmed(r)
    ensures Trimmed(s) ==> r == s
    ensures |r| <= |s|
    decreases |s|
  {
    if s == "" then s
    else if IsSpace(s[0]) then Strip(s[1..])
    else if IsSpace(s[|s| - 1]) then Strip(s[..|s| - 1])
    else s
  }

  /** Python's `str.find` from a position; -1 when the character does not occur there or later. */
  function Find(s: string, c: char, from: nat): (r: int)
    requires from <= |s|
    ensures r == -1 || from <= r < |s|
    ensures r == -1 ==> c !in s[from..]
    ensures r >= 0 ==> s[r] == c && c !in s[from..r]
    decreases |s| - from
  {
    if from == |s| then -1
    else if s[from] == c then from
    else
      var r := Find(s, c, from + 1);
      assert s[from..] == [s[from]] + s[from + 1..];
      assert r >= 0 ==> s[from..r] == [s[from]] + s[from + 1..r];
      r
  }

  lemma {:induction false} FindAt(line: string, c: char, from: nat, at: nat)
    requires from <= at < |line| && line[at] == c && forall i :: from <= i < at ==> line[i] != c
    ensures Find(line, c, from) == at
    decreases at - from
  {
    if from < at {
      FindAt(line, c, from + 1, at);
    }
  }
}
