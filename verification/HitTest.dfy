/** The hit test of the scripted desktop: an explicit stack over a tree of elements. */
module HitTest {
  import opened Options

  datatype Rect = Rect(left: int, top: int, right: int, bottom: int) {
    predicate Contains(x: int, y: int) {
      left <= x < right && top <= y < bottom
    }
  }

  /** A rectangle holds its left and top edges but not its right and bottom ones, and all between. */
  lemma RectLaws(r: Rect, x: int, y: int)
    ensures r.Contains(r.left, r.top) <==> r.left < r.right && r.top < r.bottom
    ensures !r.Contains(r.right, y) && !r.Contains(x, r.bottom) && !r.Contains(r.left - 1, y) && !r.Contains(x, r.top - 1)
    ensures r.left < r.right && r.top < r.bottom ==> r.Contains(r.right - 1, r.bottom - 1)
    ensures r.Contains(x, y) && x > r.left ==> r.Contains(x - 1, y)
    ensures r.Contains(x, y) && y > r.top ==> r.Contains(x, y - 1)
  {
  }

  datatype Element = Element(name: string, rect: Rect, children: seq<Element>)

  /** The indices that lead to a node from the outermost list; its depth is one less than its length. */
  type Path = seq<nat>

  datatype Node = Node(path: Path, element: Element)

  // ----- the order in which nodes are visited, by recursion on the tree -----

  function Level(nodes: seq<Element>, prefix: Path): seq<Node> {
    seq(|nodes|, i requires 0 <= i < |nodes| => Node(prefix + [i], nodes[i]))
  }

  /** A sibling list, then everything below it: the last sibling's children first. */
  function Visit(nodes: seq<Element>, prefix: Path): seq<Node>
    decreases nodes, |nodes| + 1
  {
    Level(nodes, prefix) + Below(nodes, prefix, |nodes|)
  }

  function Below(nodes: seq<Element>, prefix: Path, n: nat): seq<Node>
    requires n <= |nodes|
    decreases nodes, n
  {
    if n == 0 then []
    else
      match nodes[n - 1]
      case Element(_, _, children) => Visit(children, prefix + [n - 1]) + Below(nodes, prefix, n - 1)
  }

  /** Of the containing nodes visited, the last one among the deepest. */
  function Winner(visited: seq<Node>, x: int, y: int): Option<Node> {
    if visited == [] then None
    else
      var before := Winner(visited[..|visited| - 1], x, y);
      var last := visited[|visited| - 1];
      if last.element.rect.Contains(x, y) && (before.None? || |last.path| >= |before.get.path|) then Some(last) else before
  }

  // ----- the loop -----

  datatype Frame = Frame(nodes: seq<Element>, depth: nat)

  /** What is still to be visited: the frames from the top of the stack down. */
  ghost function Remaining(stack: seq<Frame>, prefixes: seq<Path>): seq<Node>
    requires |stack| == |prefixes|
  {
    if stack == [] then []
    else
      var n := |stack| - 1;
      Visit(stack[n].nodes, prefixes[n]) + Remaining(stack[..n], prefixes[..n])
  }

  ghost function Weight(stack: seq<Frame>): nat {
    if stack == [] then 0 else 1 + Count(stack[|stack| - 1].nodes) + Weight(stack[..|stack| - 1])
  }

  function Count(nodes: seq<Element>): nat
    decreases nodes
  {
    if nodes == [] then 0
    else
      match nodes[|nodes| - 1]
      case Element(_, _, children) => 1 + Count(children) + Count(nodes[..|nodes| - 1])
  }

  method FindElementAt(elements: seq<Element>, x: int, y: int) returns (best: Option<Element>)
    ensures
      var w := Winner(Visit(elements, []), x, y);
      best == if w.None? then None else Some(w.get.element)
  {
    best := None;
    var bestDepth: int := -1;
    var stack := [Frame(elements, 0)];
    ghost var prefixes: seq<Path> := [[]];
    ghost var visited: seq<Node> := [];
    Initially(elements);
    assert Tracks(best, bestDepth, Winner(visited, x, y));
    hide Winner, Visit, Count, Below, Remaining, Weight, Level;
    while stack != []
      invariant |prefixes| == |stack|
      invariant forall i :: 0 <= i < |stack| ==> stack[i].depth == |prefixes[i]|
      invariant Visit(elements, []) == visited + Remaining(stack, prefixes)
      invariant Tracks(best, bestDepth, Winner(visited, x, y))
      decreases Weight(stack)
    {
      var top := |stack| - 1;
      var frame := stack[top];
      ghost var prefix := prefixes[top];
      PopParts(stack, prefixes);
      Regroup(visited, Level(frame.nodes, prefix), Below(frame.nodes, prefix, |frame.nodes|), Remaining(stack[..top], prefixes[..top]));
      best, bestDepth, stack, prefixes := ScanList(frame, prefix, stack[..top], prefixes[..top], best, bestDepth, x, y, visited);
      visited := visited + Level(frame.nodes, prefix);
    }
    NothingRemains(prefixes, visited);
  }

  lemma Initially(elements: seq<Element>)
    ensures Visit(elements, []) == [] + Remaining([Frame(elements, 0)], [[]])
  {
    hide Visit;
    var prefixes: seq<Path> := [[]];
    assert [Frame(elements, 0)][..0] == [] && prefixes[..0] == [];
  }

  lemma NothingRemains(prefixes: seq<Path>, visited: seq<Node>)
    requires prefixes == []
    ensures visited + Remaining([], prefixes) == visited
  {
  }

  lemma Regroup(a: seq<Node>, b: seq<Node>, c: seq<Node>, d: seq<Node>)
    ensures a + (b + (c + d)) == (a + b) + (c + d)
  {
  }

  lemma PopParts(stack: seq<Frame>, prefixes: seq<Path>)
    requires |stack| == |prefixes| > 0
    ensures
      var n := |stack| - 1;
      Remaining(stack, prefixes) ==
        Level(stack[n].nodes, prefixes[n]) + (Below(stack[n].nodes, prefixes[n], |stack[n].nodes|) + Remaining(stack[..n], prefixes[..n]))
      && Weight(stack) == 1 + Count(stack[n].nodes) + Weight(stack[..n])
  {
    hide Below, Count;
  }

  lemma StartParts(nodes: seq<Element>, prefix: Path, rest: seq<Frame>, restPrefixes: seq<Path>)
    requires |rest| == |restPrefixes|
    ensures Remaining(rest, restPrefixes) == Below(nodes, prefix, 0) + Remaining(rest, restPrefixes)
    ensures Count(nodes[..0]) == 0
  {
  }

  lemma PushStep(nodes: seq<Element>, prefix: Path, i: nat, stack: seq<Frame>, prefixes: seq<Path>, depth: nat)
    requires |stack| == |prefixes| && i < |nodes|
    ensures
      var s, p := stack + [Frame(nodes[i].children, depth)], prefixes + [prefix + [i]];
      forall tail :: Remaining(stack, prefixes) == Below(nodes, prefix, i) + tail ==>
        Remaining(s, p) == Below(nodes, prefix, i + 1) + tail
    ensures Weight(stack + [Frame(nodes[i].children, depth)]) - Weight(stack) == Count(nodes[..i + 1]) - Count(nodes[..i])
  {
    var s, p := stack + [Frame(nodes[i].children, depth)], prefixes + [prefix + [i]];
    assert s[..|stack|] == stack && p[..|stack|] == prefixes;
    assert nodes[..i + 1][..i] == nodes[..i];
    assert Below(nodes, prefix, i + 1) == Visit(nodes[i].children, prefix + [i]) + Below(nodes, prefix, i);
    assert Remaining(s, p) == Visit(nodes[i].children, prefix + [i]) + Remaining(stack, prefixes);
    hide Visit, Below, Remaining, Weight, Count;
  }

  lemma WinnerStep(visited: seq<Node>, node: Node, x: int, y: int)
    ensures
      var w := Winner(visited, x, y);
      Winner(visited + [node], x, y)
        == if node.element.rect.Contains(x, y) && (w.None? || |node.path| >= |w.get.path|) then Some(node) else w
  {
    assert (visited + [node])[..|visited|] == visited;
  }

  /** Test one sibling list, and leave its members' children on the stack. */
  method ScanList(frame: Frame, ghost prefix: Path, rest: seq<Frame>, ghost restPrefixes: seq<Path>,
                  was: Option<Element>, wasDepth: int, x: int, y: int, ghost entry: seq<Node>)
    returns (best: Option<Element>, bestDepth: int, stack: seq<Frame>, ghost prefixes: seq<Path>)
    requires frame.depth == |prefix| && |restPrefixes| == |rest|
    requires forall i :: 0 <= i < |rest| ==> rest[i].depth == |restPrefixes[i]|
    requires Tracks(was, wasDepth, Winner(entry, x, y))
    ensures |prefixes| == |stack|
    ensures forall i :: 0 <= i < |stack| ==> stack[i].depth == |prefixes[i]|
    ensures Remaining(stack, prefixes) == Below(frame.nodes, prefix, |frame.nodes|) + Remaining(rest, restPrefixes)
    ensures Weight(stack) == Weight(rest) + Count(frame.nodes)
    ensures Tracks(best, bestDepth, Winner(entry + Level(frame.nodes, prefix), x, y))
  {
    hide Visit, Winner, Below, Remaining, Weight, Count;
    best, bestDepth, stack, prefixes := was, wasDepth, rest, restPrefixes;
    StartParts(frame.nodes, prefix, rest, restPrefixes);
    var nodes := frame.nodes;
    ghost var visited := entry;
    for i := 0 to |nodes|
      invariant |prefixes| == |stack|
      invariant forall j :: 0 <= j < |stack| ==> stack[j].depth == |prefixes[j]|
      invariant visited == entry + Level(nodes, prefix)[..i]
      invariant Remaining(stack, prefixes) == Below(nodes, prefix, i) + Remaining(rest, restPrefixes)
      invariant Weight(stack) == Weight(rest) + Count(nodes[..i])
      invariant Tracks(best, bestDepth, Winner(visited, x, y))
    {
      ghost var node := Node(prefix + [i], nodes[i]);
      WinnerStep(visited, node, x, y);
      if nodes[i].rect.Contains(x, y) && frame.depth >= bestDepth {
        best := Some(nodes[i]);
        bestDepth := frame.depth;
      }
      visited := visited + [node];
      PushStep(nodes, prefix, i, stack, prefixes, frame.depth + 1);
      stack := stack + [Frame(nodes[i].children, frame.depth + 1)];
      prefixes := prefixes + [prefix + [i]];
    }
    assert nodes[..|nodes|] == nodes && Level(nodes, prefix)[..|nodes|] == Level(nodes, prefix);
  }

  predicate Tracks(best: Option<Element>, bestDepth: int, w: Option<Node>) {
    match w
    case None => best == None && bestDepth == -1
    case Some(n) => best == Some(n.element) && bestDepth == |n.path| - 1
  }

  // ----- which nodes there are -----

  /** `path` leads from the list `nodes` to `element`. */
  predicate Leads(nodes: seq<Element>, path: Path, element: Element)
    decreases path
  {
    path != [] && path[0] < |nodes|
    && if |path| == 1 then nodes[path[0]] == element else Leads(nodes[path[0]].children, path[1..], element)
  }

  /** Every node of the tree is visited, and nothing else. */
  lemma {:induction false} VisitIsTree(nodes: seq<Element>, prefix: Path, n: Node)
    ensures n in Visit(nodes, prefix) <==> prefix <= n.path && Leads(nodes, n.path[|prefix|..], n.element)
    decreases nodes, |nodes| + 1
  {
    BelowIsTree(nodes, prefix, |nodes|, n);
    var rel := if prefix <= n.path then n.path[|prefix|..] else [];
    if n in Level(nodes, prefix) {
      var i :| 0 <= i < |nodes| && Level(nodes, prefix)[i] == n;
      assert rel == [i];
    }
    if prefix <= n.path && |rel| == 1 && Leads(nodes, rel, n.element) {
      assert n.path == prefix + [rel[0]];
      assert Level(nodes, prefix)[rel[0]] == n;
    }
  }

  lemma {:induction false} BelowIsTree(nodes: seq<Element>, prefix: Path, k: nat, n: Node)
    requires k <= |nodes|
    ensures n in Below(nodes, prefix, k) <==>
      prefix <= n.path && |n.path| >= |prefix| + 2 && n.path[|prefix|] < k && Leads(nodes, n.path[|prefix|..], n.element)
    decreases nodes, k
  {
    if k > 0 {
      match nodes[k - 1]
      case Element(_, _, children) =>
        VisitIsTree(children, prefix + [k - 1], n);
        BelowIsTree(nodes, prefix, k - 1, n);
        if prefix <= n.path && |n.path| > |prefix| {
          var rel := n.path[|prefix|..];
          assert rel[1..] == n.path[|prefix| + 1..];
          assert prefix + [k - 1] <= n.path <==> rel[0] == k - 1;
        }
    }
  }

  // ----- the order among nodes of equal depth -----

  /**
   Which of two paths of one length is visited first: within a sibling list the smaller index, but
   of two branches of a list the one with the larger index.
   */
  predicate Before(p: Path, q: Path)
    requires |p| == |q|
    decreases p
  {
    p != [] && if |p| == 1 then p[0] < q[0] else if p[0] == q[0] then Before(p[1..], q[1..]) else p[0] > q[0]
  }

  lemma {:induction false} VisitOrder(nodes: seq<Element>, prefix: Path, i: nat, j: nat)
    requires i < j < |Visit(nodes, prefix)|
    ensures
      var p, q := Visit(nodes, prefix)[i].path, Visit(nodes, prefix)[j].path;
      prefix <= p && prefix <= q && (|p| == |q| ==> Before(p[|prefix|..], q[|prefix|..]))
    decreases nodes, |nodes| + 1
  {
    var v := Visit(nodes, prefix);
    var level, below := Level(nodes, prefix), Below(nodes, prefix, |nodes|);
    VisitIsTree(nodes, prefix, v[i]);
    VisitIsTree(nodes, prefix, v[j]);
    assert v[i] in v && v[j] in v;
    if i >= |nodes| {
      BelowOrder(nodes, prefix, |nodes|, i - |nodes|, j - |nodes|);
    } else if j >= |nodes| {
      assert v[j] == below[j - |nodes|] && v[j] in below;
      BelowIsTree(nodes, prefix, |nodes|, v[j]);
    } else {
      assert v[i].path[|prefix|..] == [i] && v[j].path[|prefix|..] == [j];
    }
  }

  lemma {:induction false} BelowOrder(nodes: seq<Element>, prefix: Path, k: nat, i: nat, j: nat)
    requires k <= |nodes| && i < j < |Below(nodes, prefix, k)|
    ensures
      var p, q := Below(nodes, prefix, k)[i].path, Below(nodes, prefix, k)[j].path;
      prefix <= p && prefix <= q && (|p| == |q| ==> Before(p[|prefix|..], q[|prefix|..]))
    decreases nodes, k
  {
    match nodes[k - 1]
    case Element(_, _, children) =>
      var first, rest := Visit(children, prefix + [k - 1]), Below(nodes, prefix, k - 1);
      var all := Below(nodes, prefix, k);
      var p, q := all[i].path, all[j].path;
      assert all[i] in all && all[j] in all;
      BelowIsTree(nodes, prefix, k, all[i]);
      BelowIsTree(nodes, prefix, k, all[j]);
      if i >= |first| {
        BelowOrder(nodes, prefix, k - 1, i - |first|, j - |first|);
      } else {
        assert all[i] == first[i] && all[i] in first;
        VisitIsTree(children, prefix + [k - 1], all[i]);
        assert p[|prefix|] == k - 1;
        if j < |first| {
          VisitOrder(children, prefix + [k - 1], i, j);
          assert p[|prefix|..][1..] == p[|prefix| + 1..] && q[|prefix|..][1..] == q[|prefix| + 1..];
          assert q[|prefix|] == k - 1;
        } else {
          assert all[j] == rest[j - |first|] && all[j] in rest;
          BelowIsTree(nodes, prefix, k - 1, all[j]);
        }
      }
  }

  // ----- what the hit test finds -----

  lemma {:induction false} WinnerIsLastDeepest(visited: seq<Node>, x: int, y: int)
    ensures
      match Winner(visited, x, y)
      case None => forall i :: 0 <= i < |visited| ==> !visited[i].element.rect.Contains(x, y)
      case Some(w) =>
        exists k :: 0 <= k < |visited| && visited[k] == w && w.element.rect.Contains(x, y)
          && forall i :: 0 <= i < |visited| && visited[i].element.rect.Contains(x, y) ==>
            |visited[i].path| < |w.path| || (|visited[i].path| == |w.path| && i <= k)
  {
    if visited != [] {
      var n := |visited| - 1;
      var init := visited[..n];
      WinnerIsLastDeepest(init, x, y);
      var before := Winner(init, x, y);
      if Winner(visited, x, y) == before && before.Some? {
        var k :| 0 <= k < n && init[k] == before.get && before.get.element.rect.Contains(x, y)
          && forall i :: 0 <= i < n && init[i].element.rect.Contains(x, y) ==>
            |init[i].path| < |before.get.path| || (|init[i].path| == |before.get.path| && i <= k);
        assert visited[k] == before.get;
        assert forall i :: 0 <= i < n ==> visited[i] == init[i];
      }
    }
  }

  /**
   Nothing is hit exactly when no node of the tree contains the point. Otherwise the node hit contains it, no
   containing node is deeper, and every other containing node of that depth is visited before it.
   */
  lemma HitCharacterized(elements: seq<Element>, x: int, y: int)
    ensures
      match Winner(Visit(elements, []), x, y)
      case None => forall p, e :: Leads(elements, p, e) ==> !e.rect.Contains(x, y)
      case Some(w) =>
        Leads(elements, w.path, w.element) && w.element.rect.Contains(x, y)
        && forall p, e :: Leads(elements, p, e) && e.rect.Contains(x, y) && p != w.path ==>
          |p| < |w.path| || (|p| == |w.path| && Before(p, w.path))
  {
    var v := Visit(elements, []);
    WinnerIsLastDeepest(v, x, y);
    var w := Winner(v, x, y);
    if w.Some? {
      assert w.get in v;
      VisitIsTree(elements, [], w.get);
      assert w.get.path[0..] == w.get.path;
    }
    forall p, e | Leads(elements, p, e) && e.rect.Contains(x, y)
      ensures w.Some? && (p != w.get.path ==> |p| < |w.get.path| || (|p| == |w.get.path| && Before(p, w.get.path)))
    {
      VisitIsTree(elements, [], Node(p, e));
      assert p[0..] == p;
      assert Node(p, e) in v;
      var i :| 0 <= i < |v| && v[i] == Node(p, e);
      if w.Some? && p != w.get.path && |p| >= |w.get.path| {
        var k :| 0 <= k < |v| && v[k] == w.get
          && forall i :: 0 <= i < |v| && v[i].element.rect.Contains(x, y) ==>
            |v[i].path| < |w.get.path| || (|v[i].path| == |w.get.path| && i <= k);
        assert i < k;
        VisitOrder(elements, [], i, k);
        assert w.get.path[0..] == w.get.path;
      }
    }
  }

  /**
   The last sibling wins only within one list. Of two overlapping siblings whose children both contain the
   point, the hit is in the one painted first, not in the one on top.
   */
  lemma {:induction false} OverlappingBranchesHitTheLowerOne(elements: seq<Element>, p: Path, e: Element, q: Path, f: Element, x: int, y: int)
    requires |p| == |q| >= 2 && p[0] < q[0]
    requires Leads(elements, p, e) && e.rect.Contains(x, y)
    requires Leads(elements, q, f) && f.rect.Contains(x, y)
    ensures Winner(Visit(elements, []), x, y).Some? && Winner(Visit(elements, []), x, y).get.path != q
  {
    HitCharacterized(elements, x, y);
    BranchesApart(p, q);
    hide Winner, Visit, Leads, Before;
  }

  lemma BranchesApart(p: Path, q: Path)
    requires |p| == |q| >= 2 && p[0] < q[0]
    ensures p != q && !Before(p, q)
  {
  }
}
