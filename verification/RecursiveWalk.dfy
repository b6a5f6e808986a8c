/** A walker over an object graph that guards itself with `rb_exec_recursive`, as an
    extension's `inspect` or `hash` does: it descends only when told `recur = 0`. */
module RecursiveWalk {
  import opened Control
  import opened ControlStack

  /** The objects and what each one refers to. */
  type Graph = map<Value, seq<Value>>

  ghost predicate Closed(g: Graph) {
    forall o, c :: o in g && c in g[o] ==> c in g
  }

  /** What such a walker prints: `Seen` is its `[...]`. */
  datatype Tree = Seen(obj: Value) | Node(obj: Value, kids: seq<Tree>)

  /** The graph unfolded along every path up to the first object already on it. */
  function Unfold(g: Graph, path: set<Value>, o: Value): Tree
    requires Closed(g) && o in g
    decreases |g.Keys - path|, 0
  {
    if o in path then Seen(o)
    else
      Deeper(g, path, o);
      Node(o, UnfoldEach(g, path + {o}, g[o]))
  }

  function UnfoldEach(g: Graph, path: set<Value>, os: seq<Value>): (ts: seq<Tree>)
    requires Closed(g) && forall o :: o in os ==> o in g
    ensures |ts| == |os|
    decreases |g.Keys - path|, 1, |os|
  {
    if os == [] then [] else [Unfold(g, path, os[0])] + UnfoldEach(g, path, os[1..])
  }

  lemma Deeper(g: Graph, path: set<Value>, o: Value)
    requires o in g && o !in path
    ensures |g.Keys - (path + {o})| < |g.Keys - path|
  {
    assert g.Keys - (path + {o}) == g.Keys - path - {o};
  }

  function Depth(t: Tree): nat {
    match t
    case Seen(_) => 1
    case Node(_, kids) => 1 + DepthEach(kids)
  }

  function DepthEach(ts: seq<Tree>): nat {
    if ts == [] then 0
    else
      var a, b := Depth(ts[0]), DepthEach(ts[1..]);
      if a > b then a else b
  }

  /** No cycle makes the walk deeper than the graph has objects, the `[...]` included. */
  lemma {:induction false} UnfoldDepth(g: Graph, path: set<Value>, o: Value)
    requires Closed(g) && o in g
    ensures Depth(Unfold(g, path, o)) <= |g.Keys - path| + 1
    decreases |g.Keys - path|, 0
  {
    if o !in path {
      Deeper(g, path, o);
      UnfoldEachDepth(g, path + {o}, g[o]);
    }
  }

  lemma {:induction false} UnfoldEachDepth(g: Graph, path: set<Value>, os: seq<Value>)
    requires Closed(g) && forall o :: o in os ==> o in g
    ensures DepthEach(UnfoldEach(g, path, os)) <= |g.Keys - path| + 1
    decreases |g.Keys - path|, 1, |os|
  {
    if os != [] {
      UnfoldDepth(g, path, os[0]);
      UnfoldEachDepth(g, path, os[1..]);
    }
  }

  // ---- nothing reachable is missed ---------------------------------------------------------------

  /** The objects a tree spells out. */
  function Nodes(t: Tree): set<Value> {
    match t
    case Seen(_) => {}
    case Node(o, kids) => {o} + NodesEach(kids)
  }

  function NodesEach(ts: seq<Tree>): set<Value> {
    if ts == [] then {} else Nodes(ts[0]) + NodesEach(ts[1..])
  }

  /** What each object spelled out refers to is spelled out too, or is on the path. */
  ghost predicate LeadsInto(g: Graph, from: set<Value>, to: set<Value>) {
    forall x, c :: x in from && x in g && c in g[x] ==> c in to
  }

  lemma LeadsIntoUnion(g: Graph, a: set<Value>, b: set<Value>, path: set<Value>)
    requires LeadsInto(g, a, a + path) && LeadsInto(g, b, b + path)
    ensures LeadsInto(g, a + b, a + b + path)
  {
    forall x, c | x in a + b && x in g && c in g[x] ensures c in a + b + path {
      assert x in a ==> c in a + path;
      assert x in b ==> c in b + path;
    }
  }

  lemma {:induction false} UnfoldLeadsInto(g: Graph, path: set<Value>, o: Value)
    requires Closed(g) && o in g
    ensures var n := Nodes(Unfold(g, path, o)); (o in n || o in path) && LeadsInto(g, n, n + path)
    decreases |g.Keys - path|, 0
  {
    if o !in path {
      Deeper(g, path, o);
      UnfoldEachLeadsInto(g, path + {o}, g[o]);
      var below := NodesEach(UnfoldEach(g, path + {o}, g[o]));
      var n := {o} + below;
      assert Nodes(Unfold(g, path, o)) == n;
      forall x, c | x in n && x in g && c in g[x] ensures c in n + path {
        if x == o {
          assert c in below + (path + {o});
        } else {
          assert x in below && c in below + (path + {o});
        }
      }
    }
  }

  lemma {:induction false} UnfoldEachLeadsInto(g: Graph, path: set<Value>, os: seq<Value>)
    requires Closed(g) && forall o :: o in os ==> o in g
    ensures var n := NodesEach(UnfoldEach(g, path, os));
            (forall o :: o in os ==> o in n + path) && LeadsInto(g, n, n + path)
    decreases |g.Keys - path|, 1, |os|
  {
    if os != [] {
      UnfoldLeadsInto(g, path, os[0]);
      UnfoldEachLeadsInto(g, path, os[1..]);
      assert os == [os[0]] + os[1..];
      LeadsIntoUnion(g, Nodes(Unfold(g, path, os[0])), NodesEach(UnfoldEach(g, path, os[1..])), path);
      assert UnfoldEach(g, path, os)[0] == Unfold(g, path, os[0]) && UnfoldEach(g, path, os)[1..] == UnfoldEach(g, path, os[1..]);
    }
  }

  lemma {:induction false} UnfoldStaysInside(g: Graph, path: set<Value>, o: Value, x: Value) returns (p: seq<Value>)
    requires Closed(g) && o in g && x in Nodes(Unfold(g, path, o))
    ensures IsPath(g, p) && p[0] == o && p[|p| - 1] == x
    decreases |g.Keys - path|, 0
  {
    if x == o {
      p := [o];
    } else {
      Deeper(g, path, o);
      var c, q := UnfoldEachStaysInside(g, path + {o}, g[o], x);
      p := [o] + q;
    }
  }

  lemma {:induction false} UnfoldEachStaysInside(g: Graph, path: set<Value>, os: seq<Value>, x: Value)
    returns (c: Value, p: seq<Value>)
    requires Closed(g) && (forall o :: o in os ==> o in g) && x in NodesEach(UnfoldEach(g, path, os))
    ensures c in os && IsPath(g, p) && p[0] == c && p[|p| - 1] == x
    decreases |g.Keys - path|, 1, |os|
  {
    assert UnfoldEach(g, path, os)[0] == Unfold(g, path, os[0]) && UnfoldEach(g, path, os)[1..] == UnfoldEach(g, path, os[1..]);
    if x in Nodes(Unfold(g, path, os[0])) {
      c := os[0];
      p := UnfoldStaysInside(g, path, os[0], x);
    } else {
      c, p := UnfoldEachStaysInside(g, path, os[1..], x);
    }
  }

  /** A chain of references. */
  ghost predicate IsPath(g: Graph, p: seq<Value>) {
    && p != [] && p[0] in g
    && forall i :: 0 <= i < |p| - 1 ==> p[i] in g && p[i + 1] in g[p[i]]
  }

  lemma {:induction false} PathStaysIn(g: Graph, n: set<Value>, p: seq<Value>)
    requires IsPath(g, p) && LeadsInto(g, n, n) && p[0] in n
    ensures p[|p| - 1] in n
    decreases |p|
  {
    if |p| > 1 {
      var m := |p| - 1;
      PathStaysIn(g, n, p[..m]);
      var x, c := p[m - 1], p[m];
      assert p[..m][m - 1] == x;
      assert p[m - 1 + 1] in g[p[m - 1]];
      assert x in n && x in g && c in g[x];
    }
  }

  /** A walk from nothing spells out exactly the objects reachable from where it starts. */
  lemma WalkCoversTheReachable(g: Graph, o: Value, x: Value)
    requires Closed(g) && o in g
    ensures x in Nodes(Unfold(g, {}, o)) <==> exists p :: IsPath(g, p) && p[0] == o && p[|p| - 1] == x
  {
    var n := Nodes(Unfold(g, {}, o));
    UnfoldLeadsInto(g, {}, o);
    assert n + {} == n;
    if p :| IsPath(g, p) && p[0] == o && p[|p| - 1] == x {
      PathStaysIn(g, n, p);
    }
    if x in n {
      var p := UnfoldStaysInside(g, {}, o, x);
    }
  }

  /** Each object spelled out has a tree for every reference it holds, in order. */
  lemma KidsInOrder(g: Graph, path: set<Value>, o: Value)
    requires Closed(g) && o in g
    ensures var t := Unfold(g, path, o);
            && t.obj == o && (t.Seen? <==> o in path)
            && (t.Node? ==> |t.kids| == |g[o]| && forall i :: 0 <= i < |g[o]| ==> t.kids[i].obj == g[o][i])
  {
    if o !in path {
      Deeper(g, path, o);
      EachInOrder(g, path + {o}, g[o]);
    }
  }

  lemma {:induction false} EachInOrder(g: Graph, path: set<Value>, os: seq<Value>)
    requires Closed(g) && forall o :: o in os ==> o in g
    ensures forall i :: 0 <= i < |os| ==> UnfoldEach(g, path, os)[i].obj == os[i]
    decreases |os|
  {
    if os != [] {
      EachInOrder(g, path, os[1..]);
      var ts := UnfoldEach(g, path, os);
      forall i | 0 <= i < |os| ensures ts[i].obj == os[i] {
        assert i == 0 ==> ts[i] == Unfold(g, path, os[0]);
        assert i > 0 ==> ts[i] == UnfoldEach(g, path, os[1..])[i - 1];
      }
    }
  }

  lemma {:induction false} UnfoldEachSnoc(g: Graph, path: set<Value>, os: seq<Value>, o: Value)
    requires Closed(g) && o in g && forall o :: o in os ==> o in g
    ensures UnfoldEach(g, path, os + [o]) == UnfoldEach(g, path, os) + [Unfold(g, path, o)]
    decreases |os|
  {
    if os == [] {
      assert os + [o] == [o] && [o][1..] == [];
    } else {
      assert (os + [o])[1..] == os[1..] + [o];
      UnfoldEachSnoc(g, path, os[1..], o);
    }
  }

  /** The objects an enclosing unpaired activation is inside. */
  function Inside(visiting: seq<Pair>): set<Value> {
    set p | p in visiting && p.1 == 0 :: p.0
  }

  /** `rb_exec_recursive(walk, o, arg)`. It ends on every finite graph, cyclic ones
      included, and leaves the visiting list as it was. */
  method Walk(th: Thread, g: Graph, o: Value) returns (t: Tree)
    requires Closed(g) && o in g && th.Valid()
    modifies th`visiting
    ensures th.visiting == old(th.visiting)
    ensures t == Unfold(g, Inside(old(th.visiting)), o)
    decreases |g.Keys - Inside(th.visiting)|, 0
  {
    ghost var before := th.visiting;
    var seen := th.BeginVisit((o, 0));
    if seen {
      t := Seen(o);
      return;
    }
    assert o !in Inside(before);
    Deeper(g, Inside(before), o);
    assert Inside(th.visiting) == Inside(before) + {o};
    var kids := WalkEach(th, g, g[o]);
    t := Node(o, kids);
    WithoutAbsent(before, (o, 0));
    th.EndVisit((o, 0));
  }

  method WalkEach(th: Thread, g: Graph, os: seq<Value>) returns (ts: seq<Tree>)
    requires Closed(g) && th.Valid() && forall o :: o in os ==> o in g
    modifies th`visiting
    ensures th.visiting == old(th.visiting)
    ensures ts == UnfoldEach(g, Inside(old(th.visiting)), os)
    decreases |g.Keys - Inside(th.visiting)|, 1
  {
    ts := [];
    for i := 0 to |os|
      invariant th.visiting == old(th.visiting)
      invariant ts == UnfoldEach(g, Inside(old(th.visiting)), os[..i])
    {
      UnfoldEachSnoc(g, Inside(old(th.visiting)), os[..i], os[i]);
      assert os[..i + 1] == os[..i] + [os[i]];
      var t := Walk(th, g, os[i]);
      ts := ts + [t];
    }
    assert os[..|os|] == os;
  }
}
