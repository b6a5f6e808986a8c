/** The linearization of the core class graph: a depth-first walk over includes and
    superclasses that skips what it has already listed. */
module Hierarchy {
  import opened Options

  type ClassId = nat

  /** What one class declares. */
  datatype Row = Row(superclass: Option<ClassId>, includes: seq<ClassId>)

  /** The declared edges; an id with no row has none. */
  type Graph = map<ClassId, Row>

  function EdgesOf(g: Graph, id: ClassId): Row {
    if id in g then g[id] else Row(None, [])
  }

  function Backwards<T>(s: seq<T>): seq<T> {
    seq(|s|, i requires 0 <= i < |s| => s[|s| - 1 - i])
  }

  /** The last include first, the superclass at the end. */
  function Succs(g: Graph, id: ClassId): seq<ClassId> {
    var e := EdgesOf(g, id);
    Backwards(e.includes) + (if e.superclass.Some? then [e.superclass.value] else [])
  }

  function Elems(s: seq<ClassId>): set<ClassId> {
    set x | x in s
  }

  lemma Progress(g: Graph, out: seq<ClassId>, more: seq<ClassId>)
    requires out <= more
    ensures |g.Keys - Elems(more)| <= |g.Keys - Elems(out)|
    ensures forall x :: x in g && x in more && x !in out ==> |g.Keys - Elems(more)| < |g.Keys - Elems(out)|
  {
    var a, b := g.Keys - Elems(more), g.Keys - Elems(out);
    assert a <= b;
    SubsetSize(a, b);
    forall x | x in g && x in more && x !in out ensures |a| < |b| {
      assert a <= b - {x};
      SubsetSize(a, b - {x});
    }
  }

  lemma {:induction false} SubsetSize<T>(a: set<T>, b: set<T>)
    requires a <= b
    ensures |a| <= |b|
    decreases |a|
  {
    if a != {} {
      var x :| x in a;
      SubsetSize(a - {x}, b - {x});
    }
  }

  /** `expand_core` on each of `todo` in turn, over the list built so far. */
  function ExpandAll(g: Graph, todo: seq<ClassId>, out: seq<ClassId>): (r: seq<ClassId>)
    ensures out <= r
    decreases |g.Keys - Elems(out)|, |todo|
  {
    if todo == [] then out
    else if todo[0] in out then ExpandAll(g, todo[1..], out)
    else
      var id := todo[0];
      Progress(g, out, out + [id]);
      assert id !in g ==> Succs(g, id) == [];
      var mid := ExpandAll(g, Succs(g, id), out + [id]);
      Progress(g, out, mid);
      ExpandAll(g, todo[1..], mid)
  }

  function Expand(g: Graph, id: ClassId, out: seq<ClassId>): seq<ClassId> {
    ExpandAll(g, [id], out)
  }

  function Ancestors(g: Graph, id: ClassId): seq<ClassId> {
    Expand(g, id, [])
  }

  lemma ExpandAllCons(g: Graph, id: ClassId, rest: seq<ClassId>, out: seq<ClassId>)
    ensures ExpandAll(g, [id] + rest, out)
         == ExpandAll(g, rest, if id in out then out else ExpandAll(g, Succs(g, id), out + [id]))
  {
    assert ([id] + rest)[1..] == rest;
  }

  lemma {:induction false} ExpandAllAppend(g: Graph, a: seq<ClassId>, b: seq<ClassId>, out: seq<ClassId>)
    ensures ExpandAll(g, a + b, out) == ExpandAll(g, b, ExpandAll(g, a, out))
    decreases |a|
  {
    if a == [] {
      assert a + b == b;
    } else {
      assert a == [a[0]] + a[1..] && a + b == [a[0]] + (a[1..] + b);
      ExpandAllCons(g, a[0], a[1..], out);
      ExpandAllCons(g, a[0], a[1..] + b, out);
      ExpandAllAppend(g, a[1..], b, if a[0] in out then out else ExpandAll(g, Succs(g, a[0]), out + [a[0]]));
    }
  }

  // ---- as the code runs it ---------------------------------------------------------------

  class Linearizer {
    var out: seq<ClassId>

    constructor ()
      ensures out == []
    {
      out := [];
    }

    /** `expand_core`: push, walk the includes from the last to the first, then the
        superclass. It ends on every table, cyclic ones included. */
    method ExpandCore(g: Graph, id: ClassId)
      modifies this
      ensures old(out) <= out && out == Expand(g, id, old(out))
      decreases |g.Keys - Elems(out)|, 0
    {
      hide ExpandAll, Succs;
      ghost var before := out;
      ExpandOne(g, id, before);
      if id !in out {
        out := out + [id];
        if id in g {
          Progress(g, before, out);
          ExpandIncludes(g, g[id].includes);
          assert out[|before|] == id;
          Progress(g, before, out);
          if g[id].superclass.Some? {
            ExpandCore(g, g[id].superclass.value);
          }
        }
      }
    }

    method ExpandIncludes(g: Graph, includes: seq<ClassId>)
      modifies this
      ensures old(out) <= out && out == ExpandAll(g, Backwards(includes), old(out))
      decreases |g.Keys - Elems(out)|, 1
    {
      hide Elems;
      ghost var start := out;
      for i := |includes| downto 0
        invariant start <= out && out == ExpandAll(g, Backwards(includes[i..]), start)
      {
        Progress(g, start, out);
        IncludeStep(g, includes, i, start);
        ExpandCore(g, includes[i]);
      }
      assert includes[0..] == includes;
    }
  }

  /** `declared_ancestors`. */
  method DeclaredAncestors(g: Graph, id: ClassId) returns (out: seq<ClassId>)
    ensures out == Ancestors(g, id)
  {
    var walk := new Linearizer();
    walk.ExpandCore(g, id);
    out := walk.out;
  }

  /** One class, spelled out over its declared edges. */
  lemma ExpandOne(g: Graph, id: ClassId, out: seq<ClassId>)
    ensures id in out ==> Expand(g, id, out) == out
    ensures id !in out && id !in g ==> Expand(g, id, out) == out + [id]
    ensures id !in out && id in g ==>
              var mid := ExpandAll(g, Backwards(g[id].includes), out + [id]);
              Expand(g, id, out) == if g[id].superclass.Some? then Expand(g, g[id].superclass.value, mid) else mid
  {
    assert [id] + [] == [id];
    ExpandAllCons(g, id, [], out);
    if id in g {
      var incs := Backwards(g[id].includes);
      if g[id].superclass.Some? {
        ExpandAllAppend(g, incs, [g[id].superclass.value], out + [id]);
      } else {
        assert incs + [] == incs;
      }
    }
  }

  lemma IncludeStep(g: Graph, includes: seq<ClassId>, i: nat, start: seq<ClassId>)
    requires i < |includes|
    ensures ExpandAll(g, Backwards(includes[i..]), start)
         == Expand(g, includes[i], ExpandAll(g, Backwards(includes[i + 1..]), start))
  {
    assert Backwards(includes[i..]) == Backwards(includes[i + 1..]) + [includes[i]];
    ExpandAllAppend(g, Backwards(includes[i + 1..]), [includes[i]], start);
  }
}
