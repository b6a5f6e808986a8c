/** The linearization lists exactly the reachable ids, each once, and on an acyclic
    table in the order of the naive expansion's first occurrences. */
module Reachability {
  import opened Sums
  import opened Hierarchy

  // ---- reachability ------------------------------------------------------------------------

  ghost predicate IsPath(g: Graph, p: seq<ClassId>) {
    p != [] && forall i :: 0 <= i < |p| - 1 ==> p[i + 1] in Succs(g, p[i])
  }

  ghost predicate Via(g: Graph, a: ClassId, p: seq<ClassId>, b: ClassId) {
    IsPath(g, p) && p[0] == a && p[|p| - 1] == b
  }

  ghost predicate Reaches(g: Graph, a: ClassId, b: ClassId) {
    exists p :: Via(g, a, p, b)
  }

  /** At least one edge lies between. */
  ghost predicate Above(g: Graph, a: ClassId, b: ClassId) {
    exists s :: s in Succs(g, a) && Reaches(g, s, b)
  }

  lemma ReachesSelf(g: Graph, a: ClassId)
    ensures Reaches(g, a, a)
  {
    assert Via(g, a, [a], a);
  }

  lemma ReachesStep(g: Graph, a: ClassId, s: ClassId, b: ClassId)
    requires s in Succs(g, a) && Reaches(g, s, b)
    ensures Reaches(g, a, b) && Above(g, a, b)
  {
    hide Succs;
    var p :| Via(g, s, p, b);
    var q := [a] + p;
    forall i | 0 <= i < |q| - 1 ensures q[i + 1] in Succs(g, q[i]) {
      if i > 0 {
        assert q[i] == p[i - 1] && q[i + 1] == p[i];
      }
    }
    assert Via(g, a, q, b);
  }

  lemma ReachesSplit(g: Graph, a: ClassId, b: ClassId)
    requires Reaches(g, a, b) && a != b
    ensures Above(g, a, b)
  {
    hide Succs;
    var p :| Via(g, a, p, b);
    var s, q := p[1], p[1..];
    assert p[0 + 1] in Succs(g, p[0]);
    forall i | 0 <= i < |q| - 1 ensures q[i + 1] in Succs(g, q[i]) {
      assert q[i] == p[i + 1] && q[i + 1] == p[i + 2];
    }
    assert Via(g, s, q, b);
  }

  lemma ReachesTransitive(g: Graph, a: ClassId, b: ClassId, c: ClassId)
    requires Reaches(g, a, b) && Reaches(g, b, c)
    ensures Reaches(g, a, c)
  {
    var p :| Via(g, a, p, b);
    PathThen(g, p, c);
  }

  lemma {:induction false} PathThen(g: Graph, p: seq<ClassId>, c: ClassId)
    requires IsPath(g, p) && Reaches(g, p[|p| - 1], c)
    ensures Reaches(g, p[0], c)
    decreases |p|
  {
    hide Succs;
    if |p| > 1 {
      var q := p[1..];
      assert p[0 + 1] in Succs(g, p[0]);
      forall i | 0 <= i < |q| - 1 ensures q[i + 1] in Succs(g, q[i]) {
        assert q[i] == p[i + 1] && q[i + 1] == p[i + 2];
      }
      PathThen(g, q, c);
      ReachesStep(g, p[0], p[1], c);
    }
  }

  // ---- the contents of the walk ------------------------------------------------------------

  lemma NoDupMore(out: seq<ClassId>, id: ClassId)
    requires NoDup(out) && id !in out
    ensures NoDup(out + [id])
  {
  }

  lemma {:induction false} ExpandAllNoDup(g: Graph, todo: seq<ClassId>, out: seq<ClassId>)
    requires NoDup(out)
    ensures NoDup(ExpandAll(g, todo, out))
    decreases |g.Keys - Elems(out)|, |todo|
  {
    hide NoDup;
    if todo != [] {
      if todo[0] in out {
        ExpandAllNoDup(g, todo[1..], out);
      } else {
        var id := todo[0];
        Progress(g, out, out + [id]);
        NoDupMore(out, id);
        assert id !in g ==> Succs(g, id) == [];
        hide Succs;
        ExpandAllNoDup(g, Succs(g, id), out + [id]);
        var mid := ExpandAll(g, Succs(g, id), out + [id]);
        Progress(g, out, mid);
        ExpandAllNoDup(g, todo[1..], mid);
      }
    }
  }

  /** What the walk has listed since `out` it has also left: every edge out of it leads
      to something listed. */
  ghost predicate Left(g: Graph, out: seq<ClassId>, r: seq<ClassId>) {
    forall x, s :: x in r && x !in out && s in Succs(g, x) ==> s in r
  }

  lemma {:induction false} ExpandAllCloses(g: Graph, todo: seq<ClassId>, out: seq<ClassId>)
    ensures forall t :: t in todo ==> t in ExpandAll(g, todo, out)
    ensures Left(g, out, ExpandAll(g, todo, out))
    decreases |g.Keys - Elems(out)|, |todo|
  {
    if todo != [] {
      var id := todo[0];
      assert todo == [id] + todo[1..];
      var r := ExpandAll(g, todo, out);
      if id in out {
        ExpandAllCloses(g, todo[1..], out);
      } else {
        Progress(g, out, out + [id]);
        assert id !in g ==> Succs(g, id) == [];
        ExpandAllCloses(g, Succs(g, id), out + [id]);
        var mid := ExpandAll(g, Succs(g, id), out + [id]);
        Progress(g, out, mid);
        ExpandAllCloses(g, todo[1..], mid);
        assert r == ExpandAll(g, todo[1..], mid);
        hide Succs, ExpandAll, Elems;
        assert mid[|out|] == id;
        PrefixIn(mid, r);
        PrefixIn(out, mid);
      }
    }
  }

  lemma PrefixIn(a: seq<ClassId>, b: seq<ClassId>)
    requires a <= b
    ensures forall x :: x in a ==> x in b
  {
    forall x | x in a ensures x in b {
      var i :| 0 <= i < |a| && a[i] == x;
      assert b[i] == x;
    }
  }

  lemma {:induction false} ExpandAllReaches(g: Graph, todo: seq<ClassId>, out: seq<ClassId>, x: ClassId)
    requires x in ExpandAll(g, todo, out) && x !in out
    ensures exists t :: t in todo && Reaches(g, t, x)
    decreases |g.Keys - Elems(out)|, |todo|
  {
    var id := todo[0];
    assert todo == [id] + todo[1..];
    if id in out {
      ExpandAllReaches(g, todo[1..], out, x);
    } else {
      Progress(g, out, out + [id]);
      assert id !in g ==> Succs(g, id) == [];
      var mid := ExpandAll(g, Succs(g, id), out + [id]);
      Progress(g, out, mid);
      if x == id {
        ReachesSelf(g, id);
      } else if x in mid {
        ExpandAllReaches(g, Succs(g, id), out + [id], x);
        var s :| s in Succs(g, id) && Reaches(g, s, x);
        ReachesStep(g, id, s, x);
      } else {
        ExpandAllReaches(g, todo[1..], mid, x);
      }
    }
  }

  lemma {:induction false} ClosedHoldsPath(g: Graph, r: seq<ClassId>, p: seq<ClassId>)
    requires Left(g, [], r) && IsPath(g, p) && p[0] in r
    ensures p[|p| - 1] in r
    decreases |p|
  {
    hide Succs;
    if |p| > 1 {
      var q := p[1..];
      assert p[0 + 1] in Succs(g, p[0]);
      forall i | 0 <= i < |q| - 1 ensures q[i + 1] in Succs(g, q[i]) {
        assert q[i] == p[i + 1] && q[i + 1] == p[i + 2];
      }
      ClosedHoldsPath(g, r, q);
    }
  }

  /** For every table, cyclic ones included: the class itself first, no id twice, and
      exactly the ids reachable through includes and superclasses. */
  lemma AncestorsAreReachable(g: Graph, id: ClassId)
    ensures NoDup(Ancestors(g, id))
    ensures Ancestors(g, id) != [] && Ancestors(g, id)[0] == id
    ensures forall x :: x in Ancestors(g, id) <==> Reaches(g, id, x)
  {
    hide Succs;
    var r := Ancestors(g, id);
    ExpandAllNoDup(g, [id], []);
    ExpandAllCloses(g, [id], []);
    StartsWithItself(g, id);
    forall x ensures x in r <==> Reaches(g, id, x) {
      if x in r {
        ExpandAllReaches(g, [id], [], x);
      }
      if Reaches(g, id, x) {
        var p :| Via(g, id, p, x);
        ClosedHoldsPath(g, r, p);
      }
    }
  }

  lemma StartsWithItself(g: Graph, id: ClassId)
    ensures [id] <= Ancestors(g, id)
  {
    assert [id] + [] == [id] && [] + [id] == [id];
    ExpandAllCons(g, id, [], []);
  }

  /** An ancestor's ancestors are ancestors. */
  lemma AncestryIsTransitive(g: Graph, a: ClassId, b: ClassId, c: ClassId)
    requires b in Ancestors(g, a) && c in Ancestors(g, b)
    ensures c in Ancestors(g, a)
  {
    AncestorsAreReachable(g, a);
    AncestorsAreReachable(g, b);
    ReachesTransitive(g, a, b, c);
  }

  // ---- the order of one class's own edges ------------------------------------------------------

  /** An id that declares nothing of its own is appended. */
  lemma LeafFirst(g: Graph, t: ClassId, rest: seq<ClassId>, out: seq<ClassId>)
    requires Succs(g, t) == [] && t !in out
    ensures ExpandAll(g, [t] + rest, out) == ExpandAll(g, rest, out + [t])
  {
    hide Succs;
    ExpandAllCons(g, t, rest, out);
    NothingLeft(g, out + [t]);
  }

  lemma NothingLeft(g: Graph, out: seq<ClassId>)
    ensures ExpandAll(g, [], out) == out
  {
  }

  lemma NewInOrder(t: ClassId, rest: seq<ClassId>, out: seq<ClassId>)
    requires NoDup(out + ([t] + rest))
    ensures t !in out && NoDup((out + [t]) + rest)
  {
    var all := out + ([t] + rest);
    assert all[|out|] == t && forall i :: 0 <= i < |out| ==> all[i] == out[i];
    assert (out + [t]) + rest == all;
  }

  /** Several are appended as they come. */
  lemma {:induction false} LeavesInOrder(g: Graph, todo: seq<ClassId>, out: seq<ClassId>)
    requires forall t :: t in todo ==> Succs(g, t) == []
    requires NoDup(out + todo)
    ensures ExpandAll(g, todo, out) == out + todo
    decreases |todo|
  {
    hide Succs, ExpandAll, NoDup;
    if todo == [] {
      NothingLeft(g, out);
    } else {
      var t, rest := todo[0], todo[1..];
      assert todo == [t] + rest;
      NewInOrder(t, rest, out);
      LeafFirst(g, t, rest, out);
      LeavesInOrder(g, rest, out + [t]);
      assert (out + [t]) + rest == out + todo;
    }
  }

  /** A class over leaves reads as Ruby shows it: itself, its includes from the last to
      the first, its superclass. */
  lemma OwnEdgesInOrder(g: Graph, id: ClassId)
    requires id in g && g[id].superclass.Some?
    requires NoDup([id] + Backwards(g[id].includes) + [g[id].superclass.value])
    requires forall t :: t in Succs(g, id) ==> Succs(g, t) == []
    ensures Ancestors(g, id) == [id] + Backwards(g[id].includes) + [g[id].superclass.value]
  {
    assert [id] + [] == [id] && [] + [id] == [id];
    ExpandAllCons(g, id, [], []);
    assert [id] + Succs(g, id) == [id] + Backwards(g[id].includes) + [g[id].superclass.value];
    LeavesInOrder(g, Succs(g, id), [id]);
  }
}
