/** Where modules have no superclass and only modules are included, the classes among
    the declared ancestors are the superclass chain, in order. */
module ClassChain {
  import opened Hierarchy

  /** Modules have no superclass, includes are modules, superclasses are not. */
  ghost predicate WellKinded(g: Graph, modules: set<ClassId>) {
    forall id {:trigger EdgesOf(g, id)} ::
      && (id in modules ==> EdgesOf(g, id).superclass.None?)
      && (forall m :: m in EdgesOf(g, id).includes ==> m in modules)
      && (EdgesOf(g, id).superclass.Some? ==> EdgesOf(g, id).superclass.value !in modules)
  }

  /** The classes of a list. */
  function ClassesIn(s: seq<ClassId>, modules: set<ClassId>): seq<ClassId> {
    if s == [] then []
    else (if s[0] in modules then [] else [s[0]]) + ClassesIn(s[1..], modules)
  }

  /** The superclasses of `id`, itself first, up to one in `seen`. */
  function Chain(g: Graph, id: ClassId, seen: set<ClassId>): seq<ClassId>
    decreases |g.Keys - seen|, if id in g then 1 else 0
  {
    if id in seen then []
    else if id !in g || g[id].superclass.None? then [id]
    else
      assert g.Keys - (seen + {id}) == g.Keys - seen - {id};
      [id] + Chain(g, g[id].superclass.value, seen + {id})
  }

  lemma {:induction false} ClassesAppend(a: seq<ClassId>, b: seq<ClassId>, modules: set<ClassId>)
    ensures ClassesIn(a + b, modules) == ClassesIn(a, modules) + ClassesIn(b, modules)
  {
    if a == [] {
      assert a + b == b;
    } else {
      assert (a + b)[1..] == a[1..] + b;
      ClassesAppend(a[1..], b, modules);
    }
  }

  lemma {:induction false} ClassesAre(s: seq<ClassId>, modules: set<ClassId>, x: ClassId)
    ensures x in ClassesIn(s, modules) <==> x in s && x !in modules
  {
    if s != [] {
      ClassesAre(s[1..], modules, x);
      assert s == [s[0]] + s[1..];
    }
  }

  lemma BackwardsElems<T>(s: seq<T>, x: T)
    ensures x in Backwards(s) <==> x in s
  {
    if x in s {
      var i :| 0 <= i < |s| && s[i] == x;
      assert Backwards(s)[|s| - 1 - i] == x;
    }
  }

  lemma ModuleSuccs(g: Graph, modules: set<ClassId>, id: ClassId)
    requires WellKinded(g, modules)
    ensures forall s :: s in Backwards(EdgesOf(g, id).includes) ==> s in modules
    ensures id in modules ==> Succs(g, id) == Backwards(EdgesOf(g, id).includes)
  {
    forall s | s in Backwards(EdgesOf(g, id).includes) ensures s in modules {
      BackwardsElems(EdgesOf(g, id).includes, s);
    }
  }

  /** A walk that starts at modules lists only modules. */
  lemma {:induction false} ModulesStayModules(g: Graph, modules: set<ClassId>, todo: seq<ClassId>, out: seq<ClassId>)
    requires WellKinded(g, modules) && forall t :: t in todo ==> t in modules
    ensures ClassesIn(ExpandAll(g, todo, out), modules) == ClassesIn(out, modules)
    decreases |g.Keys - Elems(out)|, |todo|
  {
    if todo != [] {
      if todo[0] in out {
        ModulesStayModules(g, modules, todo[1..], out);
      } else {
        var id := todo[0];
        Progress(g, out, out + [id]);
        assert id !in g ==> Succs(g, id) == [];
        ModuleSuccs(g, modules, id);
        ClassesAppend(out, [id], modules);
        assert [id][1..] == [];
        hide WellKinded, Succs;
        ModulesStayModules(g, modules, Succs(g, id), out + [id]);
        var mid := ExpandAll(g, Succs(g, id), out + [id]);
        Progress(g, out, mid);
        ModulesStayModules(g, modules, todo[1..], mid);
      }
    }
  }

  lemma OneClassMore(out: seq<ClassId>, modules: set<ClassId>, id: ClassId)
    requires id !in modules
    ensures ClassesIn(out + [id], modules) == ClassesIn(out, modules) + [id]
    ensures Elems(ClassesIn(out, modules) + [id]) == Elems(ClassesIn(out, modules)) + {id}
  {
    ClassesAppend(out, [id], modules);
    assert [id][1..] == [] && ClassesIn([id], modules) == [id];
  }

  lemma AfterIncludes(g: Graph, modules: set<ClassId>, id: ClassId, out: seq<ClassId>)
    requires WellKinded(g, modules) && id in g && id !in modules && id !in out
    ensures var mid := ExpandAll(g, Backwards(g[id].includes), out + [id]);
            && ClassesIn(mid, modules) == ClassesIn(out, modules) + [id]
            && |g.Keys - Elems(mid)| < |g.Keys - Elems(out)|
  {
    assert EdgesOf(g, id) == g[id];
    var mid := ExpandAll(g, Backwards(g[id].includes), out + [id]);
    ModuleSuccs(g, modules, id);
    ModulesStayModules(g, modules, Backwards(g[id].includes), out + [id]);
    OneClassMore(out, modules, id);
    assert mid[|out|] == id;
    Progress(g, out, mid);
  }

  lemma {:induction false} ExpandClasses(g: Graph, modules: set<ClassId>, id: ClassId, out: seq<ClassId>)
    requires WellKinded(g, modules) && id !in modules
    ensures ClassesIn(Expand(g, id, out), modules)
         == ClassesIn(out, modules) + Chain(g, id, Elems(ClassesIn(out, modules)))
    decreases |g.Keys - Elems(out)|
  {
    hide ExpandAll, ClassesIn, Expand;
    var before := ClassesIn(out, modules);
    ExpandOne(g, id, out);
    ClassesAre(out, modules, id);
    if id !in out {
      OneClassMore(out, modules, id);
      if id in g {
        AfterIncludes(g, modules, id, out);
        if g[id].superclass.Some? {
          var up := g[id].superclass.value;
          assert EdgesOf(g, id) == g[id];
          ExpandClasses(g, modules, up, ExpandAll(g, Backwards(g[id].includes), out + [id]));
          hide WellKinded;
          var tail := Chain(g, up, Elems(before) + {id});
          assert before + [id] + tail == before + ([id] + tail);
        }
      }
    }
  }

  /** The class-only subsequence of a class's declared ancestors is its superclass chain. */
  lemma AncestorClassesAreTheChain(g: Graph, modules: set<ClassId>, id: ClassId)
    requires WellKinded(g, modules) && id !in modules
    ensures ClassesIn(Ancestors(g, id), modules) == Chain(g, id, {})
  {
    ExpandClasses(g, modules, id, []);
    assert Elems([]) == {};
  }

  /** And a module has no class among its ancestors. */
  lemma ModuleHasNoClasses(g: Graph, modules: set<ClassId>, id: ClassId)
    requires WellKinded(g, modules) && id in modules
    ensures ClassesIn(Ancestors(g, id), modules) == []
  {
    ModulesStayModules(g, modules, [id], []);
  }
}
