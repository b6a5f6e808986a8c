/** The declared tables: `Object`, the builtins and the exceptions, the edges they
    declare, and the payload root a class inherits from. */
module ClassTables {
  import opened Options
  import opened Hierarchy
  import opened Reachability
  import opened NaiveOrder
  import opened ClassChain

  const OBJECT: ClassId := 0

  datatype Builtin = Builtin(id: ClassId, isModule: bool, superclass: Option<ClassId>, includes: seq<ClassId>)
  datatype Exception = Exception(id: ClassId, name: string, superclass: Option<ClassId>, isModule: bool)

  datatype Tables = Tables(
    objectSuper: ClassId,
    objectIncludes: seq<ClassId>,
    builtins: seq<Builtin>,
    exceptions: seq<Exception>,
    exceptionIncludes: seq<(ClassId, seq<ClassId>)>,
    notRoots: set<ClassId>)

  function FindBuiltin(bs: seq<Builtin>, id: ClassId): Option<Builtin> {
    if bs == [] then None else if bs[0].id == id then Some(bs[0]) else FindBuiltin(bs[1..], id)
  }

  function FindException(es: seq<Exception>, id: ClassId): Option<Exception> {
    if es == [] then None else if es[0].id == id then Some(es[0]) else FindException(es[1..], id)
  }

  function FindIncludes(rows: seq<(ClassId, seq<ClassId>)>, id: ClassId): seq<ClassId> {
    if rows == [] then [] else if rows[0].0 == id then rows[0].1 else FindIncludes(rows[1..], id)
  }

  /** `core_class_edges`. */
  function CoreEdges(t: Tables, id: ClassId): Row {
    if id == OBJECT then Row(Some(t.objectSuper), t.objectIncludes)
    else
      var b := FindBuiltin(t.builtins, id);
      if b.Some? then Row(b.value.superclass, b.value.includes)
      else
        var e := FindException(t.exceptions, id);
        if e.Some? then Row(e.value.superclass, FindIncludes(t.exceptionIncludes, id))
        else Row(None, [])
  }

  /** The same edges as a finite graph. */
  function GraphOf(t: Tables): Graph {
    var ids := {OBJECT} + (set b | b in t.builtins :: b.id) + (set e | e in t.exceptions :: e.id);
    map id | id in ids :: CoreEdges(t, id)
  }

  lemma {:induction false} FindBuiltinListed(bs: seq<Builtin>, id: ClassId)
    ensures FindBuiltin(bs, id).Some? ==> FindBuiltin(bs, id).value in bs && FindBuiltin(bs, id).value.id == id
    ensures (exists b :: b in bs && b.id == id) ==> FindBuiltin(bs, id).Some?
  {
    if bs != [] {
      FindBuiltinListed(bs[1..], id);
      assert bs == [bs[0]] + bs[1..];
    }
  }

  lemma {:induction false} FindExceptionListed(es: seq<Exception>, id: ClassId)
    ensures FindException(es, id).Some? ==> FindException(es, id).value in es && FindException(es, id).value.id == id
  {
    if es != [] {
      FindExceptionListed(es[1..], id);
      assert es == [es[0]] + es[1..];
    }
  }

  lemma GraphHasTheEdges(t: Tables, id: ClassId)
    ensures EdgesOf(GraphOf(t), id) == CoreEdges(t, id)
  {
    FindBuiltinListed(t.builtins, id);
    FindExceptionListed(t.exceptions, id);
  }

  // ---- the indexed lookup ----------------------------------------------------------------------

  const USIZE_MAX: nat := 0xFFFF_FFFF_FFFF_FFFF

  /** `(id as usize).wrapping_sub(1)`. */
  function RowIndex(id: ClassId): nat {
    if id == 0 then USIZE_MAX else id - 1
  }

  /** `builtin_class`: an index and a check of the id found there. */
  function BuiltinClass(bs: seq<Builtin>, id: ClassId): Option<Builtin> {
    if RowIndex(id) < |bs| && bs[RowIndex(id)].id == id then Some(bs[RowIndex(id)]) else None
  }

  /** Ids are contiguous from 1. */
  predicate Contiguous(bs: seq<Builtin>) {
    forall i :: 0 <= i < |bs| ==> bs[i].id == i + 1
  }

  lemma {:induction false} FindFrom(bs: seq<Builtin>, first: nat, id: ClassId)
    requires forall i :: 0 <= i < |bs| ==> bs[i].id == first + i
    ensures FindBuiltin(bs, id) == if first <= id < first + |bs| then Some(bs[id - first]) else None
  {
    if bs != [] {
      FindFrom(bs[1..], first + 1, id);
    }
  }

  /** Where the ids are contiguous the index answers what a search of the table would,
      for every id, `Object`'s 0 and the ids past the table included. */
  lemma IndexIsSearch(bs: seq<Builtin>, id: ClassId)
    requires Contiguous(bs)
    ensures BuiltinClass(bs, id) == FindBuiltin(bs, id)
  {
    FindFrom(bs, 1, id);
  }

  // ---- the edges, read off the rows -------------------------------------------------------------

  lemma ObjectEdges(t: Tables)
    ensures EdgesOf(GraphOf(t), OBJECT) == Row(Some(t.objectSuper), t.objectIncludes)
  {
    GraphHasTheEdges(t, OBJECT);
  }

  /** A builtin has its own row's superclass and includes. */
  lemma BuiltinEdges(t: Tables, i: nat)
    requires Contiguous(t.builtins) && i < |t.builtins|
    ensures EdgesOf(GraphOf(t), t.builtins[i].id) == Row(t.builtins[i].superclass, t.builtins[i].includes)
  {
    GraphHasTheEdges(t, t.builtins[i].id);
    FindFrom(t.builtins, 1, t.builtins[i].id);
  }

  lemma {:induction false} FirstException(es: seq<Exception>, i: nat)
    requires i < |es| && forall j :: 0 <= j < i ==> es[j].id != es[i].id
    ensures FindException(es, es[i].id) == Some(es[i])
    decreases i
  {
    if i > 0 {
      FirstException(es[1..], i - 1);
    }
  }

  /** Row `k` is the first that names `id`. */
  predicate FirstNaming(rows: seq<(ClassId, seq<ClassId>)>, id: ClassId, k: nat) {
    k < |rows| && rows[k].0 == id && forall j :: 0 <= j < k ==> rows[j].0 != id
  }

  lemma {:induction false} FirstIncludes(rows: seq<(ClassId, seq<ClassId>)>, id: ClassId)
    ensures (forall k :: 0 <= k < |rows| ==> rows[k].0 != id) ==> FindIncludes(rows, id) == []
    ensures forall k: nat :: FirstNaming(rows, id, k) ==> FindIncludes(rows, id) == rows[k].1
  {
    if rows != [] {
      FirstIncludes(rows[1..], id);
      forall k: nat | FirstNaming(rows, id, k) ensures FindIncludes(rows, id) == rows[k].1 {
        if k > 0 {
          assert FirstNaming(rows[1..], id, k - 1);
        }
      }
    }
  }

  /** An exception has its own row's superclass and the includes of the first row that names
      it among the exception includes, if one does. */
  lemma ExceptionEdges(t: Tables, i: nat)
    requires Contiguous(t.builtins) && i < |t.exceptions| && t.exceptions[i].id > |t.builtins|
    requires forall j :: 0 <= j < i ==> t.exceptions[j].id != t.exceptions[i].id
    ensures var e, edges := t.exceptions[i], EdgesOf(GraphOf(t), t.exceptions[i].id);
            && edges.superclass == e.superclass
            && ((forall k :: 0 <= k < |t.exceptionIncludes| ==> t.exceptionIncludes[k].0 != e.id) ==> edges.includes == [])
            && forall k: nat :: FirstNaming(t.exceptionIncludes, e.id, k) ==> edges.includes == t.exceptionIncludes[k].1
  {
    var id := t.exceptions[i].id;
    GraphHasTheEdges(t, id);
    FindFrom(t.builtins, 1, id);
    FirstException(t.exceptions, i);
    FirstIncludes(t.exceptionIncludes, id);
  }

  /** An id no table has is its own only ancestor. */
  lemma UnknownEdges(t: Tables, id: ClassId)
    requires id != OBJECT && (forall b :: b in t.builtins ==> b.id != id) && forall e :: e in t.exceptions ==> e.id != id
    ensures EdgesOf(GraphOf(t), id) == Row(None, []) && Ancestors(GraphOf(t), id) == [id]
  {
    var g := GraphOf(t);
    assert id !in g;
    ExpandOne(g, id, []);
  }

  /** What a class's edges name, and all above it, is among its ancestors. */
  lemma EdgesAreAncestors(g: Graph, id: ClassId, up: ClassId)
    requires up in EdgesOf(g, id).includes || EdgesOf(g, id).superclass == Some(up)
    ensures up in Ancestors(g, id) && forall x :: x in Ancestors(g, up) ==> x in Ancestors(g, id)
  {
    assert up in Succs(g, id) by {
      BackwardsElems(EdgesOf(g, id).includes, up);
      if EdgesOf(g, id).superclass == Some(up) {
        assert Succs(g, id)[|Succs(g, id)| - 1] == up;
      } else {
        var i :| 0 <= i < |Backwards(EdgesOf(g, id).includes)| && Backwards(EdgesOf(g, id).includes)[i] == up;
        assert Succs(g, id)[i] == up;
      }
    }
    ReachesSelf(g, up);
    ReachesStep(g, id, up, up);
    AncestorsAreReachable(g, id);
    forall x | x in Ancestors(g, up) ensures x in Ancestors(g, id) {
      AncestryIsTransitive(g, id, up, x);
    }
  }

  /** Every include and the superclass a builtin's row declares, with all their own, are its
      declared ancestors. */
  lemma BuiltinAncestors(t: Tables, i: nat, up: ClassId)
    requires Contiguous(t.builtins) && i < |t.builtins|
    requires up in t.builtins[i].includes || t.builtins[i].superclass == Some(up)
    ensures var g, id := GraphOf(t), t.builtins[i].id;
            up in Ancestors(g, id) && forall x :: x in Ancestors(g, up) ==> x in Ancestors(g, id)
  {
    BuiltinEdges(t, i);
    EdgesAreAncestors(GraphOf(t), t.builtins[i].id, up);
  }

  lemma ObjectAncestors(t: Tables, up: ClassId)
    requires up in t.objectIncludes || up == t.objectSuper
    ensures up in Ancestors(GraphOf(t), OBJECT)
  {
    ObjectEdges(t);
    EdgesAreAncestors(GraphOf(t), OBJECT, up);
  }

  lemma ExceptionAncestors(t: Tables, i: nat, up: ClassId)
    requires Contiguous(t.builtins) && i < |t.exceptions| && t.exceptions[i].id > |t.builtins|
    requires forall j :: 0 <= j < i ==> t.exceptions[j].id != t.exceptions[i].id
    requires || t.exceptions[i].superclass == Some(up)
             || exists k: nat :: FirstNaming(t.exceptionIncludes, t.exceptions[i].id, k) && up in t.exceptionIncludes[k].1
    ensures var g, id := GraphOf(t), t.exceptions[i].id;
            up in Ancestors(g, id) && forall x :: x in Ancestors(g, up) ==> x in Ancestors(g, id)
  {
    ExceptionEdges(t, i);
    EdgesAreAncestors(GraphOf(t), t.exceptions[i].id, up);
  }

  // ---- payload roots -----------------------------------------------------------------------------

  predicate IsPayloadRoot(t: Tables, id: ClassId) {
    id !in t.notRoots && BuiltinClass(t.builtins, id).Some? && !BuiltinClass(t.builtins, id).value.isModule
  }

  /** A payload root is a builtin row that is a class and not one of the exempt ids. */
  lemma RootsAreClassRows(t: Tables, id: ClassId)
    requires Contiguous(t.builtins)
    ensures IsPayloadRoot(t, id)
       <==> id !in t.notRoots && exists i :: 0 <= i < |t.builtins| && t.builtins[i].id == id && !t.builtins[i].isModule
  {
    if 1 <= id <= |t.builtins| {
      assert t.builtins[id - 1].id == id;
    }
  }

  function FirstRoot(t: Tables, chain: seq<ClassId>): Option<ClassId> {
    if chain == [] then None
    else if IsPayloadRoot(t, chain[0]) then Some(chain[0])
    else FirstRoot(t, chain[1..])
  }

  /** What the tables promise: contiguous builtins with the exceptions after them;
      builtins descend from builtins and `Object`, exceptions from exceptions and
      `Object`; `Object` and its superclass are no roots and end the chain. */
  ghost predicate Declared(t: Tables) {
    && Contiguous(t.builtins)
    && (forall e :: e in t.exceptions ==> e.id > |t.builtins|)
    && (forall e :: e in t.exceptions && e.superclass.Some? ==>
          e.superclass.value == OBJECT || e.superclass.value > |t.builtins|)
    && t.objectSuper in t.notRoots && CoreEdges(t, t.objectSuper).superclass.None?
  }

  lemma OutsideStep(t: Tables, id: ClassId)
    requires Declared(t) && BuiltinClass(t.builtins, id).None?
    ensures var up := EdgesOf(GraphOf(t), id).superclass;
            up.Some? ==> if id == OBJECT then up.value == t.objectSuper else BuiltinClass(t.builtins, up.value).None?
  {
    GraphHasTheEdges(t, id);
    IndexIsSearch(t.builtins, id);
    FindExceptionListed(t.exceptions, id);
  }

  lemma FirstRootCons(t: Tables, id: ClassId, rest: seq<ClassId>)
    ensures FirstRoot(t, [id] + rest) == if IsPayloadRoot(t, id) then Some(id) else FirstRoot(t, rest)
  {
    assert ([id] + rest)[1..] == rest;
  }

  lemma ObjectEndsTheChain(t: Tables, seen: set<ClassId>)
    requires Declared(t)
    ensures FirstRoot(t, Chain(GraphOf(t), t.objectSuper, seen)) == None
  {
    var g := GraphOf(t);
    GraphHasTheEdges(t, t.objectSuper);
    assert Chain(g, t.objectSuper, seen) == [] || Chain(g, t.objectSuper, seen) == [t.objectSuper] + [];
    hide GraphOf, Chain;
    FirstRootCons(t, t.objectSuper, []);
  }

  /** Past the builtins the chain meets no payload root. */
  lemma {:induction false} NoRootOutside(t: Tables, id: ClassId, seen: set<ClassId>)
    requires Declared(t) && BuiltinClass(t.builtins, id).None?
    ensures FirstRoot(t, Chain(GraphOf(t), id, seen)) == None
    decreases |GraphOf(t).Keys - seen|
  {
    hide GraphOf, FirstRoot, Declared;
    var g := GraphOf(t);
    OutsideStep(t, id);
    FirstRootCons(t, id, []);
    assert [id] + [] == [id];
    assert FirstRoot(t, []) == None by {
      EmptyHasNoRoot(t);
    }
    if id !in seen && id in g && g[id].superclass.Some? {
      var up := g[id].superclass.value;
      assert EdgesOf(g, id) == g[id];
      assert g.Keys - (seen + {id}) == g.Keys - seen - {id};
      FirstRootCons(t, id, Chain(g, up, seen + {id}));
      if id == OBJECT {
        ObjectEndsTheChain(t, seen + {id});
      } else {
        NoRootOutside(t, up, seen + {id});
      }
    }
  }

  lemma EmptyHasNoRoot(t: Tables)
    ensures FirstRoot(t, []) == None
  {
  }

  lemma StepUp(t: Tables, at: ClassId, seen: set<ClassId>)
    requires Declared(t) && at !in seen && BuiltinClass(t.builtins, at).Some?
    ensures var g, up := GraphOf(t), BuiltinClass(t.builtins, at).value.superclass;
            && EdgesOf(g, at).superclass == up
            && (up.None? ==> Chain(g, at, seen) == [at])
            && (up.Some? ==> at in g && Chain(g, at, seen) == [at] + Chain(g, up.value, seen + {at}))
  {
    GraphHasTheEdges(t, at);
    IndexIsSearch(t.builtins, at);
  }

  // ---- when the climb ends ------------------------------------------------------------------------

  /** The loop returns at `id`: a root, no builtin, or a builtin with no superclass. */
  predicate Stops(t: Tables, id: ClassId) {
    var b := BuiltinClass(t.builtins, id);
    IsPayloadRoot(t, id) || b.None? || b.value.superclass.None?
  }

  function Up(t: Tables, id: ClassId): ClassId
    requires !Stops(t, id)
  {
    BuiltinClass(t.builtins, id).value.superclass.value
  }

  function BuiltinIds(t: Tables): set<ClassId> {
    set b | b in t.builtins :: b.id
  }

  /** The climb from `id` returns before it comes to an id of `seen` or to one twice. */
  predicate ClimbEnds(t: Tables, id: ClassId, seen: set<ClassId>)
    decreases |BuiltinIds(t) - seen|
  {
    id !in seen && (Stops(t, id) || (Fewer(t, id, seen); ClimbEnds(t, Up(t, id), seen + {id})))
  }

  lemma Fewer(t: Tables, id: ClassId, seen: set<ClassId>)
    requires id !in seen && BuiltinClass(t.builtins, id).Some?
    ensures |BuiltinIds(t) - (seen + {id})| < |BuiltinIds(t) - seen|
  {
    assert t.builtins[RowIndex(id)] in t.builtins;
    assert BuiltinIds(t) - (seen + {id}) == BuiltinIds(t) - seen - {id};
  }

  /** The loop returns in its iteration `n`. */
  predicate Returns(t: Tables, id: ClassId, n: nat)
    decreases n
  {
    if Stops(t, id) then n == 0 else n > 0 && Returns(t, Up(t, id), n - 1)
  }

  lemma {:induction false} ReturnsOnce(t: Tables, id: ClassId, n: nat, m: nat)
    requires Returns(t, id, n) && Returns(t, id, m)
    ensures n == m
    decreases n
  {
    if !Stops(t, id) {
      ReturnsOnce(t, Up(t, id), n - 1, m - 1);
    }
  }

  lemma {:induction false} EndsReturns(t: Tables, id: ClassId, seen: set<ClassId>) returns (n: nat)
    requires ClimbEnds(t, id, seen)
    ensures Returns(t, id, n)
    decreases |BuiltinIds(t) - seen|
  {
    if Stops(t, id) {
      n := 0;
    } else {
      Fewer(t, id, seen);
      var m := EndsReturns(t, Up(t, id), seen + {id});
      n := m + 1;
    }
  }

  /** It returns, but not before iteration `n` is over. */
  ghost predicate ReturnsLater(t: Tables, id: ClassId, n: nat) {
    exists k :: k > n && Returns(t, id, k)
  }

  lemma Later(t: Tables, id: ClassId, n: nat, k: nat)
    requires Returns(t, id, k) && k > n
    ensures ReturnsLater(t, id, n)
  {
  }

  lemma {:induction false} ReturnsEnds(t: Tables, id: ClassId, seen: set<ClassId>, n: nat)
    requires Returns(t, id, n) && forall y :: y in seen ==> ReturnsLater(t, y, n)
    ensures ClimbEnds(t, id, seen)
    decreases n
  {
    assert id !in seen by {
      if id in seen {
        var k :| k > n && Returns(t, id, k);
        ReturnsOnce(t, id, n, k);
      }
    }
    if !Stops(t, id) {
      forall y | y in seen + {id} ensures ReturnsLater(t, y, n - 1) {
        if y == id {
          Later(t, y, n - 1, n);
        }
      }
      hide ReturnsLater;
      ReturnsEnds(t, Up(t, id), seen + {id}, n - 1);
    }
  }

  /** The loop returns at all if and only if the superclasses from `id` up to its return
      do not come round. */
  lemma LoopEndsExactly(t: Tables, id: ClassId)
    ensures (exists n :: Returns(t, id, n)) <==> ClimbEnds(t, id, {})
  {
    hide Returns, ClimbEnds, ReturnsLater;
    if n :| Returns(t, id, n) {
      ReturnsEnds(t, id, {}, n);
    }
    if ClimbEnds(t, id, {}) {
      var n := EndsReturns(t, id, {});
      assert Returns(t, id, n);
    }
  }

  /** Two builtins that are each other's superclass, neither a root, keep it going for ever. */
  lemma RoundChainNeverReturns(t: Tables)
    requires t.builtins == [Builtin(1, false, Some(2), []), Builtin(2, false, Some(1), [])] && t.notRoots == {1, 2}
    ensures forall n :: !Returns(t, 1, n)
  {
    assert !Stops(t, 1) && Up(t, 1) == 2 && !Stops(t, 2) && Up(t, 2) == 1;
    assert !ClimbEnds(t, 1, {} + {1} + {2}) && !ClimbEnds(t, 2, {} + {1});
    LoopEndsExactly(t, 1);
  }

  /** Where no class is above itself every climb ends. */
  lemma {:induction false} AcyclicEnds(t: Tables, id: ClassId, seen: set<ClassId>)
    requires Declared(t) && Acyclic(GraphOf(t))
    requires id !in seen && forall y :: y in seen ==> Above(GraphOf(t), y, id)
    ensures ClimbEnds(t, id, seen)
    decreases |BuiltinIds(t) - seen|
  {
    hide GraphOf, Declared, Acyclic;
    if !Stops(t, id) {
      StepUp(t, id, seen);
      Fewer(t, id, seen);
      Climb(GraphOf(t), id, Up(t, id), seen);
      AcyclicEnds(t, Up(t, id), seen + {id});
    }
  }

  /** `payload_root_of`: the first payload root on the superclass chain, found by a walk
      of the builtin rows alone. */
  method PayloadRootOf(t: Tables, id: ClassId) returns (r: Option<ClassId>)
    requires Declared(t) && ClimbEnds(t, id, {})
    ensures r == FirstRoot(t, Chain(GraphOf(t), id, {}))
  {
    ghost var g := GraphOf(t);
    ghost var seen: set<ClassId> := {};
    var at := id;
    while true
      invariant FirstRoot(t, Chain(g, at, seen)) == FirstRoot(t, Chain(g, id, {}))
      invariant ClimbEnds(t, at, seen)
      decreases |BuiltinIds(t) - seen|
    {
      if IsPayloadRoot(t, at) {
        FirstOnChain(g, at, seen);
        return Some(at);
      }
      var b := BuiltinClass(t.builtins, at);
      if b.None? {
        NoRootOutside(t, at, seen);
        return None;
      }
      StepUp(t, at, seen);
      if b.value.superclass.None? {
        return None;
      }
      var up := b.value.superclass.value;
      Fewer(t, at, seen);
      ghost var rest := Chain(g, up, seen + {at});
      assert ([at] + rest)[1..] == rest;
      seen := seen + {at};
      at := up;
    }
  }

  /** What `payload_root_of` answers: a root on the superclass chain with none before it, or
      that the chain has none. */
  lemma {:induction false} FirstRootIs(t: Tables, chain: seq<ClassId>)
    ensures FirstRoot(t, chain).None? <==> forall i :: 0 <= i < |chain| ==> !IsPayloadRoot(t, chain[i])
    ensures FirstRoot(t, chain).Some? ==>
              exists i :: 0 <= i < |chain| && chain[i] == FirstRoot(t, chain).value && IsPayloadRoot(t, chain[i])
                          && forall j :: 0 <= j < i ==> !IsPayloadRoot(t, chain[j])
  {
    hide IsPayloadRoot;
    if chain != [] {
      FirstRootIs(t, chain[1..]);
      var r := FirstRoot(t, chain);
      if !IsPayloadRoot(t, chain[0]) {
        assert forall i :: 0 < i < |chain| ==> chain[i] == chain[1..][i - 1];
        if r.Some? {
          var i :| 0 <= i < |chain[1..]| && chain[1..][i] == r.value && IsPayloadRoot(t, chain[1..][i])
                   && forall j :: 0 <= j < i ==> !IsPayloadRoot(t, chain[1..][j]);
          assert chain[i + 1] == r.value;
          assert forall j :: 0 < j < i + 1 ==> chain[j] == chain[1..][j - 1];
        } else {
          forall i | 0 <= i < |chain| ensures !IsPayloadRoot(t, chain[i]) {
            if i > 0 {
              assert !IsPayloadRoot(t, chain[1..][i - 1]);
            }
          }
        }
      }
    }
  }

  lemma FirstOnChain(g: Graph, at: ClassId, seen: set<ClassId>)
    requires at !in seen
    ensures Chain(g, at, seen) != [] && Chain(g, at, seen)[0] == at
  {
  }

  /** A superclass step leads nowhere the walk has been. */
  lemma Climb(g: Graph, at: ClassId, up: ClassId, seen: set<ClassId>)
    requires Acyclic(g) && EdgesOf(g, at).superclass == Some(up) && at !in seen
    requires forall y :: y in seen ==> Above(g, y, at)
    ensures up !in seen + {at} && forall y :: y in seen + {at} ==> Above(g, y, up)
    ensures |g.Keys - (seen + {at})| < |g.Keys - seen|
  {
    assert up in Succs(g, at) by {
      assert Succs(g, at)[|Succs(g, at)| - 1] == up;
    }
    ReachesSelf(g, up);
    forall y | y in seen + {at} ensures Above(g, y, up) {
      if y in seen {
        AboveStep(g, y, at, up);
      }
    }
    assert !Above(g, up, up);
    assert g.Keys - (seen + {at}) == g.Keys - seen - {at};
  }

  /** The root is the first one among the classes of the declared ancestors, for a class,
      a module, and an id no table knows alike. */
  lemma RootIsFirstAncestor(t: Tables, modules: set<ClassId>, id: ClassId)
    requires Declared(t) && WellKinded(GraphOf(t), modules)
    requires forall m :: m in modules ==> !IsPayloadRoot(t, m)
    ensures FirstRoot(t, ClassesIn(Ancestors(GraphOf(t), id), modules)) == FirstRoot(t, Chain(GraphOf(t), id, {}))
  {
    var g := GraphOf(t);
    if id in modules {
      ModuleHasNoClasses(g, modules, id);
      assert EdgesOf(g, id).superclass.None?;
      assert Chain(g, id, {}) == [id] && [id][1..] == [];
    } else {
      AncestorClassesAreTheChain(g, modules, id);
    }
  }
}
