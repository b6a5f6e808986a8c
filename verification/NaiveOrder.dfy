/** On an acyclic table the pruned walk is the naive expansion (a class, its includes
    from the last to the first, its superclass, all expanded in full) with every id
    kept at its first occurrence. */
module NaiveOrder {
  import opened Hierarchy
  import opened Reachability

  ghost predicate Acyclic(g: Graph) {
    forall x :: !Above(g, x, x)
  }

  // ---- the naive expansion ------------------------------------------------------------------

  ghost function Below(g: Graph, id: ClassId): set<ClassId> {
    set y | y in g && Reaches(g, id, y)
  }

  lemma SuccIsLower(g: Graph, id: ClassId, s: ClassId)
    requires Acyclic(g) && s in Succs(g, id)
    ensures |Below(g, s)| < |Below(g, id)|
  {
    assert id in g;
    forall y | y in Below(g, s) ensures y in Below(g, id) {
      ReachesStep(g, id, s, y);
    }
    ReachesSelf(g, id);
    assert !Above(g, id, id);
    assert id !in Below(g, s);
    SubsetSize(Below(g, s), Below(g, id) - {id});
  }

  ghost function Naive(g: Graph, id: ClassId): seq<ClassId>
    requires Acyclic(g)
    decreases |Below(g, id)|, 1, 0
  {
    [id] + NaiveSuccs(g, id, Succs(g, id))
  }

  ghost function NaiveSuccs(g: Graph, id: ClassId, todo: seq<ClassId>): seq<ClassId>
    requires Acyclic(g) && forall s :: s in todo ==> s in Succs(g, id)
    decreases |Below(g, id)|, 0, |todo|
  {
    if todo == [] then []
    else
      SuccIsLower(g, id, todo[0]);
      Naive(g, todo[0]) + NaiveSuccs(g, id, todo[1..])
  }

  /** Each of `todo` expanded in full, one after the other. */
  ghost function NaiveAll(g: Graph, todo: seq<ClassId>): seq<ClassId>
    requires Acyclic(g)
  {
    if todo == [] then [] else Naive(g, todo[0]) + NaiveAll(g, todo[1..])
  }

  lemma {:induction false} NaiveSuccsAre(g: Graph, id: ClassId, todo: seq<ClassId>)
    requires Acyclic(g) && forall s :: s in todo ==> s in Succs(g, id)
    ensures NaiveSuccs(g, id, todo) == NaiveAll(g, todo)
    decreases |todo|
  {
    hide Acyclic, Succs;
    if todo != [] {
      NaiveSuccsAre(g, id, todo[1..]);
    }
  }

  lemma NaiveIs(g: Graph, id: ClassId)
    requires Acyclic(g)
    ensures Naive(g, id) == [id] + NaiveAll(g, Succs(g, id))
  {
    NaiveSuccsAre(g, id, Succs(g, id));
  }

  lemma {:induction false} NaiveReaches(g: Graph, id: ClassId, x: ClassId)
    requires Acyclic(g) && x in Naive(g, id)
    ensures Reaches(g, id, x)
    decreases |Below(g, id)|, 1, 0
  {
    NaiveIs(g, id);
    hide Acyclic;
    if x == id {
      ReachesSelf(g, id);
    } else {
      var s := NaiveSuccsReach(g, id, Succs(g, id), x);
      ReachesStep(g, id, s, x);
    }
  }

  lemma {:induction false} NaiveSuccsReach(g: Graph, id: ClassId, todo: seq<ClassId>, x: ClassId) returns (s: ClassId)
    requires Acyclic(g) && x in NaiveAll(g, todo) && forall s :: s in todo ==> s in Succs(g, id)
    ensures s in Succs(g, id) && Reaches(g, s, x)
    decreases |Below(g, id)|, 0, |todo|
  {
    SuccIsLower(g, id, todo[0]);
    hide Acyclic, Succs;
    if x in Naive(g, todo[0]) {
      s := todo[0];
      NaiveReaches(g, s, x);
    } else {
      s := NaiveSuccsReach(g, id, todo[1..], x);
    }
  }

  // ---- first occurrences --------------------------------------------------------------------

  /** `xs` appended to `out` with everything already listed left out. */
  function FirstSeen(out: seq<ClassId>, xs: seq<ClassId>): seq<ClassId>
    decreases |xs|
  {
    if xs == [] then out else FirstSeen(if xs[0] in out then out else out + [xs[0]], xs[1..])
  }

  lemma {:induction false} FirstSeenAppend(out: seq<ClassId>, a: seq<ClassId>, b: seq<ClassId>)
    ensures FirstSeen(out, a + b) == FirstSeen(FirstSeen(out, a), b)
    decreases |a|
  {
    if a == [] {
      assert a + b == b;
    } else {
      assert (a + b)[1..] == a[1..] + b;
      FirstSeenAppend(if a[0] in out then out else out + [a[0]], a[1..], b);
    }
  }

  lemma {:induction false} NothingNew(out: seq<ClassId>, xs: seq<ClassId>)
    requires forall x :: x in xs ==> x in out
    ensures FirstSeen(out, xs) == out
    decreases |xs|
  {
    if xs != [] {
      NothingNew(out, xs[1..]);
    }
  }

  // ---- pruning is unobservable ----------------------------------------------------------------

  /** Everything listed is on the walk's stack or has all it reaches listed. */
  ghost predicate Finished(g: Graph, out: seq<ClassId>, stack: set<ClassId>) {
    forall y, z :: y in out && y !in stack && Reaches(g, y, z) ==> z in out
  }

  ghost predicate OnTop(g: Graph, stack: set<ClassId>, todo: seq<ClassId>) {
    forall y, t :: y in stack && t in todo ==> Above(g, y, t)
  }

  lemma AboveStep(g: Graph, y: ClassId, id: ClassId, s: ClassId)
    requires Above(g, y, id) && s in Succs(g, id)
    ensures Above(g, y, s)
  {
    var m :| m in Succs(g, y) && Reaches(g, m, id);
    ReachesSelf(g, s);
    ReachesStep(g, id, s, s);
    ReachesTransitive(g, m, id, s);
  }

  lemma PushStack(g: Graph, stack: set<ClassId>, id: ClassId)
    requires OnTop(g, stack, [id])
    ensures OnTop(g, stack + {id}, Succs(g, id))
  {
    forall y, s | y in stack + {id} && s in Succs(g, id) ensures Above(g, y, s) {
      if y in stack {
        assert Above(g, y, id);
        AboveStep(g, y, id, s);
      } else {
        ReachesSelf(g, s);
      }
    }
  }

  lemma FinishedGrows(g: Graph, out: seq<ClassId>, stack: set<ClassId>, id: ClassId)
    requires Finished(g, out, stack)
    ensures Finished(g, out + [id], stack + {id})
  {
  }

  /** When its successors' walks are over, the class itself is finished. */
  lemma PopStack(g: Graph, mid: seq<ClassId>, stack: set<ClassId>, id: ClassId)
    requires Acyclic(g) && OnTop(g, stack, [id]) && Finished(g, mid, stack + {id}) && id in mid
    requires forall s :: s in Succs(g, id) ==> s in mid
    ensures Finished(g, mid, stack)
  {
    forall y, z | y in mid && y !in stack && Reaches(g, y, z) ensures z in mid {
      if y == id && z != id {
        ReachesSplit(g, id, z);
        var s :| s in Succs(g, id) && Reaches(g, s, z);
        assert s !in stack + {id} by {
          ReachesSelf(g, s);
          assert !Above(g, s, s) && !Above(g, id, id);
          if s in stack {
            assert Above(g, s, id);
            AboveStep(g, s, id, s);
          }
        }
      }
    }
  }

  lemma {:induction false} ExpandIsFirstSeen(g: Graph, todo: seq<ClassId>, out: seq<ClassId>, stack: set<ClassId>)
    requires Acyclic(g) && OnTop(g, stack, todo) && Finished(g, out, stack)
    ensures ExpandAll(g, todo, out) == FirstSeen(out, NaiveAll(g, todo))
    ensures Finished(g, ExpandAll(g, todo, out), stack)
    decreases |g.Keys - Elems(out)|, |todo|
  {
    if todo != [] {
      var id, rest := todo[0], todo[1..];
      assert todo == [id] + rest;
      assert OnTop(g, stack, [id]) && OnTop(g, stack, rest);
      ExpandAllCons(g, id, rest, out);
      FirstSeenAppend(out, Naive(g, id), NaiveAll(g, rest));
      if id in out {
        ListedIsDone(g, id, out, stack);
        ExpandIsFirstSeen(g, rest, out, stack);
      } else {
        Progress(g, out, out + [id]);
        assert id !in g ==> Succs(g, id) == [];
        var mid := ExpandAll(g, Succs(g, id), out + [id]);
        Progress(g, out, mid);
        PushStack(g, stack, id);
        FinishedGrows(g, out, stack, id);
        ExpandIsFirstSeen(g, Succs(g, id), out + [id], stack + {id});
        ExpandAllCloses(g, Succs(g, id), out + [id]);
        assert mid[|out|] == id;
        PopStack(g, mid, stack, id);
        OneMoreSeen(g, id, out);
        hide Acyclic, Succs, Finished, OnTop, ExpandAll;
        ExpandIsFirstSeen(g, rest, mid, stack);
      }
    }
  }

  lemma ListedIsDone(g: Graph, id: ClassId, out: seq<ClassId>, stack: set<ClassId>)
    requires Acyclic(g) && OnTop(g, stack, [id]) && Finished(g, out, stack) && id in out
    ensures FirstSeen(out, Naive(g, id)) == out
  {
    assert !Above(g, id, id);
    assert id !in stack;
    forall x | x in Naive(g, id) ensures x in out {
      NaiveReaches(g, id, x);
    }
    NothingNew(out, Naive(g, id));
  }

  lemma OneMoreSeen(g: Graph, id: ClassId, out: seq<ClassId>)
    requires Acyclic(g) && id !in out
    ensures FirstSeen(out, Naive(g, id)) == FirstSeen(out + [id], NaiveAll(g, Succs(g, id)))
  {
    NaiveIs(g, id);
    hide Acyclic, Succs;
    assert ([id] + NaiveAll(g, Succs(g, id)))[1..] == NaiveAll(g, Succs(g, id));
  }

  /** `declared_ancestors` is the first-occurrence deduplication of the naive expansion. */
  lemma AncestorsAreNaive(g: Graph, id: ClassId)
    requires Acyclic(g)
    ensures Ancestors(g, id) == FirstSeen([], Naive(g, id))
  {
    ExpandIsFirstSeen(g, [id], [], {});
    hide Acyclic;
    assert [id][1..] == [] && Naive(g, id) + [] == Naive(g, id);
  }
}
