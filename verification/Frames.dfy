/** What a cascade, a refresh and a scope pop leave alone: they only take handles
    and objects away, and never change what a surviving handle stands for. */
module Frames {
  import opened Confluence
  import opened HandleState
  import opened HandleInvariant
  import opened HandleOps

  /** Fewer handles, each for the value it was minted for. */
  predicate FewerHandles(t: Table, u: Table) {
    forall a :: a in u ==> a in t && u[a] == t[a].(pins := u[a].pins)
  }

  /** Fewer objects, each with its own serial, class and C pointer. */
  predicate FewerObjects(h: Heap, g: Heap) {
    forall p :: p in g ==> p in h && SameObject(h[p], g[p])
  }

  predicate SameObject(o: Object, r: Object) {
    r.serial == o.serial && r.cls == o.cls && Pointer(r.body) == Pointer(o.body)
  }

  /** Fewer objects, each with the fields it had. */
  predicate SameBodies(h: Heap, g: Heap) {
    forall p :: p in g ==> p in h && g[p].body == h[p].body
  }

  predicate Released(s: State, t: State) {
    && FewerHandles(s.entries, t.entries)
    && FewerObjects(s.heap, t.heap)
    && t.forever == s.forever && t.immortal == s.immortal && t.roots == s.roots
    && t.nextSerial == s.nextSerial && t.wraps == s.wraps && t.scopes == s.scopes
  }

  predicate SettledFrom(s: State, t: State) {
    Released(s, t) && SameBodies(s.heap, t.heap)
  }

  lemma FireReleases(s: State, t: State, w: Work)
    requires SettledFrom(s, t)
    ensures SettledFrom(s, Fire(t, w).0)
  {
    match w {
      case Unpin(a) => UnpinReleases(s, t, a);
      case DropRef(p) => DropReleases(s, t, p);
    }
  }

  lemma UnpinReleases(s: State, t: State, a: Word)
    requires SettledFrom(s, t)
    ensures SettledFrom(s, FireUnpin(t, a).0)
  {
    hide FewerObjects, SameBodies;
  }

  lemma DropReleases(s: State, t: State, p: Word)
    requires SettledFrom(s, t)
    ensures SettledFrom(s, FireDrop(t, p).0)
  {
    hide FewerHandles, Pointer, Listed, Held;
  }

  lemma SettleReleases(s: State, ws: seq<Work>)
    ensures SettledFrom(s, Settle(s, ws))
  {
    var good := (t: State, ws: seq<Work>) => SettledFrom(s, t);
    forall t, w, rest ensures Preserves(Fire, good, t, w, rest) {
      if SettledFrom(s, t) {
        FireReleases(s, t, w);
      }
    }
    Shrinking();
    assert good(s, ws + []);
    NestedKeeps(Fire, Size, good, s, ws, []);
  }

  lemma ReleasedTransitive(s: State, t: State, u: State)
    requires Released(s, t) && Released(t, u)
    ensures Released(s, u)
  {
  }

  lemma {:induction false} PinEntriesKeep(t: Table, l: seq<Word>)
    ensures PinEntries(t, l).Keys == t.Keys && FewerHandles(t, PinEntries(t, l))
    decreases |l|
  {
    if l != [] {
      PinEntriesKeep(PinEntry(t, l[0]), l[1..]);
    }
  }

  lemma RefreshReleases(s: State, p: Word, busy: bool)
    ensures Released(s, Refresh(s, p, busy))
  {
    if p in s.heap && Refreshes(s.heap[p].body, busy) {
      var b := s.heap[p].body;
      AddEdgesExtends(b.reports, b.marked);
      PinEntriesKeep(s.entries, AddEdges(b.reports, b.marked)[|b.marked|..]);
      var t := Repin(s, p);
      assert Released(s, t);
      SettleReleases(t, Unpins(Stale(b)));
      ReleasedTransitive(s, t, Refresh(s, p, busy));
    }
  }

  lemma {:induction false} RefreshAllReleases(s: State, l: seq<Word>, busy: bool)
    ensures Released(s, RefreshAll(s, l, busy))
    decreases |l|
  {
    if l != [] {
      var t := RefreshFor(s, l[0], busy);
      if l[0] in s.entries && s.entries[l[0]].value.Heap? {
        RefreshReleases(s, s.entries[l[0]].value.payload, busy);
      }
      hide RefreshFor, Released;
      RefreshAllReleases(t, l[1..], busy);
      ReleasedTransitive(s, t, RefreshAll(s, l, busy));
    }
  }

  lemma ScopePopReleases(s: State, busy: bool)
    requires s.scopes != []
    ensures Released(s.(scopes := s.scopes[..|s.scopes| - 1]), ScopePop(s, busy))
  {
    var t, top := s.(scopes := s.scopes[..|s.scopes| - 1]), s.scopes[|s.scopes| - 1];
    RefreshAllReleases(t, top, busy);
    var u := RefreshAll(t, top, busy);
    SettleReleases(u, Unpins(top));
    hide RefreshAll, Settle;
    ReleasedTransitive(t, u, ScopePop(s, busy));
  }
}
