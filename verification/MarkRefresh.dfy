/** What one mark-driven refresh does to its struct's list and to every count. */
module MarkRefresh {
  import opened Sums
  import opened HandleState
  import opened HandleInvariant
  import opened HandleOps
  import opened RefreshKeeps
  import opened Frames

  // ---- the effect of one refresh ----------------------------------------------------

  /** The refreshed object's own handle is held by a pin the pop has not given back yet. */
  ghost predicate Pinned(s: State, p: Word, ws: seq<Work>) {
    p in s.byIdentity && s.byIdentity[p] in PendingPins(ws)
  }

  lemma HandleOf(ids: map<Word, Word>, t: Table, h: Heap, p: Word)
    requires TableOk(ids, t) && NamesOk(t, h) && p in ids && !SpecialConst(p)
    ensures ids[p] in t && !SpecialConst(ids[p]) && t[ids[p]].value.Heap? && t[ids[p]].value.payload == p
  {
    assert KeyOk(ids[p], t, p);
    assert EntryOk(ids, ids[p], t[ids[p]]);
  }

  lemma HandleKeepsObject(ids: map<Word, Word>, t: Table, h: Heap, a: Word)
    requires TableOk(ids, t) && NamesOk(t, h) && a in t && t[a].value.Heap?
    ensures t[a].value.payload in h && t[a].value.payload in ids && ids[t[a].value.payload] == a
  {
    assert EntryOk(ids, a, t[a]) && Names(h, t[a].value);
  }

  lemma PendingPinned(s: State, t: State, p: Word, ws: seq<Work>)
    requires Inv(s, ws) && Inv(t, ws) && Pinned(s, p, ws) && FewerHandles(s.entries, t.entries)
    requires p in s.heap
    ensures p in t.heap && Pinned(t, p, ws)
  {
    var a := s.byIdentity[p];
    assert !SpecialConst(p);
    hide TableOk, NamesOk, SerialsOk, ListsOk, KlassOk, ClassesOk, PointersOk, RefsOk, PendingPins, Holders;
    HandleOf(s.byIdentity, s.entries, s.heap, p);
    assert a in Holders(t) + PendingPins(ws);
    assert a in t.entries;
    HandleKeepsObject(t.byIdentity, t.entries, t.heap, a);
  }

  /** What the objects that die in the releases had pinned. */
  ghost function GivenBack(h: Heap, g: Heap): multiset<Word> {
    CDataPins(Only(h, h.Keys - g.Keys))
  }

  lemma SurvivorSums(h: Heap, g: Heap)
    requires SameBodies(h, g)
    ensures CDataPins(h) == CDataPins(g) + GivenBack(h, g)
  {
    var dead := h.Keys - g.Keys;
    SumPartition(h, PinsOf, dead);
    assert Image(h - dead, PinsOf) == Image(g, PinsOf);
  }

  lemma SameDead(h: Heap, g: Heap, p: Word, o: Object)
    requires p in h && p in g
    ensures GivenBack(h[p := o], g) == GivenBack(h, g)
  {
    assert Only(h[p := o], h[p := o].Keys - g.Keys) == Only(h, h.Keys - g.Keys);
  }

  lemma SettleHolders(s: State, ws: seq<Work>)
    ensures Holders(s) == Holders(Settle(s, ws)) + GivenBack(s.heap, Settle(s, ws).heap)
  {
    SettleReleases(s, ws);
    var t := Settle(s, ws);
    SurvivorSums(s.heap, t.heap);
    hide Settle, CDataPins, GivenBack;
    var x := ScopePins(s.scopes) + s.forever + s.immortal;
    assert x + (CDataPins(t.heap) + GivenBack(s.heap, t.heap)) == x + CDataPins(t.heap) + GivenBack(s.heap, t.heap);
  }

  /** The list becomes exactly the handles the mark function reports now. */
  lemma RefreshContents(s: State, p: Word, busy: bool, ws: seq<Work>)
    requires Inv(s, ws) && IsCData(s, p) && Refreshes(s.heap[p].body, busy)
    requires AllLive(s, s.heap[p].body.reports) && Pinned(s, p, ws)
    ensures var b, t := s.heap[p].body, Refresh(s, p, busy);
            && p in t.heap && t.heap[p].body == Refreshed(b)
            && NoDup(t.heap[p].body.marked)
            && (forall x :: x in t.heap[p].body.marked <==> x in b.reports && !SpecialConst(x))
  {
    var b, t := s.heap[p].body, Refresh(s, p, busy);
    assert BodyOk(b);
    AddEdgesContents(b.reports, b.marked);
    Partition(All(b), b.reports);
    PartitionListOk(All(b), b.reports);
    RefreshKeepsInv(s, p, busy, ws);
    RefreshReleases(s, p, busy);
    hide ShapeOk, PinsOk, RefsOk, Holders, Owners, AddEdges, Among, NotAmong, PinEntries, Settle, ListOk;
    PendingPinned(s, t, p, ws);
    SettleReleases(Repin(s, p), Unpins(Stale(b)));
  }

  lemma RefreshHolders(s: State, p: Word, busy: bool)
    requires IsCData(s, p) && Refreshes(s.heap[p].body, busy) && p in Refresh(s, p, busy).heap
    ensures var b, t := s.heap[p].body, Refresh(s, p, busy);
            Holders(t) + GivenBack(s.heap, t.heap) + multiset(Stale(b)) == Holders(s) + multiset(Newly(b))
  {
    var b, t, r := s.heap[p].body, Refresh(s, p, busy), Repin(s, p);
    RepinSums(s, p);
    SettleHolders(r, Unpins(Stale(b)));
    assert GivenBack(r.heap, t.heap) == GivenBack(s.heap, t.heap) by {
      hide Settle, GivenBack, AddEdges, Among, PinEntries;
      assert r.heap == s.heap[p := r.heap[p]];
      SameDead(s.heap, t.heap, p, r.heap[p]);
    }
  }

  lemma PinsAt(t: Table, owed: multiset<Word>, a: Word)
    requires PinsOk(t, owed) && a in t
    ensures t[a].pins == owed[a]
  {
  }

  /** Each newly reported handle gains one pin and each one no longer reported loses
      one; the only other change is what objects dying in the releases give back. */
  lemma RefreshCounts(s: State, p: Word, busy: bool, ws: seq<Work>, a: Word)
    requires Inv(s, ws) && IsCData(s, p) && Refreshes(s.heap[p].body, busy)
    requires AllLive(s, s.heap[p].body.reports) && Pinned(s, p, ws)
    requires a in Refresh(s, p, busy).entries
    ensures var b, t := s.heap[p].body, Refresh(s, p, busy);
            a in s.entries &&
            t.entries[a].pins + multiset(Stale(b))[a] + GivenBack(s.heap, t.heap)[a]
              == s.entries[a].pins + multiset(Newly(b))[a]
  {
    var b, t := s.heap[p].body, Refresh(s, p, busy);
    RefreshKeepsInv(s, p, busy, ws);
    RefreshReleases(s, p, busy);
    hide ShapeOk, PinsOk, RefsOk, Holders, Owners, Newly, Stale, GivenBack, Refresh, PendingPins, AllLive;
    PendingPinned(s, t, p, ws);
    RefreshHolders(s, p, busy);
    PinsAt(s.entries, Holders(s) + PendingPins(ws), a);
    PinsAt(t.entries, Holders(t) + PendingPins(ws), a);
    assert (Holders(t) + GivenBack(s.heap, t.heap) + multiset(Stale(b)))[a] == (Holders(s) + multiset(Newly(b)))[a];
  }

  /** The two lists name each handle at most once, so "gains one" is one. */
  lemma RefreshMovesOnce(b: Body, a: Word)
    requires b.CStruct? && BodyOk(b)
    ensures multiset(Newly(b))[a] == if a in b.reports && !SpecialConst(a) && a !in b.marked then 1 else 0
    ensures multiset(Stale(b))[a] == if a in b.marked && a !in b.reports then 1 else 0
  {
    hide AddEdges, Among, NotAmong;
    AddEdgesExtends(b.reports, b.marked);
    AddEdgesContents(b.reports, b.marked);
    Partition(All(b), b.reports);
    PartitionListOk(All(b), b.reports);
    NoDupCount(Stale(b), a);
    NoDupCount(b.marked, a);
    NoDupCount(All(b), a);
    assert All(b) == b.marked + Newly(b);
    hide Newly, Stale, All, NoDup;
    assert multiset(b.marked + Newly(b))[a] == multiset(b.marked)[a] + multiset(Newly(b))[a];
  }
}
