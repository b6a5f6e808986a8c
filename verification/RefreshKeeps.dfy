/** The mark-driven refresh: what it leaves in the list, which pins it moves, and
    that it keeps the invariant while the popped scope's pins are still pending. */
module RefreshKeeps {
  import opened HandleState
  import opened HandleInvariant
  import opened HandleOps
  import opened ReleaseKeeps
  import opened OpsKeep
  import opened OpsKeepMore

  // ---- the lists ----------------------------------------------------------------

  lemma {:induction false} AddEdgesContents(edges: seq<Word>, pins: seq<Word>)
    requires ListOk(pins)
    ensures ListOk(AddEdges(edges, pins))
    ensures forall x :: x in AddEdges(edges, pins) <==> x in pins || (x in edges && !SpecialConst(x))
    decreases edges
  {
    if edges != [] {
      var e := edges[0];
      var next := if SpecialConst(e) || e in pins then pins else pins + [e];
      AddEdgesContents(edges[1..], next);
      assert edges == [e] + edges[1..];
    }
  }

  lemma {:induction false} Partition(l: seq<Word>, edges: seq<Word>)
    ensures multiset(Among(l, edges)) + multiset(NotAmong(l, edges)) == multiset(l)
    ensures forall x :: x in Among(l, edges) <==> x in l && x in edges
    ensures forall x :: x in NotAmong(l, edges) <==> x in l && x !in edges
  {
    if l != [] {
      Partition(l[1..], edges);
      assert l == [l[0]] + l[1..];
    }
  }

  lemma {:induction false} PartitionListOk(l: seq<Word>, edges: seq<Word>)
    requires ListOk(l)
    ensures ListOk(Among(l, edges)) && ListOk(NotAmong(l, edges))
  {
    if l != [] {
      PartitionListOk(l[1..], edges);
      Partition(l[1..], edges);
      var x, kept, gone := l[0], Among(l[1..], edges), NotAmong(l[1..], edges);
      assert x !in l[1..];
      hide Among, NotAmong;
      FrontListOk(l[0] in edges, x, kept);
      FrontListOk(l[0] !in edges, x, gone);
    }
  }

  lemma FrontListOk(keep: bool, x: Word, l: seq<Word>)
    requires ListOk(l) && x !in l && !SpecialConst(x)
    ensures ListOk(OneIf(keep, x) + l)
  {
  }

  // ---- pinning what is newly reported -----------------------------------------------

  lemma {:induction false} PinEntriesUp(t: Table, owed: multiset<Word>, l: seq<Word>)
    requires PinsOk(t, owed) && forall x :: x in l ==> x in t
    ensures SameButPins(t, PinEntries(t, l)) && PinsOk(PinEntries(t, l), owed + multiset(l))
    decreases |l|
  {
    if l != [] {
      PinUp(t, owed, l[0]);
      PinEntriesUp(PinEntry(t, l[0]), owed + multiset{l[0]}, l[1..]);
      assert l == [l[0]] + l[1..];
    } else {
      assert owed + multiset(l) == owed;
    }
  }

  /** What the refresh lists, and what it newly pins. */
  ghost function All(b: Body): seq<Word>
    requires b.CStruct?
  {
    AddEdges(b.reports, b.marked)
  }

  ghost function Newly(b: Body): seq<Word>
    requires b.CStruct?
  {
    AddEdgesExtends(b.reports, b.marked);
    All(b)[|b.marked|..]
  }

  function Refreshed(b: Body): Body
    requires b.CStruct?
  {
    b.(marked := Among(AddEdges(b.reports, b.marked), b.reports))
  }

  /** Nothing is lost between the old list, the new one, the new pins and the releases. */
  lemma ListsBalance(b: Body)
    requires b.CStruct?
    ensures multiset(Listed(Refreshed(b))) + multiset(Stale(b)) == multiset(Listed(b)) + multiset(Newly(b))
  {
    hide AddEdges, Among, NotAmong;
    AddEdgesExtends(b.reports, b.marked);
    Partition(All(b), b.reports);
    assert All(b) == b.marked + Newly(b);
    assert multiset(All(b)) == multiset(b.marked) + multiset(Newly(b));
    var kept, r := Refreshed(b).marked, multiset(b.retained);
    hide Newly, Stale, All;
    assert multiset(b.retained + kept) == r + multiset(kept);
    assert multiset(b.retained + b.marked) == r + multiset(b.marked);
    assert r + multiset(kept) + multiset(Stale(b)) == r + (multiset(kept) + multiset(Stale(b)));
    assert r + multiset(b.marked) + multiset(Newly(b)) == r + (multiset(b.marked) + multiset(Newly(b)));
  }

  ghost predicate AllLive(s: State, reports: seq<Word>) {
    forall x :: x in reports ==> Live(s, x)
  }

  lemma NewlyLive(s: State, b: Body)
    requires b.CStruct? && BodyOk(b) && AllLive(s, b.reports)
    ensures forall x :: x in Newly(b) ==> x in s.entries
  {
    AddEdgesExtends(b.reports, b.marked);
    AddEdgesContents(b.reports, b.marked);
    var all, n := All(b), |b.marked|;
    forall x | x in Newly(b) ensures x in s.entries {
      var i :| 0 <= i < |Newly(b)| && Newly(b)[i] == x;
      assert all[n + i] == x;
      assert forall j :: 0 <= j < n ==> all[j] == b.marked[j];
      assert x !in b.marked;
    }
  }

  lemma RefreshedOk(b: Body)
    requires b.CStruct? && BodyOk(b)
    ensures BodyOk(Refreshed(b))
  {
    AddEdgesContents(b.reports, b.marked);
    PartitionListOk(All(b), b.reports);
  }

  // ---- one refresh ------------------------------------------------------------------

  ghost function NewlyPinned(s: State, b: Body): State
    requires b.CStruct?
  {
    s.(entries := PinEntries(s.entries, Newly(b)))
  }

  lemma RepinIs(s: State, p: Word)
    requires IsCData(s, p)
    ensures Repin(s, p) == SetBody(NewlyPinned(s, s.heap[p].body), p, Refreshed(s.heap[p].body))
  {
    AddEdgesExtends(s.heap[p].body.reports, s.heap[p].body.marked);
  }

  lemma PinnedShape(s: State, b: Body, owed: multiset<Word>)
    requires ShapeOk(s) && b.CStruct? && PinsOk(s.entries, owed) && forall x :: x in Newly(b) ==> x in s.entries
    ensures ShapeOk(NewlyPinned(s, b)) && PinsOk(NewlyPinned(s, b).entries, owed + multiset(Newly(b)))
  {
    hide TableOk, NamesOk, SerialsOk, ListsOk, KlassOk, ClassesOk, PinsOk, LivePointers, Newly, PinEntries;
    PinEntriesUp(s.entries, owed, Newly(b));
    RecountKeeps(s.byIdentity, s.entries, PinEntries(s.entries, Newly(b)), s.heap, s.immortal);
  }

  lemma RepinShape(s: State, p: Word, owed: multiset<Word>)
    requires ShapeOk(s) && IsCData(s, p) && PinsOk(s.entries, owed) && AllLive(s, s.heap[p].body.reports)
    ensures ShapeOk(Repin(s, p))
    ensures PinsOk(Repin(s, p).entries, owed + multiset(Newly(s.heap[p].body)))
  {
    hide TableOk, NamesOk, SerialsOk, KlassOk, ClassesOk, PointersOk, PinsOk, BodyOk, Newly, PinEntries, AllLive, AddEdges, Among;
    var b := s.heap[p].body;
    assert BodyOk(b);
    NewlyLive(s, b);
    RepinIs(s, p);
    PinnedShape(s, b, owed);
    RefreshedOk(b);
    SetBodyShape(NewlyPinned(s, b), p, Refreshed(b));
  }

  lemma RepinSums(s: State, p: Word)
    requires IsCData(s, p)
    ensures Holders(Repin(s, p)) + multiset(Stale(s.heap[p].body)) == Holders(s) + multiset(Newly(s.heap[p].body))
    ensures Owners(Repin(s, p)) == Owners(s)
  {
    var b := s.heap[p].body;
    RepinIs(s, p);
    var t := NewlyPinned(s, b);
    assert Holders(t) == Holders(s) && Owners(t) == Owners(s);
    hide Holders, Owners, Stale, Newly, PinEntries, AddEdges, Among, Listed;
    ListsBalance(b);
    SetBodySums(t, p, Refreshed(b));
    CancelRight(Owners(SetBody(t, p, Refreshed(b))), Owners(s), multiset{});
    Exchange(Holders(Repin(s, p)), multiset(Listed(b)), Holders(s), multiset(Listed(Refreshed(b))),
             multiset(Stale(b)), multiset(Newly(b)));
  }

  lemma Exchange<T>(r: multiset<T>, l: multiset<T>, h: multiset<T>, m: multiset<T>, stale: multiset<T>, newly: multiset<T>)
    requires r + l == h + m && m + stale == l + newly
    ensures r + stale == h + newly
  {
    assert (r + stale) + l == (r + l) + stale == h + (m + stale) == (h + newly) + l;
    CancelRight(r + stale, h + newly, l);
  }

  lemma RepinKeeps(s: State, p: Word, ws: seq<Work>)
    requires Inv(s, ws) && IsCData(s, p) && AllLive(s, s.heap[p].body.reports)
    ensures Inv(Repin(s, p), Unpins(Stale(s.heap[p].body)) + ws)
  {
    hide ShapeOk, PinsOk, RefsOk, Holders, Owners, PendingPins, PendingRefs, AddEdges, Among, NotAmong, PinEntries, Newly;
    var b := s.heap[p].body;
    var t := Repin(s, p);
    RepinShape(s, p, Holders(s) + PendingPins(ws));
    RepinSums(s, p);
    StalePending(Stale(b), ws);
    assert Holders(s) + PendingPins(ws) + multiset(Newly(b)) == (Holders(s) + multiset(Newly(b))) + PendingPins(ws);
    assert (Holders(t) + multiset(Stale(b))) + PendingPins(ws) == Holders(t) + (multiset(Stale(b)) + PendingPins(ws));
    SetBodyRefs(s.heap, s.byIdentity, Owners(s) + PendingRefs(ws), p, Refreshed(b));
    RepinIs(s, p);
  }

  lemma StalePending(l: seq<Word>, ws: seq<Work>)
    ensures PendingPins(Unpins(l) + ws) == multiset(l) + PendingPins(ws)
    ensures PendingRefs(Unpins(l) + ws) == PendingRefs(ws)
  {
    PendingAppend(Unpins(l), ws);
    PendingOf(l);
  }

  lemma RefreshKeepsInv(s: State, p: Word, busy: bool, ws: seq<Work>)
    requires Inv(s, ws)
    requires IsCData(s, p) && Refreshes(s.heap[p].body, busy) ==> AllLive(s, s.heap[p].body.reports)
    ensures Inv(Refresh(s, p, busy), ws)
  {
    hide Inv, AllLive;
    if IsCData(s, p) && Refreshes(s.heap[p].body, busy) {
      RepinKeeps(s, p, ws);
      SettleKeeps(Repin(s, p), Unpins(Stale(s.heap[p].body)), ws);
    }
  }

  // ---- scope pop -----------------------------------------------------------------------

  /** The extension's side of the contract: when a handle of the popped scope is
      refreshed, what its mark function reports is alive. */
  ghost predicate ReportsLive(s: State, a: Word, busy: bool) {
    a in s.entries && s.entries[a].value.Heap? ==>
      var p := s.entries[a].value.payload;
      IsCData(s, p) && Refreshes(s.heap[p].body, busy) ==> AllLive(s, s.heap[p].body.reports)
  }

  ghost predicate PopContract(s: State, l: seq<Word>, busy: bool)
    decreases |l|
  {
    l == [] || (ReportsLive(s, l[0], busy) && PopContract(RefreshFor(s, l[0], busy), l[1..], busy))
  }

  lemma {:induction false} RefreshAllKeeps(s: State, l: seq<Word>, busy: bool, ws: seq<Work>)
    requires Inv(s, ws) && PopContract(s, l, busy)
    ensures Inv(RefreshAll(s, l, busy), ws)
    decreases |l|
  {
    hide Inv, AllLive;
    if l != [] {
      var a := l[0];
      if !SpecialConst(a) && a in s.entries && s.entries[a].value.Heap? {
        RefreshKeepsInv(s, s.entries[a].value.payload, busy, ws);
      }
      RefreshAllKeeps(RefreshFor(s, a, busy), l[1..], busy, ws);
    }
  }

  /** The popped scope's pins become pending releases. */
  lemma PopPending(s: State)
    requires Inv(s, []) && s.scopes != []
    ensures var top := s.scopes[|s.scopes| - 1];
            Inv(s.(scopes := s.scopes[..|s.scopes| - 1]), Unpins(top))
  {
    var n := |s.scopes| - 1;
    var t, top := s.(scopes := s.scopes[..n]), s.scopes[n];
    PendingOf(top);
    assert Holders(t) + multiset(top) == Holders(s) + multiset{} by {
      assert ScopePins(s.scopes) == ScopePins(t.scopes) + multiset(top);
      OneMore(ScopePins(t.scopes), s.forever, s.immortal, CDataPins(s.heap), multiset(top));
    }
    hide TableOk, NamesOk, SerialsOk, ListsOk, KlassOk, ClassesOk, PinsOk, RefsOk, Holders, Owners;
    assert ShapeOk(t);
    assert Owners(t) == Owners(s) by {
      hide HeldRefs;
    }
  }

  lemma ScopePopKeeps(s: State, busy: bool)
    requires Inv(s, [])
    requires s.scopes != [] ==>
      PopContract(s.(scopes := s.scopes[..|s.scopes| - 1]), s.scopes[|s.scopes| - 1], busy)
    ensures Inv(ScopePop(s, busy), [])
  {
    hide Inv;
    if s.scopes != [] {
      var t, top := s.(scopes := s.scopes[..|s.scopes| - 1]), s.scopes[|s.scopes| - 1];
      PopPending(s);
      RefreshAllKeeps(t, top, busy, Unpins(top));
      assert Unpins(top) + [] == Unpins(top);
      SettleKeeps(RefreshAll(t, top, busy), Unpins(top), []);
    }
  }
}
