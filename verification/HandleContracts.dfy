/** What the table asks of an extension, exactly: a barrier or a refresh given a
    dead `VALUE` lists an address the table does not own, and when that is ruled out. */
module HandleContracts {
  import opened Sums
  import opened HandleState
  import opened HandleInvariant
  import opened HandleOps
  import opened OpsKeepMore
  import opened RefreshKeeps
  import opened Frames
  import opened MarkRefresh
  import opened HandleRuns

  // ---- the write barrier -------------------------------------------------------------

  /** The barrier would list `young`: its owner is a `CData`. */
  predicate Retains(s: State, owner: Word)
    requires Live(s, owner)
  {
    var v := ValueOf(s, owner);
    v.Heap? && IsCData(s, v.payload)
  }

  lemma ListedInHolders(s: State, p: Word, x: Word)
    requires p in s.heap && x in Listed(s.heap[p].body)
    ensures x in Holders(s)
  {
    SumContains(s.heap, PinsOf, p, x);
  }

  /** Pins stay conserved exactly when the stored `VALUE` is alive, or is not listed
      because the receiver is no `CData`. */
  lemma BarrierExact(s: State, owner: Word, young: Word)
    requires Inv(s, []) && Live(s, owner)
    ensures PinsBalance(Barrier(s, owner, young), []) <==> Live(s, young) || !Retains(s, owner)
  {
    if Live(s, young) {
      BarrierKeeps(s, owner, young, []);
    } else if Retains(s, owner) {
      var p := ValueOf(s, owner).payload;
      var b := s.heap[p].body;
      assert young !in b.retained by {
        if young in b.retained {
          ListedInHolders(s, p, young);
        }
        assert young !in Holders(s) + PendingPins([]);
      }
      var t := Barrier(s, owner, young);
      assert young in Listed(t.heap[p].body);
      ListedInHolders(t, p, young);
      assert young in Holders(t) + PendingPins([]);
    }
  }

  const WRAPPED: Body := CStruct(1, NoMark, NoFree, [], [], [])

  lemma Wrapping()
    ensures var e := Allocate(8, 0, WRAPPED);
            Allowed(Start(), e) &&
            Next(Start(), e) == State(map[], map[], map[8 := Object(0, 0, 1, WRAPPED)], [], multiset{}, multiset{},
                                      multiset{8}, 1, multiset{(1, NoFree)}, multiset{})
  {
  }

  lemma Converting(s: State)
    requires s.entries == map[] && s.byIdentity == map[] && s.scopes == []
    requires s.heap == map[8 := Object(0, 0, 1, WRAPPED)]
    ensures var e := ToValue({}, RubyValue.Heap(8, 0), 40);
            && Allowed(s, e)
            && Next(s, e).entries == map[40 := Entry(RubyValue.Heap(8, 0), 8, Q_NIL, 1)]
            && Next(s, e).heap == map[8 := Object(0, 0, 2, WRAPPED)]
  {
  }

  /** A run of two steps: a C struct is wrapped, and its object converted. */
  lemma OneConversion() returns (s: State)
    ensures Reachable(s) && 64 !in s.entries && 40 in s.entries
    ensures s.entries[40].value == RubyValue.Heap(8, 0) && IsCData(s, 8)
  {
    hide Allowed, Next;
    var wrap, convert := Allocate(8, 0, WRAPPED), ToValue({}, RubyValue.Heap(8, 0), 40);
    StartReachable();
    Wrapping();
    var s1 := Next(Start(), wrap);
    NextReachable(Start(), wrap);
    Converting(s1);
    s := Next(s1, convert);
    NextReachable(s1, convert);
  }

  /** And then a barrier is given an address nothing is at. */
  lemma DeadBarrierBreaksConservation()
    ensures exists s, owner, young ::
              Reachable(s) && Live(s, owner) && !PinsBalance(Barrier(s, owner, young), [])
  {
    hide Inv, PinsBalance, Barrier;
    var s := OneConversion();
    ReachableOk(s);
    BarrierExact(s, 40, 64);
  }

  /** A returned `VALUE` is kept with its pins in balance exactly when it is alive, or
      there is no parent scope to keep it in. */
  lemma KeepExact(s: State, a: Word)
    requires Inv(s, [])
    ensures PinsBalance(Keep(s, a), []) <==> Live(s, a) || |s.scopes| < 2
  {
    if Live(s, a) || |s.scopes| < 2 {
      if |s.scopes| >= 2 {
        KeepKeeps(s, a, []);
      }
    } else {
      var t := Keep(s, a);
      ScopePinsParent(s.scopes, a);
      assert a in ScopePins(t.scopes);
      assert a in Holders(t) + PendingPins([]);
    }
  }

  /** Keeping a value adds one pin on it, the enclosing scope's, and none at the outermost. */
  lemma KeepHolds(s: State, a: Word)
    ensures Holders(Keep(s, a)) == Holders(s) + (if |s.scopes| < 2 then multiset{} else multiset{a})
    ensures |s.scopes| < 2 ==> Keep(s, a).entries == s.entries
  {
    if |s.scopes| >= 2 {
      ScopePinsParent(s.scopes, a);
    }
  }

  // ---- the refresh -------------------------------------------------------------------

  /** Once the newly reported handles are pinned and the list replaced, pins are
      conserved exactly when everything reported was alive. */
  lemma RepinExact(s: State, p: Word, ws: seq<Work>)
    requires Inv(s, ws) && IsCData(s, p)
    ensures PinsBalance(Repin(s, p), Unpins(Stale(s.heap[p].body)) + ws) <==> AllLive(s, s.heap[p].body.reports)
  {
    var b := s.heap[p].body;
    if AllLive(s, b.reports) {
      RepinKeeps(s, p, ws);
    } else {
      var x :| x in b.reports && !Live(s, x);
      var t := Repin(s, p);
      assert BodyOk(b);
      AddEdgesContents(b.reports, b.marked);
      Partition(All(b), b.reports);
      RepinIs(s, p);
      PinEntriesKeep(s.entries, Newly(b));
      hide Inv, AddEdges, Among, PinEntries, Newly;
      assert x in Listed(t.heap[p].body);
      ListedInHolders(t, p, x);
      assert x in Holders(t) + PendingPins(Unpins(Stale(b)) + ws);
    }
  }

  /** A `VALUE` moved from one struct to another between two pops is lost when the
      struct that gave it up is refreshed first: the release comes before the pin.
      The struct that took it then lists an address the table does not own, and the
      pins are out of balance. The same two refreshes in the other order keep it. */
  lemma MovedEdgeIsLost(s: State, p: Word, q: Word, h: Word, ws: seq<Work>)
    requires Inv(s, ws) && p != q && IsCData(s, p) && IsCData(s, q)
    requires Refreshes(s.heap[p].body, false) && Refreshes(s.heap[q].body, false)
    requires Pinned(s, p, ws) && Pinned(s, q, ws)
    requires h in s.entries && s.entries[h].pins == 1
    requires s.heap[p].body.marked == [h] && s.heap[p].body.reports == []
    requires s.heap[q].body.marked == [] && s.heap[q].body.reports == [h]
    ensures AllLive(s, s.heap[p].body.reports) && AllLive(s, s.heap[q].body.reports)
    ensures h !in Refresh(s, p, false).entries
    ensures !PinsBalance(Refresh(Refresh(s, p, false), q, false), ws)
    ensures h in Refresh(Refresh(s, q, false), p, false).entries
    ensures PinsBalance(Refresh(Refresh(s, q, false), p, false), ws)
  {
    GivenUpIsGone(s, p, h);
    assert EntryOk(s.byIdentity, h, s.entries[h]);
    assert PinsBalance(Refresh(Refresh(s, q, false), p, false), ws) by {
      hide ShapeOk, PinsBalance, RefsBalance, Refresh;
      TakenFirstStays(s, p, q, h, ws);
    }
    hide Inv, Refresh, PinsBalance;
    TakenFirstStays(s, p, q, h, ws);
    TakenLateUnbalances(s, p, q, h, ws);
  }

  lemma TakenLateUnbalances(s: State, p: Word, q: Word, h: Word, ws: seq<Work>)
    requires Inv(s, ws) && p != q && IsCData(s, p) && IsCData(s, q)
    requires Refreshes(s.heap[q].body, false) && Pinned(s, q, ws) && !SpecialConst(h)
    requires s.heap[p].body.reports == [] && h !in Refresh(s, p, false).entries
    requires s.heap[q].body.marked == [] && s.heap[q].body.reports == [h]
    ensures !PinsBalance(Refresh(Refresh(s, p, false), q, false), ws)
  {
    hide Inv, Refresh, PinsBalance, Repin, Stale, PendingPins;
    var t := Refresh(s, p, false);
    RefreshKeepsInv(s, p, false, ws);
    OthersUntouched(s, p, q, false, ws);
    assert s.heap[q].body.reports[0] == h && !Live(t, h);
    RepinExact(t, q, ws);
    NothingStale(t, q, h);
    assert Unpins([]) + ws == ws;
  }

  lemma NothingStale(s: State, q: Word, h: Word)
    requires IsCData(s, q) && Refreshes(s.heap[q].body, false) && !SpecialConst(h)
    requires s.heap[q].body.marked == [] && s.heap[q].body.reports == [h]
    ensures Stale(s.heap[q].body) == [] && Refresh(s, q, false) == Repin(s, q)
  {
    assert [h][1..] == [] && [] + [h] == [h];
    assert AddEdges([h], []) == [h];
    assert NotAmong([h], [h]) == [];
    hide Repin, AddEdges, NotAmong;
    SettleNone(Repin(s, q));
    assert Unpins([]) == [];
  }

  lemma GivenUpIsGone(s: State, p: Word, h: Word)
    requires IsCData(s, p) && Refreshes(s.heap[p].body, false)
    requires h in s.entries && s.entries[h].pins == 1
    requires s.heap[p].body.marked == [h] && s.heap[p].body.reports == []
    ensures h !in Refresh(s, p, false).entries
  {
    var b, t := s.heap[p].body, Repin(s, p);
    assert AddEdges(b.reports, b.marked) == [h];
    assert [h][1..] == [] && NotAmong([h], []) == [h];
    assert Stale(b) == [h] && Unpins([h]) == [Unpin(h)] + [];
    assert t.entries == s.entries;
    SettleStep(t, Unpin(h), []);
    SettleReleases(Fire(t, Unpin(h)).0, Fire(t, Unpin(h)).1 + []);
  }

  lemma TakenFirstStays(s: State, p: Word, q: Word, h: Word, ws: seq<Work>)
    requires Inv(s, ws) && p != q && IsCData(s, p) && IsCData(s, q)
    requires Refreshes(s.heap[p].body, false) && Refreshes(s.heap[q].body, false)
    requires Pinned(s, p, ws) && Pinned(s, q, ws) && h in s.entries && !SpecialConst(h)
    requires s.heap[p].body.reports == [] && s.heap[q].body.reports == [h]
    ensures h in Refresh(Refresh(s, q, false), p, false).entries
    ensures Inv(Refresh(Refresh(s, q, false), p, false), ws)
  {
    hide Inv, Refresh;
    var t := Refresh(s, q, false);
    RefreshContents(s, q, false, ws);
    RefreshKeepsInv(s, q, false, ws);
    RefreshReleases(s, q, false);
    OthersUntouched(s, q, p, false, ws);
    assert h in t.heap[q].body.marked;
    PinnedNext(s, q, p, ws);
    PinnedNext(s, q, q, ws);
    var u := Refresh(t, p, false);
    RefreshKeepsInv(t, p, false, ws);
    OthersUntouched(t, p, q, false, ws);
    ListedLive(u, q, h, ws);
  }

  lemma PinnedNext(s: State, q: Word, p: Word, ws: seq<Work>)
    requires Inv(s, ws) && IsCData(s, q) && AllLive(s, s.heap[q].body.reports)
    requires Pinned(s, p, ws) && p in s.heap
    ensures p in Refresh(s, q, false).heap && Pinned(Refresh(s, q, false), p, ws)
  {
    hide Inv, Refresh;
    RefreshKeepsInv(s, q, false, ws);
    RefreshReleases(s, q, false);
    PendingPinned(s, Refresh(s, q, false), p, ws);
  }

  lemma RefreshOthers(s: State, q: Word, p: Word, busy: bool)
    requires p != q && p in s.heap && p in Refresh(s, q, busy).heap
    ensures Refresh(s, q, busy).heap[p].body == s.heap[p].body
  {
    if q in s.heap && Refreshes(s.heap[q].body, busy) {
      SettleReleases(Repin(s, q), Unpins(Stale(s.heap[q].body)));
      hide Settle, AddEdges, Among, NotAmong, PinEntries;
    }
  }

  /** A refresh leaves every other pinned `CData` as it was. */
  lemma OthersUntouched(s: State, q: Word, p: Word, busy: bool, ws: seq<Work>)
    requires Inv(s, ws) && p != q && p in s.heap && Pinned(s, p, ws)
    requires IsCData(s, q) && Refreshes(s.heap[q].body, busy) ==> AllLive(s, s.heap[q].body.reports)
    ensures p in Refresh(s, q, busy).heap && Refresh(s, q, busy).heap[p].body == s.heap[p].body
  {
    hide Inv, Refresh;
    RefreshKeepsInv(s, q, busy, ws);
    RefreshReleases(s, q, busy);
    PendingPinned(s, Refresh(s, q, busy), p, ws);
    RefreshOthers(s, q, p, busy);
  }

  lemma ListedLive(s: State, q: Word, x: Word, ws: seq<Work>)
    requires Inv(s, ws) && q in s.heap && x in Listed(s.heap[q].body)
    ensures Live(s, x)
  {
    ListedInHolders(s, q, x);
    assert x in Holders(s) + PendingPins(ws);
  }

  // ---- a scope pop --------------------------------------------------------------------

  /** Something other than another struct's mark list holds `x`: the object's own
      lists, an open scope, the popping scope, the process. */
  ghost predicate Anchored(s: State, ws: seq<Work>, p: Word, x: Word)
    requires p in s.heap
  {
    || SpecialConst(x) || x in Listed(s.heap[p].body)
    || x in ScopePins(s.scopes) || x in s.forever || x in s.immortal || x in PendingPins(ws)
  }

  /** Every edge a popping scope's structs report is anchored. */
  ghost predicate AllAnchored(s: State, l: seq<Word>, ws: seq<Work>) {
    forall a, x :: a in l && a in s.entries && s.entries[a].value.Heap?
      && IsCData(s, s.entries[a].value.payload) && x in s.heap[s.entries[a].value.payload].body.reports
      ==> Anchored(s, ws, s.entries[a].value.payload, x)
  }

  lemma AnchoredLive(s: State, ws: seq<Work>, p: Word, x: Word)
    requires Inv(s, ws) && p in s.heap && Anchored(s, ws, p, x)
    ensures Live(s, x)
  {
    if x in Listed(s.heap[p].body) {
      ListedInHolders(s, p, x);
    }
    assert Live(s, x) || x !in Holders(s) + PendingPins(ws);
  }

  /** The payload of a heap handle, when it is a `CData`. */
  predicate CDataAt(s: State, a: Word, p: Word) {
    a in s.entries && s.entries[a].value.Heap? && s.entries[a].value.payload == p && IsCData(s, p)
  }

  lemma AnchoredReports(s: State, a: Word, l: seq<Word>, busy: bool, ws: seq<Work>)
    requires Inv(s, ws) && AllAnchored(s, l, ws) && a in l
    ensures ReportsLive(s, a, busy)
  {
    hide Inv;
    if a in s.entries && s.entries[a].value.Heap? {
      var p := s.entries[a].value.payload;
      if IsCData(s, p) {
        forall x | x in s.heap[p].body.reports ensures Live(s, x) {
          AnchoredLive(s, ws, p, x);
        }
      }
    }
  }

  /** A struct of the popping scope is as well anchored after another's refresh. */
  lemma StillAnchored(s: State, q: Word, a: Word, p: Word, x: Word, busy: bool, l: seq<Word>, ws: seq<Work>)
    requires Inv(s, ws) && AllAnchored(s, l, ws) && a in l && a in PendingPins(ws)
    requires IsCData(s, q) && Refreshes(s.heap[q].body, busy) && AllLive(s, s.heap[q].body.reports)
    requires var t := Refresh(s, q, busy); CDataAt(t, a, p) && x in t.heap[p].body.reports
    ensures Anchored(Refresh(s, q, busy), ws, p, x)
  {
    var t := Refresh(s, q, busy);
    RefreshReleases(s, q, busy);
    assert a in s.entries && s.entries[a].value == t.entries[a].value;
    HandleKeepsObject(s.byIdentity, s.entries, s.heap, a);
    assert Pinned(s, p, ws);
    hide Inv, Refresh, PendingPins, Holders;
    if p == q {
      RefreshContents(s, q, busy, ws);
    } else {
      OthersUntouched(s, q, p, busy, ws);
      assert Anchored(s, ws, p, x);
    }
  }

  /** When every reported edge is anchored, the pop meets its contract whatever the
      order the scope lists its handles in. */
  lemma {:induction false} AnchoredPop(s: State, l: seq<Word>, busy: bool, ws: seq<Work>)
    requires Inv(s, ws) && AllAnchored(s, l, ws) && forall a :: a in l ==> a in PendingPins(ws)
    ensures PopContract(s, l, busy)
    decreases |l|
  {
    hide Inv, PendingPins;
    if l != [] {
      var a, t := l[0], RefreshFor(s, l[0], busy);
      AnchoredReports(s, a, l, busy, ws);
      assert Inv(t, ws) && AllAnchored(t, l[1..], ws) by {
        hide Anchored, Refresh;
        if !SpecialConst(a) && a in s.entries && s.entries[a].value.Heap?
           && IsCData(s, s.entries[a].value.payload)
           && Refreshes(s.heap[s.entries[a].value.payload].body, busy) {
          var q := s.entries[a].value.payload;
          RefreshKeepsInv(s, q, busy, ws);
          forall b, x | b in l[1..] && b in t.entries && t.entries[b].value.Heap?
                        && IsCData(t, t.entries[b].value.payload) && x in t.heap[t.entries[b].value.payload].body.reports
            ensures Anchored(t, ws, t.entries[b].value.payload, x)
          {
            StillAnchored(s, q, b, t.entries[b].value.payload, x, busy, l, ws);
          }
        } else {
          UnrefreshedIs(s, a, busy);
        }
      }
      AnchoredPop(t, l[1..], busy, ws);
    }
  }

  lemma UnrefreshedIs(s: State, a: Word, busy: bool)
    requires !SpecialConst(a) && a in s.entries && s.entries[a].value.Heap? ==>
               var p := s.entries[a].value.payload;
               !IsCData(s, p) || !Refreshes(s.heap[p].body, busy)
    ensures RefreshFor(s, a, busy) == s
  {
  }

  /** The condition an extension can check: whatever a popping scope's structs report
      is held by something that pop does not release. Then the pop keeps the table's
      invariant. */
  lemma AnchoredExit(s: State, busy: bool)
    requires Reachable(s) && s.scopes != []
    requires var top := s.scopes[|s.scopes| - 1];
             AllAnchored(s.(scopes := s.scopes[..|s.scopes| - 1]), top, Unpins(top))
    ensures Allowed(s, Exit(busy)) && Inv(ScopePop(s, busy), [])
  {
    hide Inv, AllAnchored, PopContract, ScopePop, PendingPins;
    ReachableOk(s);
    var t, top := s.(scopes := s.scopes[..|s.scopes| - 1]), s.scopes[|s.scopes| - 1];
    PopPending(s);
    PendingOf(top);
    AnchoredPop(t, top, busy, Unpins(top));
    ScopePopKeeps(s, busy);
  }
}
