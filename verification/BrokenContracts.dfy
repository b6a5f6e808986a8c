/** Runs that end where an entry point loses the balance of pins: what an extension
    must not do, each time at a state it can bring about. */
module BrokenContracts {
  import opened HandleState
  import opened HandleInvariant
  import opened HandleOps
  import opened OpsKeep
  import opened RefreshKeeps
  import opened RoundTrip
  import opened Frames
  import opened MarkRefresh
  import opened HandleRuns
  import opened HandleContracts
  import opened PopExact

  // ---- one step at a time --------------------------------------------------------------------

  lemma Entered(s: State)
    requires Reachable(s)
    ensures Reachable(ScopeEnter(s))
  {
    NextReachable(s, Enter);
  }

  lemma Wrapped(s: State, p: Word, b: Body)
    requires Reachable(s) && FreePayload(s, p) && Listed(b) == [] && Held(b) == []
    ensures Reachable(Alloc(s, p, 0, b))
  {
    hide Reachable, Alloc;
    NextReachable(s, Allocate(p, 0, b));
  }

  lemma Written(s: State, p: Word, reports: seq<Word>)
    requires Reachable(s) && IsCData(s, p)
    ensures Reachable(CWrite(s, p, reports))
  {
    hide Reachable, CWrite;
    NextReachable(s, Write(p, reports));
  }

  lemma Converted(s: State, v: RubyValue, spot: Word)
    requires Reachable(s) && Presentable(s, v) && FreeSpot(s.entries, spot)
    ensures Reachable(Pin(s, {}, v, spot).0)
  {
    hide Reachable, Pin;
    NextReachable(s, ToValue({}, v, spot));
  }

  lemma Returned(s: State)
    requires Reachable(s) && s.scopes != []
    requires PopContract(s.(scopes := s.scopes[..|s.scopes| - 1]), s.scopes[|s.scopes| - 1], false)
    ensures Reachable(ScopePop(s, false))
  {
    hide Reachable, PopContract, ScopePop;
    NextReachable(s, Exit(false));
  }

  // ---- a dead return value, a dead report ----------------------------------------------------

  /** A call inside a call returns an address nothing is at. */
  lemma DeadKeepBreaksConservation()
    ensures exists s, a :: Reachable(s) && !PinsBalance(Keep(s, a), [])
  {
    hide Reachable, PinsBalance, Keep;
    var s := ScopeEnter(ScopeEnter(Start()));
    StartReachable();
    Entered(Start());
    Entered(ScopeEnter(Start()));
    ReachableOk(s);
    KeepExact(s, 64);
  }

  function Struct(data: Word, reports: seq<Word>, marked: seq<Word>): Body {
    CStruct(data, Mark, NoFree, reports, [], marked)
  }

  /** A mark function reports an address nothing is at. */
  lemma DeadReportBreaksConservation()
    ensures exists s, p :: Reachable(s) && IsCData(s, p)
                        && !PinsBalance(Repin(s, p), Unpins(Stale(s.heap[p].body)) + [])
  {
    hide Reachable, PinsBalance, Repin, Stale, Inv;
    var s := OneReport();
    ReachableOk(s);
    RepinExact(s, 8, []);
  }

  lemma OneReport() returns (s: State)
    ensures Reachable(s) && IsCData(s, 8) && 64 in s.heap[8].body.reports && !Live(s, 64)
  {
    hide Reachable;
    OneStruct();
    Written(One(), 8, [64]);
    s := CWrite(One(), 8, [64]);
    assert s.heap[8].body.reports[0] == 64;
  }

  // ---- a word moved between two structs --------------------------------------------------------

  // Two structs at the payloads 8 and 16, their handles at 48 and 56, and the word that
  // is moved: a handle at 40.
  const MOVED := Entry(Boxed(0), 0, Q_NIL, 1)
  const GIVER := Entry(RubyValue.Heap(8, 0), 8, Q_NIL, 1)
  const TAKER := Entry(RubyValue.Heap(16, 1), 16, Q_NIL, 1)

  function Both(p: Object, q: Object): Heap {
    map[8 := p, 16 := q]
  }

  lemma BothAre(p: Object, q: Object, r: Object)
    ensures 8 in Both(p, q) && Both(p, q)[8] == p && Both(p, q)[8 := r] == Both(r, q)
    ensures 16 in Both(p, q) && Both(p, q)[16] == q && Both(p, q)[16 := r] == Both(p, r)
  {
  }

  function At(ids: map<Word, Word>, entries: map<Word, Entry>, p: Object, q: Object, scopes: seq<seq<Word>>): State {
    State(ids, entries, Both(p, q), scopes, multiset{}, multiset{}, multiset{8, 16}, 2,
          multiset{(1, NoFree), (2, NoFree)}, multiset{})
  }

  function P(refs: nat, reports: seq<Word>, marked: seq<Word>): Object {
    Object(0, 0, refs, Struct(1, reports, marked))
  }

  function Q(refs: nat, reports: seq<Word>): Object {
    Object(1, 0, refs, Struct(2, reports, []))
  }

  /** One struct wrapped, at the payload 8. */
  function One(): State {
    State(map[], map[], map[8 := P(1, [], [])], [], multiset{}, multiset{}, multiset{8}, 1,
          multiset{(1, NoFree)}, multiset{})
  }

  lemma OneStruct()
    ensures Reachable(One())
  {
    hide Reachable;
    StartReachable();
    Wrapped(Start(), 8, Struct(1, [], []));
    assert Alloc(Start(), 8, 0, Struct(1, [], [])) == One();
  }

  lemma SecondStruct()
    ensures Alloc(One(), 16, 0, Struct(2, [], [])) == At(map[], map[], P(1, [], []), Q(1, []), [])
  {
    var heap := map[8 := P(1, [], [])];
    assert heap[16 := Q(1, [])] == Both(P(1, [], []), Q(1, []));
    hide Both, P;
    assert multiset{(1, NoFree)} + multiset{(2, NoFree)} == multiset{(1, NoFree), (2, NoFree)};
    assert multiset{8} + multiset{16} == multiset{8, 16};
  }

  lemma TwoStructs()
    ensures Reachable(At(map[], map[], P(1, [], []), Q(1, []), []))
  {
    OneStruct();
    SecondStruct();
    hide Reachable, Alloc, At, P, Q;
    Wrapped(One(), 16, Struct(2, [], []));
  }

  lemma EntersAt(ids: map<Word, Word>, entries: map<Word, Entry>, p: Object, q: Object)
    requires Reachable(At(ids, entries, p, q, []))
    ensures Reachable(At(ids, entries, p, q, [[]]))
  {
    hide Reachable;
    Entered(At(ids, entries, p, q, []));
    assert ScopeEnter(At(ids, entries, p, q, [])).scopes == [[]];
  }

  /** A number is converted: a handle no object is behind. */
  lemma ConvertsNumber(ids: map<Word, Word>, entries: map<Word, Entry>, p: Object, q: Object)
    requires Reachable(At(ids, entries, p, q, [[]])) && 40 !in entries
    ensures Reachable(At(ids, entries[40 := MOVED], p, q, [[40]]))
  {
    hide Reachable, Both;
    var s := At(ids, entries, p, q, [[]]);
    Converted(s, Boxed(0), 40);
    assert s.scopes[0] + [40] == [40];
    assert s.scopes[0 := [40]] == [[40]];
  }

  lemma ConvertsGiver(entries: map<Word, Entry>, reports: seq<Word>, marked: seq<Word>, q: Object, scope: seq<Word>)
    requires Reachable(At(map[], entries, P(1, reports, marked), q, [scope])) && 48 !in entries
    ensures Reachable(At(map[8 := 48], entries[48 := GIVER], P(2, reports, marked), q, [scope + [48]]))
  {
    hide Reachable, Both;
    BothAre(P(1, reports, marked), q, P(2, reports, marked));
    Converted(At(map[], entries, P(1, reports, marked), q, [scope]), RubyValue.Heap(8, 0), 48);
    assert [scope][0 := scope + [48]] == [scope + [48]];
  }

  lemma ConvertsTaker(ids: map<Word, Word>, entries: map<Word, Entry>, p: Object, reports: seq<Word>, scope: seq<Word>)
    requires Reachable(At(ids, entries, p, Q(1, reports), [scope])) && 56 !in entries && 16 !in ids
    ensures Reachable(At(ids[16 := 56], entries[56 := TAKER], p, Q(2, reports), [scope + [56]]))
  {
    hide Reachable, Both;
    BothAre(p, Q(1, reports), Q(2, reports));
    Converted(At(ids, entries, p, Q(1, reports), [scope]), RubyValue.Heap(16, 1), 56);
    assert [scope][0 := scope + [56]] == [scope + [56]];
  }

  lemma WritesGiver(ids: map<Word, Word>, entries: map<Word, Entry>, refs: nat, reports: seq<Word>, marked: seq<Word>,
                    q: Object, scopes: seq<seq<Word>>, next: seq<Word>)
    requires Reachable(At(ids, entries, P(refs, reports, marked), q, scopes))
    ensures Reachable(At(ids, entries, P(refs, next, marked), q, scopes))
  {
    hide Reachable, Both;
    BothAre(P(refs, reports, marked), q, P(refs, next, marked));
    Written(At(ids, entries, P(refs, reports, marked), q, scopes), 8, next);
  }

  lemma WritesTaker(ids: map<Word, Word>, entries: map<Word, Entry>, p: Object, refs: nat, reports: seq<Word>,
                    scopes: seq<seq<Word>>, next: seq<Word>)
    requires Reachable(At(ids, entries, p, Q(refs, reports), scopes))
    ensures Reachable(At(ids, entries, p, Q(refs, next), scopes))
  {
    hide Reachable, Both;
    BothAre(p, Q(refs, reports), Q(refs, next));
    Written(At(ids, entries, p, Q(refs, reports), scopes), 16, next);
  }

  /** The first call: the word is stored in the first struct. */
  lemma FirstCall()
    ensures Reachable(At(map[8 := 48], map[40 := MOVED, 48 := GIVER], P(2, [40], []), Q(1, []), [[40, 48]]))
  {
    hide Reachable, At, P, Q;
    TwoStructs();
    EntersAt(map[], map[], P(1, [], []), Q(1, []));
    ConvertsNumber(map[], map[], P(1, [], []), Q(1, []));
    ConvertsGiver(map[40 := MOVED], [], [], Q(1, []), [40]);
    assert [40] + [48] == [40, 48];
    WritesGiver(map[8 := 48], map[40 := MOVED, 48 := GIVER], 2, [], [], Q(1, []), [[40, 48]], [40]);
  }

  /** What its return does: the struct marks the word, the call's own pins go. */
  lemma FirstReturn()
    ensures Reachable(At(map[], map[40 := MOVED], P(1, [40], [40]), Q(1, []), []))
  {
    hide Reachable, PopContract, ScopePop, At, P, Q;
    FirstCall();
    FirstPop();
    Returned(At(map[8 := 48], map[40 := MOVED, 48 := GIVER], P(2, [40], []), Q(1, []), [[40, 48]]));
  }

  lemma FirstPop()
    ensures var s := At(map[8 := 48], map[40 := MOVED, 48 := GIVER], P(2, [40], []), Q(1, []), [[40, 48]]);
            && s.scopes == [[40, 48]] && s.scopes[..0] == []
            && PopContract(s.(scopes := []), [40, 48], false)
            && ScopePop(s, false) == At(map[], map[40 := MOVED], P(1, [40], [40]), Q(1, []), [])
  {
    var s := At(map[8 := 48], map[40 := MOVED, 48 := GIVER], P(2, [40], []), Q(1, []), []);
    var t := At(map[8 := 48], map[40 := MOVED.(pins := 2), 48 := GIVER], P(2, [40], [40]), Q(1, []), []);
    FirstRefresh();
    assert RefreshAll(s, [40, 48], false) == t && PopContract(s, [40, 48], false) by {
      hide Refresh;
      assert [40, 48][1..] == [48] && [48][1..] == [];
      assert RefreshFor(s, 40, false) == s;
      assert RefreshFor(s, 48, false) == t;
      assert ReportsLive(s, 48, false);
      assert PopContract(t, [], false) && PopContract(s, [48], false);
      assert RefreshAll(t, [], false) == t && RefreshAll(s, [48], false) == t;
    }
    FirstRelease();
  }

  lemma FirstRefresh()
    ensures Refresh(At(map[8 := 48], map[40 := MOVED, 48 := GIVER], P(2, [40], []), Q(1, []), []), 8, false)
         == At(map[8 := 48], map[40 := MOVED.(pins := 2), 48 := GIVER], P(2, [40], [40]), Q(1, []), [])
  {
    hide Both;
    var s := At(map[8 := 48], map[40 := MOVED, 48 := GIVER], P(2, [40], []), Q(1, []), []);
    BothAre(P(2, [40], []), Q(1, []), P(2, [40], [40]));
    assert [40][1..] == [] && [] + [40] == [40] && [40][0..] == [40];
    assert AddEdges([40], []) == [40] && Among([40], [40]) == [40] && NotAmong([40], [40]) == [];
    assert PinEntries(s.entries, [40]) == s.entries[40 := MOVED.(pins := 2)];
    assert Repin(s, 8) == At(map[8 := 48], map[40 := MOVED.(pins := 2), 48 := GIVER], P(2, [40], [40]), Q(1, []), []);
    hide AddEdges, Among, NotAmong, PinEntries, Repin;
    assert Unpins([]) == [];
    SettleNone(Repin(s, 8));
  }

  lemma FirstRelease()
    ensures Settle(At(map[8 := 48], map[40 := MOVED.(pins := 2), 48 := GIVER], P(2, [40], [40]), Q(1, []), []),
                   Unpins([40, 48]))
         == At(map[], map[40 := MOVED], P(1, [40], [40]), Q(1, []), [])
  {
    var s := At(map[8 := 48], map[40 := MOVED.(pins := 2), 48 := GIVER], P(2, [40], [40]), Q(1, []), []);
    var t := At(map[8 := 48], map[40 := MOVED, 48 := GIVER], P(2, [40], [40]), Q(1, []), []);
    var u := At(map[], map[40 := MOVED], P(2, [40], [40]), Q(1, []), []);
    var v := At(map[], map[40 := MOVED], P(1, [40], [40]), Q(1, []), []);
    assert Unpins([40, 48]) == [Unpin(40)] + [Unpin(48)];
    assert s.entries[40 := MOVED] == t.entries && t.entries - {48} == u.entries && t.byIdentity - {8} == u.byIdentity;
    BothAre(P(2, [40], [40]), Q(1, []), P(1, [40], [40]));
    hide Both;
    assert Fire(s, Unpin(40)) == (t, []);
    assert Fire(t, Unpin(48)) == (u, [DropRef(8)]);
    assert Fire(u, DropRef(8)) == (v, []);
    hide Fire, At;
    SettleStep(s, Unpin(40), [Unpin(48)]);
    assert [] + [Unpin(48)] == [Unpin(48)] + [];
    SettleStep(t, Unpin(48), []);
    assert [DropRef(8)] + [] == [DropRef(8)];
    SettleStep(u, DropRef(8), []);
    assert Fire(u, DropRef(8)).1 + [] == [];
    SettleNone(v);
  }

  /** The second call: the word is moved from the first struct to the second. */
  lemma SecondCall()
    ensures Reachable(At(map[8 := 48, 16 := 56], map[40 := MOVED, 48 := GIVER, 56 := TAKER],
                         P(2, [], [40]), Q(2, [40]), [[48, 56]]))
  {
    hide Reachable, At, P, Q;
    FirstReturn();
    var ids, entries := map[8 := 48, 16 := 56], map[40 := MOVED, 48 := GIVER, 56 := TAKER];
    EntersAt(map[], map[40 := MOVED], P(1, [40], [40]), Q(1, []));
    ConvertsGiver(map[40 := MOVED], [40], [40], Q(1, []), []);
    assert [] + [48] == [48];
    ConvertsTaker(map[8 := 48], map[40 := MOVED, 48 := GIVER], P(2, [40], [40]), [], [48]);
    assert [48] + [56] == [48, 56];
    WritesGiver(ids, entries, 2, [40], [40], Q(2, []), [[48, 56]], []);
    WritesTaker(ids, entries, P(2, [], [40]), 2, [], [[48, 56]], [40]);
  }

  /** The state in which the second call returns, its scope taken off the stack. */
  function Moving(): State {
    At(map[8 := 48, 16 := 56], map[40 := MOVED, 48 := GIVER, 56 := TAKER], P(2, [], [40]), Q(2, [40]), [])
  }

  lemma MovingIs()
    ensures var s, ws := Moving(), Unpins([48, 56]);
            && IsCData(s, 8) && IsCData(s, 16) && Pinned(s, 8, ws) && Pinned(s, 16, ws)
            && Refreshes(s.heap[8].body, false) && Refreshes(s.heap[16].body, false)
            && s.heap[8].body.marked == [40] && s.heap[8].body.reports == []
            && s.heap[16].body.marked == [] && s.heap[16].body.reports == [40]
            && s.entries == map[40 := MOVED, 48 := GIVER, 56 := TAKER]
  {
    PendingOf([48, 56]);
    assert [48, 56][0] == 48 && [48, 56][1] == 56;
    hide PendingPins;
    BothAre(P(2, [], [40]), Q(2, [40]), P(0, [], []));
  }

  lemma MovingLive()
    ensures AllReportLive(Moving(), [48, 56], false)
  {
    MovingIs();
    hide Moving, Pinned, Refreshes;
  }

  /** A scope of two handles refreshes the one and then the other. */
  lemma RefreshBoth(s: State, a: Word, b: Word, ws: seq<Work>)
    requires Inv(s, ws) && ReportsLive(s, a, false) && b in PendingPins(ws)
    requires a in s.entries && s.entries[a].value.Heap? && !SpecialConst(a)
    requires b in s.entries && s.entries[b].value.Heap? && !SpecialConst(b)
    ensures RefreshAll(s, [a, b], false)
         == Refresh(Refresh(s, s.entries[a].value.payload, false), s.entries[b].value.payload, false)
  {
    hide Inv, Refresh, PendingPins;
    var t := Refresh(s, s.entries[a].value.payload, false);
    assert b in t.entries && t.entries[b].value == s.entries[b].value by {
      RefreshKeepsInv(s, s.entries[a].value.payload, false, ws);
      RefreshReleases(s, s.entries[a].value.payload, false);
      PendingIsLive(t, b, ws);
    }
    var u := Refresh(t, s.entries[b].value.payload, false);
    assert [a, b][1..] == [b] && [b][1..] == [];
    assert RefreshAll(u, [], false) == u;
    assert RefreshAll(t, [b], false) == u;
  }

  lemma MovingPop()
    requires Inv(Moving(), Unpins([48, 56]))
    ensures RefreshAll(Moving(), [48, 56], false) == Refresh(Refresh(Moving(), 8, false), 16, false)
  {
    hide Inv, Refresh, PendingPins, Moving, RefreshAll, ReportsLive;
    MovingIs();
    MovingLive();
    PendingOf([48, 56]);
    assert [48, 56][0] == 48 && [48, 56][1] == 56;
    RefreshBoth(Moving(), 48, 56, Unpins([48, 56]));
  }

  /** In a state a run comes to, every struct of the returning call reports live words
      only, and the return still loses the balance: the word was moved, and its giver
      comes first. */
  lemma MovedEdgeBreaksConservation()
    ensures exists s :: Reachable(s) && s.scopes != [] && AllReportLive(Popping(s), TopScope(s), false)
                     && !PinsBalance(ScopePop(s, false), [])
  {
    hide Reachable, Inv, PinsBalance, PopContract, RefreshAll, AllReportLive, Refresh, ScopePop, P, Q;
    SecondCall();
    var s := At(map[8 := 48, 16 := 56], map[40 := MOVED, 48 := GIVER, 56 := TAKER],
                P(2, [], [40]), Q(2, [40]), [[48, 56]]);
    assert s.scopes[..0] == [] && Popping(s) == Moving() && TopScope(s) == [48, 56];
    ReachableOk(s);
    PopPending(s);
    MovingRooted();
    hide At, Moving, AllRooted;
    MovingIs();
    MovingPop();
    MovingLive();
    MovedEdgeIsLost(Moving(), 8, 16, 40, Unpins([48, 56]));
    assert !Inv(RefreshAll(Moving(), [48, 56], false), Unpins([48, 56])) by {
      NoBalanceNoInv(RefreshAll(Moving(), [48, 56], false), Unpins([48, 56]));
    }
    RefreshesExact(s, false);
    RootedPopExact(s, false);
  }

  lemma NoBalanceNoInv(s: State, ws: seq<Work>)
    ensures Inv(s, ws) ==> PinsBalance(s, ws)
  {
  }

  lemma MovingRooted()
    ensures AllRooted(Moving(), [48, 56])
  {
    MovingIs();
    assert Moving().roots == multiset{8, 16};
    hide Moving;
  }

  // ---- a struct that dies as the call returns ------------------------------------------------------

  function Dying(entries: map<Word, Entry>, ids: map<Word, Word>, refs: nat, roots: multiset<Word>,
                 scopes: seq<seq<Word>>): State
  {
    State(ids, entries, map[8 := P(refs, [64], [])], scopes, multiset{}, multiset{}, roots, 1,
          multiset{(1, NoFree)}, multiset{})
  }

  /** A struct that reports a dead word, converted and referred to by nothing else. */
  lemma OneDying()
    ensures Reachable(Dying(map[48 := GIVER], map[8 := 48], 1, multiset{}, [[48]]))
  {
    hide Reachable, Dying, DropRoot;
    DyingConverted();
    DyingUnrooted();
    Unrooted(Dying(map[48 := GIVER], map[8 := 48], 2, multiset{8}, [[48]]), 8);
  }

  lemma DyingEntered()
    ensures Reachable(Dying(map[], map[], 1, multiset{8}, [[]]))
  {
    hide Reachable;
    OneStruct();
    Written(One(), 8, [64]);
    var s := Dying(map[], map[], 1, multiset{8}, []);
    assert CWrite(One(), 8, [64]) == s;
    Entered(s);
    assert ScopeEnter(s).scopes == [[]];
  }

  lemma DyingConverted()
    ensures Reachable(Dying(map[48 := GIVER], map[8 := 48], 2, multiset{8}, [[48]]))
  {
    hide Reachable;
    DyingEntered();
    var s := Dying(map[], map[], 1, multiset{8}, [[]]);
    Converted(s, RubyValue.Heap(8, 0), 48);
    assert s.scopes[0] + [48] == [48] && s.scopes[0 := [48]] == [[48]];
    assert Pin(s, {}, RubyValue.Heap(8, 0), 48).0 == Dying(map[48 := GIVER], map[8 := 48], 2, multiset{8}, [[48]]);
  }

  lemma Unrooted(s: State, p: Word)
    requires Reachable(s) && p in s.roots
    ensures Reachable(DropRoot(s, p))
  {
    hide Reachable, DropRoot;
    NextReachable(s, ReleaseRoot(p));
  }

  lemma DyingUnrooted()
    ensures var s := Dying(map[48 := GIVER], map[8 := 48], 2, multiset{8}, [[48]]);
            8 in s.roots && DropRoot(s, 8) == Dying(map[48 := GIVER], map[8 := 48], 1, multiset{}, [[48]])
  {
    var s := Dying(map[48 := GIVER], map[8 := 48], 2, multiset{}, [[48]]);
    var t := Dying(map[48 := GIVER], map[8 := 48], 1, multiset{}, [[48]]);
    assert multiset{8} - multiset{8} == multiset{};
    assert s.heap[8 := P(1, [64], [])] == t.heap;
    assert Fire(s, DropRef(8)) == (t, []);
    SettleStep(s, DropRef(8), []);
    assert [DropRef(8)] + [] == [DropRef(8)] && Fire(s, DropRef(8)).1 + [] == [];
    SettleNone(t);
  }

  lemma DyingRefresh()
    ensures var t := Refresh(Dying(map[48 := GIVER], map[8 := 48], 1, multiset{}, []), 8, false);
            && t.entries == map[48 := GIVER] && t.byIdentity == map[8 := 48]
            && t.heap == map[8 := P(1, [64], [64])]
  {
    var s := Dying(map[48 := GIVER], map[8 := 48], 1, multiset{}, []);
    assert [64][1..] == [] && [] + [64] == [64] && [64][0..] == [64];
    assert AddEdges([64], []) == [64] && Among([64], [64]) == [64] && NotAmong([64], [64]) == [];
    assert PinEntries(s.entries, [64]) == s.entries;
    assert Repin(s, 8).heap == map[8 := P(1, [64], [64])] && Repin(s, 8).entries == s.entries;
    hide AddEdges, Among, NotAmong, PinEntries, Repin;
    assert Unpins([]) == [];
    SettleNone(Repin(s, 8));
  }

  lemma DyingRelease(t: State)
    requires t.entries == map[48 := GIVER] && t.byIdentity == map[8 := 48] && t.heap == map[8 := P(1, [64], [64])]
    ensures Settle(t, Unpins([48])).heap == map[]
  {
    var u, v := FireUnpin(t, 48).0, FireDrop(FireUnpin(t, 48).0, 8).0;
    assert Unpins([48]) == [Unpin(48)] + [];
    assert Fire(t, Unpin(48)) == (u, [DropRef(8)]) && u.entries == map[] && u.heap == t.heap;
    assert [] + [64] == [64] && Unpins([64]) + Drops([]) == [Unpin(64)];
    assert Fire(u, DropRef(8)) == (v, [Unpin(64)]) && v.entries == map[] && v.heap == map[];
    assert Fire(v, Unpin(64)) == (v, []);
    SettleStep(t, Unpin(48), []);
    hide FireUnpin, FireDrop, Fire;
    assert [DropRef(8)] + [] == [DropRef(8)] && [Unpin(64)] + [] == [Unpin(64)];
    SettleStep(u, DropRef(8), []);
    SettleStep(v, Unpin(64), []);
    assert Fire(v, Unpin(64)).1 + [] == [];
    SettleNone(v);
  }

  /** A struct that dies as the call returns takes its dead listing with it: the contract
      is broken and the return keeps the whole invariant. */
  lemma DyingStructIsForgiven()
    ensures exists s :: Reachable(s) && s.scopes != [] && !PopContract(Popping(s), TopScope(s), false)
                     && Inv(ScopePop(s, false), [])
  {
    hide Reachable, Inv, PinsBalance, PopContract, Wrong, Refresh, Settle, P;
    OneDying();
    var s := Dying(map[48 := GIVER], map[8 := 48], 1, multiset{}, [[48]]);
    var t := Dying(map[48 := GIVER], map[8 := 48], 1, multiset{}, []);
    assert s.scopes[..0] == [] && Popping(s) == t && TopScope(s) == [48];
    DyingRefresh();
    DyingRelease(Refresh(t, 8, false));
    assert RefreshAll(t, [48], false) == Refresh(t, 8, false) by {
      assert [48][1..] == [];
      assert RefreshFor(t, 48, false) == Refresh(t, 8, false);
    }
    DyingWrong();
    ScopePopExact(s, false);
  }

  lemma DyingWrong()
    ensures !PopContract(Dying(map[48 := GIVER], map[8 := 48], 1, multiset{}, []), [48], false)
  {
    var t := Dying(map[48 := GIVER], map[8 := 48], 1, multiset{}, []);
    assert t.heap[8].body.reports[0] == 64 && !Live(t, 64);
    assert !ReportsLive(t, 48, false);
  }
}
