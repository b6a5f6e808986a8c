/** When the return of a call keeps the pins in balance, exactly. */
module PopExact {
  import opened Sums
  import opened HandleState
  import opened HandleInvariant
  import opened HandleOps
  import opened RefreshKeeps
  import opened Frames
  import opened MarkRefresh
  import opened HandleContracts
  import opened HandleRuns
  import opened StandIns

  // ---- the structs that report a dead word ------------------------------------------------------

  /** The payload of `a`, if it is a struct and reports a dead word as it is refreshed. */
  ghost function WrongNow(s: State, a: Word, busy: bool): set<Word> {
    if ReportsLive(s, a, busy) then {} else {s.entries[a].value.payload}
  }

  /** The structs of a popping scope that report a dead word when their turn comes. */
  ghost function Wrong(s: State, l: seq<Word>, busy: bool): set<Word>
    decreases |l|
  {
    if l == [] then {} else WrongNow(s, l[0], busy) + Wrong(RefreshFor(s, l[0], busy), l[1..], busy)
  }

  lemma {:induction false} ContractIsNoneWrong(s: State, l: seq<Word>, busy: bool)
    ensures PopContract(s, l, busy) <==> Wrong(s, l, busy) == {}
    decreases |l|
  {
    if l != [] {
      ContractIsNoneWrong(RefreshFor(s, l[0], busy), l[1..], busy);
    }
  }

  /** The struct at `p`, pinned by the popping scope, lists `x` and reports it. */
  ghost predicate Edge(s: State, p: Word, x: Word, ws: seq<Work>) {
    && IsCData(s, p) && Pinned(s, p, ws)
    && x in s.heap[p].body.marked && x in s.heap[p].body.reports && !SpecialConst(x)
  }

  /** The words a struct reports that no handle is at. */
  ghost function DeadReports(s: State, p: Word): set<Word>
    requires IsCData(s, p)
  {
    set x | x in s.heap[p].body.reports && !Live(s, x)
  }

  /** A refresh whose dead reports are stood in for. */
  lemma ShadowStep(s: State, u: State, dead: set<Word>, p: Word, busy: bool, ws: seq<Work>)
    returns (v: State, more: set<Word>)
    requires Shadows(s, u, dead, ws) && IsCData(s, p) && Refreshes(s.heap[p].body, busy)
    ensures v == StandIn(u, DeadReports(u, p)) && more == dead + DeadReports(u, p)
    ensures Shadows(s, v, more, ws) && AllLive(v, v.heap[p].body.reports)
    ensures Shadows(Refresh(s, p, busy), Refresh(v, p, busy), more, ws)
  {
    hide Inv, Refresh, RealEntries;
    var asked := DeadReports(u, p);
    v, more := StandIn(u, asked), dead + asked;
    StandInKeeps(u, asked, ws);
    MoreStandIns(u, dead, asked, s.forever);
    assert multiset(dead + asked) == multiset(dead) + multiset(asked);
    assert s.forever + (multiset(dead) + multiset(asked)) == s.forever + multiset(dead) + multiset(asked);
    assert StandInsOk(s, v, more);
    assert AllLive(v, v.heap[p].body.reports);
    hide StandInsOk;
    RefreshBeside(v, more, s.forever, p, busy);
    RefreshKeepsInv(v, p, busy, ws);
    RefreshReleases(v, p, busy);
    RefreshReleases(s, p, busy);
    StandInsStay(s, v, Refresh(s, p, busy), Refresh(v, p, busy), more, ws);
  }

  /** Whatever is refreshed, a listed and reported word stays listed. */
  lemma EdgeStays(u: State, q: Word, p: Word, x: Word, busy: bool, ws: seq<Work>)
    requires Inv(u, ws) && IsCData(u, q) && Refreshes(u.heap[q].body, busy) && AllLive(u, u.heap[q].body.reports)
    requires Edge(u, p, x, ws)
    ensures Edge(Refresh(u, q, busy), p, x, ws)
  {
    hide Inv, Refresh, AllLive, PendingPins;
    var v := Refresh(u, q, busy);
    RefreshKeepsInv(u, q, busy, ws);
    RefreshReleases(u, q, busy);
    PendingPinned(u, v, p, ws);
    if p == q {
      RefreshContents(u, q, busy, ws);
    } else {
      OthersUntouched(u, q, p, busy, ws);
    }
  }

  lemma {:induction false} EdgeSurvives(s: State, u: State, dead: set<Word>, l: seq<Word>, busy: bool, ws: seq<Work>,
                                        p: Word, x: Word)
    requires Shadows(s, u, dead, ws) && Edge(u, p, x, ws)
    ensures IsCData(RefreshAll(s, l, busy), p) && x in RefreshAll(s, l, busy).heap[p].body.marked
    decreases |l|
  {
    hide Inv, Refresh, RealEntries, PendingPins;
    if l != [] {
      var a := l[0];
      if !SpecialConst(a) && a in s.entries && s.entries[a].value.Heap?
         && s.entries[a].value.payload in s.heap && Refreshes(s.heap[s.entries[a].value.payload].body, busy) {
        var q := s.entries[a].value.payload;
        var v, more := ShadowStep(s, u, dead, q, busy, ws);
        EdgeStays(v, q, p, x, busy, ws);
        EdgeSurvives(Refresh(s, q, busy), Refresh(v, q, busy), more, l[1..], busy, ws, p, x);
      } else {
        assert RefreshFor(s, a, busy) == s by {
          UnrefreshedIs(s, a, busy);
        }
        EdgeSurvives(s, u, dead, l[1..], busy, ws, p, x);
      }
    }
  }

  lemma DeadListedUnbalances(t: State, p: Word, x: Word, ws: seq<Work>)
    requires IsCData(t, p) && x in t.heap[p].body.marked && !Live(t, x)
    ensures !PinsBalance(t, ws)
  {
    ListedInHolders(t, p, x);
    assert x in Holders(t) + PendingPins(ws);
  }

  /** `a` is a live handle of a struct that would be refreshed. */
  predicate WillRefresh(s: State, a: Word, busy: bool) {
    && !SpecialConst(a) && a in s.entries && s.entries[a].value.Heap?
    && IsCData(s, s.entries[a].value.payload) && Refreshes(s.heap[s.entries[a].value.payload].body, busy)
  }

  lemma ShadowedIsNoConst(s: State, u: State, dead: set<Word>, a: Word, ws: seq<Work>)
    requires Shadows(s, u, dead, ws) && a in s.entries
    ensures !SpecialConst(a)
  {
    assert EntryOk(u.byIdentity, a, u.entries[a]);
  }

  lemma WrongIsRefreshed(s: State, a: Word, busy: bool)
    requires a in s.entries ==> !SpecialConst(a)
    ensures WrongNow(s, a, busy) != {} ==> WillRefresh(s, a, busy)
    ensures !WillRefresh(s, a, busy) ==> RefreshFor(s, a, busy) == s && WrongNow(s, a, busy) == {}
  {
    hide Refresh, Refreshes, AllLive;
    if !WillRefresh(s, a, busy) {
      assert RefreshFor(s, a, busy) == s by {
        UnrefreshedIs(s, a, busy);
      }
    }
  }

  /** A struct that reports a dead word at its turn lists it once it is refreshed. */
  lemma WrongTakesEdge(s: State, u: State, dead: set<Word>, a: Word, busy: bool, ws: seq<Work>)
    returns (v: State, more: set<Word>, x: Word)
    requires Shadows(s, u, dead, ws) && a in PendingPins(ws) && WillRefresh(s, a, busy) && !ReportsLive(s, a, busy)
    ensures var q := s.entries[a].value.payload;
            Shadows(Refresh(s, q, busy), v, more, ws) && Edge(v, q, x, ws) && !Live(s, x)
  {
    var q := s.entries[a].value.payload;
    assert a in u.entries && u.entries[a] == s.entries[a];
    HandleKeepsObject(u.byIdentity, u.entries, u.heap, a);
    hide Inv, Refresh, RealEntries, PendingPins;
    x :| x in s.heap[q].body.reports && !Live(s, x);
    var w, all := ShadowStep(s, u, dead, q, busy, ws);
    v, more := Refresh(w, q, busy), all;
    assert Pinned(w, q, ws);
    RefreshContents(w, q, busy, ws);
    RefreshReleases(w, q, busy);
    PendingPinned(w, v, q, ws);
  }

  lemma {:induction false} WrongListsDead(s: State, u: State, dead: set<Word>, l: seq<Word>, busy: bool, ws: seq<Work>,
                                          p: Word)
    returns (x: Word)
    requires Shadows(s, u, dead, ws) && p in Wrong(s, l, busy) && forall a :: a in l ==> a in PendingPins(ws)
    ensures var t := RefreshAll(s, l, busy); IsCData(t, p) && x in t.heap[p].body.marked && !Live(t, x)
    decreases |l|
  {
    hide Inv, Refresh, RealEntries, PendingPins, Shadows, Edge;
    var a, rest := l[0], l[1..];
    if a in s.entries {
      ShadowedIsNoConst(s, u, dead, a, ws);
    }
    WrongIsRefreshed(s, a, busy);
    if p in WrongNow(s, a, busy) {
      var v, more, y := WrongTakesEdge(s, u, dead, a, busy, ws);
      x := y;
      EdgeSurvives(Refresh(s, p, busy), v, more, rest, busy, ws, p, x);
      RefreshAllReleases(s, l, busy);
    } else if WillRefresh(s, a, busy) {
      var q := s.entries[a].value.payload;
      assert exists v, more :: Shadows(Refresh(s, q, busy), v, more, ws) by {
        var w, all := ShadowStep(s, u, dead, q, busy, ws);
      }
      var v, more :| Shadows(Refresh(s, q, busy), v, more, ws);
      x := WrongListsDead(Refresh(s, q, busy), v, more, rest, busy, ws, p);
    } else {
      x := WrongListsDead(s, u, dead, rest, busy, ws, p);
    }
  }

  // ---- and nobody else lists one ----------------------------------------------------------------

  /** Only the structs `wrong` list a stood-in word, and no other holder does. */
  ghost predicate Confined(s: State, dead: set<Word>, wrong: set<Word>, ws: seq<Work>) {
    forall x :: x in dead ==> Unheld(s, x, ws) && ListedWithin(s.heap, x, wrong)
  }

  ghost predicate Unheld(s: State, x: Word, ws: seq<Work>) {
    x !in ScopePins(s.scopes) && x !in s.forever && x !in s.immortal && x !in PendingPins(ws)
  }

  ghost predicate ListedWithin(h: Heap, x: Word, wrong: set<Word>) {
    forall p :: p in h && x in Listed(h[p].body) ==> p in wrong
  }

  /** A word no handle is at is nobody's. */
  lemma DeadIsNobodys(s: State, u: State, dead: set<Word>, x: Word, ws: seq<Work>)
    requires Shadows(s, u, dead, ws) && !Live(u, x)
    ensures Unheld(s, x, ws) && ListedWithin(s.heap, x, {})
  {
    assert x !in Holders(u) + PendingPins(ws);
    forall p | p in s.heap ensures x !in Listed(s.heap[p].body) {
      if x in Listed(s.heap[p].body) {
        ListedInHolders(u, p, x);
      }
    }
  }

  lemma RefreshedBodies(s: State, q: Word, busy: bool)
    requires IsCData(s, q) && Refreshes(s.heap[q].body, busy)
    ensures var t := Refresh(s, q, busy);
            forall p :: p in t.heap ==>
              p in s.heap && t.heap[p].body == if p == q then Refreshed(s.heap[q].body) else s.heap[p].body
  {
    RepinIs(s, q);
    SettleReleases(Repin(s, q), Unpins(Stale(s.heap[q].body)));
    hide Settle, AddEdges, Among, NotAmong, PinEntries, Newly;
  }

  lemma RefreshedLists(b: Body, x: Word)
    requires b.CStruct? && BodyOk(b) && x in Listed(Refreshed(b))
    ensures x in b.retained || x in b.reports
  {
    Partition(All(b), b.reports);
  }

  lemma ConfinedStep(s: State, u: State, dead: set<Word>, wrong: set<Word>, a: Word, busy: bool, ws: seq<Work>)
    requires Shadows(s, u, dead, ws) && Confined(s, dead, wrong, ws) && WillRefresh(s, a, busy)
    ensures var q := s.entries[a].value.payload;
            Confined(Refresh(s, q, busy), dead + DeadReports(u, q), wrong + WrongNow(s, a, busy), ws)
  {
    hide Inv, Shadows, Refresh, ScopePins, PendingPins, ListedWithin, BodyOk, Live;
    var q := s.entries[a].value.payload;
    ShadowHeap(s, u, dead, ws);
    RefreshReleases(s, q, busy);
    forall x | x in dead + DeadReports(u, q)
      ensures Unheld(Refresh(s, q, busy), x, ws)
      ensures ListedWithin(Refresh(s, q, busy).heap, x, wrong + WrongNow(s, a, busy))
    {
      StoodInIsDead(s, u, dead, x, q, ws);
      assert Unheld(s, x, ws) && ListedWithin(s.heap, x, wrong) by {
        if x !in dead {
          DeadIsNobodys(s, u, dead, x, ws);
          WithinMore(s.heap, x, {}, wrong);
        }
      }
      assert BodyOk(s.heap[q].body);
      DeadStaysWithin(s, a, busy, x, wrong);
    }
  }

  lemma WithinMore(h: Heap, x: Word, few: set<Word>, many: set<Word>)
    requires ListedWithin(h, x, few) && few <= many
    ensures ListedWithin(h, x, many)
  {
  }

  /** A refresh lists a dead word only where the struct reports it. */
  lemma DeadStaysWithin(s: State, a: Word, busy: bool, x: Word, wrong: set<Word>)
    requires WillRefresh(s, a, busy) && BodyOk(s.heap[s.entries[a].value.payload].body)
    requires !Live(s, x) && ListedWithin(s.heap, x, wrong)
    ensures ListedWithin(Refresh(s, s.entries[a].value.payload, busy).heap, x, wrong + WrongNow(s, a, busy))
  {
    var q := s.entries[a].value.payload;
    RefreshedBodies(s, q, busy);
    hide Refresh, Refreshed;
    var t := Refresh(s, q, busy);
    forall p | p in t.heap && x in Listed(t.heap[p].body) ensures p in wrong + WrongNow(s, a, busy) {
      if p == q {
        RefreshedLists(s.heap[q].body, x);
        assert x in s.heap[q].body.reports ==> !ReportsLive(s, a, busy);
      }
    }
  }

  /** A stood-in word is dead. */
  lemma StoodInIsDead(s: State, u: State, dead: set<Word>, x: Word, q: Word, ws: seq<Work>)
    requires Shadows(s, u, dead, ws) && IsCData(s, q) && x in dead + DeadReports(u, q)
    ensures !Live(s, x)
  {
  }

  lemma {:induction false} ConfinedAll(s: State, u: State, dead: set<Word>, wrong: set<Word>, l: seq<Word>, busy: bool,
                                       ws: seq<Work>)
    returns (v: State, more: set<Word>)
    requires Shadows(s, u, dead, ws) && Confined(s, dead, wrong, ws)
    ensures Shadows(RefreshAll(s, l, busy), v, more, ws)
    ensures Confined(RefreshAll(s, l, busy), more, wrong + Wrong(s, l, busy), ws)
    decreases |l|
  {
    hide Inv, Refresh, Shadows, Confined;
    v, more := u, dead;
    if l == [] {
      assert wrong + {} == wrong;
    } else {
      var a := l[0];
      var now := wrong + WrongNow(s, a, busy);
      if a in s.entries {
        ShadowedIsNoConst(s, u, dead, a, ws);
      }
      WrongIsRefreshed(s, a, busy);
      assert now + Wrong(RefreshFor(s, a, busy), l[1..], busy) == wrong + Wrong(s, l, busy);
      if WillRefresh(s, a, busy) {
        var q := s.entries[a].value.payload;
        ConfinedStep(s, u, dead, wrong, a, busy, ws);
        assert IsCData(u, q) by {
          assert s.heap == u.heap by { ShadowHeap(s, u, dead, ws); }
        }
        var w, all := ShadowStep(s, u, dead, q, busy, ws);
        v, more := ConfinedAll(Refresh(s, q, busy), Refresh(w, q, busy), all, now, l[1..], busy, ws);
      } else {
        assert now == wrong;
        v, more := ConfinedAll(s, u, dead, wrong, l[1..], busy, ws);
      }
    }
  }

  lemma ShadowHeap(s: State, u: State, dead: set<Word>, ws: seq<Work>)
    requires Shadows(s, u, dead, ws)
    ensures s.heap == u.heap && ListsOk(s.heap)
  {
  }

  // ---- the whole pop ----------------------------------------------------------------------------

  /** If no struct that is left reported a dead word, no stand-in is needed. */
  lemma NoneLeftWrong(r: State, v: State, dead: set<Word>, wrong: set<Word>, ws: seq<Work>)
    requires Shadows(r, v, dead, ws) && Confined(r, dead, wrong, ws) && wrong !! Settle(r, ws).heap.Keys
    ensures Inv(Settle(r, ws), [])
  {
    var e := Settle(r, ws);
    assert ws + [] == ws;
    SettleReleases(r, ws);
    hide Inv, Settle, Shadows, ScopePins, PendingPins;
    ShadowSettles(r, v, dead, ws, []);
    forall x | x in dead ensures x !in Holders(e) + PendingPins([]) {
      assert Unheld(r, x, ws) && ListedWithin(r.heap, x, wrong);
      NotListed(e.heap, x);
      assert PendingPins([]) == multiset{} by {
        PendingNone();
      }
    }
    NoStandInNeeded(e, Settle(v, ws), dead, []);
  }

  lemma PendingNone()
    ensures PendingPins([]) == multiset{}
  {
  }

  lemma NotListed(h: Heap, x: Word)
    requires forall p :: p in h ==> x !in Listed(h[p].body)
    ensures x !in CDataPins(h)
  {
    SumNowhere(h, PinsOf, x);
  }

  /** A struct that is left and reported a dead word still lists it. */
  lemma LeftWrong(r: State, p: Word, x: Word, ws: seq<Work>)
    requires IsCData(r, p) && x in r.heap[p].body.marked && !Live(r, x) && p in Settle(r, ws).heap
    ensures !PinsBalance(Settle(r, ws), [])
  {
    SettleReleases(r, ws);
    hide Settle, PinsBalance;
    DeadListedUnbalances(Settle(r, ws), p, x, []);
  }

  /** What a scope pop takes off the stack, and the state without it. */
  function Popping(s: State): State
    requires s.scopes != []
  {
    s.(scopes := s.scopes[..|s.scopes| - 1])
  }

  function TopScope(s: State): seq<Word>
    requires s.scopes != []
  {
    s.scopes[|s.scopes| - 1]
  }

  /** A returning call keeps the whole invariant, and already its pins in balance, if and
      only if no struct that outlives it reported a dead word at its turn. One that dies
      in the releases takes its listings with it. */
  lemma ScopePopExact(s: State, busy: bool)
    requires Reachable(s) && s.scopes != []
    ensures var wrong := Wrong(Popping(s), TopScope(s), busy);
            && (PinsBalance(ScopePop(s, busy), []) <==> wrong !! ScopePop(s, busy).heap.Keys)
            && (Inv(ScopePop(s, busy), []) <==> wrong !! ScopePop(s, busy).heap.Keys)
  {
    hide PinsBalance, ShapeOk, RefsBalance, Wrong, RefreshAll, PendingPins, Settle, Reachable;
    ReachableOk(s);
    var t, top := Popping(s), TopScope(s);
    var ws, r := Unpins(top), RefreshAll(t, top, busy);
    PopPending(s);
    PendingOf(top);
    ShadowOfItself(t, ws);
    if wrong: Word :| wrong in Wrong(t, top, busy) && wrong in Settle(r, ws).heap {
      var x := WrongListsDead(t, t, {}, top, busy, ws, wrong);
      LeftWrong(r, wrong, x, ws);
    } else {
      var v, dead := ConfinedAll(t, t, {}, {}, top, busy, ws);
      assert {} + Wrong(t, top, busy) == Wrong(t, top, busy);
      NoneLeftWrong(r, v, dead, Wrong(t, top, busy), ws);
    }
  }

  /** The refreshes alone, with the scope's own pins still pending: there every struct is
      still there, so the contract is exact. */
  lemma RefreshesExact(s: State, busy: bool)
    requires Reachable(s) && s.scopes != []
    ensures Inv(RefreshAll(Popping(s), TopScope(s), busy), Unpins(TopScope(s)))
       <==> PopContract(Popping(s), TopScope(s), busy)
  {
    hide PinsBalance, ShapeOk, RefsBalance, PopContract, RefreshAll, PendingPins, Wrong, Reachable;
    ReachableOk(s);
    var t, top := Popping(s), TopScope(s);
    PopPending(s);
    PendingOf(top);
    ContractIsNoneWrong(t, top, busy);
    if PopContract(t, top, busy) {
      RefreshAllKeeps(t, top, busy, Unpins(top));
    } else {
      var p :| p in Wrong(t, top, busy);
      ShadowOfItself(t, Unpins(top));
      var x := WrongListsDead(t, t, {}, top, busy, Unpins(top), p);
      DeadListedUnbalances(RefreshAll(t, top, busy), p, x, Unpins(top));
    }
  }

  // ---- structs that outlive the call -------------------------------------------------------------

  lemma StructBefore(s: State, a: Word, b: Word, p: Word, busy: bool)
    requires CDataAt(RefreshFor(s, a, busy), b, p)
    ensures CDataAt(s, b, p)
  {
    if WillRefresh(s, a, busy) {
      var q := s.entries[a].value.payload;
      RefreshReleases(s, q, busy);
      RefreshedBodies(s, q, busy);
      hide Refresh, Refreshed;
    } else {
      hide Refresh;
      UnrefreshedIs(s, a, busy);
    }
  }

  /** Only structs of the scope can go wrong. */
  lemma {:induction false} WrongAreStructs(s: State, l: seq<Word>, busy: bool, p: Word) returns (a: Word)
    requires p in Wrong(s, l, busy)
    ensures a in l && CDataAt(s, a, p)
    decreases |l|
  {
    hide RefreshFor, AllLive, Refreshes;
    if p in WrongNow(s, l[0], busy) {
      a := l[0];
    } else {
      a := WrongAreStructs(RefreshFor(s, l[0], busy), l[1..], busy, p);
      StructBefore(s, l[0], a, p, busy);
    }
  }

  /** The end of a pop beside its shadow, whatever the structs report. */
  lemma PopShadow(s: State, busy: bool) returns (v: State, dead: set<Word>)
    requires Reachable(s) && s.scopes != []
    ensures Shadows(ScopePop(s, busy), v, dead, [])
    ensures Confined(RefreshAll(Popping(s), TopScope(s), busy), dead,
                     Wrong(Popping(s), TopScope(s), busy), Unpins(TopScope(s)))
  {
    hide Inv, RefreshAll, PendingPins, Settle, Reachable, Shadows, Confined, Wrong;
    ReachableOk(s);
    var t, top := Popping(s), TopScope(s);
    var ws, r := Unpins(top), RefreshAll(t, top, busy);
    PopPending(s);
    ShadowOfItself(t, ws);
    NothingConfined(t, ws);
    var u;
    u, dead := ConfinedAll(t, t, {}, {}, top, busy, ws);
    assert {} + Wrong(t, top, busy) == Wrong(t, top, busy);
    assert ws + [] == ws;
    ShadowSettles(r, u, dead, ws, []);
    v := Settle(u, ws);
  }

  /** An object Ruby code refers to survives the pop, whatever the structs report. */
  lemma RootedSurvives(s: State, busy: bool, p: Word)
    requires Reachable(s) && s.scopes != [] && p in s.roots
    ensures p in ScopePop(s, busy).heap
  {
    hide Reachable, Shadows, Confined, ScopePop;
    var v, dead := PopShadow(s, busy);
    ScopePopReleases(s, busy);
    RootInHeap(ScopePop(s, busy), v, dead, p);
  }

  /** So does a handle an outer scope lists. */
  lemma OuterSurvives(s: State, busy: bool, a: Word)
    requires Reachable(s) && s.scopes != [] && a in ScopePins(Popping(s).scopes)
    ensures Live(ScopePop(s, busy), a)
  {
    hide Reachable, Shadows, ScopePop, RefreshAll, ScopePins, Wrong, PendingPins;
    var v, dead := PopShadow(s, busy);
    ScopePopReleases(s, busy);
    RefreshAllReleases(Popping(s), TopScope(s), busy);
    assert a !in dead by {
      if a in dead {
        assert Unheld(RefreshAll(Popping(s), TopScope(s), busy), a, Unpins(TopScope(s)));
      }
    }
    ScopeInTable(ScopePop(s, busy), v, dead, a);
  }

  lemma ScopeInTable(s: State, u: State, dead: set<Word>, a: Word)
    requires Shadows(s, u, dead, []) && a in ScopePins(s.scopes) && a !in dead
    ensures Live(s, a)
  {
    assert a in Holders(u) + PendingPins([]);
  }

  /** A returned `VALUE` that was kept is still live once the call's own pins are gone, and
      names the same value, whatever the structs of the call report. */
  lemma KeptSurvives(s: State, a: Word, busy: bool)
    requires Reachable(s) && |s.scopes| >= 2 && Live(s, a)
    ensures var t := ScopePop(Keep(s, a), busy); Live(t, a) && ValueOf(t, a) == ValueOf(s, a)
  {
    hide Reachable, ScopePop, ScopePins;
    var k := Keep(s, a);
    assert Reachable(k) by {
      hide Keep;
      NextReachable(s, KeepValue(a));
    }
    KeptInParent(s, a);
    OuterSurvives(k, busy, a);
    ScopePopReleases(k, busy);
  }

  lemma KeptInParent(s: State, a: Word)
    requires |s.scopes| >= 2
    ensures a in ScopePins(Popping(Keep(s, a)).scopes)
  {
    var n := |s.scopes| - 2;
    var below := Keep(s, a).scopes[..n + 1];
    assert below[n][|s.scopes[n]|] == a;
  }

  lemma NothingConfined(s: State, ws: seq<Work>)
    ensures Confined(s, {}, {}, ws)
  {
  }

  lemma RootInHeap(s: State, u: State, dead: set<Word>, p: Word)
    requires Shadows(s, u, dead, []) && p in s.roots
    ensures p in s.heap
  {
    assert p in Owners(u) + PendingRefs([]);
  }

  /** Ruby code refers to every struct of the returning call. */
  ghost predicate AllRooted(s: State, l: seq<Word>) {
    forall a, p :: a in l && CDataAt(s, a, p) ==> p in s.roots
  }

  /** Where Ruby code refers to every struct, the return keeps the balance if and only if
      each reports live words at its turn. */
  lemma RootedPopExact(s: State, busy: bool)
    requires Reachable(s) && s.scopes != [] && AllRooted(Popping(s), TopScope(s))
    ensures PinsBalance(ScopePop(s, busy), []) <==> PopContract(Popping(s), TopScope(s), busy)
    ensures Inv(ScopePop(s, busy), []) <==> PopContract(Popping(s), TopScope(s), busy)
  {
    hide PinsBalance, Inv, Wrong, ScopePop, PopContract, Reachable, CDataAt;
    var t, top := Popping(s), TopScope(s);
    ScopePopExact(s, busy);
    ContractIsNoneWrong(t, top, busy);
    if p :| p in Wrong(t, top, busy) {
      var a := WrongAreStructs(t, top, busy, p);
      RootedSurvives(s, busy, p);
    }
  }

  // ---- read off the state before the pop -------------------------------------------------------

  ghost predicate AllReportLive(s: State, l: seq<Word>, busy: bool) {
    forall a :: a in l ==> ReportsLive(s, a, busy)
  }

  /** A refresh leaves a pinned struct its handle and what its mark function reports. */
  lemma PinnedStays(s: State, q: Word, b: Word, busy: bool, ws: seq<Work>)
    requires Inv(s, ws) && IsCData(s, q) && Refreshes(s.heap[q].body, busy) && AllLive(s, s.heap[q].body.reports)
    requires b in PendingPins(ws) && b in s.entries && s.entries[b].value.Heap? && IsCData(s, s.entries[b].value.payload)
    ensures var t, p := Refresh(s, q, busy), s.entries[b].value.payload;
            && b in t.entries && t.entries[b].value == s.entries[b].value && IsCData(t, p)
            && t.heap[p].body.(marked := []) == s.heap[p].body.(marked := [])
  {
    var p := s.entries[b].value.payload;
    HandleKeepsObject(s.byIdentity, s.entries, s.heap, b);
    hide Inv, Refresh, PendingPins, AllLive, Refreshes;
    var t := Refresh(s, q, busy);
    RefreshReleases(s, q, busy);
    RefreshKeepsInv(s, q, busy, ws);
    PendingPinned(s, t, p, ws);
    PendingIsLive(t, b, ws);
    EntryIsNoConst(s, b, ws);
    RefreshedBodies(s, q, busy);
  }

  /** A later struct's reports were live if they are live once another is refreshed. */
  lemma LiveBefore(s: State, a: Word, b: Word, busy: bool, ws: seq<Work>)
    requires Inv(s, ws) && ReportsLive(s, a, busy) && b in PendingPins(ws)
    requires ReportsLive(RefreshFor(s, a, busy), b, busy)
    ensures ReportsLive(s, b, busy)
  {
    hide Inv, Refresh, PendingPins;
    if WillRefresh(s, a, busy) {
      var q := s.entries[a].value.payload;
      if b in s.entries && s.entries[b].value.Heap? && IsCData(s, s.entries[b].value.payload) {
        PinnedStays(s, q, b, busy, ws);
        RefreshReleases(s, q, busy);
      }
    } else {
      UnrefreshedIs(s, a, busy);
    }
  }

  lemma PendingIsLive(s: State, b: Word, ws: seq<Work>)
    requires Inv(s, ws) && b in PendingPins(ws)
    ensures Live(s, b)
  {
    assert b in Holders(s) + PendingPins(ws);
  }

  lemma EntryIsNoConst(s: State, b: Word, ws: seq<Work>)
    requires Inv(s, ws) && b in s.entries
    ensures !SpecialConst(b)
  {
    assert EntryOk(s.byIdentity, b, s.entries[b]);
  }

  /** A pop that meets its contract found every report live before it began. */
  lemma {:induction false} LiveAtTheStart(s: State, l: seq<Word>, busy: bool, ws: seq<Work>)
    requires Inv(s, ws) && PopContract(s, l, busy) && forall a :: a in l ==> a in PendingPins(ws)
    ensures AllReportLive(s, l, busy)
    decreases |l|
  {
    hide Inv, PendingPins, Refresh, ReportsLive;
    if l != [] {
      var a, t := l[0], RefreshFor(s, l[0], busy);
      assert Inv(t, ws) by {
        assert [a][1..] == [] && RefreshAll(s, [a], busy) == t;
        assert PopContract(s, [a], busy);
        RefreshAllKeeps(s, [a], busy, ws);
      }
      LiveAtTheStart(t, l[1..], busy, ws);
      hide RefreshFor;
      forall b | b in l ensures ReportsLive(s, b, busy) {
        if b != a {
          assert b in l[1..];
          LiveBefore(s, a, b, busy, ws);
        }
      }
    }
  }

  /** The struct still reports whatever it lists as marked. */
  ghost predicate StillReports(b: Body) {
    b.CStruct? ==> forall x :: x in b.marked ==> x in b.reports
  }

  /** No struct of the scope has stopped reporting a word. */
  ghost predicate NothingGivenUp(s: State, l: seq<Word>) {
    forall a, p :: a in l && CDataAt(s, a, p) ==> StillReports(s.heap[p].body)
  }

  lemma SomeMember(l: seq<Word>)
    ensures l == [] || exists x :: x in l
  {
    assert l == [] || l[0] in l;
  }

  lemma StillReportsIs(b: Body)
    requires b.CStruct? && BodyOk(b) && StillReports(b)
    ensures Stale(b) == [] && StillReports(Refreshed(b))
  {
    AddEdgesContents(b.reports, b.marked);
    Partition(All(b), b.reports);
    hide AddEdges, Among, NotAmong;
    SomeMember(Stale(b));
  }

  /** A refresh that gives nothing up takes no handle away and touches no other struct. */
  lemma QuietRefresh(s: State, q: Word, busy: bool, ws: seq<Work>)
    requires Inv(s, ws) && IsCData(s, q) && Refreshes(s.heap[q].body, busy) && StillReports(s.heap[q].body)
    ensures var t := Refresh(s, q, busy);
            && t.entries.Keys == s.entries.Keys && FewerHandles(s.entries, t.entries)
            && t.heap == s.heap[q := s.heap[q].(body := Refreshed(s.heap[q].body))]
            && StillReports(t.heap[q].body)
  {
    var b := s.heap[q].body;
    assert BodyOk(b);
    StillReportsIs(b);
    RepinIs(s, q);
    PinEntriesKeep(s.entries, Newly(b));
    hide Inv, Repin, Stale, PinEntries, AddEdges, Among, Newly, StillReports;
    assert Unpins([]) == [];
    SettleNone(Repin(s, q));
  }

  lemma {:induction false} QuietPop(s: State, l: seq<Word>, busy: bool, ws: seq<Work>)
    requires Inv(s, ws) && NothingGivenUp(s, l) && AllReportLive(s, l, busy)
    ensures PopContract(s, l, busy)
    decreases |l|
  {
    hide Inv, Refresh, StillReports;
    if l != [] {
      var a, t := l[0], RefreshFor(s, l[0], busy);
      assert ReportsLive(s, a, busy);
      if !SpecialConst(a) && a in s.entries && s.entries[a].value.Heap?
         && IsCData(s, s.entries[a].value.payload) && Refreshes(s.heap[s.entries[a].value.payload].body, busy) {
        var q := s.entries[a].value.payload;
        assert CDataAt(s, a, q);
        QuietRefresh(s, q, busy, ws);
        RefreshKeepsInv(s, q, busy, ws);
        QuietStep(s, t, q, l[1..], busy);
      } else {
        UnrefreshedIs(s, a, busy);
      }
      QuietPop(t, l[1..], busy, ws);
    }
  }

  lemma QuietStep(s: State, t: State, q: Word, l: seq<Word>, busy: bool)
    requires IsCData(s, q) && t.entries.Keys == s.entries.Keys && FewerHandles(s.entries, t.entries)
    requires t.heap == s.heap[q := s.heap[q].(body := Refreshed(s.heap[q].body))] && StillReports(t.heap[q].body)
    requires NothingGivenUp(s, l) && AllReportLive(s, l, busy)
    ensures NothingGivenUp(t, l) && AllReportLive(t, l, busy)
  {
    hide StillReports, Among, AddEdges;
    forall a, p | a in l && CDataAt(t, a, p) ensures StillReports(t.heap[p].body) {
      assert CDataAt(s, a, p);
    }
    forall a | a in l ensures ReportsLive(t, a, busy) {
      assert ReportsLive(s, a, busy);
    }
  }

  /** What an extension can check before it returns. Live reports are always needed, and
      where no struct has given a word up they are enough. */
  lemma QuietPopExact(s: State, busy: bool)
    requires Reachable(s) && s.scopes != []
    ensures var t, top := s.(scopes := s.scopes[..|s.scopes| - 1]), s.scopes[|s.scopes| - 1];
            && (Allowed(s, Exit(busy)) ==> AllReportLive(t, top, busy))
            && (NothingGivenUp(t, top) ==> (Allowed(s, Exit(busy)) <==> AllReportLive(t, top, busy)))
  {
    hide Inv, PopContract, PendingPins, AllReportLive, NothingGivenUp, Reachable, Allowed;
    ReachableOk(s);
    var t, top := s.(scopes := s.scopes[..|s.scopes| - 1]), s.scopes[|s.scopes| - 1];
    PopPending(s);
    PendingOf(top);
    if PopContract(t, top, busy) {
      LiveAtTheStart(t, top, busy, Unpins(top));
    }
    if NothingGivenUp(t, top) && AllReportLive(t, top, busy) {
      QuietPop(t, top, busy, Unpins(top));
    }
    ExitAllowed(s, busy);
  }

  lemma ExitAllowed(s: State, busy: bool)
    requires s.scopes != []
    ensures Allowed(s, Exit(busy))
       <==> PopContract(s.(scopes := s.scopes[..|s.scopes| - 1]), s.scopes[|s.scopes| - 1], busy)
  {
  }
}
