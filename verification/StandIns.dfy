/** A struct that reports a dead `VALUE` lists an address the table does not own. What
    follows is compared with a run in which every such address has a stand-in handle:
    that one keeps the whole invariant, and the two differ in the stand-ins only. */
module StandIns {
  import opened Confluence
  import opened HandleState
  import opened HandleInvariant
  import opened HandleOps
  import opened ReleaseKeeps
  import opened Frames

  // ---- stand-ins -------------------------------------------------------------------------

  const STAND_IN := Entry(Boxed(0), 0, Q_NIL, 1)

  /** A handle for each of the words `dead`, pinned for ever. */
  ghost function StandIn(s: State, dead: set<Word>): State {
    s.(entries := s.entries + (map x | x in dead :: STAND_IN), forever := s.forever + multiset(dead))
  }

  predicate StandsIn(dead: set<Word>, a: Word, e: Entry) {
    a in dead && e.value.Boxed? && e.identity == 0
  }

  function RealEntries(t: Table, dead: set<Word>): Table {
    map a | a in t && !StandsIn(dead, a, t[a]) :: t[a]
  }

  /** The state without the stand-ins. */
  function Real(u: State, dead: set<Word>, forever: multiset<Word>): State {
    u.(entries := RealEntries(u.entries, dead), forever := forever)
  }

  lemma MoreStandIns(u: State, dead: set<Word>, more: set<Word>, forever: multiset<Word>)
    requires more !! u.entries.Keys
    ensures Real(StandIn(u, more), dead + more, forever) == Real(u, dead, forever)
  {
    assert RealEntries(StandIn(u, more).entries, dead + more) == RealEntries(u.entries, dead);
  }

  lemma StandInTable(ids: map<Word, Word>, t: Table, u: Table, h: Heap, immortal: multiset<Word>, dead: set<Word>)
    requires TableOk(ids, t) && NamesOk(t, h) && ClassesOk(t, immortal) && KlassOk(t, h)
    requires dead !! t.Keys && u == t + (map x | x in dead :: STAND_IN)
    requires forall x :: x in dead ==> !SpecialConst(x)
    ensures TableOk(ids, u) && NamesOk(u, h) && ClassesOk(u, immortal) && KlassOk(u, h)
  {
    forall a | a in u ensures EntryOk(ids, a, u[a]) {
      if a in t {
        assert EntryOk(ids, a, t[a]);
      }
    }
    forall k | k in ids ensures KeyOk(ids[k], u, k) {
      assert KeyOk(ids[k], t, k);
    }
    forall a | a in u ensures KlassNames(u, h, u[a]) {
      if a in t {
        assert KlassNames(t, h, t[a]);
      }
    }
  }

  lemma StandInPins(t: Table, u: Table, owed: multiset<Word>, dead: set<Word>)
    requires PinsOk(t, owed) && dead !! t.Keys && u == t + (map x | x in dead :: STAND_IN)
    requires forall x :: x in dead ==> !SpecialConst(x)
    ensures PinsOk(u, owed + multiset(dead))
  {
    forall a | a in u ensures u[a].pins == (owed + multiset(dead))[a] >= 1 {
      if a in dead {
        assert a !in owed;
      }
    }
  }

  lemma StandInSums(s: State, dead: set<Word>)
    ensures Holders(StandIn(s, dead)) == Holders(s) + multiset(dead)
    ensures Owners(StandIn(s, dead)) == Owners(s)
  {
  }

  /** With stand-ins the invariant holds as it did without. */
  lemma StandInKeeps(s: State, dead: set<Word>, ws: seq<Work>)
    requires Inv(s, ws) && dead !! s.entries.Keys && forall x :: x in dead ==> !SpecialConst(x)
    ensures Inv(StandIn(s, dead), ws)
  {
    hide TableOk, NamesOk, ClassesOk, KlassOk, SerialsOk, ListsOk, PointersOk, PinsOk, RefsOk, Holders, Owners;
    var u := StandIn(s, dead);
    StandInTable(s.byIdentity, s.entries, u.entries, s.heap, s.immortal, dead);
    StandInPins(s.entries, u.entries, Holders(s) + PendingPins(ws), dead);
    StandInSums(s, dead);
    assert Holders(s) + PendingPins(ws) + multiset(dead) == Holders(s) + multiset(dead) + PendingPins(ws);
  }

  // ---- the two pops side by side ------------------------------------------------------------

  lemma RealAt(t: Table, dead: set<Word>, a: Word)
    ensures a in RealEntries(t, dead) <==> a in t && !StandsIn(dead, a, t[a])
    ensures a in RealEntries(t, dead) ==> RealEntries(t, dead)[a] == t[a]
    ensures RealEntries(t - {a}, dead) == RealEntries(t, dead) - {a}
  {
  }

  lemma RealRecount(t: Table, dead: set<Word>, a: Word, n: nat)
    requires a in t
    ensures RealEntries(t[a := t[a].(pins := n)], dead)
         == if StandsIn(dead, a, t[a]) then RealEntries(t, dead) else RealEntries(t, dead)[a := t[a].(pins := n)]
  {
  }

  lemma UnpinBeside(u: State, dead: set<Word>, forever: multiset<Word>, a: Word)
    ensures FireUnpin(Real(u, dead, forever), a) == (Real(FireUnpin(u, a).0, dead, forever), FireUnpin(u, a).1)
  {
    hide RealEntries;
    RealAt(u.entries, dead, a);
    var t := RealEntries(u.entries, dead);
    assert a !in t ==> t - {a} == t;
    if a in u.entries && u.entries[a].pins > 1 {
      RealRecount(u.entries, dead, a, u.entries[a].pins - 1);
    }
  }

  lemma FireBeside(u: State, dead: set<Word>, forever: multiset<Word>, w: Work)
    ensures Fire(Real(u, dead, forever), w) == (Real(Fire(u, w).0, dead, forever), Fire(u, w).1)
  {
    hide RealEntries, FireUnpin, Listed, Held, Pointer;
    if w.Unpin? {
      UnpinBeside(u, dead, forever, w.addr);
    }
  }

  lemma SettleBeside(u: State, dead: set<Word>, forever: multiset<Word>, ws: seq<Work>)
    ensures Settle(Real(u, dead, forever), ws) == Real(Settle(u, ws), dead, forever)
  {
    var f := (t: State) => Real(t, dead, forever);
    forall s, w ensures Beside(Fire, f, s, w) {
      FireBeside(s, dead, forever, w);
    }
    Shrinking();
    NestedBeside(Fire, Size, f, u, ws);
  }

  lemma {:induction false} PinEntriesBeside(t: Table, dead: set<Word>, l: seq<Word>)
    ensures PinEntries(RealEntries(t, dead), l) == RealEntries(PinEntries(t, l), dead)
    decreases |l|
  {
    if l != [] {
      assert PinEntry(RealEntries(t, dead), l[0]) == RealEntries(PinEntry(t, l[0]), dead);
      PinEntriesBeside(PinEntry(t, l[0]), dead, l[1..]);
    }
  }

  lemma RefreshBeside(u: State, dead: set<Word>, forever: multiset<Word>, p: Word, busy: bool)
    ensures Refresh(Real(u, dead, forever), p, busy) == Real(Refresh(u, p, busy), dead, forever)
  {
    if p in u.heap && Refreshes(u.heap[p].body, busy) {
      var b := u.heap[p].body;
      AddEdgesExtends(b.reports, b.marked);
      PinEntriesBeside(u.entries, dead, AddEdges(b.reports, b.marked)[|b.marked|..]);
      hide PinEntries, RealEntries, AddEdges, Among, NotAmong, Settle;
      assert Repin(Real(u, dead, forever), p) == Real(Repin(u, p), dead, forever);
      SettleBeside(Repin(u, p), dead, forever, Unpins(Stale(b)));
    }
  }

  // ---- back from the stand-ins ----------------------------------------------------------------

  /** `s` is `u` without its stand-ins, one for each of `dead`, and `u` keeps the invariant. */
  ghost predicate Shadows(s: State, u: State, dead: set<Word>, ws: seq<Work>) {
    s == Real(u, dead, s.forever) && Inv(u, ws) && StandInsOk(s, u, dead)
  }

  ghost predicate StandInsOk(s: State, u: State, dead: set<Word>) {
    && u.forever == s.forever + multiset(dead)
    && forall x :: x in dead ==> !SpecialConst(x) && x in u.entries && StandsIn(dead, x, u.entries[x])
  }

  lemma ShadowOfItself(s: State, ws: seq<Work>)
    requires Inv(s, ws)
    ensures Shadows(s, s, {}, ws)
  {
    hide Inv;
    assert RealEntries(s.entries, {}) == s.entries;
    assert s.forever + multiset({}) == s.forever;
  }

  /** Releases and refreshes leave the stand-ins where they are. */
  lemma StandInsStay(s: State, u: State, t: State, v: State, dead: set<Word>, ws: seq<Work>)
    requires StandInsOk(s, u, dead) && Inv(v, ws) && FewerHandles(u.entries, v.entries)
    requires t.forever == s.forever && v.forever == u.forever
    ensures StandInsOk(t, v, dead)
  {
    forall x | x in dead ensures x in v.entries {
      assert x in multiset(dead) && x in v.forever;
      assert x in Holders(v) + PendingPins(ws);
    }
  }

  lemma ShadowSettles(s: State, u: State, dead: set<Word>, ws: seq<Work>, rest: seq<Work>)
    requires Shadows(s, u, dead, ws + rest)
    ensures Shadows(Settle(s, ws), Settle(u, ws), dead, rest)
  {
    hide Inv, RealEntries, Settle, StandInsOk;
    SettleBeside(u, dead, s.forever, ws);
    SettleKeeps(u, ws, rest);
    SettleReleases(u, ws);
    SettleReleases(s, ws);
    StandInsStay(s, u, Settle(s, ws), Settle(u, ws), dead, rest);
  }

  lemma RealTable(ids: map<Word, Word>, t: Table, h: Heap, immortal: multiset<Word>, dead: set<Word>)
    requires TableOk(ids, t) && NamesOk(t, h) && ClassesOk(t, immortal) && KlassOk(t, h)
    ensures var u := RealEntries(t, dead); TableOk(ids, u) && NamesOk(u, h) && ClassesOk(u, immortal) && KlassOk(u, h)
  {
    var u := RealEntries(t, dead);
    forall a | a in u ensures EntryOk(ids, a, u[a]) && KlassNames(u, h, u[a]) {
      assert EntryOk(ids, a, t[a]) && KlassNames(t, h, t[a]);
    }
    forall k | k in ids ensures KeyOk(ids[k], u, k) {
      assert KeyOk(ids[k], t, k);
    }
  }

  lemma RealPins(t: Table, owed: multiset<Word>, dead: set<Word>)
    requires PinsOk(t, owed + multiset(dead)) && forall x :: x in dead ==> x in t && StandsIn(dead, x, t[x]) && x !in owed
    ensures PinsOk(RealEntries(t, dead), owed)
  {
    var u := RealEntries(t, dead);
    forall a | a in u ensures u[a].pins == owed[a] >= 1 {
      assert a !in dead;
      assert (owed + multiset(dead))[a] == owed[a];
    }
    forall a | a in owed ensures SpecialConst(a) || a in u {
      assert a in owed + multiset(dead);
    }
  }

  lemma RealSums(u: State, dead: set<Word>, forever: multiset<Word>)
    requires u.forever == forever + multiset(dead)
    ensures Holders(u) == Holders(Real(u, dead, forever)) + multiset(dead)
    ensures Owners(u) == Owners(Real(u, dead, forever))
  {
  }

  /** Once nobody lists a stood-in word the stand-ins are not needed. */
  lemma NoStandInNeeded(s: State, u: State, dead: set<Word>, ws: seq<Work>)
    requires Shadows(s, u, dead, ws) && forall x :: x in dead ==> x !in Holders(s) + PendingPins(ws)
    ensures Inv(s, ws)
  {
    hide TableOk, NamesOk, ClassesOk, KlassOk, SerialsOk, ListsOk, PointersOk, PinsOk, RefsOk, Holders, Owners, RealEntries;
    RealTable(u.byIdentity, u.entries, u.heap, u.immortal, dead);
    RealSums(u, dead, s.forever);
    var owed := Holders(s) + PendingPins(ws);
    assert Holders(u) + PendingPins(ws) == owed + multiset(dead);
    RealPins(u.entries, owed, dead);
  }
}
