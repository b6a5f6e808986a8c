/** Every single release, and so every cascade, keeps the table's invariant. */
module ReleaseKeeps {
  import opened Confluence
  import opened HandleState
  import opened HandleInvariant

  // ---- the parts, one edit at a time ----------------------------------------

  /** Counts and flags of one handle change, and not what it stands for. */
  lemma TableRecount(ids: map<Word, Word>, t: Table, h: Heap, a: Word, n: nat)
    requires TableOk(ids, t) && NamesOk(t, h) && KlassOk(t, h) && a in t
    ensures var u := t[a := t[a].(pins := n)]; TableOk(ids, u) && NamesOk(u, h) && KlassOk(u, h)
  {
  }

  lemma TableRemove(ids: map<Word, Word>, t: Table, a: Word)
    requires TableOk(ids, t) && a in t
    ensures var key := t[a].identity;
            TableOk(if key != 0 then ids - {key} else ids, t - {a})
  {
    var key := t[a].identity;
    var ids', u := if key != 0 then ids - {key} else ids, t - {a};
    assert EntryOk(ids, a, t[a]);
    forall b | b in u ensures EntryOk(ids', b, u[b]) {
      assert EntryOk(ids, b, t[b]);
    }
    forall k | k in ids' ensures KeyOk(ids'[k], u, k) {
      assert KeyOk(ids[k], t, k);
    }
  }

  lemma PinsDown(t: Table, owed: multiset<Word>, a: Word)
    requires PinsOk(t, owed) && a in owed
    requires a in t ==> t[a].pins > 1
    ensures PinsOk(if a in t then t[a := t[a].(pins := t[a].pins - 1)] else t, owed - multiset{a})
  {
  }

  lemma PinsOut(t: Table, owed: multiset<Word>, a: Word)
    requires PinsOk(t, owed) && a in t && t[a].pins == 1
    ensures PinsOk(t - {a}, owed - multiset{a})
  {
  }

  /** The handle's own reference becomes a pending one. */
  lemma RefsHandleGone(h: Heap, ids: map<Word, Word>, owed: multiset<Word>, p: Word)
    requires RefsOk(h, ids, owed) && p in ids && p in h
    ensures RefsOk(h, ids - {p}, owed + multiset{p})
  {
  }

  lemma RefsOtherKey(h: Heap, ids: map<Word, Word>, owed: multiset<Word>, k: Word)
    requires RefsOk(h, ids, owed) && k !in h
    ensures RefsOk(h, ids - {k}, owed)
  {
  }

  lemma RefsDown(h: Heap, ids: map<Word, Word>, owed: multiset<Word>, p: Word)
    requires RefsOk(h, ids, owed) && p in owed && h[p].refs > 1
    ensures RefsOk(h[p := h[p].(refs := h[p].refs - 1)], ids, owed - multiset{p})
  {
  }

  lemma RefsOut(h: Heap, ids: map<Word, Word>, owed: multiset<Word>, p: Word)
    requires RefsOk(h, ids, owed) && p in owed && h[p].refs == 1
    ensures RefsOk(h - {p}, ids, owed - multiset{p})
    ensures p !in ids
  {
  }

  // ---- a pin released ---------------------------------------------------------

  lemma ClassesRecount(t: Table, immortal: multiset<Word>, a: Word, n: nat)
    requires ClassesOk(t, immortal) && a in t
    ensures ClassesOk(t[a := t[a].(pins := n)], immortal)
  {
  }

  lemma HandleGone(t: Table, h: Heap, immortal: multiset<Word>, a: Word)
    requires NamesOk(t, h) && KlassOk(t, h) && ClassesOk(t, immortal) && a in t && a !in immortal
    ensures NamesOk(t - {a}, h) && KlassOk(t - {a}, h) && ClassesOk(t - {a}, immortal)
  {
  }

  lemma PendingSplit(w: Work, rest: seq<Work>)
    ensures PendingPins([w] + rest) == (if w.Unpin? then multiset{w.addr} else multiset{}) + PendingPins(rest)
    ensures PendingRefs([w] + rest) == (if w.DropRef? then multiset{w.payload} else multiset{}) + PendingRefs(rest)
  {
    assert ([w] + rest)[1..] == rest;
  }

  lemma UnpinSomeKeeps(s: State, a: Word, rest: seq<Work>)
    requires Inv(s, [Unpin(a)] + rest)
    requires a in s.entries ==> s.entries[a].pins > 1
    ensures FireUnpin(s, a).1 == [] && Inv(FireUnpin(s, a).0, rest)
  {
    PendingSplit(Unpin(a), rest);
    var owed := Holders(s) + PendingPins([Unpin(a)] + rest);
    PinsDown(s.entries, owed, a);
    assert owed - multiset{a} == Holders(s) + PendingPins(rest);
    if a in s.entries {
      var n := s.entries[a].pins - 1;
      TableRecount(s.byIdentity, s.entries, s.heap, a, n);
      ClassesRecount(s.entries, s.immortal, a, n);
      assert Holders(FireUnpin(s, a).0) == Holders(s);
      assert Owners(FireUnpin(s, a).0) == Owners(s);
    }
  }

  lemma UnpinLastPins(t: Table, immortal: multiset<Word>, owed: multiset<Word>, a: Word)
    requires PinsOk(t, owed + multiset{a}) && a in t && t[a].pins == 1 && immortal <= owed
    ensures PinsOk(t - {a}, owed) && a !in immortal
  {
    assert (owed + multiset{a})[a] == owed[a] + 1;
    PinsOut(t, owed + multiset{a}, a);
    assert owed + multiset{a} - multiset{a} == owed;
  }

  lemma UnpinLastRefs(ids: map<Word, Word>, t: Table, h: Heap, next: nat, owed: multiset<Word>, a: Word)
    requires TableOk(ids, t) && NamesOk(t, h) && SerialsOk(h, next) && RefsOk(h, ids, owed) && a in t
    ensures var e := t[a];
            RefsOk(h, if e.identity != 0 then ids - {e.identity} else ids,
                   if e.value.Heap? then owed + multiset{e.value.payload} else owed)
  {
    var e := t[a];
    assert EntryOk(ids, a, e) && Names(h, e.value);
    if e.value.Heap? {
      RefsHandleGone(h, ids, owed, e.value.payload);
    } else {
      RefsOtherKey(h, ids, owed, e.identity);
    }
  }

  lemma UnpinLastPinsBalance(s: State, a: Word, rest: seq<Work>)
    requires PinsBalance(s, [Unpin(a)] + rest) && a in s.entries && s.entries[a].pins == 1
    ensures PinsBalance(FireUnpin(s, a).0, FireUnpin(s, a).1 + rest) && a !in s.immortal
  {
    PendingSplit(Unpin(a), rest);
    UnpinAsks(s.entries[a].value, rest);
    var owed := Holders(s) + PendingPins(rest);
    assert Holders(s) + PendingPins([Unpin(a)] + rest) == owed + multiset{a};
    UnpinLastPins(s.entries, s.immortal, owed, a);
    assert Holders(FireUnpin(s, a).0) == Holders(s);
  }

  lemma UnpinKeepsOwners(s: State, a: Word)
    ensures Owners(FireUnpin(s, a).0) == Owners(s)
  {
  }

  lemma UnpinLastRefsBalance(s: State, a: Word, rest: seq<Work>)
    requires TableOk(s.byIdentity, s.entries) && NamesOk(s.entries, s.heap) && SerialsOk(s.heap, s.nextSerial)
    requires RefsBalance(s, [Unpin(a)] + rest) && a in s.entries && s.entries[a].pins == 1
    ensures RefsBalance(FireUnpin(s, a).0, FireUnpin(s, a).1 + rest)
  {
    hide TableOk, NamesOk, SerialsOk, RefsOk, Owners, PendingRefs;
    var v := s.entries[a].value;
    PendingSplit(Unpin(a), rest);
    assert multiset{} + PendingRefs(rest) == PendingRefs(rest);
    UnpinAsks(v, rest);
    assert Owners(FireUnpin(s, a).0) == Owners(s) by {
      UnpinKeepsOwners(s, a);
    }
    UnpinLastRefs(s.byIdentity, s.entries, s.heap, s.nextSerial, Owners(s) + PendingRefs(rest), a);
    if v.Heap? {
      var one := multiset{v.payload};
      assert Owners(s) + PendingRefs(rest) + one == Owners(s) + (one + PendingRefs(rest));
    }
  }

  lemma UnpinLastKeeps(s: State, a: Word, rest: seq<Work>)
    requires Inv(s, [Unpin(a)] + rest) && a in s.entries && s.entries[a].pins == 1
    ensures Inv(FireUnpin(s, a).0, FireUnpin(s, a).1 + rest)
  {
    UnpinLastPinsBalance(s, a, rest);
    UnpinLastRefsBalance(s, a, rest);
    TableRemove(s.byIdentity, s.entries, a);
    HandleGone(s.entries, s.heap, s.immortal, a);
  }

  lemma UnpinAsks(v: RubyValue, rest: seq<Work>)
    ensures PendingPins(ValueRefs(v) + rest) == PendingPins(rest)
    ensures PendingRefs(ValueRefs(v) + rest)
         == if v.Heap? then multiset{v.payload} + PendingRefs(rest) else PendingRefs(rest)
  {
    if v.Heap? {
      PendingSplit(DropRef(v.payload), rest);
    } else {
      assert ValueRefs(v) + rest == rest;
    }
  }

  // ---- a reference released ---------------------------------------------------

  lemma HeapRecount(t: Table, h: Heap, next: nat, p: Word, n: nat)
    requires NamesOk(t, h) && SerialsOk(h, next) && ListsOk(h) && KlassOk(t, h) && p in h
    ensures var g := h[p := h[p].(refs := n)];
            NamesOk(t, g) && SerialsOk(g, next) && ListsOk(g) && KlassOk(t, g)
  {
  }

  lemma DropTarget(s: State, p: Word, rest: seq<Work>)
    requires RefsOk(s.heap, s.byIdentity, Owners(s) + PendingRefs([DropRef(p)] + rest))
    ensures p in s.heap && s.heap[p].refs >= 1
  {
    PendingSplit(DropRef(p), rest);
    assert p in Owners(s) + PendingRefs([DropRef(p)] + rest);
  }

  lemma DropSomeSums(s: State, p: Word)
    requires p in s.heap && s.heap[p].refs > 1
    ensures var t := FireDrop(s, p).0;
            Holders(t) == Holders(s) && Owners(t) == Owners(s) && LivePointers(t.heap) == LivePointers(s.heap)
  {
    HeapSameBody(s.heap, p, s.heap[p].(refs := s.heap[p].refs - 1));
  }

  lemma DropSomeShape(s: State, p: Word)
    requires ShapeOk(s) && p in s.heap && s.heap[p].refs > 1
    ensures ShapeOk(FireDrop(s, p).0)
  {
    hide TableOk, NamesOk, SerialsOk, ListsOk, ClassesOk, KlassOk;
    HeapRecount(s.entries, s.heap, s.nextSerial, p, s.heap[p].refs - 1);
    DropSomeSums(s, p);
  }

  lemma DropSomeRefs(s: State, p: Word, rest: seq<Work>)
    requires RefsBalance(s, [DropRef(p)] + rest) && p in s.heap && s.heap[p].refs > 1
    ensures RefsBalance(FireDrop(s, p).0, rest)
  {
    hide RefsOk;
    DropOwed(Owners(s), p, rest);
    RefsDown(s.heap, s.byIdentity, Owners(s) + PendingRefs([DropRef(p)] + rest), p);
    DropSomeSums(s, p);
  }

  lemma DropSomeKeeps(s: State, p: Word, rest: seq<Work>)
    requires Inv(s, [DropRef(p)] + rest) && p in s.heap && s.heap[p].refs > 1
    ensures Inv(FireDrop(s, p).0, rest)
  {
    hide ShapeOk, RefsBalance, PinsOk, Holders;
    PendingSplit(DropRef(p), rest);
    DropSomeShape(s, p);
    DropSomeRefs(s, p, rest);
    DropSomeSums(s, p);
    assert PendingPins([DropRef(p)] + rest) == PendingPins(rest);
  }

  lemma DropOwed(owners: multiset<Word>, p: Word, rest: seq<Work>)
    ensures p in owners + PendingRefs([DropRef(p)] + rest)
    ensures (owners + PendingRefs([DropRef(p)] + rest)) - multiset{p} == owners + PendingRefs(rest)
  {
    PendingSplit(DropRef(p), rest);
  }

  lemma ObjectGone(ids: map<Word, Word>, t: Table, h: Heap, next: nat, p: Word)
    requires TableOk(ids, t) && NamesOk(t, h) && SerialsOk(h, next) && ListsOk(h) && KlassOk(t, h)
    requires p in h && p !in ids
    ensures var g := h - {p}; NamesOk(t, g) && SerialsOk(g, next) && ListsOk(g) && KlassOk(t, g)
  {
    forall a | a in t ensures Names(h - {p}, t[a].value) {
      assert EntryOk(ids, a, t[a]);
    }
  }

  /** What a dying object lists moves, count for count, to the pending releases. */
  lemma DropLastOwed(s: State, p: Word, rest: seq<Work>)
    requires p in s.heap && s.heap[p].refs == 1
    ensures var t, next := FireDrop(s, p).0, FireDrop(s, p).1 + rest;
            && Holders(t) + PendingPins(next) == Holders(s) + PendingPins(rest)
            && Owners(t) + PendingRefs(next) == Owners(s) + PendingRefs(rest)
            && (PointersOk(s.heap, s.wraps, s.dropped) ==> PointersOk(t.heap, t.wraps, t.dropped))
  {
    var o, t := s.heap[p], FireDrop(s, p).0;
    HeapRemove(s.heap, p);
    DropAsks(o.body, rest);
    Regroup(ScopePins(s.scopes) + s.forever + s.immortal, CDataPins(t.heap), PinsOf(o), PendingPins(rest));
    Regroup(s.roots, HeldRefs(t.heap), RefsOf(o), PendingRefs(rest));
    assert LivePointers(t.heap) + (s.dropped + PointerOf(o)) == (LivePointers(t.heap) + PointerOf(o)) + s.dropped;
  }

  lemma Regroup<T>(x: multiset<T>, c: multiset<T>, l: multiset<T>, r: multiset<T>)
    ensures (x + c) + (l + r) == (x + (c + l)) + r
  {
  }

  lemma DropLastBalance(s: State, p: Word, rest: seq<Work>)
    requires PinsBalance(s, [DropRef(p)] + rest) && RefsBalance(s, [DropRef(p)] + rest)
    requires p in s.heap && s.heap[p].refs == 1
    ensures PinsBalance(FireDrop(s, p).0, FireDrop(s, p).1 + rest)
    ensures RefsBalance(FireDrop(s, p).0, FireDrop(s, p).1 + rest) && p !in s.byIdentity
  {
    PendingSplit(DropRef(p), rest);
    assert multiset{} + PendingPins(rest) == PendingPins(rest);
    DropOwed(Owners(s), p, rest);
    RefsOut(s.heap, s.byIdentity, Owners(s) + PendingRefs([DropRef(p)] + rest), p);
    DropLastOwed(s, p, rest);
  }

  lemma DropLastKeeps(s: State, p: Word, rest: seq<Work>)
    requires Inv(s, [DropRef(p)] + rest) && p in s.heap && s.heap[p].refs == 1
    ensures Inv(FireDrop(s, p).0, FireDrop(s, p).1 + rest)
  {
    DropLastBalance(s, p, rest);
    DropLastOwed(s, p, rest);
    ObjectGone(s.byIdentity, s.entries, s.heap, s.nextSerial, p);
  }

  lemma DropAsks(b: Body, rest: seq<Work>)
    ensures PendingPins(Unpins(Listed(b)) + Drops(Held(b)) + rest) == multiset(Listed(b)) + PendingPins(rest)
    ensures PendingRefs(Unpins(Listed(b)) + Drops(Held(b)) + rest) == multiset(Held(b)) + PendingRefs(rest)
  {
    PendingAppend(Unpins(Listed(b)), Drops(Held(b)));
    PendingAppend(Unpins(Listed(b)) + Drops(Held(b)), rest);
    PendingOf(Listed(b));
    PendingOf(Held(b));
  }

  // ---- the cascade ------------------------------------------------------------

  lemma FireKeeps(s: State, w: Work, rest: seq<Work>)
    requires Inv(s, [w] + rest)
    ensures Inv(Fire(s, w).0, Fire(s, w).1 + rest)
  {
    assert [] + rest == rest;
    match w {
      case Unpin(a) =>
        if a in s.entries && s.entries[a].pins == 1 {
          UnpinLastKeeps(s, a, rest);
        } else {
          UnpinSomeKeeps(s, a, rest);
        }
      case DropRef(p) =>
        DropTarget(s, p, rest);
        if s.heap[p].refs == 1 {
          DropLastKeeps(s, p, rest);
        } else {
          DropSomeKeeps(s, p, rest);
        }
    }
  }

  /** A cascade run to its end keeps the invariant, with whatever its caller still owes. */
  lemma SettleKeeps(s: State, ws: seq<Work>, rest: seq<Work>)
    requires Inv(s, ws + rest)
    ensures Inv(Settle(s, ws), rest)
  {
    forall s, w, rest ensures Preserves(Fire, Inv, s, w, rest) {
      if Inv(s, [w] + rest) {
        FireKeeps(s, w, rest);
      }
    }
    Shrinking();
    NestedKeeps(Fire, Size, Inv, s, ws, rest);
  }
}
