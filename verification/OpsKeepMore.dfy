/** Scopes, the write barrier and the Ruby side keep the invariant. */
module OpsKeepMore {
  import opened Sums
  import opened HandleState
  import opened HandleInvariant
  import opened HandleOps
  import opened ReleaseKeeps
  import opened OpsKeep

  // ---- scopes and process-long pins ------------------------------------------

  /** One more pin on `a` and one more holder of it, or a word with no handle at all. */
  lemma PinRawKeeps(s: State, end: State, a: Word, ws: seq<Work>)
    requires Inv(s, ws) && Live(s, a)
    requires end == PinRaw(s, a).(scopes := end.scopes, forever := end.forever)
    requires Holders(end) == Holders(s) + multiset{a}
    ensures Inv(end, ws)
  {
    hide TableOk, NamesOk, SerialsOk, ListsOk, KlassOk, ClassesOk, PinsOk, RefsOk, PointersOk, Holders;
    hide PendingPins, PendingRefs, HeldRefs, CDataPins, SumOver, Total, SpecialConst;
    PinRawShape(s, a);
    PinUp(s.entries, Holders(s) + PendingPins(ws), a);
    RecordedBalance(PinRaw(s, a), end, Holders(s), a, ws);
  }

  lemma ScopePinsParent(ss: seq<seq<Word>>, a: Word)
    requires |ss| >= 2
    ensures ScopePins(ss[|ss| - 2 := ss[|ss| - 2] + [a]]) == ScopePins(ss) + multiset{a}
  {
    var top := |ss| - 1;
    var tt := ss[top - 1 := ss[top - 1] + [a]];
    assert tt[..top] == ss[..top][top - 1 := ss[..top][top - 1] + [a]];
    ScopePinsTop(ss[..top], a);
    assert ScopePins(tt) == ScopePins(tt[..top]) + multiset(ss[top]);
  }

  lemma KeepKeeps(s: State, a: Word, ws: seq<Work>)
    requires Inv(s, ws) && Live(s, a)
    ensures Inv(Keep(s, a), ws)
  {
    hide Inv;
    if |s.scopes| >= 2 {
      ScopePinsParent(s.scopes, a);
      OneMore(ScopePins(s.scopes), s.forever, s.immortal, CDataPins(s.heap), multiset{a});
      PinRawKeeps(s, Keep(s, a), a, ws);
    }
  }

  lemma PinForeverKeeps(s: State, a: Word, ws: seq<Work>)
    requires Inv(s, ws)
    ensures Inv(PinForever(s, a), ws)
  {
    hide Inv;
    if !SpecialConst(a) && a in s.entries {
      OneMore(ScopePins(s.scopes), s.forever, s.immortal, CDataPins(s.heap), multiset{a});
      PinRawKeeps(s, PinForever(s, a), a, ws);
    }
  }

  lemma ScopeEnterKeeps(s: State)
    requires Inv(s, [])
    ensures Inv(ScopeEnter(s), [])
  {
    var ss := ScopeEnter(s).scopes;
    assert ss[..|ss| - 1] == s.scopes;
    assert ScopePins(ss) == ScopePins(s.scopes);
    assert Holders(ScopeEnter(s)) == Holders(s);
  }

  // ---- an object's fields -------------------------------------------------------

  lemma BodyEditShape(t: Table, h: Heap, next: nat, p: Word, b: Body)
    requires NamesOk(t, h) && SerialsOk(h, next) && ListsOk(h) && KlassOk(t, h) && p in h && BodyOk(b)
    ensures var g := h[p := h[p].(body := b)];
            NamesOk(t, g) && SerialsOk(g, next) && ListsOk(g) && KlassOk(t, g)
  {
  }

  lemma SetBodyShape(s: State, p: Word, b: Body)
    requires ShapeOk(s) && p in s.heap && BodyOk(b) && Pointer(b) == Pointer(s.heap[p].body)
    ensures ShapeOk(SetBody(s, p, b))
  {
    hide TableOk, NamesOk, SerialsOk, ListsOk, KlassOk, ClassesOk, CDataPins, HeldRefs;
    BodyEditShape(s.entries, s.heap, s.nextSerial, p, b);
    var o := s.heap[p].(body := b);
    HeapEdit(s.heap, p, o);
    CancelRight(LivePointers(s.heap[p := o]), LivePointers(s.heap), Pointer(b));
  }

  lemma CancelRight<T>(x: multiset<T>, y: multiset<T>, z: multiset<T>)
    requires x + z == y + z
    ensures x == y
  {
    assert x == (x + z) - z && y == (y + z) - z;
  }

  /** The counts are the same objects', so only the sums of what bodies list move. */
  lemma SetBodyRefs(h: Heap, ids: map<Word, Word>, owed: multiset<Word>, p: Word, b: Body)
    requires RefsOk(h, ids, owed) && p in h
    ensures RefsOk(h[p := h[p].(body := b)], ids, owed)
  {
  }

  lemma SetBodySums(s: State, p: Word, b: Body)
    requires p in s.heap
    ensures Holders(SetBody(s, p, b)) + multiset(Listed(s.heap[p].body)) == Holders(s) + multiset(Listed(b))
    ensures Owners(SetBody(s, p, b)) + multiset(Held(s.heap[p].body)) == Owners(s) + multiset(Held(b))
  {
    hide CDataPins, HeldRefs, LivePointers;
    var o := s.heap[p].(body := b);
    HeapEdit(s.heap, p, o);
    Trade(ScopePins(s.scopes) + s.forever + s.immortal, CDataPins(s.heap[p := o]), PinsOf(s.heap[p]), CDataPins(s.heap), PinsOf(o));
    Trade(s.roots, HeldRefs(s.heap[p := o]), RefsOf(s.heap[p]), HeldRefs(s.heap), RefsOf(o));
  }

  lemma Trade<T>(x: multiset<T>, c: multiset<T>, l: multiset<T>, d: multiset<T>, m: multiset<T>)
    requires c + l == d + m
    ensures (x + c) + l == (x + d) + m
  {
    assert (x + c) + l == x + (c + l);
    assert (x + d) + m == x + (d + m);
  }

  // ---- the write barrier ---------------------------------------------------------

  lemma ListGrows(l: seq<Word>, a: Word)
    requires ListOk(l) && a !in l && !SpecialConst(a)
    ensures ListOk(l + [a])
  {
  }

  lemma RetainListed(b: Body, young: Word)
    requires b.CStruct?
    ensures multiset(Listed(b.(retained := b.retained + [young]))) == multiset{young} + multiset(Listed(b))
  {
    assert Listed(b.(retained := b.retained + [young])) == b.retained + [young] + b.marked;
  }

  lemma RetainSums(s: State, p: Word, b: Body, young: Word)
    requires p in s.heap && s.heap[p].body.CStruct? && s.heap[p].body == b
    ensures Holders(SetBody(s, p, b.(retained := b.retained + [young]))) == Holders(s) + multiset{young}
    ensures Owners(SetBody(s, p, b.(retained := b.retained + [young]))) == Owners(s)
  {
    hide Holders, Owners;
    var c := b.(retained := b.retained + [young]);
    SetBodySums(s, p, c);
    RetainListed(b, young);
    hide Listed;
    assert Holders(s) + (multiset{young} + multiset(Listed(b))) == (Holders(s) + multiset{young}) + multiset(Listed(b));
    CancelRight(Holders(SetBody(s, p, c)), Holders(s) + multiset{young}, multiset(Listed(b)));
    CancelRight(Owners(SetBody(s, p, c)), Owners(s), multiset(Held(b)));
  }

  lemma RetainShape(s: State, p: Word, young: Word)
    requires ShapeOk(s) && IsCData(s, p) && !SpecialConst(young) && young !in s.heap[p].body.retained
    ensures var b := s.heap[p].body;
            ShapeOk(SetBody(PinRaw(s, young), p, b.(retained := b.retained + [young])))
  {
    var b := s.heap[p].body;
    assert BodyOk(b.(retained := b.retained + [young])) by {
      assert BodyOk(b);
      ListGrows(b.retained, young);
    }
    hide ShapeOk, BodyOk;
    PinRawShape(s, young);
    SetBodyShape(PinRaw(s, young), p, b.(retained := b.retained + [young]));
  }

  lemma RetainKeeps(s: State, p: Word, young: Word, ws: seq<Work>)
    requires Inv(s, ws) && IsCData(s, p) && young in s.entries && !SpecialConst(young)
    requires young !in s.heap[p].body.retained
    ensures var b := s.heap[p].body;
            Inv(SetBody(PinRaw(s, young), p, b.(retained := b.retained + [young])), ws)
  {
    hide ShapeOk, PinsOk, RefsOk, Holders, Owners, PendingPins, PendingRefs, SpecialConst, NoDup, PinEntry;
    var b := s.heap[p].body;
    var t := PinRaw(s, young);
    var end := SetBody(t, p, b.(retained := b.retained + [young]));
    RetainShape(s, p, young);
    PinUp(s.entries, Holders(s) + PendingPins(ws), young);
    RetainSums(t, p, b, young);
    PinRawSums(s, young);
    RecordedBalance(t, end, Holders(s), young, ws);
    SetBodyRefs(s.heap, s.byIdentity, Owners(s) + PendingRefs(ws), p, b.(retained := b.retained + [young]));
  }

  lemma PinRawSums(s: State, a: Word)
    ensures Holders(PinRaw(s, a)) == Holders(s) && Owners(PinRaw(s, a)) == Owners(s)
  {
  }

  lemma BarrierKeeps(s: State, owner: Word, young: Word, ws: seq<Work>)
    requires Inv(s, ws) && Live(s, owner) && Live(s, young)
    ensures Inv(Barrier(s, owner, young), ws)
  {
    hide Inv;
    var v := ValueOf(s, owner);
    if !SpecialConst(young) && v.Heap? && IsCData(s, v.payload) && young !in s.heap[v.payload].body.retained {
      RetainKeeps(s, v.payload, young, ws);
    }
  }

  // ---- the Ruby side --------------------------------------------------------------

  lemma NoHandleYet(ids: map<Word, Word>, t: Table, h: Heap, p: Word)
    requires TableOk(ids, t) && NamesOk(t, h) && p !in h && !SpecialConst(p)
    ensures p !in ids
  {
    assert p in ids ==> KeyOk(ids[p], t, p);
    assert forall a :: a in t ==> EntryOk(ids, a, t[a]) && Names(h, t[a].value);
  }

  lemma AllocShape(t: Table, h: Heap, next: nat, p: Word, o: Object)
    requires NamesOk(t, h) && SerialsOk(h, next) && ListsOk(h) && KlassOk(t, h)
    requires p !in h && !SpecialConst(p) && o.serial == next && BodyOk(o.body)
    ensures var g := h[p := o]; NamesOk(t, g) && SerialsOk(g, next + 1) && ListsOk(g) && KlassOk(t, g)
  {
    forall a | a in t ensures KlassNames(t, h[p := o], t[a]) {
      assert KlassNames(t, h, t[a]) && Names(h, t[a].value);
    }
  }

  lemma AllocRefs(h: Heap, ids: map<Word, Word>, owed: multiset<Word>, p: Word, o: Object)
    requires RefsOk(h, ids, owed) && p !in h && p !in ids && o.refs == 1
    ensures RefsOk(h[p := o], ids, owed + multiset{p})
  {
    assert p !in owed;
  }

  lemma AllocSums(s: State, p: Word, cls: nat, b: Body)
    requires p !in s.heap && Listed(b) == [] && Held(b) == []
    ensures var t := Alloc(s, p, cls, b);
            && Holders(t) == Holders(s) && Owners(t) == Owners(s) + multiset{p}
            && LivePointers(t.heap) == LivePointers(s.heap) + Pointer(b)
  {
    hide CDataPins, HeldRefs, LivePointers, ScopePins;
    var o := Object(s.nextSerial, cls, 1, b);
    HeapAdd(s.heap, p, o);
    assert PinsOf(o) == multiset{} && RefsOf(o) == multiset{};
    assert s.roots + multiset{p} + HeldRefs(s.heap) == s.roots + HeldRefs(s.heap) + multiset{p};
  }

  lemma AllocShapeOk(s: State, p: Word, cls: nat, b: Body)
    requires ShapeOk(s) && p !in s.heap && !SpecialConst(p) && Listed(b) == [] && Held(b) == [] && BodyOk(b)
    ensures ShapeOk(Alloc(s, p, cls, b)) && p !in s.byIdentity
  {
    hide TableOk, NamesOk, SerialsOk, ListsOk, KlassOk, ClassesOk, LivePointers, SpecialConst, BodyOk, Pointer;
    NoHandleYet(s.byIdentity, s.entries, s.heap, p);
    AllocShape(s.entries, s.heap, s.nextSerial, p, Object(s.nextSerial, cls, 1, b));
    AllocSums(s, p, cls, b);
    assert LivePointers(s.heap) + s.dropped + Pointer(b) == LivePointers(s.heap) + Pointer(b) + s.dropped;
  }

  lemma EmptyBodyOk(b: Body)
    requires Listed(b) == []
    ensures BodyOk(b)
  {
    assert b.CStruct? ==> |b.retained + b.marked| == 0;
  }

  lemma AllocKeeps(s: State, p: Word, cls: nat, b: Body)
    requires Inv(s, []) && p !in s.heap && !SpecialConst(p)
    requires Listed(b) == [] && Held(b) == []
    ensures Inv(Alloc(s, p, cls, b), [])
  {
    hide ShapeOk, PinsOk, RefsOk, Holders, Owners, SpecialConst, BodyOk, Listed, HandleState.Held;
    EmptyBodyOk(b);
    AllocShapeOk(s, p, cls, b);
    AllocSums(s, p, cls, b);
    AllocRefs(s.heap, s.byIdentity, Owners(s) + PendingRefs([]), p, Object(s.nextSerial, cls, 1, b));
    assert Owners(s) + multiset{} + multiset{p} == Owners(s) + multiset{p} + multiset{};
  }

  lemma RefsUp(h: Heap, ids: map<Word, Word>, owed: multiset<Word>, p: Word)
    requires RefsOk(h, ids, owed) && p in h
    ensures RefsOk(h[p := h[p].(refs := h[p].refs + 1)], ids, owed + multiset{p})
  {
  }

  lemma CountRefShape(s: State, p: Word)
    requires ShapeOk(s) && p in s.heap
    ensures ShapeOk(s.(heap := CountRef(s, p)))
    ensures Holders(s.(heap := CountRef(s, p))) == Holders(s)
    ensures Owners(s.(heap := CountRef(s, p))) == Owners(s)
  {
    hide TableOk, NamesOk, SerialsOk, ListsOk, KlassOk, ClassesOk, CDataPins, HeldRefs, LivePointers;
    var n := s.heap[p].refs + 1;
    HeapRecount(s.entries, s.heap, s.nextSerial, p, n);
    HeapSameBody(s.heap, p, s.heap[p].(refs := n));
  }

  lemma ShapeIgnoresRoots(s: State, roots: multiset<Word>)
    requires ShapeOk(s)
    ensures ShapeOk(s.(roots := roots)) && Holders(s.(roots := roots)) == Holders(s)
  {
  }

  lemma TakeRootKeeps(s: State, p: Word)
    requires Inv(s, []) && p in s.heap
    ensures Inv(TakeRoot(s, p), [])
  {
    hide ShapeOk, PinsOk, RefsOk, Holders, HeldRefs;
    var t := s.(heap := CountRef(s, p));
    CountRefShape(s, p);
    RefsUp(s.heap, s.byIdentity, Owners(s) + PendingRefs([]), p);
    ShapeIgnoresRoots(t, s.roots + multiset{p});
    Moved(s.roots, HeldRefs(t.heap), multiset{p});
  }

  lemma Moved<T>(x: multiset<T>, c: multiset<T>, one: multiset<T>)
    ensures (x + one) + c + multiset{} == (x + c) + multiset{} + one
  {
  }

  lemma RootPending(s: State, p: Word)
    requires Inv(s, []) && p in s.roots
    ensures Inv(s.(roots := s.roots - multiset{p}), [DropRef(p)])
  {
    hide ShapeOk, PinsOk, RefsOk, Holders, HeldRefs;
    ShapeIgnoresRoots(s, s.roots - multiset{p});
    assert [DropRef(p)][1..] == [];
    assert PendingPins([DropRef(p)]) == multiset{} && PendingRefs([DropRef(p)]) == multiset{p};
    assert s.roots - multiset{p} + HeldRefs(s.heap) + multiset{p} == s.roots + HeldRefs(s.heap) + multiset{};
  }

  lemma DropRootKeeps(s: State, p: Word)
    requires Inv(s, []) && p in s.roots
    ensures Inv(DropRoot(s, p), [])
  {
    hide Inv;
    RootPending(s, p);
    assert [DropRef(p)] + [] == [DropRef(p)];
    SettleKeeps(s.(roots := s.roots - multiset{p}), [DropRef(p)], []);
  }

  lemma StoreSums(s: State, p: Word, q: Word)
    requires p in s.heap && s.heap[p].body.Ruby?
    ensures var t := SetBody(s, p, Ruby(s.heap[p].body.held + [q]));
            Holders(t) == Holders(s) && Owners(t) == Owners(s) + multiset{q}
  {
    hide Holders, Owners;
    var held := s.heap[p].body.held;
    SetBodySums(s, p, Ruby(held + [q]));
    assert multiset(held + [q]) == multiset{q} + multiset(held);
    assert Owners(s) + (multiset{q} + multiset(held)) == (Owners(s) + multiset{q}) + multiset(held);
    CancelRight(Owners(SetBody(s, p, Ruby(held + [q]))), Owners(s) + multiset{q}, multiset(held));
    CancelRight(Holders(SetBody(s, p, Ruby(held + [q]))), Holders(s), multiset{});
  }

  lemma StoreRefKeeps(s: State, p: Word, q: Word)
    requires Inv(s, []) && p in s.heap && q in s.heap && s.heap[p].body.Ruby?
    ensures Inv(StoreRef(s, p, q), [])
  {
    hide ShapeOk, PinsOk, RefsOk, Holders, Owners;
    var t := s.(heap := CountRef(s, q));
    var b := Ruby(t.heap[p].body.held + [q]);
    CountRefShape(s, q);
    SetBodyShape(t, p, b);
    StoreSums(t, p, q);
    RefsUp(s.heap, s.byIdentity, Owners(s) + PendingRefs([]), q);
    SetBodyRefs(t.heap, s.byIdentity, Owners(s) + PendingRefs([]) + multiset{q}, p, b);
    assert Owners(s) + multiset{} + multiset{q} == Owners(s) + multiset{q} + multiset{};
  }

  lemma ClearSums(s: State, p: Word, i: nat)
    requires p in s.heap && s.heap[p].body.Ruby? && i < |s.heap[p].body.held|
    ensures var held := s.heap[p].body.held;
            var t := SetBody(s, p, Ruby(held[..i] + held[i + 1..]));
            Holders(t) == Holders(s) && Owners(t) + multiset{held[i]} == Owners(s)
  {
    hide Holders, Owners;
    var held := s.heap[p].body.held;
    var less := held[..i] + held[i + 1..];
    SetBodySums(s, p, Ruby(less));
    assert held == held[..i] + [held[i]] + held[i + 1..];
    assert multiset(held) == multiset{held[i]} + multiset(less);
    var t := SetBody(s, p, Ruby(less));
    assert Owners(t) + (multiset{held[i]} + multiset(less)) == (Owners(t) + multiset{held[i]}) + multiset(less);
    CancelRight(Owners(t) + multiset{held[i]}, Owners(s), multiset(less));
    CancelRight(Holders(t), Holders(s), multiset{});
  }

  lemma ClearPending(s: State, p: Word, i: nat)
    requires Inv(s, []) && p in s.heap && s.heap[p].body.Ruby? && i < |s.heap[p].body.held|
    ensures var held := s.heap[p].body.held;
            Inv(SetBody(s, p, Ruby(held[..i] + held[i + 1..])), [DropRef(held[i])])
  {
    hide ShapeOk, PinsOk, RefsOk, Holders, Owners;
    var held := s.heap[p].body.held;
    var b := Ruby(held[..i] + held[i + 1..]);
    SetBodyShape(s, p, b);
    ClearSums(s, p, i);
    SetBodyRefs(s.heap, s.byIdentity, Owners(s) + PendingRefs([]), p, b);
    assert [DropRef(held[i])][1..] == [];
    assert PendingPins([DropRef(held[i])]) == multiset{} && PendingRefs([DropRef(held[i])]) == multiset{held[i]};
    assert Owners(s) + multiset{} == Owners(s);
  }

  lemma ClearRefKeeps(s: State, p: Word, i: nat)
    requires Inv(s, []) && p in s.heap && s.heap[p].body.Ruby? && i < |s.heap[p].body.held|
    ensures Inv(ClearRef(s, p, i), [])
  {
    hide Inv;
    var held := s.heap[p].body.held;
    ClearPending(s, p, i);
    assert [DropRef(held[i])] + [] == [DropRef(held[i])];
    SettleKeeps(SetBody(s, p, Ruby(held[..i] + held[i + 1..])), [DropRef(held[i])], []);
  }

  lemma WriteShape(s: State, p: Word, reports: seq<Word>)
    requires ShapeOk(s) && IsCData(s, p)
    ensures ShapeOk(CWrite(s, p, reports))
  {
    var b := s.heap[p].body;
    assert BodyOk(b);
    hide ShapeOk, ListOk;
    SetBodyShape(s, p, b.(reports := reports));
  }

  lemma CWriteKeeps(s: State, p: Word, reports: seq<Word>)
    requires Inv(s, []) && IsCData(s, p)
    ensures Inv(CWrite(s, p, reports), [])
  {
    hide ShapeOk, PinsOk, RefsOk, Holders, Owners;
    var b := s.heap[p].body;
    var c := b.(reports := reports);
    WriteShape(s, p, reports);
    SetBodySums(s, p, c);
    CancelRight(Holders(SetBody(s, p, c)), Holders(s), multiset(Listed(b)));
    CancelRight(Owners(SetBody(s, p, c)), Owners(s), multiset(HandleState.Held(b)));
    SetBodyRefs(s.heap, s.byIdentity, Owners(s) + PendingRefs([]), p, c);
  }
}
