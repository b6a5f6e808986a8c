/** Every entry point keeps the invariant of the handle table. */
module OpsKeep {
  import opened Sums
  import opened HandleState
  import opened HandleInvariant
  import opened HandleOps
  import opened ReleaseKeeps

  // ---- more pins, on handles already there ----------------------------------

  /** The same handles, for the same values, at other counts. */
  predicate SameButPins(t: Table, u: Table) {
    u.Keys == t.Keys && forall a :: a in t ==> u[a] == t[a].(pins := u[a].pins)
  }

  lemma RecountKeeps(ids: map<Word, Word>, t: Table, u: Table, h: Heap, immortal: multiset<Word>)
    requires TableOk(ids, t) && NamesOk(t, h) && KlassOk(t, h) && ClassesOk(t, immortal) && SameButPins(t, u)
    ensures TableOk(ids, u) && NamesOk(u, h) && KlassOk(u, h) && ClassesOk(u, immortal)
  {
  }

  lemma PinUp(t: Table, owed: multiset<Word>, a: Word)
    requires PinsOk(t, owed) && (SpecialConst(a) || a in t)
    ensures SameButPins(t, PinEntry(t, a))
    ensures (a in t || SpecialConst(a)) && PinsOk(PinEntry(t, a), owed + multiset{a})
  {
  }

  lemma PinRawShape(s: State, a: Word)
    requires ShapeOk(s)
    ensures ShapeOk(PinRaw(s, a))
  {
    assert SameButPins(s.entries, PinEntry(s.entries, a));
    RecountKeeps(s.byIdentity, s.entries, PinEntry(s.entries, a), s.heap, s.immortal);
  }

  // ---- a new handle ------------------------------------------------------------

  /** An address the allocator may hand out for a handle. */
  predicate FreeSpot(t: Table, a: Word) {
    a !in t && !SpecialConst(a)
  }

  lemma MintTable(ids: map<Word, Word>, t: Table, v: RubyValue, spot: Word)
    requires TableOk(ids, t) && Handled(v) && Key(v) !in ids && FreeSpot(t, spot)
    ensures TableOk(if Key(v) != 0 then ids[Key(v) := spot] else ids, t[spot := Entry(v, Key(v), Q_NIL, 1)])
  {
    var ids', u := if Key(v) != 0 then ids[Key(v) := spot] else ids, t[spot := Entry(v, Key(v), Q_NIL, 1)];
    forall b | b in u ensures EntryOk(ids', b, u[b]) {
      if b != spot {
        assert EntryOk(ids, b, t[b]);
        assert t[b].identity != 0 ==> t[b].identity in ids;
      }
    }
    forall k | k in ids' ensures KeyOk(ids'[k], u, k) {
      if k in ids {
        assert KeyOk(ids[k], t, k);
      }
    }
  }

  lemma MintNames(t: Table, h: Heap, immortal: multiset<Word>, v: RubyValue, spot: Word)
    requires NamesOk(t, h) && KlassOk(t, h) && ClassesOk(t, immortal) && Names(h, v) && spot !in t
    ensures var u := t[spot := Entry(v, Key(v), Q_NIL, 1)];
            && NamesOk(u, h) && KlassOk(u, h)
            && ClassesOk(u, if v.Class? then immortal + multiset{spot} else immortal)
  {
    var u := t[spot := Entry(v, Key(v), Q_NIL, 1)];
    forall b | b in u ensures KlassNames(u, h, u[b]) {
      if b != spot {
        assert KlassNames(t, h, t[b]);
      }
    }
  }

  lemma MintPins(t: Table, owed: multiset<Word>, v: RubyValue, spot: Word)
    requires PinsOk(t, owed) && FreeSpot(t, spot)
    ensures PinsOk(t[spot := Entry(v, Key(v), Q_NIL, 1)], owed + multiset{spot})
  {
    assert spot !in owed;
  }

  lemma CloneHeap(t: Table, h: Heap, next: nat, v: RubyValue)
    requires NamesOk(t, h) && SerialsOk(h, next) && ListsOk(h) && KlassOk(t, h)
    ensures var g := CloneRef(h, v); NamesOk(t, g) && SerialsOk(g, next) && ListsOk(g) && KlassOk(t, g)
  {
    if v.Heap? && v.payload in h {
      HeapRecount(t, h, next, v.payload, h[v.payload].refs + 1);
    }
  }

  lemma CloneSums(h: Heap, v: RubyValue)
    ensures CDataPins(CloneRef(h, v)) == CDataPins(h)
    ensures HeldRefs(CloneRef(h, v)) == HeldRefs(h)
    ensures LivePointers(CloneRef(h, v)) == LivePointers(h)
  {
    if v.Heap? && v.payload in h {
      var o := h[v.payload].(refs := h[v.payload].refs + 1);
      assert CloneRef(h, v) == h[v.payload := o];
      HeapSameBody(h, v.payload, o);
    }
  }

  lemma MintRefs(h: Heap, ids: map<Word, Word>, owed: multiset<Word>, next: nat, v: RubyValue, spot: Word)
    requires RefsOk(h, ids, owed) && SerialsOk(h, next) && Handled(v) && Names(h, v) && Key(v) !in ids
    ensures RefsOk(CloneRef(h, v), if Key(v) != 0 then ids[Key(v) := spot] else ids, owed)
  {
  }

  lemma MintShape(s: State, v: RubyValue, spot: Word)
    requires ShapeOk(s) && Handled(v) && Names(s.heap, v) && Key(v) !in s.byIdentity && FreeSpot(s.entries, spot)
    ensures var t := Mint(s, v, spot);
            ShapeOk(t.(immortal := if v.Class? then t.immortal + multiset{spot} else t.immortal))
  {
    MintTable(s.byIdentity, s.entries, v, spot);
    MintNames(s.entries, s.heap, s.immortal, v, spot);
    CloneHeap(s.entries[spot := Entry(v, Key(v), Q_NIL, 1)], s.heap, s.nextSerial, v);
    CloneSums(s.heap, v);
  }

  lemma MintBalance(s: State, v: RubyValue, spot: Word, ws: seq<Work>)
    requires Inv(s, ws) && Handled(v) && Names(s.heap, v) && Key(v) !in s.byIdentity && FreeSpot(s.entries, spot)
    ensures PinsOk(Mint(s, v, spot).entries, Holders(s) + PendingPins(ws) + multiset{spot})
    ensures RefsBalance(Mint(s, v, spot), ws)
    ensures Holders(Mint(s, v, spot)) == Holders(s)
  {
    MintPins(s.entries, Holders(s) + PendingPins(ws), v, spot);
    MintRefs(s.heap, s.byIdentity, Owners(s) + PendingRefs(ws), s.nextSerial, v, spot);
    CloneSums(s.heap, v);
  }

  // ---- pin ---------------------------------------------------------------------

  lemma InternHit(s: State, v: RubyValue, spot: Word, ws: seq<Work>)
    requires Inv(s, ws) && Key(v) in s.byIdentity
    ensures var (t, a) := Intern(s, v, spot);
            && a in t.entries && (v.Class? ==> t.entries[a].value.Class?)
            && ShapeOk(t) && RefsBalance(t, ws) && Holders(t) == Holders(s)
            && PinsOk(t.entries, Holders(s) + PendingPins(ws) + multiset{a})
  {
    hide NamesOk, SerialsOk, ListsOk, KlassOk, ClassesOk, PinsOk, RefsOk, PointersOk;
    hide PendingPins, PendingRefs, HeldRefs, CDataPins, SumOver, Total;
    var a := s.byIdentity[Key(v)];
    assert a in s.entries && (v.Class? ==> s.entries[a].value.Class?) by {
      assert KeyOk(a, s.entries, Key(v));
      assert EntryOk(s.byIdentity, a, s.entries[a]);
    }
    PinRawShape(s, a);
    PinUp(s.entries, Holders(s) + PendingPins(ws), a);
  }

  lemma ScopePinsTop(ss: seq<seq<Word>>, a: Word)
    requires ss != []
    ensures ScopePins(ss[|ss| - 1 := ss[|ss| - 1] + [a]]) == ScopePins(ss) + multiset{a}
  {
    var top := |ss| - 1;
    var tt := ss[top := ss[top] + [a]];
    assert tt[..top] == ss[..top];
    assert multiset(ss[top] + [a]) == multiset(ss[top]) + multiset{a};
  }

  lemma OneMore<T>(x: multiset<T>, a: multiset<T>, b: multiset<T>, c: multiset<T>, one: multiset<T>)
    ensures (x + one) + a + b + c == (x + a + b + c) + one
    ensures x + (a + one) + b + c == (x + a + b + c) + one
    ensures x + a + (b + one) + c == (x + a + b + c) + one
    ensures x + a + b + (c + one) == (x + a + b + c) + one
  {
  }

  lemma ScopePinHolders(s: State, a: Word)
    ensures Holders(ScopePin(s, a)) == Holders(s) + multiset{a}
  {
    OneMore(ScopePins(s.scopes), s.forever, s.immortal, CDataPins(s.heap), multiset{a});
    if s.scopes != [] {
      ScopePinsTop(s.scopes, a);
    }
  }

  /** The pin `intern` took has a holder: the class itself, or the scope. */
  lemma PinRecorded(t: State, v: RubyValue, a: Word)
    ensures var end := if v.Class? then t.(immortal := t.immortal + multiset{a}) else ScopePin(t, a);
            Holders(end) == Holders(t) + multiset{a}
  {
    if v.Class? {
      OneMore(ScopePins(t.scopes), t.forever, t.immortal, CDataPins(t.heap), multiset{a});
    } else {
      ScopePinHolders(t, a);
    }
  }

  lemma RecordedBalance(t: State, end: State, held: multiset<Word>, a: Word, ws: seq<Work>)
    requires end.entries == t.entries && Holders(end) == held + multiset{a}
    requires PinsOk(t.entries, held + PendingPins(ws) + multiset{a})
    ensures PinsBalance(end, ws)
  {
    assert held + multiset{a} + PendingPins(ws) == held + PendingPins(ws) + multiset{a};
  }

  lemma HitShape(t: State, v: RubyValue, a: Word)
    requires ShapeOk(t) && a in t.entries && (v.Class? ==> t.entries[a].value.Class?)
    ensures ShapeOk(if v.Class? then t.(immortal := t.immortal + multiset{a}) else ScopePin(t, a))
  {
    hide TableOk, NamesOk, SerialsOk, ListsOk, KlassOk, PointersOk;
  }

  lemma PinHit(s: State, known: set<nat>, v: RubyValue, spot: Word, ws: seq<Work>)
    requires Inv(s, ws) && Tagged(known, v) && Key(v) in s.byIdentity
    ensures Inv(Pin(s, known, v, spot).0, ws)
  {
    hide ShapeOk, PinsOk, RefsOk, Holders, PendingPins, PendingRefs, HeldRefs, Intern;
    InternHit(s, v, spot, ws);
    var t, a := Intern(s, v, spot).0, Intern(s, v, spot).1;
    HitShape(t, v, a);
    PinRecorded(t, v, a);
    RecordedBalance(t, Pin(s, known, v, spot).0, Holders(s), a, ws);
  }

  lemma PinMiss(s: State, known: set<nat>, v: RubyValue, spot: Word, ws: seq<Work>)
    requires Inv(s, ws) && Tagged(known, v) && Handled(v) && Names(s.heap, v)
    requires Key(v) !in s.byIdentity && FreeSpot(s.entries, spot)
    ensures Inv(Pin(s, known, v, spot).0, ws)
  {
    hide TableOk, NamesOk, SerialsOk, ListsOk, KlassOk, PinsOk, RefsOk, PointersOk, Holders;
    hide PendingPins, PendingRefs, HeldRefs, CDataPins, SumOver, Total, PinEntry, CloneRef, SpecialConst;
    hide ClassesOk, Handled, Names;
    MintShape(s, v, spot);
    MintBalance(s, v, spot, ws);
    var t := Mint(s, v, spot);
    PinRecorded(t, v, spot);
    RecordedBalance(t, Pin(s, known, v, spot).0, Holders(s), spot, ws);
  }

  lemma PinKeeps(s: State, known: set<nat>, v: RubyValue, spot: Word, ws: seq<Work>)
    requires Inv(s, ws) && Names(s.heap, v) && FreeSpot(s.entries, spot)
    ensures Inv(Pin(s, known, v, spot).0, ws)
  {
    if Tagged(known, v) {
      if Key(v) in s.byIdentity {
        PinHit(s, known, v, spot, ws);
      } else {
        assert Handled(v);
        PinMiss(s, known, v, spot, ws);
      }
    }
  }
}
