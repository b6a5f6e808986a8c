/** Who frees a wrapped C pointer, and how often. An element `(p, f)` of `dropped`
    is one `Drop` that found `p` in its slot; with `f` other than `NoFree` it is one
    call of `f` on `p`. */
module CPointers {
  import opened HandleState
  import opened HandleInvariant
  import opened HandleOps
  import opened RoundTrip
  import opened RefreshKeeps
  import opened Frames
  import opened HandleRuns

  /** The live `CData`s whose slot holds the pointer of `r` under its free function. */
  ghost function OwnersOf(h: Heap, r: Release): set<Word> {
    set p | p in h && r in Pointer(h[p].body)
  }

  lemma {:induction false} LiveCount(h: Heap, r: Release)
    ensures LivePointers(h)[r] == |OwnersOf(h, r)|
    decreases |h|
  {
    if h == map[] {
      assert OwnersOf(h, r) == {};
    } else {
      var p :| p in h;
      LiveCount(h - {p}, r);
      LiveStep(h, p, r);
    }
  }

  lemma LiveStep(h: Heap, p: Word, r: Release)
    requires p in h
    ensures LivePointers(h)[r] == LivePointers(h - {p})[r] + Pointer(h[p].body)[r]
    ensures |OwnersOf(h, r)| == |OwnersOf(h - {p}, r)| + Pointer(h[p].body)[r]
  {
    hide CDataPins, HeldRefs, LivePointers;
    HeapRemove(h, p);
    assert OwnersOf(h - {p}, r) == OwnersOf(h, r) - {p};
  }

  /** Every wrap is either still owned or has been through exactly one `Drop`, even
      when the C allocator hands a freed pointer out again. */
  lemma WrapsAreAccounted(s: State, r: Release)
    requires Reachable(s)
    ensures s.wraps[r] == |OwnersOf(s.heap, r)| + s.dropped[r]
  {
    ReachableOk(s);
    LiveCount(s.heap, r);
  }

  /** The pointer was wrapped once, under the free function `f`. */
  ghost predicate WrappedOnce(s: State, ptr: Word, f: FreeFn) {
    forall g :: s.wraps[(ptr, g)] == if g == f then 1 else 0
  }

  /** A pointer wrapped once is freed at most once, by no other function, and not
      while an object owns it. */
  lemma FreedAtMostOnce(s: State, ptr: Word, f: FreeFn)
    requires Reachable(s) && WrappedOnce(s, ptr, f)
    ensures s.dropped[(ptr, f)] <= 1
    ensures forall g :: g != f ==> s.dropped[(ptr, g)] == 0
    ensures s.dropped[(ptr, f)] == 1 <==> OwnersOf(s.heap, (ptr, f)) == {}
  {
    forall g ensures s.wraps[(ptr, g)] == |OwnersOf(s.heap, (ptr, g))| + s.dropped[(ptr, g)] {
      WrapsAreAccounted(s, (ptr, g));
    }
    assert s.wraps[(ptr, f)] == 1;
    assert |OwnersOf(s.heap, (ptr, f))| + s.dropped[(ptr, f)] == 1;
  }

  // ---- the step an object dies in -------------------------------------------------

  lemma PinObjects(s: State, known: set<nat>, v: RubyValue, spot: Word)
    requires spot !in s.entries
    ensures FewerObjects(s.heap, Pin(s, known, v, spot).0.heap)
  {
    PinFrame(s, known, v, spot);
    hide Pin;
  }

  lemma KlassWordObjects(s: State, known: set<nat>, a: Word, other: nat, spot: Word)
    requires a in s.entries && spot !in s.entries
    ensures FewerObjects(s.heap, KlassWord(s, known, a, other, spot).0.heap)
  {
    PinObjects(s, known, Class(ClassOf(s, s.entries[a].value, other)), spot);
    hide Pin, FewerObjects;
  }

  lemma SettleObjects(s: State, ws: seq<Work>)
    ensures FewerObjects(s.heap, Settle(s, ws).heap)
    ensures Settle(s, ws).wraps == s.wraps
  {
    SettleReleases(s, ws);
  }

  lemma EditObjects(h: Heap, p: Word, o: Object)
    requires p in h && SameObject(h[p], o)
    ensures FewerObjects(h, h[p := o])
  {
  }

  lemma StoreObjects(s: State, p: Word, q: Word)
    requires p in s.heap && q in s.heap && s.heap[p].body.Ruby?
    ensures FewerObjects(s.heap, StoreRef(s, p, q).heap)
  {
  }

  lemma BarrierObjects(s: State, owner: Word, young: Word)
    requires Live(s, owner)
    ensures FewerObjects(s.heap, Barrier(s, owner, young).heap)
  {
    var v := ValueOf(s, owner);
    if v.Heap? && IsCData(s, v.payload) {
      var o := s.heap[v.payload];
      EditObjects(s.heap, v.payload, o.(body := o.body.(retained := o.body.retained + [young])));
    }
  }

  /** Only an allocation makes an object. */
  lemma NextObjects(s: State, e: Event)
    requires Allowed(s, e) && !e.Allocate? && !e.Duplicate?
    ensures FewerObjects(s.heap, Next(s, e).heap)
  {
    hide Settle, RefreshAll, PopContract, Pin, KlassWord, Presentable, PinEntry, StoreRef, Barrier, Pointer;
    match e
    case CloneRoot(p) => EditObjects(s.heap, p, s.heap[p].(refs := s.heap[p].refs + 1));
    case ReleaseRoot(p) => SettleObjects(s.(roots := s.roots - multiset{p}), [DropRef(p)]);
    case Store(p, q) => StoreObjects(s, p, q);
    case Clear(p, i) => ClearObjects(s, p, i);
    case Write(p, reports) => WriteObjects(s, p, reports);
    case ToValue(known, v, spot) => PinObjects(s, known, v, spot);
    case ReadClass(known, a, other, spot) => KlassWordObjects(s, known, a, other, spot);
    case Exit(busy) => ScopePopReleases(s, busy);
    case WriteBarrier(owner, young) => BarrierObjects(s, owner, young);
    case _ =>
  }

  lemma ClearObjects(s: State, p: Word, i: nat)
    requires p in s.heap && s.heap[p].body.Ruby? && i < |s.heap[p].body.held|
    ensures FewerObjects(s.heap, ClearRef(s, p, i).heap)
  {
    hide Settle;
    var held := s.heap[p].body.held;
    SettleObjects(SetBody(s, p, Ruby(held[..i] + held[i + 1..])), [DropRef(held[i])]);
  }

  lemma WriteObjects(s: State, p: Word, reports: seq<Word>)
    requires IsCData(s, p)
    ensures FewerObjects(s.heap, CWrite(s, p, reports).heap)
  {
    EditObjects(s.heap, p, s.heap[p].(body := s.heap[p].body.(reports := reports)));
  }

  /** Only wrapping a C struct makes a wrap: a copy owns no pointer of the original's. */
  lemma NextWraps(s: State, e: Event)
    requires Allowed(s, e) && !e.Allocate?
    ensures Next(s, e).wraps == s.wraps
  {
    hide Settle, RefreshAll, PopContract, Presentable, PinEntry;
    match e
    case ReleaseRoot(p) => SettleObjects(s.(roots := s.roots - multiset{p}), [DropRef(p)]);
    case Clear(p, i) =>
      var held := s.heap[p].body.held;
      SettleObjects(SetBody(s, p, Ruby(held[..i] + held[i + 1..])), [DropRef(held[i])]);
    case Exit(busy) => ScopePopReleases(s, busy);
    case Duplicate(_, _, _) => assert s.wraps + multiset{} == s.wraps;
    case _ =>
  }

  /** The step in which the one owner of a pointer dies hands the pointer to its free
      function, that once and never before. */
  lemma DeathFreesOnce(s: State, e: Event, p: Word)
    requires Reachable(s) && Allowed(s, e) && p in s.heap && p !in Next(s, e).heap
    requires s.heap[p].body.CStruct? && s.heap[p].body.data != 0
    requires WrappedOnce(s, s.heap[p].body.data, s.heap[p].body.free)
    ensures var r := (s.heap[p].body.data, s.heap[p].body.free);
            s.dropped[r] == 0 && Next(s, e).dropped[r] == 1
  {
    var r := (s.heap[p].body.data, s.heap[p].body.free);
    var t := Next(s, e);
    assert !e.Allocate? && !e.Duplicate?;
    NextWraps(s, e);
    NextObjects(s, e);
    WrapsAreAccounted(s, r);
    assert p in OwnersOf(s.heap, r);
    assert s.wraps[r] == 1;
    assert |OwnersOf(s.heap, r)| == 1 && OwnersOf(s.heap, r) == {p} by {
      OnlyOne(OwnersOf(s.heap, r), p);
    }
    NextReachable(s, e);
    WrapsAreAccounted(t, r);
    hide Allowed, Next;
    assert forall q :: q in OwnersOf(t.heap, r) ==> q in OwnersOf(s.heap, r);
    assert OwnersOf(t.heap, r) == {};
  }

  /** A copy made without a C allocator has a null slot, so no free function ever runs
      for it, and the original keeps its pointer to itself. It has the class and the mark
      function of the original, its free function if typed, and retains nothing. */
  lemma CopyOwnsNothing(s: State, src: Word, typed: bool, p: Word, r: Release)
    requires Allowed(s, Duplicate(src, typed, p))
    ensures var t := Next(s, Duplicate(src, typed, p));
            && p !in OwnersOf(t.heap, r) && OwnersOf(t.heap, r) == OwnersOf(s.heap, r)
            && t.heap[p].cls == s.heap[src].cls && t.heap[p].body.CStruct? && Listed(t.heap[p].body) == []
            && t.heap[p].body.mark == s.heap[src].body.mark
            && t.heap[p].body.free == if typed then s.heap[src].body.free else NoFree
  {
  }

  lemma OnlyOne(x: set<Word>, p: Word)
    requires p in x && |x| <= 1
    ensures x == {p}
  {
    assert |x - {p}| == |x| - 1;
  }
}
