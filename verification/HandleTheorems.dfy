/** The promises of the handle table, over every reachable state and every run. */
module HandleTheorems {
  import opened Options
  import opened Sums
  import opened HandleState
  import opened HandleInvariant
  import opened HandleOps
  import opened OpsKeep
  import opened RefreshKeeps
  import opened RoundTrip
  import opened Frames
  import opened HandleRuns

  // ---- pin conservation -----------------------------------------------------------

  ghost function Retainers(h: Heap, a: Word): set<Word> {
    set p | p in h && h[p].body.CStruct? && a in h[p].body.retained
  }

  ghost function Markers(h: Heap, a: Word): set<Word> {
    set p | p in h && h[p].body.CStruct? && a in h[p].body.marked
  }

  lemma BodyCount(o: Object, a: Word)
    requires BodyOk(o.body)
    ensures PinsOf(o)[a] == (if o.body.CStruct? && a in o.body.retained then 1 else 0)
                          + (if o.body.CStruct? && a in o.body.marked then 1 else 0)
  {
    if o.body.CStruct? {
      NoDupCount(o.body.retained, a);
      NoDupCount(o.body.marked, a);
      assert multiset(Listed(o.body)) == multiset(o.body.retained) + multiset(o.body.marked);
    }
  }

  /** The sum of the lists counts each `CData` once for each of its two lists. */
  lemma {:induction false} CDataPinsCount(h: Heap, a: Word)
    requires ListsOk(h)
    ensures CDataPins(h)[a] == |Retainers(h, a)| + |Markers(h, a)|
    decreases |h|
  {
    if h == map[] {
      assert Retainers(h, a) == {} && Markers(h, a) == {};
    } else {
      var p :| p in h;
      var g := h - {p};
      CDataPinsCount(g, a);
      BodyCount(h[p], a);
      CountStep(h, p, a);
    }
  }

  lemma CountStep(h: Heap, p: Word, a: Word)
    requires p in h
    ensures CDataPins(h)[a] == CDataPins(h - {p})[a] + PinsOf(h[p])[a]
    ensures |Retainers(h, a)| == |Retainers(h - {p}, a)| + (if h[p].body.CStruct? && a in h[p].body.retained then 1 else 0)
    ensures |Markers(h, a)| == |Markers(h - {p}, a)| + (if h[p].body.CStruct? && a in h[p].body.marked then 1 else 0)
  {
    HeapRemove(h, p);
    RetainersStep(h, p, a);
    MarkersStep(h, p, a);
    hide CDataPins, Retainers, Markers;
  }

  lemma RetainersStep(h: Heap, p: Word, a: Word)
    requires p in h
    ensures |Retainers(h, a)| == |Retainers(h - {p}, a)| + (if h[p].body.CStruct? && a in h[p].body.retained then 1 else 0)
  {
    var all, less := Retainers(h, a), Retainers(h - {p}, a);
    assert less == all - {p};
    assert p in all <==> h[p].body.CStruct? && a in h[p].body.retained;
    hide Retainers;
  }

  lemma MarkersStep(h: Heap, p: Word, a: Word)
    requires p in h
    ensures |Markers(h, a)| == |Markers(h - {p}, a)| + (if h[p].body.CStruct? && a in h[p].body.marked then 1 else 0)
  {
    var all, less := Markers(h, a), Markers(h - {p}, a);
    assert less == all - {p};
    assert p in all <==> h[p].body.CStruct? && a in h[p].body.marked;
    hide Markers;
  }

  /** In every reachable state a handle's count is its scope pins, the `CData`s that
      retain it, the ones whose mark function pinned it, the process-long pins and the
      class pins; so a release never finds a count of zero. */
  lemma PinConservation(s: State, a: Word)
    requires Reachable(s) && a in s.entries
    ensures s.entries[a].pins == ScopePins(s.scopes)[a] + |Retainers(s.heap, a)| + |Markers(s.heap, a)|
                               + s.forever[a] + s.immortal[a]
    ensures s.entries[a].pins >= 1
  {
    ReachableOk(s);
    CDataPinsCount(s.heap, a);
  }

  /** Every address some holder still lists is in the table, unless it is an immediate. */
  lemma ListedIsLive(s: State, a: Word)
    requires Reachable(s)
    requires a in ScopePins(s.scopes) || Retainers(s.heap, a) != {} || Markers(s.heap, a) != {}
          || a in s.forever || a in s.immortal
    ensures Live(s, a)
  {
    ReachableOk(s);
    CDataPinsCount(s.heap, a);
    assert a in Holders(s) + PendingPins([]);
  }

  /** A handle is in the table exactly while some holder lists it. */
  lemma HandleLivesWhileHeld(s: State, a: Word)
    requires Reachable(s)
    ensures a in s.entries <==> !SpecialConst(a) && a in Holders(s)
  {
    ReachableOk(s);
    if a in s.entries {
      assert EntryOk(s.byIdentity, a, s.entries[a]);
    }
    assert (Holders(s) + PendingPins([]))[a] == Holders(s)[a];
  }

  // ---- what a VALUE names, over time ---------------------------------------------

  /** A handle in the table before and after stands for the same value. */
  predicate StableHandles(t: Table, u: Table) {
    forall a :: a in t && a in u ==> u[a].value == t[a].value && u[a].identity == t[a].identity
  }

  lemma SettleStable(s: State, ws: seq<Work>)
    ensures StableHandles(s.entries, Settle(s, ws).entries) && Settle(s, ws).immortal == s.immortal
  {
    SettleReleases(s, ws);
  }

  lemma MemoStable(t: Table, u: Table, a: Word, k: Word)
    requires HandlesKept(t, u) && a in u
    ensures StableHandles(t, u) && StableHandles(t, u[a := u[a].(klass := k)])
  {
  }

  lemma KlassWordStable(s: State, known: set<nat>, a: Word, other: nat, spot: Word)
    requires a in s.entries && spot !in s.entries
    ensures StableHandles(s.entries, KlassWord(s, known, a, other, spot).0.entries)
    ensures s.immortal <= KlassWord(s, known, a, other, spot).0.immortal
  {
    hide Pin;
    var c := Class(ClassOf(s, s.entries[a].value, other));
    PinFrame(s, known, c, spot);
    PinImmortal(s, known, c, spot);
    var t, k := Pin(s, known, c, spot).0, Pin(s, known, c, spot).1;
    MemoStable(s.entries, t.entries, a, if k.Some? then k.value else Q_NIL);
    assert StableHandles(s.entries, s.entries);
    hide StableHandles, HandlesKept, ObjectsKept;
  }

  lemma PinImmortal(s: State, known: set<nat>, v: RubyValue, spot: Word)
    ensures s.immortal <= Pin(s, known, v, spot).0.immortal
  {
  }

  lemma PinEntryStable(t: Table, a: Word)
    ensures StableHandles(t, PinEntry(t, a)) && StableHandles(t, t)
  {
  }

  lemma PinStable(s: State, known: set<nat>, v: RubyValue, spot: Word)
    requires spot !in s.entries
    ensures StableHandles(s.entries, Pin(s, known, v, spot).0.entries)
  {
    PinFrame(s, known, v, spot);
    hide Pin;
  }

  lemma PopStable(s: State, busy: bool)
    ensures StableHandles(s.entries, ScopePop(s, busy).entries) && ScopePop(s, busy).immortal == s.immortal
  {
    if s.scopes != [] {
      ScopePopReleases(s, busy);
      hide ScopePop;
    }
  }

  lemma NextStable(s: State, e: Event)
    requires Allowed(s, e)
    ensures StableHandles(s.entries, Next(s, e).entries) && s.immortal <= Next(s, e).immortal
  {
    hide Settle, ScopePop, PopContract, Pin, KlassWord, Alloc, Presentable, StableHandles, PinEntry, Barrier;
    PinEntryStable(s.entries, 0);
    match e
    case Allocate(p, cls, b) => AllocStable(s, p, cls, b);
    case Duplicate(src, typed, p) => AllocStable(s, p, s.heap[src].cls, DupBody(s.heap[src].body, typed));
    case ReleaseRoot(p) => SettleStable(s.(roots := s.roots - multiset{p}), [DropRef(p)]);
    case Clear(p, i) =>
      var held := s.heap[p].body.held;
      SettleStable(SetBody(s, p, Ruby(held[..i] + held[i + 1..])), [DropRef(held[i])]);
    case ToValue(known, v, spot) => PinStable(s, known, v, spot); PinImmortal(s, known, v, spot);
    case ReadClass(known, a, other, spot) => KlassWordStable(s, known, a, other, spot);
    case Exit(busy) => PopStable(s, busy);
    case KeepValue(a) => PinEntryStable(s.entries, a);
    case WriteBarrier(owner, young) => BarrierStable(s, owner, young);
    case Register(a) => PinEntryStable(s.entries, a);
    case _ =>
  }

  lemma BarrierStable(s: State, owner: Word, young: Word)
    requires Live(s, owner)
    ensures StableHandles(s.entries, Barrier(s, owner, young).entries)
    ensures Barrier(s, owner, young).immortal == s.immortal
  {
    PinEntryStable(s.entries, young);
    hide StableHandles, PinEntry;
  }

  lemma AllocStable(s: State, p: Word, cls: nat, b: Body)
    ensures Alloc(s, p, cls, b).entries == s.entries && Alloc(s, p, cls, b).immortal == s.immortal
  {
  }

  /** `a` is held at every state the run passes through. */
  ghost predicate HeldThroughout(s: State, es: seq<Event>, a: Word)
    decreases |es|
  {
    && a in Holders(s)
    && (es != [] ==> Allowed(s, es[0]) && HeldThroughout(Next(s, es[0]), es[1..], a))
  }

  /** While anything holds a `VALUE`, it goes on naming the object it was minted for,
      through every reuse of every freed address. */
  lemma {:induction false} ValueIsStable(s: State, es: seq<Event>, t: State, a: Word)
    requires Inv(s, []) && Runs(s, es, t) && a in s.entries && HeldThroughout(s, es, a)
    ensures a in t.entries && t.entries[a].value == s.entries[a].value
    decreases |es|
  {
    if es != [] {
      var m := Next(s, es[0]);
      NextKeeps(s, es[0]);
      NextStable(s, es[0]);
      assert !SpecialConst(a) by {
        assert EntryOk(s.byIdentity, a, s.entries[a]);
      }
      assert a in m.entries by {
        assert a in Holders(m) + PendingPins([]);
      }
      hide Inv, Allowed, Next;
      ValueIsStable(m, es[1..], t, a);
    }
  }

  /** A class handle, once minted, is in the table for the rest of the process. */
  lemma {:induction false} ClassHandleForever(s: State, es: seq<Event>, t: State, a: Word)
    requires Inv(s, []) && Runs(s, es, t) && a in s.entries && s.entries[a].value.Class?
    ensures a in t.entries && t.entries[a].value == s.entries[a].value
    decreases |es|
  {
    if es != [] {
      var m := Next(s, es[0]);
      NextKeeps(s, es[0]);
      NextStable(s, es[0]);
      assert a in s.immortal && a in m.immortal;
      hide Inv, Allowed, Next;
      ClassHandleForever(m, es[1..], t, a);
    }
  }

  /** A `klass` word C has read names a live class handle in every later state. */
  lemma KlassMemoForever(s: State, es: seq<Event>, t: State, a: Word)
    requires Reachable(s) && Runs(s, es, t) && a in s.entries && s.entries[a].klass != Q_NIL
    ensures s.entries[a].klass in t.entries && t.entries[s.entries[a].klass].value.Class?
  {
    ReachableOk(s);
    assert KlassNames(s.entries, s.heap, s.entries[a]);
    ClassHandleForever(s, es, t, s.entries[a].klass);
  }

  /** Two conversions, any time apart, answer the same `VALUE` exactly when they convert
      the same value and it has an identity, as long as the first answer was held in
      between, whatever classes were defined meanwhile. A number that takes a handle gets
      another one each time. */
  lemma EqualityOverTime(s: State, known: set<nat>, v: RubyValue, spot: Word,
                         es: seq<Event>, t: State, known': set<nat>, w: RubyValue, later: Word)
    requires Reachable(s) && Presentable(s, v) && FreeSpot(s.entries, spot) && Pin(s, known, v, spot).1.Some?
    requires var (m, x) := Pin(s, known, v, spot);
             Runs(m, es, t) && (v.Immediate? || HeldThroughout(m, es, x.value))
    requires Presentable(t, w) && FreeSpot(t.entries, later) && Pin(t, known', w, later).1.Some?
    ensures Pin(s, known, v, spot).1 == Pin(t, known', w, later).1 <==> v == w && !v.Boxed?
  {
    hide Inv, Runs, HeldThroughout, Holders, Pin;
    ReachableOk(s);
    ToValueRoundTrip(s, known, v, spot);
    PinKeeps(s, known, v, spot, []);
    var m, x := Pin(s, known, v, spot).0, Pin(s, known, v, spot).1.value;
    RunKeeps(m, es, t);
    ToValueRoundTrip(t, known', w, later);
    if v.Immediate? || w.Immediate? {
      ImmediateWord(s, known, v, spot);
      ImmediateWord(t, known', w, later);
    } else {
      ValueIsStable(m, es, t, x);
      LaterWord(t, known', w, later, x);
    }
  }

  lemma ImmediateWord(s: State, known: set<nat>, v: RubyValue, spot: Word)
    ensures v.Immediate? ==> Pin(s, known, v, spot).1 == Some(v.word)
  {
  }

  /** The word a conversion answers beside one that is live already. */
  lemma LaterWord(t: State, known: set<nat>, w: RubyValue, later: Word, x: Word)
    requires Inv(t, []) && x in t.entries && Presentable(t, w) && FreeSpot(t.entries, later)
    requires !w.Immediate? && Pin(t, known, w, later).1.Some?
    ensures Pin(t, known, w, later).1.value == x <==> t.entries[x].value == w && !w.Boxed?
  {
    hide Inv, Holders;
    if w.Boxed? {
      assert Pin(t, known, w, later).1.value == later;
    } else {
      ToValueRoundTrip(t, known, w, later);
      PinFrame(t, known, w, later);
      PinKeeps(t, known, w, later, []);
      hide Pin;
      EqualityIsIdentity(Pin(t, known, w, later).0, Pin(t, known, w, later).1.value, x);
    }
  }

  // ---- counts in 32 bits ---------------------------------------------------------------

  const U32_MAX: nat := 0xFFFF_FFFF

  /** The code counts pins in 32 bits. No count is past the number of listings there are,
      so while those number no more than that the counts are exact. */
  lemma CountsFit(s: State, a: Word)
    requires Reachable(s) && a in s.entries && |Holders(s)| <= U32_MAX
    ensures s.entries[a].pins <= U32_MAX
  {
    ReachableOk(s);
    hide ShapeOk, RefsBalance, Holders;
    assert Holders(s) + PendingPins([]) == Holders(s);
    CountIsPart(Holders(s), a);
  }

  lemma CountIsPart(m: multiset<Word>, a: Word)
    ensures m[a] <= |m|
  {
    var others := m[a := 0];
    assert m == others + multiset{}[a := m[a]];
    assert |m| == |others| + |multiset{}[a := m[a]]|;
  }
}
