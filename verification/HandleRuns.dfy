/** Whole runs: any interleaving of allocations, reference drops, conversions,
    scopes, barriers and C writes, with freed addresses handed out again. */
module HandleRuns {
  import opened HandleState
  import opened HandleInvariant
  import opened HandleOps
  import opened OpsKeep
  import opened OpsKeepMore
  import opened RefreshKeeps
  import opened RoundTrip

  datatype Event =
    | Allocate(p: Word, cls: nat, body: Body)              // a Ruby object, or a wrapped C struct
    | Duplicate(src: Word, typed: bool, p: Word)           // `dup` of a `CData` with no C allocator
    | CloneRoot(p: Word)                                   // running code takes a reference
    | ReleaseRoot(p: Word)                                 // and gives one up
    | Store(p: Word, q: Word)                              // a field is assigned
    | Clear(p: Word, i: nat)                               // and overwritten
    | Write(p: Word, reports: seq<Word>)                   // C assigns in its struct
    | ToValue(known: set<nat>, v: RubyValue, spot: Word)   // `to_value`
    | ReadClass(known: set<nat>, a: Word, other: nat, spot: Word)  // `RBASIC_CLASS`
    | Enter                                                // a Ruby-to-C entry
    | Exit(busy: bool)                                     // and its return
    | KeepValue(a: Word)                                   // the returned `VALUE`
    | WriteBarrier(owner: Word, young: Word)               // `rb_gc_writebarrier`
    | Register(a: Word)                                    // `rb_gc_register_mark_object`

  /** An address the allocator may hand out for a payload: any free one. */
  predicate FreePayload(s: State, p: Word) {
    p !in s.heap && !SpecialConst(p)
  }

  /** What the runtime, the allocator and a correct extension guarantee. */
  ghost predicate Allowed(s: State, e: Event) {
    match e
    case Allocate(p, _, b) => FreePayload(s, p) && Listed(b) == [] && Held(b) == []
    case Duplicate(src, _, p) => IsCData(s, src) && FreePayload(s, p)
    case CloneRoot(p) => p in s.heap
    case ReleaseRoot(p) => p in s.roots
    case Store(p, q) => p in s.heap && q in s.heap && s.heap[p].body.Ruby?
    case Clear(p, i) => p in s.heap && s.heap[p].body.Ruby? && i < |s.heap[p].body.held|
    case Write(p, _) => IsCData(s, p)
    case ToValue(_, v, spot) => Presentable(s, v) && FreeSpot(s.entries, spot)
    case ReadClass(_, a, _, spot) => a in s.entries && FreeSpot(s.entries, spot)
    case Enter => true
    case Exit(busy) =>
      s.scopes != [] && PopContract(s.(scopes := s.scopes[..|s.scopes| - 1]), s.scopes[|s.scopes| - 1], busy)
    case KeepValue(a) => Live(s, a)
    case WriteBarrier(owner, young) => Live(s, owner) && Live(s, young)
    case Register(_) => true
  }

  ghost function Next(s: State, e: Event): State
    requires Allowed(s, e)
  {
    match e
    case Allocate(p, cls, b) => Alloc(s, p, cls, b)
    case Duplicate(src, typed, p) => Alloc(s, p, s.heap[src].cls, DupBody(s.heap[src].body, typed))
    case CloneRoot(p) => TakeRoot(s, p)
    case ReleaseRoot(p) => DropRoot(s, p)
    case Store(p, q) => StoreRef(s, p, q)
    case Clear(p, i) => ClearRef(s, p, i)
    case Write(p, reports) => CWrite(s, p, reports)
    case ToValue(known, v, spot) => Pin(s, known, v, spot).0
    case ReadClass(known, a, other, spot) => KlassWord(s, known, a, other, spot).0
    case Enter => ScopeEnter(s)
    case Exit(busy) => ScopePop(s, busy)
    case KeepValue(a) => Keep(s, a)
    case WriteBarrier(owner, young) => Barrier(s, owner, young)
    case Register(a) => PinForever(s, a)
  }

  /** Every step keeps the invariant. */
  lemma NextKeeps(s: State, e: Event)
    requires Inv(s, []) && Allowed(s, e)
    ensures Inv(Next(s, e), [])
  {
    hide Inv;
    match e
    case Allocate(p, cls, b) => AllocKeeps(s, p, cls, b);
    case Duplicate(src, typed, p) => AllocKeeps(s, p, s.heap[src].cls, DupBody(s.heap[src].body, typed));
    case CloneRoot(p) => TakeRootKeeps(s, p);
    case ReleaseRoot(p) => DropRootKeeps(s, p);
    case Store(p, q) => StoreRefKeeps(s, p, q);
    case Clear(p, i) => ClearRefKeeps(s, p, i);
    case Write(p, reports) => CWriteKeeps(s, p, reports);
    case ToValue(known, v, spot) => PinKeeps(s, known, v, spot, []);
    case ReadClass(known, a, other, spot) => KlassWordKeeps(s, known, a, other, spot);
    case Enter => ScopeEnterKeeps(s);
    case Exit(busy) => ScopePopKeeps(s, busy);
    case KeepValue(a) => KeepKeeps(s, a, []);
    case WriteBarrier(owner, young) => BarrierKeeps(s, owner, young, []);
    case Register(a) => PinForeverKeeps(s, a, []);
  }

  // ---- runs --------------------------------------------------------------------------

  function Start(): State {
    State(map[], map[], map[], [], multiset{}, multiset{}, multiset{}, 0, multiset{}, multiset{})
  }

  ghost predicate Runs(s: State, es: seq<Event>, t: State)
    decreases |es|
  {
    if es == [] then s == t
    else Allowed(s, es[0]) && Runs(Next(s, es[0]), es[1..], t)
  }

  ghost predicate Reachable(s: State) {
    exists es :: Runs(Start(), es, s)
  }

  lemma StartOk()
    ensures Inv(Start(), [])
  {
    var s := Start();
    assert ScopePins(s.scopes) == multiset{};
    assert CDataPins(s.heap) == multiset{} && HeldRefs(s.heap) == multiset{} && LivePointers(s.heap) == multiset{};
  }

  lemma {:induction false} RunKeeps(s: State, es: seq<Event>, t: State)
    requires Inv(s, []) && Runs(s, es, t)
    ensures Inv(t, [])
    decreases |es|
  {
    hide Inv, Allowed, Next;
    if es != [] {
      NextKeeps(s, es[0]);
      RunKeeps(Next(s, es[0]), es[1..], t);
    }
  }

  lemma ReachableOk(s: State)
    requires Reachable(s)
    ensures Inv(s, [])
  {
    hide Inv;
    var es :| Runs(Start(), es, s);
    StartOk();
    RunKeeps(Start(), es, s);
  }

  lemma StartReachable()
    ensures Reachable(Start())
  {
    assert Runs(Start(), [], Start());
  }

  lemma NextReachable(s: State, e: Event)
    requires Reachable(s) && Allowed(s, e)
    ensures Reachable(Next(s, e))
  {
    var es :| Runs(Start(), es, s);
    hide Allowed, Next;
    RunsAppend(Start(), es, s, e);
  }

  lemma {:induction false} RunsAppend(s: State, es: seq<Event>, t: State, e: Event)
    requires Runs(s, es, t) && Allowed(t, e)
    ensures Runs(s, es + [e], Next(t, e))
    decreases |es|
  {
    hide Allowed, Next;
    if es != [] {
      RunsAppend(Next(s, es[0]), es[1..], t, e);
      assert (es + [e])[1..] == es[1..] + [e];
    } else {
      assert ([] + [e])[1..] == [];
      assert es + [e] == [e];
    }
  }
}
