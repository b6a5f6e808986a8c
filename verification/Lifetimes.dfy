/** How long each holder keeps a handle: a retained word for the life of the struct, a
    marked one while it is reported, a converted one until its call returns, a registered
    one for the process. Every statement is over all runs, with addresses used again. */
module Lifetimes {
  import opened HandleState
  import opened HandleInvariant
  import opened HandleOps
  import opened OpsKeep
  import opened RefreshKeeps
  import opened RoundTrip
  import opened Frames
  import opened MarkRefresh
  import opened HandleContracts
  import opened HandleRuns
  import opened HandleTheorems
  import opened PopExact

  // ---- what a step leaves of a struct ----------------------------------------------------------

  function Retained(b: Body): seq<Word> {
    if b.CStruct? then b.retained else []
  }

  function Marked(b: Body): seq<Word> {
    if b.CStruct? then b.marked else []
  }

  function Reports(b: Body): seq<Word> {
    if b.CStruct? then b.reports else []
  }

  /** What is marked and reported stays marked. */
  predicate KeepsMarks(b: Body, c: Body) {
    forall x :: x in Marked(b) && x in Reports(b) ==> x in Marked(c)
  }

  /** The same object later: it retains what it did, and marks what it reported. */
  predicate Later(o: Object, r: Object) {
    r.serial == o.serial && Retained(o.body) <= Retained(r.body) && KeepsMarks(o.body, r.body)
  }

  predicate HeapLater(h: Heap, g: Heap) {
    forall p :: p in g ==> p in h && Later(h[p], g[p])
  }

  /** A refresh or a cascade: the C side has no part in it. */
  predicate Quiet(o: Object, r: Object) {
    && r.serial == o.serial && Retained(r.body) == Retained(o.body) && Reports(r.body) == Reports(o.body)
    && KeepsMarks(o.body, r.body)
  }

  predicate HeapQuiet(h: Heap, g: Heap) {
    forall p :: p in g ==> p in h && Quiet(h[p], g[p])
  }

  lemma QuietTransitive(h: Heap, g: Heap, f: Heap)
    requires HeapQuiet(h, g) && HeapQuiet(g, f)
    ensures HeapQuiet(h, f)
  {
    forall p | p in f ensures p in h && Quiet(h[p], f[p]) {
      assert Quiet(h[p], g[p]) && Quiet(g[p], f[p]);
    }
  }

  lemma SettleQuiet(s: State, ws: seq<Work>)
    ensures HeapQuiet(s.heap, Settle(s, ws).heap)
  {
    SettleReleases(s, ws);
  }

  lemma RefreshedQuiet(b: Body)
    requires b.CStruct?
    ensures KeepsMarks(b, Refreshed(b))
  {
    AddEdgesExtends(b.reports, b.marked);
    Partition(All(b), b.reports);
    hide AddEdges, Among;
    forall x | x in b.marked ensures x in All(b) {
      var i :| 0 <= i < |b.marked| && b.marked[i] == x;
      assert All(b)[i] == x;
    }
  }

  lemma RefreshQuiet(s: State, q: Word, busy: bool)
    ensures HeapQuiet(s.heap, Refresh(s, q, busy).heap)
  {
    if q in s.heap && Refreshes(s.heap[q].body, busy) {
      RefreshedBodies(s, q, busy);
      RefreshReleases(s, q, busy);
      RefreshedQuiet(s.heap[q].body);
      hide Refresh;
      var t := Refresh(s, q, busy);
      forall p | p in t.heap ensures p in s.heap && Quiet(s.heap[p], t.heap[p]) {
        assert SameObject(s.heap[p], t.heap[p]);
      }
    }
  }

  lemma {:induction false} RefreshAllQuiet(s: State, l: seq<Word>, busy: bool)
    ensures HeapQuiet(s.heap, RefreshAll(s, l, busy).heap)
    decreases |l|
  {
    hide Refresh;
    if l != [] {
      var t := RefreshFor(s, l[0], busy);
      if l[0] in s.entries && s.entries[l[0]].value.Heap? {
        RefreshQuiet(s, s.entries[l[0]].value.payload, busy);
      }
      hide RefreshFor, Quiet;
      assert HeapQuiet(s.heap, t.heap) by {
        QuietItself(s.heap);
      }
      RefreshAllQuiet(t, l[1..], busy);
      QuietTransitive(s.heap, t.heap, RefreshAll(s, l, busy).heap);
    }
  }

  lemma QuietItself(h: Heap)
    ensures HeapQuiet(h, h)
  {
  }

  lemma PopQuiet(s: State, busy: bool)
    requires s.scopes != []
    ensures HeapQuiet(s.heap, ScopePop(s, busy).heap)
  {
    hide HeapQuiet, RefreshAll, Settle;
    var t, top := Popping(s), TopScope(s);
    RefreshAllQuiet(t, top, busy);
    SettleQuiet(RefreshAll(t, top, busy), Unpins(top));
    QuietTransitive(s.heap, RefreshAll(t, top, busy).heap, ScopePop(s, busy).heap);
  }

  // ---- every step ------------------------------------------------------------------------------

  lemma LaterItself(h: Heap)
    ensures HeapLater(h, h)
  {
  }

  lemma QuietIsLater(h: Heap, g: Heap)
    requires HeapQuiet(h, g)
    ensures HeapLater(h, g)
  {
    forall p | p in g ensures p in h && Later(h[p], g[p]) {
      assert Quiet(h[p], g[p]);
    }
  }

  lemma CountsLater(h: Heap, g: Heap)
    requires ObjectsKept(h, g)
    ensures HeapLater(h, g)
  {
  }

  lemma EditLater(h: Heap, p: Word, o: Object)
    requires p in h && Later(h[p], o)
    ensures HeapLater(h, h[p := o])
  {
  }

  lemma StoreLater(s: State, p: Word, q: Word)
    requires p in s.heap && q in s.heap && s.heap[p].body.Ruby?
    ensures HeapLater(s.heap, StoreRef(s, p, q).heap)
  {
  }

  lemma ClearLater(s: State, p: Word, i: nat)
    requires p in s.heap && s.heap[p].body.Ruby? && i < |s.heap[p].body.held|
    ensures HeapLater(s.heap, ClearRef(s, p, i).heap)
  {
    hide Settle;
    var held := s.heap[p].body.held;
    var t := SetBody(s, p, Ruby(held[..i] + held[i + 1..]));
    SettleQuiet(t, [DropRef(held[i])]);
    assert HeapQuiet(s.heap, t.heap);
    QuietTransitive(s.heap, t.heap, ClearRef(s, p, i).heap);
    QuietIsLater(s.heap, ClearRef(s, p, i).heap);
  }

  lemma BarrierLater(s: State, owner: Word, young: Word)
    requires Live(s, owner)
    ensures HeapLater(s.heap, Barrier(s, owner, young).heap)
  {
    LaterItself(s.heap);
    var v := ValueOf(s, owner);
    if v.Heap? && IsCData(s, v.payload) {
      var o := s.heap[v.payload];
      EditLater(s.heap, v.payload, o.(body := o.body.(retained := o.body.retained + [young])));
    }
  }

  lemma KlassWordLater(s: State, known: set<nat>, a: Word, other: nat, spot: Word)
    requires a in s.entries && spot !in s.entries
    ensures HeapLater(s.heap, KlassWord(s, known, a, other, spot).0.heap)
    ensures KlassWord(s, known, a, other, spot).0.nextSerial == s.nextSerial
  {
    LaterItself(s.heap);
    var c := Class(ClassOf(s, s.entries[a].value, other));
    PinFrame(s, known, c, spot);
    CountsLater(s.heap, Pin(s, known, c, spot).0.heap);
  }

  /** Of the objects there were before a step, those still there are later forms of themselves. */
  ghost predicate AllLater(s: State, t: State) {
    && s.nextSerial <= t.nextSerial
    && forall p :: p in t.heap && t.heap[p].serial < s.nextSerial ==> p in s.heap && Later(s.heap[p], t.heap[p])
  }

  lemma HeapLaterIs(s: State, t: State)
    requires HeapLater(s.heap, t.heap) && t.nextSerial == s.nextSerial
    ensures AllLater(s, t)
  {
  }

  lemma AllocLater(s: State, p: Word, cls: nat, b: Body)
    requires p !in s.heap
    ensures AllLater(s, Alloc(s, p, cls, b))
  {
  }

  lemma NextHeapLater(s: State, e: Event)
    requires Allowed(s, e) && !e.Allocate? && !e.Duplicate?
    ensures HeapLater(s.heap, Next(s, e).heap) && Next(s, e).nextSerial == s.nextSerial
  {
    hide Settle, ScopePop, PopContract, Pin, KlassWord, Presentable, PinEntry, StoreRef, ClearRef, Barrier, Later, HeapLater;
    LaterItself(s.heap);
    match e
    case CloneRoot(p) => RootLater(s, p);
    case ReleaseRoot(p) =>
      SettleQuiet(s.(roots := s.roots - multiset{p}), [DropRef(p)]);
      QuietIsLater(s.heap, Next(s, e).heap);
      SettleReleases(s.(roots := s.roots - multiset{p}), [DropRef(p)]);
    case Store(p, q) => StoreLater(s, p, q); StoreSerial(s, p, q);
    case Clear(p, i) => ClearLater(s, p, i); ClearSerial(s, p, i);
    case Write(p, reports) => WriteLater(s, p, reports);
    case ToValue(known, v, spot) =>
      PinFrame(s, known, v, spot);
      CountsLater(s.heap, Next(s, e).heap);
      PinSerial(s, known, v, spot);
    case ReadClass(known, a, other, spot) => KlassWordLater(s, known, a, other, spot);
    case Exit(busy) =>
      PopQuiet(s, busy);
      QuietIsLater(s.heap, Next(s, e).heap);
      ScopePopReleases(s, busy);
    case WriteBarrier(owner, young) => BarrierLater(s, owner, young); BarrierSerial(s, owner, young);
    case _ =>
  }

  lemma RootLater(s: State, p: Word)
    requires p in s.heap
    ensures HeapLater(s.heap, TakeRoot(s, p).heap)
  {
    EditLater(s.heap, p, s.heap[p].(refs := s.heap[p].refs + 1));
  }

  lemma WriteLater(s: State, p: Word, reports: seq<Word>)
    requires IsCData(s, p)
    ensures HeapLater(s.heap, CWrite(s, p, reports).heap)
  {
    EditLater(s.heap, p, s.heap[p].(body := s.heap[p].body.(reports := reports)));
  }

  lemma StoreSerial(s: State, p: Word, q: Word)
    requires p in s.heap && q in s.heap && s.heap[p].body.Ruby?
    ensures StoreRef(s, p, q).nextSerial == s.nextSerial
  {
  }

  lemma ClearSerial(s: State, p: Word, i: nat)
    requires p in s.heap && s.heap[p].body.Ruby? && i < |s.heap[p].body.held|
    ensures ClearRef(s, p, i).nextSerial == s.nextSerial
  {
    var held := s.heap[p].body.held;
    SettleReleases(SetBody(s, p, Ruby(held[..i] + held[i + 1..])), [DropRef(held[i])]);
  }

  lemma PinSerial(s: State, known: set<nat>, v: RubyValue, spot: Word)
    ensures Pin(s, known, v, spot).0.nextSerial == s.nextSerial
  {
  }

  lemma BarrierSerial(s: State, owner: Word, young: Word)
    requires Live(s, owner)
    ensures Barrier(s, owner, young).nextSerial == s.nextSerial
  {
  }

  lemma NextLater(s: State, e: Event)
    requires Allowed(s, e)
    ensures AllLater(s, Next(s, e))
  {
    match e
    case Allocate(p, cls, b) => AllocLater(s, p, cls, b);
    case Duplicate(src, typed, p) => AllocLater(s, p, s.heap[src].cls, DupBody(s.heap[src].body, typed));
    case _ =>
      NextHeapLater(s, e);
      hide Next, HeapLater, Allowed;
      HeapLaterIs(s, Next(s, e));
  }

  // ---- the object a run ends with was there all along ----------------------------------------------

  /** The object with this serial is still at `p`. */
  predicate Still(s: State, p: Word, serial: nat) {
    p in s.heap && s.heap[p].serial == serial
  }

  lemma {:induction false} StillBefore(s: State, es: seq<Event>, t: State, p: Word, serial: nat)
    requires Runs(s, es, t) && Still(t, p, serial) && serial < s.nextSerial
    ensures Still(s, p, serial)
    decreases |es|
  {
    hide Allowed, Next;
    if es != [] {
      NextLater(s, es[0]);
      StillBefore(Next(s, es[0]), es[1..], t, p, serial);
    }
  }

  /** From one state of a run to the next, for an object the run ends with. */
  lemma StillStep(s: State, es: seq<Event>, t: State, p: Word)
    requires Inv(s, []) && Runs(s, es, t) && es != [] && p in s.heap && Still(t, p, s.heap[p].serial)
    ensures var m := Next(s, es[0]); Inv(m, []) && p in m.heap && Later(s.heap[p], m.heap[p])
  {
    assert s.heap[p].serial < s.nextSerial;
    NextKeeps(s, es[0]);
    NextLater(s, es[0]);
    hide Inv, Allowed, Next, Later;
    StillBefore(Next(s, es[0]), es[1..], t, p, s.heap[p].serial);
  }

  lemma ListedHeld(s: State, p: Word, x: Word)
    requires p in s.heap && (x in Retained(s.heap[p].body) || x in Marked(s.heap[p].body))
    ensures x in Holders(s)
  {
    ListedInHolders(s, p, x);
  }

  // ---- retained words --------------------------------------------------------------------------

  lemma {:induction false} RetainedHolds(s: State, es: seq<Event>, t: State, p: Word, x: Word)
    requires Inv(s, []) && Runs(s, es, t) && p in s.heap && x in Retained(s.heap[p].body)
    requires Still(t, p, s.heap[p].serial)
    ensures HeldThroughout(s, es, x)
    decreases |es|
  {
    hide Inv, Allowed, Next, Holders;
    ListedHeld(s, p, x);
    if es != [] {
      StillStep(s, es, t, p);
      RetainedHolds(Next(s, es[0]), es[1..], t, p, x);
    }
  }

  /** The barrier lists the stored word in the struct it was stored in, and nothing else
      anywhere. */
  lemma BarrierLists(s: State, owner: Word, young: Word, p: Word, x: Word)
    requires Live(s, owner) && p in s.heap
    ensures p in Barrier(s, owner, young).heap
    ensures x in Retained(Barrier(s, owner, young).heap[p].body)
       <==> || x in Retained(s.heap[p].body)
            || (x == young && !SpecialConst(young) && s.heap[p].body.CStruct?
                && ValueOf(s, owner).Heap? && ValueOf(s, owner).payload == p)
    ensures Marked(Barrier(s, owner, young).heap[p].body) == Marked(s.heap[p].body)
  {
  }

  /** The promise of `RB_OBJ_WRITE`: a `VALUE` stored in a C struct is alive, and names what
      it named, for as long as the struct's object lives. */
  lemma RetainedForLife(s: State, owner: Word, young: Word, es: seq<Event>, t: State)
    requires Reachable(s) && owner in s.entries && young in s.entries
    requires s.entries[owner].value.Heap? && IsCData(s, s.entries[owner].value.payload)
    requires Runs(Barrier(s, owner, young), es, t)
    requires var p := s.entries[owner].value.payload; Still(t, p, s.heap[p].serial)
    ensures young in t.entries && t.entries[young].value == s.entries[young].value
  {
    hide Barrier, Reachable, Runs, Holders, HeldThroughout, Inv, EntryOk;
    ReachableOk(s);
    NoConst(s, owner);
    NoConst(s, young);
    var p, b := s.entries[owner].value.payload, Barrier(s, owner, young);
    BarrierLists(s, owner, young, p, young);
    BarrierStable(s, owner, young);
    BarrierLater(s, owner, young);
    NextKeeps(s, WriteBarrier(owner, young));
    RetainedHolds(b, es, t, p, young);
    HeldInTable(b, es, young);
    ValueIsStable(b, es, t, young);
  }

  lemma NoConst(s: State, a: Word)
    requires Inv(s, []) && a in s.entries
    ensures !SpecialConst(a)
  {
    assert EntryOk(s.byIdentity, a, s.entries[a]);
  }

  lemma HeldInTable(s: State, es: seq<Event>, a: Word)
    requires Inv(s, []) && HeldThroughout(s, es, a) && !SpecialConst(a)
    ensures a in s.entries
  {
    assert a in Holders(s) + PendingPins([]);
  }

  // ---- marked words ----------------------------------------------------------------------------

  /** The mark function of the struct at `p` reports `x` in every state of the run. */
  ghost predicate ReportedThroughout(s: State, es: seq<Event>, p: Word, x: Word)
    decreases |es|
  {
    && (p in s.heap ==> x in Reports(s.heap[p].body))
    && (es != [] ==> Allowed(s, es[0]) && ReportedThroughout(Next(s, es[0]), es[1..], p, x))
  }

  lemma {:induction false} MarkedHolds(s: State, es: seq<Event>, t: State, p: Word, x: Word)
    requires Inv(s, []) && Runs(s, es, t) && p in s.heap && x in Marked(s.heap[p].body)
    requires Still(t, p, s.heap[p].serial) && ReportedThroughout(s, es, p, x)
    ensures HeldThroughout(s, es, x)
    decreases |es|
  {
    hide Inv, Allowed, Next, Holders;
    ListedHeld(s, p, x);
    if es != [] {
      StillStep(s, es, t, p);
      MarkedHolds(Next(s, es[0]), es[1..], t, p, x);
    }
  }

  /** The promise to an extension without write barriers: once marked, a `VALUE` its mark
      function goes on reporting is alive, and names what it named, while the object lives. */
  lemma MarkedWhileReported(s: State, es: seq<Event>, t: State, p: Word, x: Word)
    requires Reachable(s) && Runs(s, es, t) && p in s.heap && x in Marked(s.heap[p].body)
    requires Still(t, p, s.heap[p].serial) && ReportedThroughout(s, es, p, x)
    ensures x in s.entries && x in t.entries && t.entries[x].value == s.entries[x].value
  {
    hide Reachable, Runs, Holders, HeldThroughout, ReportedThroughout;
    ReachableOk(s);
    assert BodyOk(s.heap[p].body);
    assert !SpecialConst(x);
    hide Inv;
    MarkedHolds(s, es, t, p, x);
    HeldInTable(s, es, x);
    ValueIsStable(s, es, t, x);
  }

  /** A struct without a mark function, under the default one, or with nothing in its slot,
      is left alone, and so is any while another listener is up. */
  lemma IdleRefresh(s: State, p: Word, busy: bool)
    requires IsCData(s, p)
    requires s.heap[p].body.mark != Mark || s.heap[p].body.data == 0 || busy
    ensures Refresh(s, p, busy) == s
  {
  }

  /** The list is exactly what the mark function reports. */
  ghost predicate MarksWhatItReports(b: Body) {
    forall x :: x in Marked(b) <==> x in Reports(b) && !SpecialConst(x)
  }

  /** A struct with a mark function and something to hand it. */
  predicate Marks(s: State, p: Word) {
    IsCData(s, p) && s.heap[p].body.mark == Mark && s.heap[p].body.data != 0
  }

  lemma RefreshedMarks(s: State, a: Word, p: Word, ws: seq<Work>)
    requires Inv(s, ws) && a in PendingPins(ws) && CDataAt(s, a, p) && Marks(s, p) && AllLive(s, s.heap[p].body.reports)
    ensures p in Refresh(s, p, false).heap && MarksWhatItReports(Refresh(s, p, false).heap[p].body)
  {
    HandleKeepsObject(s.byIdentity, s.entries, s.heap, a);
    hide Inv, Refresh, PendingPins, AllLive;
    RefreshContents(s, p, false, ws);
  }

  lemma UnmovedMarks(s: State, q: Word, a: Word, p: Word, ws: seq<Work>)
    requires Inv(s, ws) && a in PendingPins(ws) && CDataAt(s, a, p) && q != p
    requires IsCData(s, q) && Refreshes(s.heap[q].body, false) ==> AllLive(s, s.heap[q].body.reports)
    ensures p in Refresh(s, q, false).heap && Refresh(s, q, false).heap[p].body == s.heap[p].body
  {
    HandleKeepsObject(s.byIdentity, s.entries, s.heap, a);
    hide Inv, Refresh, PendingPins, AllLive;
    OthersUntouched(s, q, p, false, ws);
  }

  lemma MarksStep(s: State, c: Word, a: Word, p: Word, ws: seq<Work>)
    requires Inv(s, ws) && ReportsLive(s, c, false) && a in PendingPins(ws)
    requires CDataAt(s, a, p) && Marks(s, p) && (MarksWhatItReports(s.heap[p].body) || c == a)
    ensures var t := RefreshFor(s, c, false);
            && Inv(t, ws) && CDataAt(t, a, p) && Marks(t, p)
            && MarksWhatItReports(t.heap[p].body) && Reports(t.heap[p].body) == Reports(s.heap[p].body)
  {
    hide Inv, Refresh, PendingPins, MarksWhatItReports, AllLive;
    EntryIsNoConst(s, a, ws);
    MarksLater(s, c, a, p, ws);
    if WillRefresh(s, c, false) {
      var q := s.entries[c].value.payload;
      if q == p {
        RefreshedMarks(s, a, p, ws);
      } else {
        UnmovedMarks(s, q, a, p, ws);
      }
    } else {
      UnrefreshedIs(s, c, false);
    }
  }

  lemma {:induction false} MarksAfter(s: State, l: seq<Word>, a: Word, p: Word, ws: seq<Work>)
    requires Inv(s, ws) && PopContract(s, l, false) && a in PendingPins(ws)
    requires CDataAt(s, a, p) && Marks(s, p) && (MarksWhatItReports(s.heap[p].body) || a in l)
    ensures var t := RefreshAll(s, l, false);
            CDataAt(t, a, p) && MarksWhatItReports(t.heap[p].body) && Reports(t.heap[p].body) == Reports(s.heap[p].body)
    decreases |l|
  {
    hide Inv, PendingPins, RefreshFor, MarksWhatItReports, ReportsLive;
    if l != [] {
      if l[0] == a || MarksWhatItReports(s.heap[p].body) {
        MarksStep(s, l[0], a, p, ws);
      } else {
        MarksLater(s, l[0], a, p, ws);
      }
      MarksAfter(RefreshFor(s, l[0], false), l[1..], a, p, ws);
    }
  }

  lemma MarksLater(s: State, c: Word, a: Word, p: Word, ws: seq<Work>)
    requires Inv(s, ws) && ReportsLive(s, c, false) && a in PendingPins(ws) && CDataAt(s, a, p) && Marks(s, p)
    ensures var t := RefreshFor(s, c, false);
            Inv(t, ws) && CDataAt(t, a, p) && Marks(t, p) && Reports(t.heap[p].body) == Reports(s.heap[p].body)
  {
    hide Inv, Refresh, PendingPins;
    if WillRefresh(s, c, false) {
      var q := s.entries[c].value.payload;
      RefreshKeepsInv(s, q, false, ws);
      PinnedStays(s, q, a, false, ws);
    } else {
      UnrefreshedIs(s, c, false);
    }
  }

  /** When a call returns, every struct it handled that lives on marks exactly the handles
      its mark function reports now, and they are alive. */
  lemma ReturnMarks(s: State, a: Word, p: Word)
    requires Reachable(s) && Allowed(s, Exit(false)) && a in TopScope(s)
    requires CDataAt(s, a, p) && Marks(s, p) && p in ScopePop(s, false).heap
    ensures var t := ScopePop(s, false);
            forall x :: && (x in Marked(t.heap[p].body) <==> x in Reports(s.heap[p].body) && !SpecialConst(x))
                        && (x in Reports(s.heap[p].body) ==> Live(t, x))
  {
    hide Inv, Reachable, PopContract, RefreshAll, PendingPins, Settle, MarksWhatItReports;
    ReachableOk(s);
    var t, top := Popping(s), TopScope(s);
    var r := RefreshAll(t, top, false);
    PopPending(s);
    PendingOf(top);
    MarksAfter(t, top, a, p, Unpins(top));
    SettleReleases(r, Unpins(top));
    NextKeeps(s, Exit(false));
    MarksEach(r.heap[p].body);
    forall x | x in Reports(s.heap[p].body) && !SpecialConst(x) ensures Live(ScopePop(s, false), x) {
      ListedLive(ScopePop(s, false), p, x, []);
    }
  }

  lemma MarksEach(b: Body)
    requires MarksWhatItReports(b)
    ensures forall x :: x in Marked(b) <==> x in Reports(b) && !SpecialConst(x)
  {
  }

  // ---- registered words ------------------------------------------------------------------------

  lemma SettleForever(s: State, ws: seq<Work>)
    ensures Settle(s, ws).forever == s.forever && Settle(s, ws).scopes == s.scopes
  {
    SettleReleases(s, ws);
  }

  lemma PinForeverGrows(s: State, known: set<nat>, v: RubyValue, spot: Word)
    ensures s.forever <= Pin(s, known, v, spot).0.forever
  {
  }

  lemma KlassWordForever(s: State, known: set<nat>, a: Word, other: nat, spot: Word)
    requires a in s.entries
    ensures s.forever <= KlassWord(s, known, a, other, spot).0.forever
  {
    PinForeverGrows(s, known, Class(ClassOf(s, s.entries[a].value, other)), spot);
    hide Pin;
  }

  lemma BarrierForever(s: State, owner: Word, young: Word)
    requires Live(s, owner)
    ensures Barrier(s, owner, young).forever == s.forever
  {
  }

  lemma NextForever(s: State, e: Event)
    requires Allowed(s, e)
    ensures s.forever <= Next(s, e).forever
  {
    hide Settle, ScopePop, PopContract, Presentable, PinEntry, Pin, KlassWord, Barrier;
    match e
    case ReleaseRoot(p) => SettleForever(s.(roots := s.roots - multiset{p}), [DropRef(p)]);
    case Clear(p, i) =>
      var held := s.heap[p].body.held;
      SettleForever(SetBody(s, p, Ruby(held[..i] + held[i + 1..])), [DropRef(held[i])]);
    case ToValue(known, v, spot) => PinForeverGrows(s, known, v, spot);
    case ReadClass(known, a, other, spot) => KlassWordForever(s, known, a, other, spot);
    case Exit(busy) => ScopePopReleases(s, busy);
    case WriteBarrier(owner, young) => BarrierForever(s, owner, young);
    case _ =>
  }

  lemma {:induction false} ForeverHolds(s: State, es: seq<Event>, t: State, a: Word)
    requires Runs(s, es, t) && a in s.forever
    ensures HeldThroughout(s, es, a)
    decreases |es|
  {
    hide Allowed, Next;
    if es != [] {
      NextForever(s, es[0]);
      ForeverHolds(Next(s, es[0]), es[1..], t, a);
    }
  }

  lemma RegisterLists(s: State, a: Word)
    requires a in s.entries && !SpecialConst(a)
    ensures a in PinForever(s, a).forever && a in PinForever(s, a).entries
    ensures PinForever(s, a).entries[a].value == s.entries[a].value
  {
  }

  /** A registered `VALUE` is in the table, for the same value, for the rest of the process. */
  lemma RegisteredForever(s: State, a: Word, es: seq<Event>, t: State)
    requires Reachable(s) && a in s.entries && Runs(PinForever(s, a), es, t)
    ensures a in t.entries && t.entries[a].value == s.entries[a].value
  {
    hide Reachable, Runs, Holders, HeldThroughout, PinForever;
    ReachableOk(s);
    assert EntryOk(s.byIdentity, a, s.entries[a]);
    RegisterLists(s, a);
    hide Inv;
    NextKeeps(s, Register(a));
    ForeverHolds(PinForever(s, a), es, t, a);
    ValueIsStable(PinForever(s, a), es, t, a);
  }

  // ---- converted words -------------------------------------------------------------------------

  /** The scope at depth `k` is open in every state of the run. */
  ghost predicate OpenThroughout(s: State, es: seq<Event>, k: nat)
    decreases |es|
  {
    k < |s.scopes| && (es != [] ==> Allowed(s, es[0]) && OpenThroughout(Next(s, es[0]), es[1..], k))
  }

  /** Every scope still open lists what it did. */
  predicate ScopesGrow(ss: seq<seq<Word>>, rr: seq<seq<Word>>) {
    forall k :: 0 <= k < |ss| && k < |rr| ==> ss[k] <= rr[k]
  }

  lemma PinScopes(s: State, known: set<nat>, v: RubyValue, spot: Word)
    ensures ScopesGrow(s.scopes, Pin(s, known, v, spot).0.scopes)
    ensures v.Class? ==> Pin(s, known, v, spot).0.scopes == s.scopes
  {
  }

  lemma KlassWordScopes(s: State, known: set<nat>, a: Word, other: nat, spot: Word)
    requires a in s.entries
    ensures KlassWord(s, known, a, other, spot).0.scopes == s.scopes
  {
    PinScopes(s, known, Class(ClassOf(s, s.entries[a].value, other)), spot);
    hide Pin;
  }

  lemma KeepScopes(s: State, a: Word)
    ensures ScopesGrow(s.scopes, Keep(s, a).scopes)
  {
  }

  lemma BarrierScopes(s: State, owner: Word, young: Word)
    requires Live(s, owner)
    ensures Barrier(s, owner, young).scopes == s.scopes
  {
  }

  lemma NextScopes(s: State, e: Event)
    requires Allowed(s, e)
    ensures ScopesGrow(s.scopes, Next(s, e).scopes)
  {
    hide Settle, ScopePop, PopContract, Presentable, PinEntry, Pin, KlassWord, Keep, Barrier;
    match e
    case ReleaseRoot(p) => SettleForever(s.(roots := s.roots - multiset{p}), [DropRef(p)]);
    case Clear(p, i) =>
      var held := s.heap[p].body.held;
      SettleForever(SetBody(s, p, Ruby(held[..i] + held[i + 1..])), [DropRef(held[i])]);
    case ToValue(known, v, spot) => PinScopes(s, known, v, spot);
    case ReadClass(known, a, other, spot) => KlassWordScopes(s, known, a, other, spot);
    case Exit(busy) => ScopePopReleases(s, busy);
    case KeepValue(a) => KeepScopes(s, a);
    case WriteBarrier(owner, young) => BarrierScopes(s, owner, young);
    case _ =>
  }

  lemma {:induction false} ScopeListed(ss: seq<seq<Word>>, k: nat, a: Word)
    requires k < |ss| && a in ss[k]
    ensures a in ScopePins(ss)
    decreases |ss|
  {
    if k < |ss| - 1 {
      ScopeListed(ss[..|ss| - 1], k, a);
    }
  }

  lemma {:induction false} ScopeHolds(s: State, es: seq<Event>, t: State, k: nat, a: Word)
    requires Runs(s, es, t) && OpenThroughout(s, es, k) && a in s.scopes[k]
    ensures HeldThroughout(s, es, a)
    decreases |es|
  {
    hide Allowed, Next, ScopePins;
    ScopeListed(s.scopes, k, a);
    if es != [] {
      NextScopes(s, es[0]);
      ScopeHolds(Next(s, es[0]), es[1..], t, k, a);
    }
  }

  /** Where `to_value` records its pin: the innermost scope, or for good with none open. */
  lemma PinIsRecorded(s: State, known: set<nat>, v: RubyValue, spot: Word)
    requires Pin(s, known, v, spot).1.Some? && !v.Immediate?
    ensures var (t, w) := Pin(s, known, v, spot);
            && |t.scopes| == |s.scopes|
            && (v.Class? ==> w.value in t.immortal && t.scopes == s.scopes && t.forever == s.forever)
            && (!v.Class? && s.scopes == [] ==> w.value in t.forever)
            && (!v.Class? && s.scopes != [] ==>
                  && t.scopes[|s.scopes| - 1] == TopScope(s) + [w.value] && t.forever == s.forever
                  && t.scopes[..|s.scopes| - 1] == s.scopes[..|s.scopes| - 1])
  {
  }

  /** A converted value is alive, and its `VALUE` reads as it, until the call it was
      converted in returns; a class for ever, and anything converted outside a call. */
  lemma ConvertedUntilReturn(s: State, known: set<nat>, v: RubyValue, spot: Word, es: seq<Event>, t: State)
    requires Reachable(s) && Presentable(s, v) && FreeSpot(s.entries, spot) && Pin(s, known, v, spot).1.Some?
    requires Runs(Pin(s, known, v, spot).0, es, t)
    requires v.Class? || s.scopes == [] || OpenThroughout(Pin(s, known, v, spot).0, es, |s.scopes| - 1)
    ensures var w := Pin(s, known, v, spot).1.value; Live(t, w) && ValueOf(t, w) == v
  {
    hide Reachable, Runs, Holders, HeldThroughout, OpenThroughout, Pin, Inv;
    ReachableOk(s);
    ToValueRoundTrip(s, known, v, spot);
    if !v.Immediate? {
      var m, w := Pin(s, known, v, spot).0, Pin(s, known, v, spot).1.value;
      PinKeeps(s, known, v, spot, []);
      PinIsRecorded(s, known, v, spot);
      if v.Class? {
        ClassHandleForever(m, es, t, w);
      } else {
        if s.scopes == [] {
          ForeverHolds(m, es, t, w);
        } else {
          assert m.scopes[|s.scopes| - 1][|TopScope(s)|] == w;
          ScopeHolds(m, es, t, |s.scopes| - 1, w);
        }
        ValueIsStable(m, es, t, w);
      }
    }
  }

  // ---- the class of a wrapped struct -----------------------------------------------------------

  /** An object wrapped under a class, converted and asked for its class answers that class. */
  lemma WrappedHasItsClass(s: State, p: Word, cls: nat, b: Body, known: set<nat>, spot: Word, other: nat, spot': Word)
    requires Reachable(s) && Allowed(s, Allocate(p, cls, b)) && FreeSpot(s.entries, spot) && cls in known
    requires FreeSpot(Pin(Alloc(s, p, cls, b), known, RubyValue.Heap(p, s.nextSerial), spot).0.entries, spot')
    ensures var (t, w) := Pin(Alloc(s, p, cls, b), known, RubyValue.Heap(p, s.nextSerial), spot);
            && w.Some? && w.value in t.entries
            && var (u, k) := KlassWord(t, known, w.value, other, spot');
               k.Some? && k.value in u.entries && u.entries[k.value].value == Class(cls)
  {
    var m := Alloc(s, p, cls, b);
    assert Presentable(m, RubyValue.Heap(p, s.nextSerial)) && m.heap[p].cls == cls && m.entries == s.entries;
    assert Inv(m, []) by {
      hide Inv, Reachable, Alloc;
      ReachableOk(s);
      NextKeeps(s, Allocate(p, cls, b));
    }
    hide Inv, Reachable, Pin, KlassWord, Alloc, Presentable, Allowed;
    ConvertedHasItsClass(m, p, s.nextSerial, known, spot, other, spot');
  }

  lemma ConvertedHasItsClass(s: State, p: Word, serial: nat, known: set<nat>, spot: Word, other: nat, spot': Word)
    requires Inv(s, []) && Presentable(s, RubyValue.Heap(p, serial)) && FreeSpot(s.entries, spot) && s.heap[p].cls in known
    requires FreeSpot(Pin(s, known, RubyValue.Heap(p, serial), spot).0.entries, spot')
    ensures var (t, w) := Pin(s, known, RubyValue.Heap(p, serial), spot);
            && w.Some? && w.value in t.entries
            && var (u, k) := KlassWord(t, known, w.value, other, spot');
               k.Some? && k.value in u.entries && u.entries[k.value].value == Class(s.heap[p].cls)
  {
    hide Inv, Pin, KlassWord;
    var v := RubyValue.Heap(p, serial);
    ToValueRoundTrip(s, known, v, spot);
    PinFrame(s, known, v, spot);
    PinKeeps(s, known, v, spot, []);
    var t, w := Pin(s, known, v, spot).0, Pin(s, known, v, spot).1;
    assert t.heap[p].cls == s.heap[p].cls;
    assert t.entries[w.value].value == v;
    KlassWordAnswers(t, known, w.value, other, spot');
    var u, k := KlassWord(t, known, w.value, other, spot').0, KlassWord(t, known, w.value, other, spot').1;
    assert k.Some? && u.entries[k.value].value == Class(s.heap[p].cls);
  }
}
