/** The invariant of the handle table, stated with the releases still pending:
    between two steps of the program nothing is pending, and inside a cascade the
    pending ones stand in for the counts not yet given back. */
module HandleInvariant {
  import opened Sums
  import opened HandleState

  type Table = map<Word, Entry>
  type Heap = map<Word, Object>

  // ---- who holds a pin, who holds a reference ------------------------------

  function PinsOf(o: Object): multiset<Word> { multiset(Listed(o.body)) }
  function RefsOf(o: Object): multiset<Word> { multiset(Held(o.body)) }
  function PointerOf(o: Object): multiset<Release> { Pointer(o.body) }

  /** Every pin some `CData` holds: one for each list that names the handle. */
  ghost function CDataPins(h: Heap): multiset<Word> {
    SumOver(h, PinsOf)
  }

  /** Every strong reference some object holds in its own fields. */
  ghost function HeldRefs(h: Heap): multiset<Word> {
    SumOver(h, RefsOf)
  }

  /** Every non-null C pointer a live `CData` owns. */
  ghost function LivePointers(h: Heap): multiset<Release> {
    SumOver(h, PointerOf)
  }

  ghost function ScopePins(ss: seq<seq<Word>>): multiset<Word> {
    if ss == [] then multiset{} else ScopePins(ss[..|ss| - 1]) + multiset(ss[|ss| - 1])
  }

  /** Every pin of every holder: the open scopes, the `CData`s, the process, the classes. */
  ghost function Holders(s: State): multiset<Word> {
    ScopePins(s.scopes) + s.forever + s.immortal + CDataPins(s.heap)
  }

  /** Every strong reference that is not a handle's. */
  ghost function Owners(s: State): multiset<Word> {
    s.roots + HeldRefs(s.heap)
  }

  function PendingPins(ws: seq<Work>): multiset<Word> {
    if ws == [] then multiset{}
    else (if ws[0].Unpin? then multiset{ws[0].addr} else multiset{}) + PendingPins(ws[1..])
  }

  function PendingRefs(ws: seq<Work>): multiset<Word> {
    if ws == [] then multiset{}
    else (if ws[0].DropRef? then multiset{ws[0].payload} else multiset{}) + PendingRefs(ws[1..])
  }

  // ---- the parts of the invariant -------------------------------------------

  predicate Handled(v: RubyValue) {
    v.Class? || v.Boxed? || (v.Heap? && !SpecialConst(v.payload))
  }

  /** The two maps describe the same handles, one per identity. */
  ghost predicate TableOk(ids: map<Word, Word>, t: Table) {
    && (forall a :: a in t ==> EntryOk(ids, a, t[a]))
    && (forall k :: k in ids ==> KeyOk(ids[k], t, k))
  }

  predicate EntryOk(ids: map<Word, Word>, a: Word, e: Entry) {
    && !SpecialConst(a) && Handled(e.value) && e.identity == Key(e.value)
    && (e.identity != 0 ==> e.identity in ids && ids[e.identity] == a)
  }

  predicate KeyOk(a: Word, t: Table, k: Word) {
    k != 0 && a in t && t[a].identity == k
  }

  /** A reference names the object it was taken from, not a later one at its address. */
  predicate Names(h: Heap, v: RubyValue) {
    v.Heap? ==> v.payload in h && h[v.payload].serial == v.serial
  }

  ghost predicate NamesOk(t: Table, h: Heap) {
    forall a :: a in t ==> Names(h, t[a].value)
  }

  ghost predicate SerialsOk(h: Heap, next: nat) {
    && (forall p :: p in h ==> !SpecialConst(p) && h[p].serial < next)
    && (forall p, q :: p in h && q in h && h[p].serial == h[q].serial ==> p == q)
  }

  ghost predicate ListOk(l: seq<Word>) {
    NoDup(l) && forall i :: 0 <= i < |l| ==> !SpecialConst(l[i])
  }

  ghost predicate BodyOk(b: Body) {
    b.CStruct? ==> ListOk(b.retained) && ListOk(b.marked)
  }

  /** A `CData` lists a handle at most once in each of its lists. */
  ghost predicate ListsOk(h: Heap) {
    forall p :: p in h ==> BodyOk(h[p].body)
  }

  /** Pin conservation: `owed` is every holder's pins and every pending release.
      A scope may also list an immediate, which has no handle. */
  ghost predicate PinsOk(t: Table, owed: multiset<Word>) {
    && (forall a :: a in t ==> t[a].pins == owed[a] >= 1)
    && (forall a :: a in owed ==> SpecialConst(a) || a in t)
  }

  function HandleRef(ids: map<Word, Word>, p: Word): nat {
    if p in ids then 1 else 0
  }

  /** Reference conservation; a payload's handle is one more reference. */
  ghost predicate RefsOk(h: Heap, ids: map<Word, Word>, owed: multiset<Word>) {
    && (forall p :: p in h ==> h[p].refs == owed[p] + HandleRef(ids, p) >= 1)
    && (forall p :: p in owed ==> p in h)
  }

  /** A class handle, and nothing else, carries pins nobody gives back. */
  ghost predicate ClassesOk(t: Table, immortal: multiset<Word>) {
    && (forall a :: a in t && t[a].value.Class? ==> a in immortal)
    && (forall a :: a in immortal ==> a in t && t[a].value.Class?)
  }

  /** A memoized `klass` word is nil or names a live class handle, the object's own class. */
  ghost predicate KlassOk(t: Table, h: Heap) {
    forall a :: a in t ==> KlassNames(t, h, t[a])
  }

  predicate KlassNames(t: Table, h: Heap, e: Entry) {
    e.klass != Q_NIL ==>
      && e.klass in t && t[e.klass].value.Class?
      && (e.value.Heap? && e.value.payload in h ==> t[e.klass].value.cid == h[e.value.payload].cls)
  }

  /** Every C pointer a `CData` was built with is either still owned by a live one
      or has been through one `Drop`. */
  ghost predicate PointersOk(h: Heap, wraps: multiset<Release>, dropped: multiset<Release>) {
    wraps == LivePointers(h) + dropped
  }

  /** The parts that mention no count. */
  ghost predicate ShapeOk(s: State) {
    && TableOk(s.byIdentity, s.entries)
    && NamesOk(s.entries, s.heap)
    && SerialsOk(s.heap, s.nextSerial)
    && ListsOk(s.heap)
    && ClassesOk(s.entries, s.immortal)
    && KlassOk(s.entries, s.heap)
    && PointersOk(s.heap, s.wraps, s.dropped)
  }

  ghost predicate PinsBalance(s: State, ws: seq<Work>) {
    PinsOk(s.entries, Holders(s) + PendingPins(ws))
  }

  ghost predicate RefsBalance(s: State, ws: seq<Work>) {
    RefsOk(s.heap, s.byIdentity, Owners(s) + PendingRefs(ws))
  }

  ghost predicate Inv(s: State, ws: seq<Work>) {
    ShapeOk(s) && PinsBalance(s, ws) && RefsBalance(s, ws)
  }

  // ---- the sums under an edit -------------------------------------------------

  lemma HeapEdit(h: Heap, p: Word, o: Object)
    requires p in h
    ensures CDataPins(h[p := o]) + PinsOf(h[p]) == CDataPins(h) + PinsOf(o)
    ensures HeldRefs(h[p := o]) + RefsOf(h[p]) == HeldRefs(h) + RefsOf(o)
    ensures LivePointers(h[p := o]) + PointerOf(h[p]) == LivePointers(h) + PointerOf(o)
  {
    SumEdit(h, PinsOf, p, o);
    SumEdit(h, RefsOf, p, o);
    SumEdit(h, PointerOf, p, o);
  }

  /** Changing what an object is counted at, and not what it lists, moves no sum. */
  lemma HeapSameBody(h: Heap, p: Word, o: Object)
    requires p in h && h[p].body == o.body
    ensures CDataPins(h[p := o]) == CDataPins(h)
    ensures HeldRefs(h[p := o]) == HeldRefs(h)
    ensures LivePointers(h[p := o]) == LivePointers(h)
  {
    SumSame(h, PinsOf, p, o);
    SumSame(h, RefsOf, p, o);
    SumSame(h, PointerOf, p, o);
  }

  lemma HeapAdd(h: Heap, p: Word, o: Object)
    requires p !in h
    ensures CDataPins(h[p := o]) == CDataPins(h) + PinsOf(o)
    ensures HeldRefs(h[p := o]) == HeldRefs(h) + RefsOf(o)
    ensures LivePointers(h[p := o]) == LivePointers(h) + PointerOf(o)
  {
    SumAdd(h, PinsOf, p, o);
    SumAdd(h, RefsOf, p, o);
    SumAdd(h, PointerOf, p, o);
  }

  lemma HeapRemove(h: Heap, p: Word)
    requires p in h
    ensures CDataPins(h) == CDataPins(h - {p}) + PinsOf(h[p])
    ensures HeldRefs(h) == HeldRefs(h - {p}) + RefsOf(h[p])
    ensures LivePointers(h) == LivePointers(h - {p}) + PointerOf(h[p])
  {
    SumRemove(h, PinsOf, p);
    SumRemove(h, RefsOf, p);
    SumRemove(h, PointerOf, p);
  }

  lemma {:induction false} PendingAppend(ws: seq<Work>, vs: seq<Work>)
    ensures PendingPins(ws + vs) == PendingPins(ws) + PendingPins(vs)
    ensures PendingRefs(ws + vs) == PendingRefs(ws) + PendingRefs(vs)
  {
    if ws == [] {
      assert ws + vs == vs;
    } else {
      assert (ws + vs)[1..] == ws[1..] + vs;
      PendingAppend(ws[1..], vs);
    }
  }

  lemma {:induction false} PendingUnpins(l: seq<Word>)
    ensures PendingPins(Unpins(l)) == multiset(l) && PendingRefs(Unpins(l)) == multiset{}
  {
    if l == [] {
      assert Unpins(l) == [];
    } else {
      PendingUnpins(l[1..]);
      assert Unpins(l)[0] == Unpin(l[0]) && Unpins(l)[1..] == Unpins(l[1..]);
      hide Unpins;
      assert multiset([l[0]] + l[1..]) == multiset{l[0]} + multiset(l[1..]);
      assert l == [l[0]] + l[1..];
    }
  }

  lemma {:induction false} PendingDrops(l: seq<Word>)
    ensures PendingRefs(Drops(l)) == multiset(l) && PendingPins(Drops(l)) == multiset{}
  {
    if l == [] {
      assert Drops(l) == [];
    } else {
      PendingDrops(l[1..]);
      assert Drops(l)[0] == DropRef(l[0]) && Drops(l)[1..] == Drops(l[1..]);
      hide Drops;
      assert multiset([l[0]] + l[1..]) == multiset{l[0]} + multiset(l[1..]);
      assert l == [l[0]] + l[1..];
    }
  }

  lemma PendingOf(l: seq<Word>)
    ensures PendingPins(Unpins(l)) == multiset(l) && PendingRefs(Unpins(l)) == multiset{}
    ensures PendingRefs(Drops(l)) == multiset(l) && PendingPins(Drops(l)) == multiset{}
  {
    PendingUnpins(l);
    PendingDrops(l);
  }
}
