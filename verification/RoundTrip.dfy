/** `to_value` and `value_of`: what a `VALUE` names. */
module RoundTrip {
  import opened HandleState
  import opened HandleInvariant
  import opened HandleOps
  import opened OpsKeep

  /** A value running code can hand to C: an object that is alive, or an immediate
      under its own spelling. */
  predicate Presentable(s: State, v: RubyValue) {
    Names(s.heap, v) && (v.Immediate? ==> SpecialConst(v.word) && v.word != Q_UNDEF)
  }

  /** Two keys meet only when they spell the same identity. */
  lemma KeysAreIdentities(v: RubyValue, w: RubyValue)
    requires Handled(v) && Handled(w) && Key(v) != 0 && Key(v) == Key(w)
    ensures v.Heap? ==> w.Heap? && w.payload == v.payload
    ensures v.Class? ==> w == v
  {
  }

  /** An identity-table hit names the object that was interned, whatever objects
      have lived and died at its address before. */
  lemma HitNamesTheSame(s: State, v: RubyValue)
    requires TableOk(s.byIdentity, s.entries) && NamesOk(s.entries, s.heap)
    requires Handled(v) && Names(s.heap, v) && Key(v) in s.byIdentity
    ensures s.byIdentity[Key(v)] in s.entries && s.entries[s.byIdentity[Key(v)]].value == v
  {
    var a := s.byIdentity[Key(v)];
    assert KeyOk(a, s.entries, Key(v));
    var e := s.entries[a];
    assert EntryOk(s.byIdentity, a, e) && Names(s.heap, e.value);
    KeysAreIdentities(v, e.value);
  }

  /** `value_of(to_value(v))` is `v`; `to_value` refuses exactly the kinds with no tag and
      the ids the class table does not know. */
  lemma ToValueRoundTrip(s: State, known: set<nat>, v: RubyValue, spot: Word)
    requires Inv(s, []) && Presentable(s, v) && FreeSpot(s.entries, spot)
    ensures var (t, w) := Pin(s, known, v, spot);
            && (w.None? <==> v.Untagged? || (v.Class? && v.cid !in known))
            && (w.None? ==> t == s)
            && (v.Immediate? ==> t == s && w.Some? && w.value == v.word)
            && (w.Some? ==> Live(t, w.value) && ValueOf(t, w.value) == v)
            && (w.Some? ==> (SpecialConst(w.value) <==> v.Immediate?))
  {
    if !v.Immediate? && Tagged(known, v) {
      assert Handled(v);
      if Key(v) in s.byIdentity {
        HitNamesTheSame(s, v);
        assert EntryOk(s.byIdentity, s.byIdentity[Key(v)], s.entries[s.byIdentity[Key(v)]]);
      }
    }
  }

  /** A word that is no handle reads as itself, and `Qundef`, which is no value, as nil. */
  lemma ConstantsReadAsThemselves(s: State, w: Word)
    requires SpecialConst(w)
    ensures Live(s, w) && ValueOf(s, w) == Immediate(if w == 0x24 then 0x04 else w)
  {
  }

  /** Two `VALUE`s are equal exactly when they name the same identity-bearing object. */
  lemma EqualityIsIdentity(s: State, x: Word, y: Word)
    requires Inv(s, []) && x in s.entries && y in s.entries
    requires !s.entries[x].value.Boxed?
    ensures x == y <==> s.entries[x].value == s.entries[y].value
  {
    assert EntryOk(s.byIdentity, x, s.entries[x]) && EntryOk(s.byIdentity, y, s.entries[y]);
  }

  // ---- the klass word -----------------------------------------------------------

  /** The same handles under one other memo. */
  lemma MemoTable(ids: map<Word, Word>, t: Table, h: Heap, a: Word, k: Word)
    requires TableOk(ids, t) && NamesOk(t, h) && a in t
    ensures var u := t[a := t[a].(klass := k)]; TableOk(ids, u) && NamesOk(u, h)
  {
  }

  lemma MemoClasses(t: Table, h: Heap, immortal: multiset<Word>, a: Word, k: Word)
    requires ClassesOk(t, immortal) && KlassOk(t, h) && a in t && KlassNames(t, h, t[a].(klass := k))
    ensures var u := t[a := t[a].(klass := k)]; ClassesOk(u, immortal) && KlassOk(u, h)
  {
    var u := t[a := t[a].(klass := k)];
    forall b | b in u ensures KlassNames(u, h, u[b]) {
      assert KlassNames(t, h, t[b]);
    }
  }

  lemma MemoShape(s: State, a: Word, k: Word)
    requires ShapeOk(s) && a in s.entries && KlassNames(s.entries, s.heap, s.entries[a].(klass := k))
    ensures ShapeOk(s.(entries := s.entries[a := s.entries[a].(klass := k)]))
  {
    hide TableOk, NamesOk, SerialsOk, ListsOk, PointersOk, ClassesOk, KlassOk;
    MemoTable(s.byIdentity, s.entries, s.heap, a, k);
    MemoClasses(s.entries, s.heap, s.immortal, a, k);
  }

  lemma MemoKeeps(s: State, a: Word, k: Word, ws: seq<Work>)
    requires Inv(s, ws) && a in s.entries && KlassNames(s.entries, s.heap, s.entries[a].(klass := k))
    ensures Inv(s.(entries := s.entries[a := s.entries[a].(klass := k)]), ws)
  {
    hide ShapeOk, RefsOk, Holders, Owners, PendingPins, PendingRefs;
    MemoShape(s, a, k);
    var t := s.(entries := s.entries[a := s.entries[a].(klass := k)]);
    assert Holders(t) == Holders(s) && Owners(t) == Owners(s) by {
      MemoSums(s, t.entries);
    }
  }

  lemma MemoSums(s: State, t: Table)
    ensures Holders(s.(entries := t)) == Holders(s) && Owners(s.(entries := t)) == Owners(s)
  {
  }

  /** What `pin` leaves alone: every handle's value, every object's class. */
  predicate HandlesKept(t: Table, u: Table) {
    forall a :: a in t ==> a in u && u[a] == t[a].(pins := u[a].pins)
  }

  predicate ObjectsKept(h: Heap, g: Heap) {
    g.Keys == h.Keys && forall p :: p in h ==> g[p] == h[p].(refs := g[p].refs)
  }

  lemma InternFrame(s: State, v: RubyValue, spot: Word)
    requires spot !in s.entries
    ensures HandlesKept(s.entries, Intern(s, v, spot).0.entries)
    ensures ObjectsKept(s.heap, Intern(s, v, spot).0.heap)
  {
  }

  lemma PinFrame(s: State, known: set<nat>, v: RubyValue, spot: Word)
    requires spot !in s.entries
    ensures HandlesKept(s.entries, Pin(s, known, v, spot).0.entries)
    ensures ObjectsKept(s.heap, Pin(s, known, v, spot).0.heap)
  {
    hide Intern;
    InternFrame(s, v, spot);
  }

  lemma KlassWordKeeps(s: State, known: set<nat>, a: Word, other: nat, spot: Word)
    requires Inv(s, []) && a in s.entries && FreeSpot(s.entries, spot)
    ensures Inv(KlassWord(s, known, a, other, spot).0, [])
  {
    var e := s.entries[a];
    if e.klass == Q_NIL {
      var c := Class(ClassOf(s, e.value, other));
      var t, k := Pin(s, known, c, spot).0, Pin(s, known, c, spot).1;
      ToValueRoundTrip(s, known, c, spot);
      PinFrame(s, known, c, spot);
      PinKeeps(s, known, c, spot, []);
      hide Inv, Pin;
      if k.Some? {
        MemoKeeps(t, a, k.value, []);
      }
    }
  }

  /** `RBASIC_CLASS` answers a live handle for a class: an object's own class, and for
      anything else the one it was told, on the first read and on every memoized one. It
      is refused exactly when there is no memo and the class table has no such class. */
  lemma KlassWordAnswers(s: State, known: set<nat>, a: Word, other: nat, spot: Word)
    requires Inv(s, []) && a in s.entries && FreeSpot(s.entries, spot)
    ensures var (t, k) := KlassWord(s, known, a, other, spot);
            var v := s.entries[a].value;
            var cid := if v.Heap? then s.heap[v.payload].cls else other;
            && (k.None? <==> s.entries[a].klass == Q_NIL && cid !in known)
            && (k.Some? ==> k.value in t.entries && t.entries[k.value].value.Class?)
            && (k.Some? && (v.Heap? || s.entries[a].klass == Q_NIL) ==> t.entries[k.value].value == Class(cid))
  {
    hide TableOk, SerialsOk, ListsOk, ClassesOk, PinsOk, RefsOk, PointersOk, Holders, Owners, Pin;
    var e := s.entries[a];
    assert KlassNames(s.entries, s.heap, e) && Names(s.heap, e.value);
    if e.klass == Q_NIL {
      var c := Class(ClassOf(s, e.value, other));
      ToValueRoundTrip(s, known, c, spot);
      PinFrame(s, known, c, spot);
    }
  }

  /** The answer is memoized: another read, with whatever class table and address, answers
      the same word and changes nothing. */
  lemma KlassWordIsMemoized(s: State, known: set<nat>, a: Word, other: nat, spot: Word,
                            known': set<nat>, other': nat, spot': Word)
    requires Inv(s, []) && a in s.entries && FreeSpot(s.entries, spot) && KlassWord(s, known, a, other, spot).1.Some?
    ensures var (t, k) := KlassWord(s, known, a, other, spot);
            a in t.entries && KlassWord(t, known', a, other', spot') == (t, k)
  {
    var e := s.entries[a];
    if e.klass == Q_NIL {
      var c := Class(ClassOf(s, e.value, other));
      ToValueRoundTrip(s, known, c, spot);
      PinFrame(s, known, c, spot);
      hide Inv, Pin;
    }
  }
}
