/** The table, the scopes and the `CData` lists as the code keeps them: fields
    updated in place, lists drained in loops, and a release that may drop an object
    whose own drop releases more. Each method is proved against the state functions. */
module HandleTable {
  import opened Options
  import opened Confluence
  import opened HandleState
  import opened HandleOps
  import opened HandleRuns

  // ---- facts about the cascade the methods use ------------------------------------

  lemma SettleShrinks(s: State, ws: seq<Work>)
    ensures Size(Settle(s, ws)) <= Size(s)
  {
    var good := (t: State, ws: seq<Work>) => Size(t) <= Size(s);
    forall t, w, rest ensures Preserves(Fire, good, t, w, rest) {
      FireShrinks(t, w);
    }
    Shrinking();
    assert good(s, ws + []);
    NestedKeeps(Fire, Size, good, s, ws, []);
  }

  /** One `Drop` recorded. */
  function Record(s: State, r: multiset<Release>): State {
    s.(dropped := s.dropped + r)
  }

  lemma FireBesideRecord(s: State, r: multiset<Release>, w: Work)
    ensures Fire(Record(s, r), w) == (Record(Fire(s, w).0, r), Fire(s, w).1)
  {
    if w.DropRef? && w.payload in s.heap {
      var d := Pointer(s.heap[w.payload].body);
      assert s.dropped + r + d == s.dropped + d + r;
    }
  }

  /** The free function may run before the nested releases or after them. */
  lemma FreeBeforeOrAfter(s: State, r: multiset<Release>, ws: seq<Work>)
    ensures Settle(Record(s, r), ws) == Record(Settle(s, ws), r)
  {
    var f := (t: State) => Record(t, r);
    forall t, w ensures Beside(Fire, f, t, w) {
      FireBesideRecord(t, r, w);
    }
    Shrinking();
    NestedBeside(Fire, Size, f, s, ws);
  }

  lemma SettleOne(s: State, w: Work)
    ensures Settle(s, [w]) == Settle(Fire(s, w).0, Fire(s, w).1)
  {
    assert [w] + [] == [w] && Fire(s, w).1 + [] == Fire(s, w).1;
    SettleStep(s, w, []);
  }

  lemma SettlePrefix(s: State, ws: seq<Work>, i: nat)
    requires i < |ws|
    ensures Settle(s, ws[..i + 1]) == Settle(Settle(s, ws[..i]), [ws[i]])
  {
    assert ws[..i + 1] == ws[..i] + [ws[i]];
    SettleAppend(s, ws[..i], [ws[i]]);
  }

  lemma DropLists(b: Body)
    ensures b.CStruct? ==> Unpins(Listed(b)) + Drops(Held(b)) == Unpins(b.retained) + Unpins(b.marked)
    ensures b.Ruby? ==> Unpins(Listed(b)) + Drops(Held(b)) == Drops(b.held)
  {
  }

  // ---- facts about the refresh's loops -------------------------------------------------

  lemma {:induction false} PinEntriesSnoc(t: map<Word, Entry>, l: seq<Word>, x: Word)
    ensures PinEntries(t, l + [x]) == PinEntry(PinEntries(t, l), x)
    decreases |l|
  {
    if l == [] {
      assert l + [x] == [x] && [x][1..] == [];
    } else {
      assert (l + [x])[1..] == l[1..] + [x];
      PinEntriesSnoc(PinEntry(t, l[0]), l[1..], x);
    }
  }

  lemma {:induction false} AmongSnoc(l: seq<Word>, x: Word, edges: seq<Word>)
    ensures Among(l + [x], edges) == Among(l, edges) + OneIf(x in edges, x)
    decreases |l|
  {
    hide OneIf;
    if l == [] {
      assert l + [x] == [x] && [x][1..] == [];
    } else {
      assert (l + [x])[1..] == l[1..] + [x];
      AmongSnoc(l[1..], x, edges);
    }
  }

  lemma {:induction false} NotAmongSnoc(l: seq<Word>, x: Word, edges: seq<Word>)
    ensures NotAmong(l + [x], edges) == NotAmong(l, edges) + OneIf(x !in edges, x)
    decreases |l|
  {
    hide OneIf;
    if l == [] {
      assert l + [x] == [x] && [x][1..] == [];
    } else {
      assert (l + [x])[1..] == l[1..] + [x];
      NotAmongSnoc(l[1..], x, edges);
    }
  }

  lemma NoneStale(s: State, edges: seq<Word>)
    ensures Settle(s, Unpins(NotAmong([], edges))) == s
  {
    assert Unpins([]) == [];
    SettleNone(s);
  }

  lemma {:induction false} RefreshAllSnoc(s: State, l: seq<Word>, x: Word, busy: bool)
    ensures RefreshAll(s, l + [x], busy) == RefreshFor(RefreshAll(s, l, busy), x, busy)
    decreases |l|
  {
    hide RefreshFor;
    if l == [] {
      assert l + [x] == [x] && [x][1..] == [];
    } else {
      assert (l + [x])[1..] == l[1..] + [x];
      RefreshAllSnoc(RefreshFor(s, l[0], busy), l[1..], x, busy);
    }
  }

  // ---- the runtime --------------------------------------------------------------------

  class Runtime {
    var byIdentity: map<Word, Word>
    var entries: map<Word, Entry>
    var heap: map<Word, Object>
    var scopes: seq<seq<Word>>
    ghost var forever: multiset<Word>
    ghost var immortal: multiset<Word>
    ghost var roots: multiset<Word>
    ghost var nextSerial: nat
    ghost var wraps: multiset<Release>
    ghost var dropped: multiset<Release>

    ghost function View(): State
      reads this
    {
      State(byIdentity, entries, heap, scopes, forever, immortal, roots, nextSerial, wraps, dropped)
    }

    constructor ()
      ensures View() == Start()
    {
      byIdentity, entries, heap, scopes := map[], map[], map[], [];
      forever, immortal, roots, nextSerial := multiset{}, multiset{}, multiset{}, 0;
      wraps, dropped := multiset{}, multiset{};
    }

    method PinRaw(a: Word)
      modifies this`entries
      ensures View() == HandleOps.PinRaw(old(View()), a)
    {
      if a in entries {
        entries := entries[a := entries[a].(pins := entries[a].pins + 1)];
      }
    }

    /** `unpin`: the entry leaves both maps first, and is dropped after. */
    method Unpin(a: Word)
      modifies this
      ensures View() == Settle(old(View()), [Work.Unpin(a)])
      decreases |entries| + |heap|, 0
    {
      hide Settle;
      SettleOne(View(), Work.Unpin(a));
      SettleNone(FireUnpin(View(), a).0);
      if a in entries {
        var e := entries[a];
        if e.pins > 1 {
          entries := entries[a := e.(pins := e.pins - 1)];
        } else {
          RemoveEntry(a);
          if e.value.Heap? {
            DropReference(e.value.payload);
          }
        }
      }
    }

    method RemoveEntry(a: Word)
      requires a in entries && entries[a].pins <= 1
      modifies this`entries, this`byIdentity
      ensures View() == FireUnpin(old(View()), a).0 && |entries| < old(|entries|)
    {
      var e := entries[a];
      SizeAfter(entries, a, e);
      entries := entries - {a};
      if e.identity != 0 {
        byIdentity := byIdentity - {e.identity};
      }
    }

    /** One strong reference goes, and at zero the object. */
    method DropReference(p: Word)
      modifies this
      ensures View() == Settle(old(View()), [DropRef(p)])
      decreases |entries| + |heap|, 0
    {
      hide Settle;
      ghost var s := View();
      SettleOne(s, DropRef(p));
      SettleNone(FireDrop(s, p).0);
      if p in heap {
        var o := heap[p];
        if o.refs > 1 {
          heap := heap[p := o.(refs := o.refs - 1)];
        } else {
          SizeAfter(heap, p, o);
          heap := heap - {p};
          ghost var t := View();
          assert FireDrop(s, p).0 == Record(t, Pointer(o.body));
          FreeBeforeOrAfter(t, Pointer(o.body), FireDrop(s, p).1);
          DropObject(o.body);
        }
      }
    }

    /** A `CData` gives back its `retained` pins, then its `marked` pins, then its
        pointer; a Ruby object drops its fields. */
    method DropObject(b: Body)
      modifies this
      ensures View() == Record(Settle(old(View()), Unpins(Listed(b)) + Drops(Held(b))), Pointer(b))
      decreases |entries| + |heap|, 2
    {
      hide Settle, Unpins, Drops;
      ghost var s := View();
      DropLists(b);
      if b.CStruct? {
        UnpinEach(b.retained);
        SettleShrinks(s, Unpins(b.retained));
        UnpinEach(b.marked);
        SettleAppend(s, Unpins(b.retained), Unpins(b.marked));
        dropped := dropped + Pointer(b);
      } else {
        DropEach(b.held);
      }
    }

    method UnpinEach(l: seq<Word>)
      modifies this
      ensures View() == Settle(old(View()), Unpins(l))
      decreases |entries| + |heap|, 1
    {
      hide Settle;
      ghost var s := View();
      SettleNone(s);
      for i := 0 to |l|
        invariant View() == Settle(s, Unpins(l)[..i])
      {
        SettleShrinks(s, Unpins(l)[..i]);
        SettlePrefix(s, Unpins(l), i);
        Unpin(l[i]);
      }
      assert Unpins(l)[..|l|] == Unpins(l);
    }

    method DropEach(l: seq<Word>)
      modifies this
      ensures View() == Settle(old(View()), Drops(l))
      decreases |entries| + |heap|, 1
    {
      hide Settle;
      ghost var s := View();
      SettleNone(s);
      for i := 0 to |l|
        invariant View() == Settle(s, Drops(l)[..i])
      {
        SettleShrinks(s, Drops(l)[..i]);
        SettlePrefix(s, Drops(l), i);
        DropReference(l[i]);
      }
      assert Drops(l)[..|l|] == Drops(l);
    }

    /** The identity lookup, and a new handle on a miss. */
    method Intern(v: RubyValue, spot: Word) returns (a: Word)
      modifies this
      ensures (View(), a) == HandleOps.Intern(old(View()), v, spot)
    {
      var key := Key(v);
      if key != 0 && key in byIdentity {
        a := byIdentity[key];
        PinRaw(a);
        return;
      }
      a := spot;
      if v.Heap? && v.payload in heap {
        heap := heap[v.payload := heap[v.payload].(refs := heap[v.payload].refs + 1)];
      }
      if key != 0 {
        byIdentity := byIdentity[key := a];
      }
      entries := entries[a := Entry(v, key, Q_NIL, 1)];
    }

    /** `pin`: an immediate spells itself, an untagged kind is refused, a class handle
        is never recorded in a scope. */
    method Pin(known: set<nat>, v: RubyValue, spot: Word) returns (w: Option<Word>)
      modifies this
      ensures (View(), w) == HandleOps.Pin(old(View()), known, v, spot)
    {
      hide HandleOps.Intern;
      if v.Immediate? {
        return Some(v.word);
      }
      if !Tagged(known, v) {
        return None;
      }
      var a := Intern(v, spot);
      w := Some(a);
      if v.Class? {
        immortal := immortal + multiset{a};
      } else if scopes == [] {
        forever := forever + multiset{a};
      } else {
        scopes := scopes[|scopes| - 1 := scopes[|scopes| - 1] + [a]];
      }
    }

    /** `RBASIC_CLASS`. */
    method KlassWord(known: set<nat>, a: Word, other: nat, spot: Word) returns (w: Option<Word>)
      requires a in entries
      modifies this
      ensures (View(), w) == HandleOps.KlassWord(old(View()), known, a, other, spot)
    {
      var e := entries[a];
      if e.klass != Q_NIL {
        return Some(e.klass);
      }
      w := Pin(known, Class(if e.value.Heap? && e.value.payload in heap then heap[e.value.payload].cls else other), spot);
      if w.Some? && a in entries {
        entries := entries[a := entries[a].(klass := w.value)];
      }
    }

    /** `rb_gc_register_mark_object`. */
    method PinForever(a: Word)
      modifies this
      ensures View() == HandleOps.PinForever(old(View()), a)
    {
      if !SpecialConst(a) && a in entries {
        PinRaw(a);
        forever := forever + multiset{a};
      }
    }

    /** `retain_write`. */
    method RetainWrite(owner: Word, young: Word)
      requires Live(View(), owner)
      modifies this
      ensures View() == Barrier(old(View()), owner, young)
    {
      if SpecialConst(young) || SpecialConst(owner) {
        return;
      }
      var v := entries[owner].value;
      if v.Heap? && v.payload in heap && heap[v.payload].body.CStruct? {
        var b := heap[v.payload].body;
        if young !in b.retained {
          PinRaw(young);
          heap := heap[v.payload := heap[v.payload].(body := b.(retained := b.retained + [young]))];
        }
      }
    }

    /** `refresh_mark_pins`. */
    method RefreshMarkPins(p: Word, busy: bool)
      requires p in heap
      modifies this
      ensures View() == Refresh(old(View()), p, busy)
    {
      hide Settle, AddEdges, Among, NotAmong, PinEntries;
      ghost var s := View();
      var b := heap[p].body;
      if !b.CStruct? || b.mark != Mark || b.data == 0 || busy {
        return;
      }
      var pins := PinReported(b.reports, b.marked);
      AddEdgesExtends(b.reports, b.marked);
      // The list is locked while it is gone through: nothing sees it before it is done.
      var kept := StillReported(pins, b.reports);
      heap := heap[p := heap[p].(body := b.(marked := kept))];
      assert View() == Repin(s, p);
      ReleaseStale(pins, b.reports);
    }

    /** The first loop: pin and list what is newly reported. */
    method PinReported(edges: seq<Word>, marked: seq<Word>) returns (pins: seq<Word>)
      modifies this`entries
      ensures pins == AddEdges(edges, marked) && marked <= pins
      ensures entries == PinEntries(old(entries), pins[|marked|..])
    {
      pins := marked;
      for i := 0 to |edges|
        invariant marked <= pins && AddEdges(edges[i..], pins) == AddEdges(edges, marked)
        invariant entries == PinEntries(old(entries), pins[|marked|..])
      {
        var e := edges[i];
        assert edges[i..][0] == e && edges[i..][1..] == edges[i + 1..];
        if !SpecialConst(e) && e !in pins {
          PinEntriesSnoc(old(entries), pins[|marked|..], e);
          assert (pins + [e])[|marked|..] == pins[|marked|..] + [e];
          PinRaw(e);
          pins := pins + [e];
        }
      }
    }

    /** What `retain` leaves in the list. */
    method StillReported(pins: seq<Word>, edges: seq<Word>) returns (kept: seq<Word>)
      ensures kept == Among(pins, edges)
    {
      kept := [];
      for i := 0 to |pins|
        invariant kept == Among(pins[..i], edges)
      {
        AmongSnoc(pins[..i], pins[i], edges);
        assert pins[..i + 1] == pins[..i] + [pins[i]];
        if pins[i] in edges {
          kept := kept + [pins[i]];
        }
      }
      assert pins[..|pins|] == pins;
    }

    /** The second loop, `retain`: a word no longer reported is released as it is come to. */
    method ReleaseStale(pins: seq<Word>, edges: seq<Word>)
      modifies this
      ensures View() == Settle(old(View()), Unpins(NotAmong(pins, edges)))
    {
      hide Settle, NotAmong;
      ghost var s := View();
      NoneStale(s, edges);
      assert pins[..0] == [];
      for i := 0 to |pins|
        invariant View() == Settle(s, Unpins(NotAmong(pins[..i], edges)))
      {
        ghost var gone := NotAmong(pins[..i], edges);
        NotAmongSnoc(pins[..i], pins[i], edges);
        assert pins[..i + 1] == pins[..i] + [pins[i]];
        if pins[i] !in edges {
          assert Unpins(gone + [pins[i]]) == Unpins(gone) + [Work.Unpin(pins[i])];
          SettleAppend(s, Unpins(gone), [Work.Unpin(pins[i])]);
          Unpin(pins[i]);
        } else {
          assert gone + [] == gone;
        }
      }
      assert pins[..|pins|] == pins;
    }

    method RefreshMarksFor(a: Word, busy: bool)
      modifies this
      ensures View() == RefreshFor(old(View()), a, busy)
    {
      hide Settle;
      if SpecialConst(a) || a !in entries || !entries[a].value.Heap? {
        return;
      }
      var p := entries[a].value.payload;
      if p in heap {
        RefreshMarkPins(p, busy);
      }
    }

    method EnterScope()
      modifies this`scopes
      ensures View() == ScopeEnter(old(View()))
    {
      scopes := scopes + [[]];
    }

    method KeepInParent(a: Word)
      modifies this`scopes, this`entries
      ensures View() == Keep(old(View()), a)
    {
      if |scopes| >= 2 {
        scopes := scopes[|scopes| - 2 := scopes[|scopes| - 2] + [a]];
        PinRaw(a);
      }
    }

    /** The drop of a `Scope`: refresh every handle it pinned, then release them. */
    method PopScope(busy: bool)
      modifies this
      ensures View() == ScopePop(old(View()), busy)
    {
      hide Settle, RefreshFor;
      if scopes == [] {
        return;
      }
      var pinned := scopes[|scopes| - 1];
      scopes := scopes[..|scopes| - 1];
      ghost var s := View();
      for i := 0 to |pinned|
        invariant View() == RefreshAll(s, pinned[..i], busy)
      {
        RefreshAllSnoc(s, pinned[..i], pinned[i], busy);
        assert pinned[..i + 1] == pinned[..i] + [pinned[i]];
        RefreshMarksFor(pinned[i], busy);
      }
      assert pinned[..|pinned|] == pinned;
      UnpinEach(pinned);
    }
  }
}
