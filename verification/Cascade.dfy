/** The release cascade does not depend on the order releases are drained in.

    A `CData` drops its `retained` list and then its `marked` list, each from the
    front, and every release runs its own nested releases first. None of that is
    observable: any way of working the pending releases off, one at a time, ends
    in the same table, the same heap and the same freed pointers. */
module Cascade {
  import opened HandleState
  import opened Confluence

  /** Two different releases commute, and neither changes what the other asks for. */
  lemma FireCommutes(s: State, v: Work, w: Work)
    requires v != w
    ensures Commute(Fire, s, v, w)
  {
    match (v, w) {
      case (Unpin(a), Unpin(b)) => UnpinsCommute(s, a, b);
      case (DropRef(p), DropRef(q)) => DropsCommute(s, p, q);
      case (Unpin(a), DropRef(p)) => UnpinDropCommute(s, a, p);
      case (DropRef(p), Unpin(a)) => UnpinDropCommute(s, a, p);
    }
  }

  lemma DropIgnoresTable(s: State, p: Word, entries: map<Word, Entry>, byIdentity: map<Word, Word>)
    ensures FireDrop(s.(entries := entries, byIdentity := byIdentity), p)
         == (FireDrop(s, p).0.(entries := entries, byIdentity := byIdentity), FireDrop(s, p).1)
  {
  }

  lemma UnpinIgnoresHeap(s: State, a: Word, heap: map<Word, Object>, dropped: multiset<Release>)
    ensures FireUnpin(s.(heap := heap, dropped := dropped), a)
         == (FireUnpin(s, a).0.(heap := heap, dropped := dropped), FireUnpin(s, a).1)
  {
  }

  lemma FiresFrame(s: State, a: Word, p: Word)
    ensures var u := FireUnpin(s, a).0; u == s.(entries := u.entries, byIdentity := u.byIdentity)
    ensures var d := FireDrop(s, p).0; d == s.(heap := d.heap, dropped := d.dropped)
  {
  }

  lemma UnpinDropCommute(s: State, a: Word, p: Word)
    ensures FireDrop(FireUnpin(s, a).0, p).1 == FireDrop(s, p).1
    ensures FireUnpin(FireDrop(s, p).0, a).1 == FireUnpin(s, a).1
    ensures FireDrop(FireUnpin(s, a).0, p).0 == FireUnpin(FireDrop(s, p).0, a).0
  {
    FiresFrame(s, a, p);
    DropIgnoresTable(s, p, FireUnpin(s, a).0.entries, FireUnpin(s, a).0.byIdentity);
    UnpinIgnoresHeap(s, a, FireDrop(s, p).0.heap, FireDrop(s, p).0.dropped);
  }

  /** One count less, or the key gone. */
  function Lower<V>(m: map<Word, V>, k: Word, gone: V -> bool, less: V -> V): map<Word, V> {
    if k !in m then m else if gone(m[k]) then m - {k} else m[k := less(m[k])]
  }

  lemma LowerCommutes<V>(m: map<Word, V>, a: Word, b: Word, gone: V -> bool, less: V -> V)
    requires a != b
    ensures Lower(Lower(m, a, gone, less), b, gone, less) == Lower(Lower(m, b, gone, less), a, gone, less)
  {
  }

  lemma LowerElsewhere<V>(m: map<Word, V>, a: Word, b: Word, gone: V -> bool, less: V -> V)
    requires a != b
    ensures b in Lower(m, a, gone, less) <==> b in m
    ensures b in m ==> Lower(m, a, gone, less)[b] == m[b]
  {
  }

  function LastPin(e: Entry): bool { e.pins <= 1 }
  function OnePinLess(e: Entry): Entry { if e.pins > 0 then e.(pins := e.pins - 1) else e }
  function LastRef(o: Object): bool { o.refs <= 1 }
  function OneRefLess(o: Object): Object { if o.refs > 0 then o.(refs := o.refs - 1) else o }

  function KeyFreed(t: map<Word, Entry>, a: Word): set<Word> {
    if a in t && LastPin(t[a]) && t[a].identity != 0 then {t[a].identity} else {}
  }

  lemma UnpinIs(s: State, a: Word)
    ensures FireUnpin(s, a).0 == s.(entries := Lower(s.entries, a, LastPin, OnePinLess),
                                    byIdentity := s.byIdentity - KeyFreed(s.entries, a))
    ensures FireUnpin(s, a).1 == if a in s.entries && LastPin(s.entries[a]) then ValueRefs(s.entries[a].value) else []
  {
    assert s.byIdentity - {} == s.byIdentity;
  }

  lemma UnpinsCommute(s: State, a: Word, b: Word)
    requires a != b
    ensures FireUnpin(FireUnpin(s, a).0, b).1 == FireUnpin(s, b).1
    ensures FireUnpin(FireUnpin(s, b).0, a).1 == FireUnpin(s, a).1
    ensures FireUnpin(FireUnpin(s, a).0, b).0 == FireUnpin(FireUnpin(s, b).0, a).0
  {
    hide FireUnpin, Lower, ValueRefs, LastPin, OnePinLess;
    UnpinIs(s, a);
    UnpinIs(s, b);
    UnpinIs(FireUnpin(s, a).0, b);
    UnpinIs(FireUnpin(s, b).0, a);
    LowerCommutes(s.entries, a, b, LastPin, OnePinLess);
    LowerElsewhere(s.entries, a, b, LastPin, OnePinLess);
    LowerElsewhere(s.entries, b, a, LastPin, OnePinLess);
    var x, y := KeyFreed(s.entries, a), KeyFreed(s.entries, b);
    assert s.byIdentity - x - y == s.byIdentity - y - x;
  }

  lemma DropIs(s: State, p: Word)
    ensures FireDrop(s, p).0 == s.(heap := Lower(s.heap, p, LastRef, OneRefLess),
                                   dropped := s.dropped + PointerFreed(s.heap, p))
    ensures FireDrop(s, p).1 == if p in s.heap && LastRef(s.heap[p])
                                then Unpins(Listed(s.heap[p].body)) + Drops(Held(s.heap[p].body)) else []
  {
    assert s.dropped + multiset{} == s.dropped;
  }

  function PointerFreed(h: map<Word, Object>, p: Word): multiset<Release> {
    if p in h && LastRef(h[p]) then Pointer(h[p].body) else multiset{}
  }

  lemma DropsCommute(s: State, p: Word, q: Word)
    requires p != q
    ensures FireDrop(FireDrop(s, p).0, q).1 == FireDrop(s, q).1
    ensures FireDrop(FireDrop(s, q).0, p).1 == FireDrop(s, p).1
    ensures FireDrop(FireDrop(s, p).0, q).0 == FireDrop(FireDrop(s, q).0, p).0
  {
    hide FireDrop, Lower, Unpins, Drops, Listed, HandleState.Held, Pointer, LastRef, OneRefLess;
    DropIs(s, p);
    DropIs(s, q);
    DropIs(FireDrop(s, p).0, q);
    DropIs(FireDrop(s, q).0, p);
    LowerCommutes(s.heap, p, q, LastRef, OneRefLess);
    LowerElsewhere(s.heap, p, q, LastRef, OneRefLess);
    LowerElsewhere(s.heap, q, p, LastRef, OneRefLess);
    var x, y := PointerFreed(s.heap, p), PointerFreed(s.heap, q);
    assert s.dropped + x + y == s.dropped + y + x;
  }

  /** The nested order the code runs in is one schedule. */
  lemma SettleDrains(s: State, ws: seq<Work>) returns (order: seq<Work>)
    ensures Drains(Fire, s, multiset(ws), order, Settle(s, ws))
  {
    Shrinking();
    order := NestedDrains(Fire, Size, s, ws);
  }

  /** Whatever order the pending releases are drained in, the result is the one
      nested `Drop`s compute. */
  lemma AnyOrderSettles(s: State, ws: seq<Work>, order: seq<Work>, t: State)
    requires Drains(Fire, s, multiset(ws), order, t)
    ensures t == Settle(s, ws)
  {
    var mine := SettleDrains(s, ws);
    forall s, v, w | v != w ensures Commute(Fire, s, v, w) {
      FireCommutes(s, v, w);
    }
    Confluent(Fire, s, multiset(ws), order, t, mine, Settle(s, ws));
  }

  /** A list may be drained back to front, or a `CData`'s two lists swapped. */
  lemma SettlePermutes(s: State, ws: seq<Work>, vs: seq<Work>)
    requires multiset(ws) == multiset(vs)
    ensures Settle(s, ws) == Settle(s, vs)
  {
    var order := SettleDrains(s, vs);
    AnyOrderSettles(s, ws, order, Settle(s, vs));
  }
}
