/** The state behind a heap `VALUE`: the two maps of the handle table, the
    refcounted heap the handles keep alive, the scope stack, and the release
    cascade that runs when a pin or a strong reference goes. */
module HandleState {
  import opened Confluence

  /** A machine word: a `VALUE`, the address of a handle, or the address of a payload. */
  type Word = nat

  const Q_NIL: Word := 0x04
  const Q_TRUE: Word := 0x14
  const Q_UNDEF: Word := 0x24

  /** `RB_SPECIAL_CONST_P`. Every allocation is 8-aligned and non-zero. */
  predicate SpecialConst(w: Word) {
    w % 8 != 0 || w == 0 || w == Q_NIL || w == Q_TRUE || w == Q_UNDEF
  }

  /** A Ruby value as the table sees it. `serial` is the object's own identity:
      a payload address may be used again after a free, a serial never is. */
  datatype RubyValue =
    | Immediate(word: Word)                 // spelled by its own word
    | Heap(payload: Word, serial: nat)      // an `Arc`-backed object
    | Class(cid: nat)                       // a class or module
    | Boxed(number: int)                    // a Bignum or an unencodable Float: no identity
    | Untagged(kind: nat)                   // a kind with no established `RUBY_T_*` tag

  /** Class keys are odd; payload addresses are 8-aligned. */
  function ClassKey(cid: nat): Word {
    2 * cid + 1
  }

  /** The key `intern` looks up, and 0 for a value with no identity to share. */
  function Key(v: RubyValue): Word {
    match v
    case Heap(p, _) => p
    case Class(c) => ClassKey(c)
    case _ => 0
  }

  /** One handle: the value it holds strongly, its key, the memoized `klass` word. */
  datatype Entry = Entry(value: RubyValue, identity: Word, klass: Word, pins: nat)

  datatype MarkFn = NoMark | DefaultMark | Mark
  datatype FreeFn = NoFree | DefaultFree | Free(f: nat)

  /** What an object's own fields refer to. An ordinary object holds strong
      references. A `CData` holds a C struct: `reports` is what its mark function
      would report now, `retained` and `marked` are the handles it keeps pinned. */
  datatype Body =
    | Ruby(held: seq<Word>)
    | CStruct(data: Word, mark: MarkFn, free: FreeFn,
              reports: seq<Word>, retained: seq<Word>, marked: seq<Word>)

  datatype Object = Object(serial: nat, cls: nat, refs: nat, body: Body)

  /** The C pointers freed so far are kept with the function they went to. */
  type Release = (Word, FreeFn)

  datatype State = State(
    byIdentity: map<Word, Word>,
    entries: map<Word, Entry>,
    heap: map<Word, Object>,
    scopes: seq<seq<Word>>,
    forever: multiset<Word>,      // process-long pins
    immortal: multiset<Word>,     // the pins a class handle never gives back
    roots: multiset<Word>,        // strong references held by running Ruby code
    nextSerial: nat,
    wraps: multiset<Release>,     // every non-null pointer a CData was built with
    dropped: multiset<Release>)   // every one a CData died with

  function Listed(b: Body): seq<Word> {
    if b.CStruct? then b.retained + b.marked else []
  }

  function Held(b: Body): seq<Word> {
    if b.Ruby? then b.held else []
  }

  function Pointer(b: Body): multiset<Release> {
    if b.CStruct? && b.data != 0 then multiset{(b.data, b.free)} else multiset{}
  }

  // ---- the release cascade ----------------------------------------------

  /** One release still to be done. */
  datatype Work = Unpin(addr: Word) | DropRef(payload: Word)

  function Unpins(l: seq<Word>): (ws: seq<Work>)
    ensures |ws| == |l| && forall i :: 0 <= i < |l| ==> ws[i] == Unpin(l[i])
  {
    seq(|l|, i requires 0 <= i < |l| => Unpin(l[i]))
  }

  function Drops(l: seq<Word>): (ws: seq<Work>)
    ensures |ws| == |l| && forall i :: 0 <= i < |l| ==> ws[i] == DropRef(l[i])
  {
    seq(|l|, i requires 0 <= i < |l| => DropRef(l[i]))
  }

  /** The strong reference a dropped handle gives up. */
  function ValueRefs(v: RubyValue): seq<Work> {
    if v.Heap? then [DropRef(v.payload)] else []
  }

  /** `unpin` under the table lock, and what dropping the removed entry asks for. */
  function FireUnpin(s: State, a: Word): (State, seq<Work>) {
    if a !in s.entries then (s, [])
    else
      var e := s.entries[a];
      if e.pins > 1 then (s.(entries := s.entries[a := e.(pins := e.pins - 1)]), [])
      else
        (s.(entries := s.entries - {a},
            byIdentity := if e.identity != 0 then s.byIdentity - {e.identity} else s.byIdentity),
         ValueRefs(e.value))
  }

  /** One strong count less, and the object's own `Drop` at zero. */
  function FireDrop(s: State, p: Word): (State, seq<Work>) {
    if p !in s.heap then (s, [])
    else
      var o := s.heap[p];
      if o.refs > 1 then (s.(heap := s.heap[p := o.(refs := o.refs - 1)]), [])
      else
        (s.(heap := s.heap - {p}, dropped := s.dropped + Pointer(o.body)),
         Unpins(Listed(o.body)) + Drops(Held(o.body)))
  }

  function Fire(s: State, w: Work): (State, seq<Work>) {
    match w
    case Unpin(a) => FireUnpin(s, a)
    case DropRef(p) => FireDrop(s, p)
  }

  function Size(s: State): nat {
    |s.entries| + |s.heap|
  }

  /** A release that asks for more has removed a handle or an object. */
  lemma FireShrinks(s: State, w: Work)
    ensures ShrinksAt(Fire, Size, s, w)
  {
    match w {
      case Unpin(a) =>
        if a in s.entries {
          var e := s.entries[a];
          SizeAfter(s.entries, a, e.(pins := if e.pins > 0 then e.pins - 1 else 0));
        }
      case DropRef(p) =>
        if p in s.heap {
          var o := s.heap[p];
          SizeAfter(s.heap, p, o.(refs := if o.refs > 0 then o.refs - 1 else 0));
        }
    }
  }

  lemma SizeAfter<K, V>(m: map<K, V>, k: K, v: V)
    requires k in m
    ensures |m - {k}| == |m| - 1 && |m[k := v]| == |m|
  {
    assert (m - {k}).Keys == m.Keys - {k};
    assert m[k := v].Keys == m.Keys;
    assert |m - {k}| == |(m - {k}).Keys| && |m[k := v]| == |m[k := v].Keys| && |m| == |m.Keys|;
  }

  lemma Shrinking()
    ensures Shrinks(Fire, Size)
  {
    forall s, w ensures ShrinksAt(Fire, Size, s, w) {
      FireShrinks(s, w);
    }
  }

  /** Depth first, as nested `Drop`s run: what a release asks for is done before
      its caller's next release. */
  function Settle(s: State, ws: seq<Work>): State {
    Shrinking();
    Nested(Fire, Size, s, ws)
  }

  lemma SettleAppend(s: State, ws: seq<Work>, more: seq<Work>)
    ensures Settle(s, ws + more) == Settle(Settle(s, ws), more)
  {
    Shrinking();
    NestedAppend(Fire, Size, s, ws, more);
  }

  lemma SettleStep(s: State, w: Work, rest: seq<Work>)
    ensures Settle(s, [w] + rest) == Settle(Fire(s, w).0, Fire(s, w).1 + rest)
  {
    Shrinking();
    assert ([w] + rest)[1..] == rest;
  }

  lemma SettleNone(s: State)
    ensures Settle(s, []) == s
  {
    Shrinking();
  }
}
