/** What each entry point does to the state: minting and pinning a handle, the
    write barrier, the mark-driven refresh, scopes, and the Ruby-side allocations
    and reference drops that happen around them. */
module HandleOps {
  import opened Options
  import opened HandleState

  /** `builtin_type` answers a tag: the kind is known and, for a class, so is the id. */
  predicate Tagged(known: set<nat>, v: RubyValue) {
    match v
    case Untagged(_) => false
    case Immediate(_) => false
    case Class(c) => c in known
    case _ => true
  }

  // ---- the table -----------------------------------------------------------

  function PinEntry(t: map<Word, Entry>, a: Word): map<Word, Entry> {
    if a in t then t[a := t[a].(pins := t[a].pins + 1)] else t
  }

  /** `pin_raw`: one more pin on a handle the table has, and nothing otherwise. */
  function PinRaw(s: State, a: Word): State {
    s.(entries := PinEntry(s.entries, a))
  }

  /** The clone of the value a new handle holds. */
  function CloneRef(h: map<Word, Object>, v: RubyValue): map<Word, Object> {
    if v.Heap? && v.payload in h then h[v.payload := h[v.payload].(refs := h[v.payload].refs + 1)] else h
  }

  function Mint(s: State, v: RubyValue, spot: Word): State {
    s.(entries := s.entries[spot := Entry(v, Key(v), Q_NIL, 1)],
       byIdentity := if Key(v) != 0 then s.byIdentity[Key(v) := spot] else s.byIdentity,
       heap := CloneRef(s.heap, v))
  }

  /** The handle for `v`, pinned once more; `spot` is where a new one would be put. */
  function Intern(s: State, v: RubyValue, spot: Word): (State, Word) {
    if Key(v) != 0 && Key(v) in s.byIdentity
    then (PinRaw(s, s.byIdentity[Key(v)]), s.byIdentity[Key(v)])
    else (Mint(s, v, spot), spot)
  }

  /** Record a pin in the innermost scope. With no scope open the pin is leaked,
      which makes it process-long. */
  function ScopePin(s: State, a: Word): State {
    if s.scopes == [] then s.(forever := s.forever + multiset{a})
    else
      var top := |s.scopes| - 1;
      s.(scopes := s.scopes[top := s.scopes[top] + [a]])
  }

  /** `pin`, which is `to_value`: the `VALUE` for `v`, or a refusal. */
  function Pin(s: State, known: set<nat>, v: RubyValue, spot: Word): (State, Option<Word>) {
    if v.Immediate? then (s, Some(v.word))
    else if !Tagged(known, v) then (s, None)
    else
      var (t, a) := Intern(s, v, spot);
      if v.Class? then (t.(immortal := t.immortal + multiset{a}), Some(a))
      else (ScopePin(t, a), Some(a))
  }

  predicate Live(s: State, w: Word) {
    SpecialConst(w) || w in s.entries
  }

  /** `value_of`. `Qundef` is no Ruby value and reads as nil. */
  function ValueOf(s: State, w: Word): RubyValue
    requires Live(s, w)
  {
    if SpecialConst(w) then Immediate(if w == Q_UNDEF then Q_NIL else w)
    else s.entries[w].value
  }

  /** `rb_gc_register_mark_object`. */
  function PinForever(s: State, a: Word): State {
    if SpecialConst(a) || a !in s.entries then s
    else PinRaw(s, a).(forever := s.forever + multiset{a})
  }

  /** `RBASIC_CLASS`: the memo, or the class handle minted and memoized now. `other`
      is the class of a value that is no heap object: a metaclass, or a number's. */
  function ClassOf(s: State, v: RubyValue, other: nat): nat {
    if v.Heap? && v.payload in s.heap then s.heap[v.payload].cls else other
  }

  function KlassWord(s: State, known: set<nat>, a: Word, other: nat, spot: Word): (State, Option<Word>)
    requires a in s.entries
  {
    var e := s.entries[a];
    if e.klass != Q_NIL then (s, Some(e.klass))
    else
      var (t, k) := Pin(s, known, Class(ClassOf(s, e.value, other)), spot);
      if k.Some? && a in t.entries
      then (t.(entries := t.entries[a := t.entries[a].(klass := k.value)]), k)
      else (t, k)
  }

  // ---- scopes ----------------------------------------------------------------

  function ScopeEnter(s: State): State {
    s.(scopes := s.scopes + [[]])
  }

  /** Re-pin a returned `VALUE` in the parent scope; nothing at the outermost one. */
  function Keep(s: State, a: Word): State {
    if |s.scopes| < 2 then s
    else
      var parent := |s.scopes| - 2;
      PinRaw(s.(scopes := s.scopes[parent := s.scopes[parent] + [a]]), a)
  }

  // ---- a CData's two lists -----------------------------------------------------

  predicate IsCData(s: State, p: Word) {
    p in s.heap && s.heap[p].body.CStruct?
  }

  function SetBody(s: State, p: Word, b: Body): State
    requires p in s.heap
  {
    s.(heap := s.heap[p := s.heap[p].(body := b)])
  }

  /** The write barrier: `young` was stored in `owner`'s C struct. */
  function Barrier(s: State, owner: Word, young: Word): State
    requires Live(s, owner)
  {
    var v := ValueOf(s, owner);
    if SpecialConst(young) || !v.Heap? || !IsCData(s, v.payload) then s
    else
      var b := s.heap[v.payload].body;
      if young in b.retained then s
      else SetBody(PinRaw(s, young), v.payload, b.(retained := b.retained + [young]))
  }

  /** The first loop of the refresh: every reported edge that is a handle and not
      listed yet is listed. */
  function AddEdges(edges: seq<Word>, pins: seq<Word>): seq<Word> {
    if edges == [] then pins
    else
      AddEdges(edges[1..], if SpecialConst(edges[0]) || edges[0] in pins then pins else pins + [edges[0]])
  }

  function PinEntries(t: map<Word, Entry>, l: seq<Word>): map<Word, Entry> {
    if l == [] then t else PinEntries(PinEntry(t, l[0]), l[1..])
  }

  function OneIf(keep: bool, x: Word): seq<Word> {
    if keep then [x] else []
  }

  /** What `retain` keeps. */
  function Among(l: seq<Word>, edges: seq<Word>): seq<Word> {
    if l == [] then [] else OneIf(l[0] in edges, l[0]) + Among(l[1..], edges)
  }

  /** And what it lets go of. */
  function NotAmong(l: seq<Word>, edges: seq<Word>): seq<Word> {
    if l == [] then [] else OneIf(l[0] !in edges, l[0]) + NotAmong(l[1..], edges)
  }

  /** The guards: a real mark function, a struct to hand it, and no walk running. */
  predicate Refreshes(b: Body, busy: bool) {
    b.CStruct? && b.mark == Mark && b.data != 0 && !busy
  }

  lemma {:induction false} AddEdgesExtends(edges: seq<Word>, pins: seq<Word>)
    ensures pins <= AddEdges(edges, pins)
    decreases edges
  {
    if edges != [] {
      AddEdgesExtends(edges[1..], if SpecialConst(edges[0]) || edges[0] in pins then pins else pins + [edges[0]]);
    }
  }

  /** The state between the refresh's two loops and its releases: what is newly
      reported is pinned, and the list holds what is still reported. */
  function Repin(s: State, p: Word): State
    requires IsCData(s, p)
  {
    var b := s.heap[p].body;
    AddEdgesExtends(b.reports, b.marked);
    var all := AddEdges(b.reports, b.marked);
    SetBody(s.(entries := PinEntries(s.entries, all[|b.marked|..])), p, b.(marked := Among(all, b.reports)))
  }

  function Stale(b: Body): seq<Word>
    requires b.CStruct?
  {
    NotAmong(AddEdges(b.reports, b.marked), b.reports)
  }

  /** `refresh_mark_pins`: pin what the mark function reports now, release the rest. */
  function Refresh(s: State, p: Word, busy: bool): State {
    if p !in s.heap || !Refreshes(s.heap[p].body, busy) then s
    else Settle(Repin(s, p), Unpins(Stale(s.heap[p].body)))
  }

  /** `refresh_marks_for` on each handle of a popped scope. */
  function RefreshFor(s: State, a: Word, busy: bool): State {
    if SpecialConst(a) || a !in s.entries || !s.entries[a].value.Heap? then s
    else Refresh(s, s.entries[a].value.payload, busy)
  }

  function RefreshAll(s: State, l: seq<Word>, busy: bool): State
    decreases |l|
  {
    if l == [] then s else RefreshAll(RefreshFor(s, l[0], busy), l[1..], busy)
  }

  /** Scope pop: refresh while the scope's pins still hold everything, then release them. */
  function ScopePop(s: State, busy: bool): State {
    if s.scopes == [] then s
    else
      var top := s.scopes[|s.scopes| - 1];
      Settle(RefreshAll(s.(scopes := s.scopes[..|s.scopes| - 1]), top, busy), Unpins(top))
  }

  // ---- the Ruby side -----------------------------------------------------------

  /** A new object at `p`, referred to by running Ruby code. */
  function Alloc(s: State, p: Word, cls: nat, b: Body): State {
    s.(heap := s.heap[p := Object(s.nextSerial, cls, 1, b)],
       nextSerial := s.nextSerial + 1,
       roots := s.roots + multiset{p},
       wraps := s.wraps + Pointer(b))
  }

  /** `dup_object` for a class with no C allocator: the descriptor, a null pointer,
      and for the untyped form no free function. */
  function DupBody(b: Body, typed: bool): Body
    requires b.CStruct?
  {
    CStruct(0, b.mark, if typed then b.free else NoFree, [], [], [])
  }

  function CountRef(s: State, p: Word): map<Word, Object>
    requires p in s.heap
  {
    s.heap[p := s.heap[p].(refs := s.heap[p].refs + 1)]
  }

  function TakeRoot(s: State, p: Word): State
    requires p in s.heap
  {
    s.(heap := CountRef(s, p), roots := s.roots + multiset{p})
  }

  function DropRoot(s: State, p: Word): State {
    Settle(s.(roots := s.roots - multiset{p}), [DropRef(p)])
  }

  /** The object at `p` stores a reference to the one at `q`. */
  function StoreRef(s: State, p: Word, q: Word): State
    requires p in s.heap && q in s.heap && s.heap[p].body.Ruby?
  {
    var t := s.(heap := CountRef(s, q));
    SetBody(t, p, Ruby(t.heap[p].body.held + [q]))
  }

  /** The object at `p` overwrites the reference in its slot `i`. */
  function ClearRef(s: State, p: Word, i: nat): State
    requires p in s.heap && s.heap[p].body.Ruby? && i < |s.heap[p].body.held|
  {
    var held := s.heap[p].body.held;
    Settle(SetBody(s, p, Ruby(held[..i] + held[i + 1..])), [DropRef(held[i])])
  }

  /** C assigns in the struct: the mark function reports something else from now on. */
  function CWrite(s: State, p: Word, reports: seq<Word>): State
    requires IsCData(s, p)
  {
    SetBody(s, p, s.heap[p].body.(reports := reports))
  }
}
