/** `rb_scan_args`: the format parser, and the walk that fills the caller's slots. */
module ScanArgs {
  import opened Options

  datatype Plan = Plan(required: nat, optional: nat, splat: bool, block: bool)

  predicate IsDigit(c: char) {
    '0' <= c <= '9'
  }

  function DigitOf(c: char): nat
    requires IsDigit(c)
  {
    (c as int) - ('0' as int)
  }

  function DigitChar(n: nat): char
    requires n < 10
  {
    (n + ('0' as int)) as char
  }

  predicate IsFlag(c: char) {
    c == '*' || c == '&' || c == ':'
  }

  // ---- the format language ------------------------------------------------------------------------

  /** One digit, perhaps another, then any run of `*`, `&` and `:`. */
  predicate WellFormed(fmt: string) {
    && fmt != [] && IsDigit(fmt[0])
    && forall i :: (if HasOptional(fmt) then 2 else 1) <= i < |fmt| ==> IsFlag(fmt[i])
  }

  predicate HasOptional(fmt: string) {
    |fmt| > 1 && IsDigit(fmt[1])
  }

  /** What a well-formed format says. */
  function Meaning(fmt: string): Plan
    requires WellFormed(fmt)
  {
    Plan(DigitOf(fmt[0]), if HasOptional(fmt) then DigitOf(fmt[1]) else 0, '*' in fmt, '&' in fmt)
  }

  /** `scan_args_plan`. An optional count of zero is consumed only when it is spelled. */
  method ScanArgsPlan(fmt: string) returns (r: Option<Plan>)
    ensures r.Some? <==> WellFormed(fmt)
    ensures r.Some? ==> r.value == Meaning(fmt)
  {
    var at := 0;
    if |fmt| == 0 || !IsDigit(fmt[0]) {
      return None;
    }
    var required := DigitOf(fmt[0]);
    at := 1;
    var optional := if at < |fmt| && IsDigit(fmt[at]) then DigitOf(fmt[at]) else 0;
    if optional > 0 || (at < |fmt| && fmt[at] == '0') {
      at := at + 1;
    }
    ghost var first := at;
    assert first == if HasOptional(fmt) then 2 else 1;
    var splat, block := false, false;
    while at < |fmt|
      invariant first <= at <= |fmt|
      invariant forall i :: first <= i < at ==> IsFlag(fmt[i])
      invariant splat <==> '*' in fmt[..at]
      invariant block <==> '&' in fmt[..at]
    {
      assert fmt[..at + 1] == fmt[..at] + [fmt[at]];
      match fmt[at] {
        case '*' => splat := true;
        case '&' => block := true;
        case ':' =>
        case _ => return None;
      }
      at := at + 1;
    }
    assert fmt[..|fmt|] == fmt;
    r := Some(Plan(required, optional, splat, block));
  }

  /** The language, spelled out: a digit, perhaps another, and any run of the three flags, of
      which `:` says nothing. */
  lemma FormatsMean(required: nat, optional: Option<nat>, flags: string)
    requires required < 10 && (optional.Some? ==> optional.value < 10)
    requires forall i :: 0 <= i < |flags| ==> flags[i] == '*' || flags[i] == '&' || flags[i] == ':'
    ensures var fmt := [DigitChar(required)] + (if optional.Some? then [DigitChar(optional.value)] else []) + flags;
            && WellFormed(fmt)
            && Meaning(fmt) == Plan(required, if optional.Some? then optional.value else 0, '*' in flags, '&' in flags)
  {
    var digits := [DigitChar(required)] + (if optional.Some? then [DigitChar(optional.value)] else []);
    var fmt := digits + flags;
    assert fmt[0] == DigitChar(required) && (optional.Some? ==> fmt[1] == DigitChar(optional.value));
    assert optional.None? && |fmt| > 1 ==> fmt[1] == flags[0];
    assert forall i :: |digits| <= i < |fmt| ==> fmt[i] == flags[i - |digits|];
    assert forall c :: c in fmt <==> c in digits || c in flags;
    assert '*' !in digits && '&' !in digits;
  }

  /** And every format accepted is one of these. */
  lemma FormatsAre(fmt: string) returns (required: nat, optional: Option<nat>, flags: string)
    requires WellFormed(fmt)
    ensures required < 10 && (optional.Some? ==> optional.value < 10)
    ensures forall i :: 0 <= i < |flags| ==> flags[i] == '*' || flags[i] == '&' || flags[i] == ':'
    ensures fmt == [DigitChar(required)] + (if optional.Some? then [DigitChar(optional.value)] else []) + flags
  {
    required := DigitOf(fmt[0]);
    assert DigitChar(required) == fmt[0];
    if HasOptional(fmt) {
      optional, flags := Some(DigitOf(fmt[1])), fmt[2..];
      assert DigitChar(optional.value) == fmt[1];
      assert fmt == [fmt[0]] + [fmt[1]] + fmt[2..];
    } else {
      optional, flags := None, fmt[1..];
      assert fmt == [fmt[0]] + [] + fmt[1..];
    }
  }

  /** A plan spelled out. */
  function Print(p: Plan): string
    requires p.required < 10 && p.optional < 10
  {
    [DigitChar(p.required), DigitChar(p.optional)] + (if p.splat then "*" else "") + (if p.block then "&" else "")
  }

  /** Every printed plan parses back to itself. */
  lemma PrintedPlanParses(p: Plan)
    requires p.required < 10 && p.optional < 10
    ensures WellFormed(Print(p)) && Meaning(Print(p)) == p
  {
    var fmt := Print(p);
    assert fmt[0] == DigitChar(p.required) && fmt[1] == DigitChar(p.optional);
    assert p.splat ==> fmt[2] == '*';
    assert p.block ==> fmt[|fmt| - 1] == '&';
    assert DigitOf(DigitChar(p.required)) == p.required && DigitOf(DigitChar(p.optional)) == p.optional;
  }

  // ---- the slot walk -----------------------------------------------------------------------------------

  type Value = int

  const NIL: Value := 4

  datatype Slot = One(v: Value) | Array(vs: seq<Value>)

  function SlotCount(p: Plan): nat {
    p.required + p.optional + (if p.splat then 1 else 0) + (if p.block then 1 else 0)
  }

  function Min(a: int, b: int): int {
    if a < b then a else b
  }

  /** What the walk puts in slot `i`, were it not null. */
  function SlotValue(p: Plan, argv: seq<Value>, i: nat): Slot
    requires i < SlotCount(p)
  {
    var named := p.required + p.optional;
    if i < named then One(if i < |argv| then argv[i] else NIL)
    else if i == named && p.splat then Array(argv[Min(named, |argv|)..])
    else One(NIL)
  }

  function Answer(p: Plan, argv: seq<Value>): nat {
    if p.splat then |argv| else Min(p.required + p.optional, |argv|)
  }

  /** `zeo_cext_scan_slice`: `argv[from..to]`, and nothing where the bounds cross. */
  function ScanSlice(argv: seq<Value>, from: int, to: int): seq<Value> {
    var lo := if from < 0 then 0 else from;
    var hi := Min(if to < 0 then 0 else to, |argv|);
    if lo <= hi then argv[lo..hi] else []
  }

  /** The arguments a C caller passed: a negative count is none. */
  function Passed(argc: int, argv: seq<Value>): seq<Value>
    requires argc <= |argv|
  {
    if argc < 0 then [] else argv[..argc]
  }

  /** The addresses a C caller passed for the slots: `None` is null, and two may be the same. */
  type Addresses = seq<Option<nat>>

  predicate InBounds(slots: Addresses, n: nat) {
    forall i :: 0 <= i < |slots| && slots[i].Some? ==> slots[i].value < n
  }

  function StoreOne(memory: seq<Slot>, slot: Option<nat>, v: Slot): seq<Slot>
    requires slot.Some? ==> slot.value < |memory|
  {
    if slot.Some? then memory[slot.value := v] else memory
  }

  /** Memory after the first `n` slots are stored, in slot order. */
  function Stored(memory: seq<Slot>, slots: Addresses, p: Plan, argv: seq<Value>, n: nat): (m: seq<Slot>)
    requires n <= |slots| == SlotCount(p) && InBounds(slots, |memory|)
    ensures |m| == |memory|
  {
    if n == 0 then memory
    else StoreOne(Stored(memory, slots, p, argv, n - 1), slots[n - 1], SlotValue(p, argv, n - 1))
  }

  /** No slot from `i` up to `n` names the cell `c`. */
  predicate Untouched(slots: Addresses, i: nat, n: nat, c: nat)
    requires n <= |slots|
  {
    forall j :: i <= j < n ==> slots[j] != Some(c)
  }

  lemma {:induction false} NotStored(memory: seq<Slot>, slots: Addresses, p: Plan, argv: seq<Value>, i: nat, n: nat, c: nat)
    requires i <= n <= |slots| == SlotCount(p) && InBounds(slots, |memory|) && c < |memory|
    requires Untouched(slots, i, n, c)
    ensures Stored(memory, slots, p, argv, n)[c] == Stored(memory, slots, p, argv, i)[c]
    decreases n
  {
    hide SlotValue;
    if i < n {
      NotStored(memory, slots, p, argv, i, n - 1, c);
    }
  }

  /** A cell holds the value of the last slot that names it, and what it held if none does. */
  lemma LastStoreWins(memory: seq<Slot>, slots: Addresses, p: Plan, argv: seq<Value>, c: nat)
    requires |slots| == SlotCount(p) && InBounds(slots, |memory|) && c < |memory|
    ensures Untouched(slots, 0, |slots|, c) ==> Stored(memory, slots, p, argv, |slots|)[c] == memory[c]
    ensures forall i :: 0 <= i < |slots| && slots[i] == Some(c) && Untouched(slots, i + 1, |slots|, c) ==>
              Stored(memory, slots, p, argv, |slots|)[c] == SlotValue(p, argv, i)
  {
    hide SlotValue, Untouched;
    if Untouched(slots, 0, |slots|, c) {
      NotStored(memory, slots, p, argv, 0, |slots|, c);
    }
    forall i | 0 <= i < |slots| && slots[i] == Some(c) && Untouched(slots, i + 1, |slots|, c)
      ensures Stored(memory, slots, p, argv, |slots|)[c] == SlotValue(p, argv, i)
    {
      NotStored(memory, slots, p, argv, i + 1, |slots|, c);
    }
  }

  /** Where no two slots share a cell, each cell holds its own slot's value. */
  lemma EachHasItsOwn(memory: seq<Slot>, slots: Addresses, p: Plan, argv: seq<Value>, i: nat)
    requires i < |slots| == SlotCount(p) && InBounds(slots, |memory|) && slots[i].Some?
    requires forall j :: 0 <= j < |slots| && j != i ==> slots[j] != slots[i]
    ensures Stored(memory, slots, p, argv, |slots|)[slots[i].value] == SlotValue(p, argv, i)
  {
    hide SlotValue;
    LastStoreWins(memory, slots, p, argv, slots[i].value);
  }

  /** The slot walk of `rb_scan_args`, storing through the caller's addresses. */
  method ScanArgs(argc: int, argv: seq<Value>, fmt: string, memory: array<Slot>, slots: Addresses) returns (taken: nat)
    requires argc <= |argv|
    requires WellFormed(fmt) ==> |slots| == SlotCount(Meaning(fmt)) && InBounds(slots, memory.Length)
    modifies memory
    ensures !WellFormed(fmt) ==> taken == 0 && memory[..] == old(memory[..])
    ensures WellFormed(fmt) ==> taken == Answer(Meaning(fmt), Passed(argc, argv))
    ensures argc <= 0 ==> taken == 0
    ensures WellFormed(fmt) ==>
              memory[..] == Stored(old(memory[..]), slots, Meaning(fmt), Passed(argc, argv), |slots|)
  {
    hide WellFormed, Meaning, SlotValue;
    var plan := ScanArgsPlan(fmt);
    if plan.None? {
      return 0;
    }
    var p, given := plan.value, if argc < 0 then 0 else argc;
    ghost var args := Passed(argc, argv);
    var named := p.required + p.optional;
    taken := named;
    if taken > given {
      taken := given;
    }
    var at := 0;
    while at < named
      invariant 0 <= at <= named
      invariant memory[..] == Stored(old(memory[..]), slots, p, args, at)
    {
      NamedSlot(p, argv, argc, at, taken);
      Store(memory, slots[at], One(if at < taken then argv[at] else NIL));
      at := at + 1;
    }
    if p.splat {
      SplatSlot(p, argv, argc, taken, given);
      Store(memory, slots[at], Array(ScanSlice(argv, taken, given)));
      at := at + 1;
      taken := given;
    }
    if p.block {
      BlockSlot(p, args);
      Store(memory, slots[at], One(NIL));
    }
  }

  /** `if (slot != NULL) *slot = v`. */
  method Store(memory: array<Slot>, slot: Option<nat>, v: Slot)
    requires slot.Some? ==> slot.value < memory.Length
    modifies memory
    ensures memory[..] == StoreOne(old(memory[..]), slot, v)
  {
    if slot.Some? {
      memory[slot.value] := v;
    }
  }

  lemma NamedSlot(p: Plan, argv: seq<Value>, argc: int, i: nat, taken: nat)
    requires argc <= |argv| && i < p.required + p.optional
    requires taken == Min(p.required + p.optional, |Passed(argc, argv)|)
    ensures SlotValue(p, Passed(argc, argv), i) == One(if i < taken then argv[i] else NIL)
  {
  }

  lemma SplatSlot(p: Plan, argv: seq<Value>, argc: int, taken: nat, given: nat)
    requires argc <= |argv| && p.splat && given == |Passed(argc, argv)|
    requires taken == Min(p.required + p.optional, given)
    ensures SlotValue(p, Passed(argc, argv), p.required + p.optional) == Array(ScanSlice(argv, taken, given))
  {
    assert argv[taken..given] == Passed(argc, argv)[taken..];
  }

  lemma BlockSlot(p: Plan, args: seq<Value>)
    requires p.block
    ensures SlotValue(p, args, SlotCount(p) - 1) == One(NIL)
  {
  }

  /** The named slots' values, in order. */
  function Named(p: Plan, argv: seq<Value>): seq<Value> {
    seq(p.required + p.optional, i requires 0 <= i < p.required + p.optional => if i < |argv| then argv[i] else NIL)
  }

  lemma NamedAre(p: Plan, argv: seq<Value>, i: nat)
    requires i < p.required + p.optional
    ensures SlotValue(p, argv, i) == One(Named(p, argv)[i])
  {
  }

  /** Every consumed argument is in exactly one slot, in order, and the slots past the
      arguments are nil. Without a splat the arguments past the slots are in none. */
  lemma ConsumedInOrder(p: Plan, argv: seq<Value>)
    ensures var n := Min(p.required + p.optional, |argv|);
            && Named(p, argv)[..n] == argv[..n]
            && (forall i :: n <= i < p.required + p.optional ==> Named(p, argv)[i] == 0x04)
            && (p.splat ==> SlotValue(p, argv, p.required + p.optional) == Array(argv[n..]))
            && (!p.splat ==> Answer(p, argv) == n)
  {
  }

  /** With a splat the named slots, cut at the argument count, and the splat make up the
      argument list again, and the answer is its length. */
  lemma SplatLosesNothing(p: Plan, argv: seq<Value>)
    requires p.splat
    ensures var named := p.required + p.optional;
            var n := Min(named, |argv|);
            && SlotValue(p, argv, named).Array?
            && Named(p, argv)[..n] + SlotValue(p, argv, named).vs == argv
            && Answer(p, argv) == |argv|
  {
    var n := Min(p.required + p.optional, |argv|);
    ConsumedInOrder(p, argv);
    assert argv[..n] + argv[n..] == argv;
  }
}
