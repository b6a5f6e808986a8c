/** `rb_range_beg_len` clamps a Range against a collection's length; `rb_get_values_at`
    reads the windows. A C `long` is 64 bits and its arithmetic wraps. */
module Ranges {
  import opened Options

  const LONG_MAX: int := 0x7FFF_FFFF_FFFF_FFFF
  const LONG_MIN: int := -0x8000_0000_0000_0000

  predicate IsLong(n: int) {
    LONG_MIN <= n <= LONG_MAX
  }

  /** A sum of two longs, as two's complement leaves it. */
  function Wrap(n: int): int {
    if n > LONG_MAX then n - 0x1_0000_0000_0000_0000
    else if n < LONG_MIN then n + 0x1_0000_0000_0000_0000
    else n
  }

  /** An endpoint after `to_int`: absent, a long, or not an Integer at all. */
  datatype Endpoint = Open | At(n: int) | Unconvertible

  datatype Range = Range(begin: Endpoint, end: Endpoint, excl: bool)

  predicate ValidEndpoint(e: Endpoint) {
    e.At? ==> IsLong(e.n)
  }

  predicate ValidRange(r: Range) {
    ValidEndpoint(r.begin) && ValidEndpoint(r.end)
  }

  /** `endpoint`: nil means the collection's own edge. */
  function EndpointOr(e: Endpoint, default: int): Option<int> {
    match e
    case Open => Some(default)
    case At(n) => Some(n)
    case Unconvertible => None
  }

  datatype Answer =
    | Window(beg: int, len: int)   // Qtrue
    | OutOfBounds                  // Qnil
    | RangeError                   // the raising form of it
    | TypeError                    // an endpoint that is no Integer

  function Clamp(n: int, lo: int, hi: int): int {
    if n < lo then lo else if n > hi then hi else n
  }

  function Normal(n: int, alen: int): int {
    if n < 0 then Wrap(n + alen) else n
  }

  // ---- what a Range selects -------------------------------------------------------------------

  /** The index `i` lies in the collection and in the Range, negative endpoints counted
      from the end. No machine arithmetic here. */
  predicate Selects(r: Range, alen: int, i: int)
    requires !r.begin.Unconvertible? && !r.end.Unconvertible?
  {
    var b := if r.begin.Open? then 0 else if r.begin.n < 0 then r.begin.n + alen else r.begin.n;
    && 0 <= i < alen && b <= i
    && (r.end.At? ==>
          var e := if r.end.n < 0 then r.end.n + alen else r.end.n;
          if r.excl then i < e else i <= e)
  }

  /** Where the Range starts, counted from the front. */
  function StartOf(r: Range, alen: int): int
    requires !r.begin.Unconvertible?
  {
    if r.begin.Open? then 0 else if r.begin.n < 0 then r.begin.n + alen else r.begin.n
  }

  /** `rb_range_beg_len` on a Range. */
  method RangeBegLen(r: Range, alen: int, err: bool) returns (a: Answer)
    requires ValidRange(r) && IsLong(alen)
    ensures a.TypeError? <==> r.begin.Unconvertible? || r.end.Unconvertible?
    ensures !a.TypeError? ==> (a.Window? <==> 0 <= StartOf(r, alen) <= alen)
    ensures a.RangeError? ==> err
    ensures a.OutOfBounds? ==> !err
    ensures a.Window? ==> 0 <= a.beg && 0 <= a.len && a.beg + a.len <= alen
    ensures a.Window? ==> a.beg == StartOf(r, alen)
    ensures a == RangeAnswer(r, alen, err)
  {
    var b, e := EndpointOr(r.begin, 0), EndpointOr(r.end, alen);
    if b.None? || e.None? {
      return TypeError;
    }
    var start := if b.value < 0 then Wrap(b.value + alen) else b.value;
    if start < 0 || start > alen {
      return if err then RangeError else OutOfBounds;
    }
    var stop := if e.value < 0 then Wrap(e.value + alen) else e.value;
    if !r.excl {
      stop := Wrap(stop + 1);
    }
    stop := Clamp(stop, start, alen);
    if start > alen {
      start := alen;
    }
    a := Window(start, stop - start);
  }

  function RangeAnswer(r: Range, alen: int, err: bool): Answer {
    var b, e := EndpointOr(r.begin, 0), EndpointOr(r.end, alen);
    if b.None? || e.None? then TypeError
    else
      var start := Normal(b.value, alen);
      if start < 0 || start > alen then if err then RangeError else OutOfBounds
      else
        var stop := Normal(e.value, alen);
        var past := Clamp(if r.excl then stop else Wrap(stop + 1), start, alen);
        Window(start, past - start)
  }

  /** An inclusive Range whose end is the largest long, spelled or as the length of the
      collection, with something left to select. */
  predicate EndOverflows(r: Range, alen: int)
    requires !r.begin.Unconvertible?
  {
    !r.excl && (r.end == At(LONG_MAX) || (r.end.Open? && alen == LONG_MAX)) && StartOf(r, alen) < alen
  }

  /** The window holds exactly the indices the Range selects, unless the end overflows
      as it is stepped past; then the window is empty and the selection is not. */
  lemma WindowIsSelection(r: Range, alen: int, err: bool)
    requires ValidRange(r) && IsLong(alen) && RangeAnswer(r, alen, err).Window?
    ensures !r.begin.Unconvertible? && !r.end.Unconvertible?
    ensures var a := RangeAnswer(r, alen, err);
            (forall i :: a.beg <= i < a.beg + a.len <==> Selects(r, alen, i)) <==> !EndOverflows(r, alen)
  {
    var a := RangeAnswer(r, alen, err);
    if EndOverflows(r, alen) {
      assert a.len == 0;
      assert Selects(r, alen, a.beg) && !(a.beg <= a.beg < a.beg + a.len);
    } else {
      forall i ensures a.beg <= i < a.beg + a.len <==> Selects(r, alen, i) {
      }
    }
  }

  /** `(0..LONG_MAX)` over any collection selects everything and answers nothing. */
  lemma LargestEndSelectsNothing(alen: int)
    requires 0 < alen && IsLong(alen)
    ensures RangeAnswer(Range(At(0), At(0x7FFF_FFFF_FFFF_FFFF), false), alen, false) == Window(0, 0)
    ensures Selects(Range(At(0), At(0x7FFF_FFFF_FFFF_FFFF), false), alen, 0)
  {
  }

  // ---- values_at --------------------------------------------------------------------------------

  /** An argument: an index after `to_int`, a Range, or neither. */
  datatype Arg = Index(n: int) | Of(r: Range) | Neither

  type Value = int

  function Span(beg: int, len: int): seq<int>
    requires len >= 0
  {
    seq(len, k requires 0 <= k < len => beg + k)
  }

  /** The indices one argument reads, in order. */
  function Reads(a: Arg, olen: int): Option<seq<int>>
    requires a.Of? ==> ValidRange(a.r)
    requires IsLong(olen)
  {
    match a
    case Index(n) => Some([n])
    case Neither => None
    case Of(r) =>
      match RangeAnswer(r, olen, false)
      case Window(beg, len) => if len < 0 then None else Some(Span(beg, len))
      case OutOfBounds => Some([])
      case _ => None
  }

  predicate ValidArgs(args: seq<Arg>) {
    forall i :: 0 <= i < |args| && args[i].Of? ==> ValidRange(args[i].r)
  }

  /** Every argument's reads, one after the other; none when one cannot be read. */
  function AllReads(args: seq<Arg>, olen: int): Option<seq<int>>
    requires ValidArgs(args) && IsLong(olen)
  {
    if args == [] then Some([])
    else
      var first, rest := Reads(args[0], olen), AllReads(args[1..], olen);
      if first.None? || rest.None? then None else Some(first.value + rest.value)
  }

  /** The reads up to the first argument that cannot be read. */
  function ReadsUntil(args: seq<Arg>, olen: int): seq<int>
    requires ValidArgs(args) && IsLong(olen)
  {
    if args == [] || Reads(args[0], olen).None? then []
    else Reads(args[0], olen).value + ReadsUntil(args[1..], olen)
  }

  /** The caller's element reader: a value, or nothing where it raises. */
  type Reader = int -> Option<Value>

  predicate AllAnswer(reader: Reader, at: seq<int>) {
    forall k :: 0 <= k < |at| ==> reader(at[k]).Some?
  }

  function ReadAll(reader: Reader, at: seq<int>): seq<Value>
    requires AllAnswer(reader, at)
  {
    seq(|at|, i requires 0 <= i < |at| => reader(at[i]).value)
  }

  /** The reads `at` end in the one that raised. */
  predicate RaisedAt(reader: Reader, at: seq<int>) {
    at != [] && AllAnswer(reader, at[..|at| - 1]) && reader(at[|at| - 1]).None?
  }

  datatype Gathered = Values(vs: seq<Value>) | Unreadable | Raised

  lemma {:induction false} AllReadsAppend(a: seq<Arg>, b: seq<Arg>, olen: int)
    requires ValidArgs(a) && ValidArgs(b) && IsLong(olen)
    ensures ValidArgs(a + b)
    ensures AllReads(a + b, olen) ==
            var x, y := AllReads(a, olen), AllReads(b, olen);
            if x.None? || y.None? then None else Some(x.value + y.value)
    decreases |a|
  {
    hide Reads;
    if a == [] {
      assert a + b == b;
      if AllReads(b, olen).Some? {
        assert [] + AllReads(b, olen).value == AllReads(b, olen).value;
      }
    } else {
      assert (a + b)[1..] == a[1..] + b;
      AllReadsAppend(a[1..], b, olen);
      var f, x, y := Reads(a[0], olen), AllReads(a[1..], olen), AllReads(b, olen);
      if f.Some? && x.Some? && y.Some? {
        assert f.value + (x.value + y.value) == (f.value + x.value) + y.value;
      }
    }
  }

  /** `rb_get_values_at`: the reads of every argument in order, with the reader called on
      those indices and no others, up to the first argument that cannot be read or the
      first index the reader raises on, whichever comes first. */
  method GetValuesAt(args: seq<Arg>, olen: int, reader: Reader) returns (out: Gathered, ghost calls: seq<int>)
    requires ValidArgs(args) && IsLong(olen)
    ensures out.Raised? <==> !AllAnswer(reader, ReadsUntil(args, olen))
    ensures out.Values? <==> AllReads(args, olen).Some? && AllAnswer(reader, AllReads(args, olen).value)
    ensures out.Values? ==> out.vs == ReadAll(reader, AllReads(args, olen).value)
    ensures out.Raised? ==> calls <= ReadsUntil(args, olen) && RaisedAt(reader, calls)
    ensures !out.Raised? ==> calls == ReadsUntil(args, olen)
  {
    hide AllReads, RangeAnswer, ReadsUntil, ReadAll, AllAnswer, RaisedAt, Span;
    UntilIsAll(args, olen);
    var acc := [];
    calls := [];
    NoReads(olen);
    NothingRead(reader);
    assert args[..0] == [];
    for i := 0 to |args|
      invariant AllReads(args[..i], olen) == Some(calls)
      invariant AllAnswer(reader, calls) && acc == ReadAll(reader, calls)
    {
      ReadsStep(args, i, olen);
      UntilStep(args, i, olen);
      match args[i] {
        case Index(n) =>
          var v := reader(n);
          OneIndex(reader, n);
          if v.None? {
            RaisedBehind(reader, calls, [n]);
            calls := calls + [n];
            RaisedWithin(args, olen, reader, calls);
            return Raised, calls;
          }
          ReadsJoin(reader, calls, [n]);
          acc := acc + [v.value];
          calls := calls + [n];
        case Neither => return Unreadable, calls;
        case Of(r) =>
          var a := RangeBegLen(r, olen, false);
          if a.TypeError? {
            return Unreadable, calls;
          }
          if a.Window? {
            ghost var span := Span(a.beg, a.len);
            var got, n, ok := ReadWindow(a.beg, a.len, reader);
            if !ok {
              RaisedBehind(reader, calls, span[..n]);
              calls := calls + span[..n];
              RaisedWithin(args, olen, reader, calls);
              return Raised, calls;
            }
            ReadsJoin(reader, calls, span);
            acc := acc + got;
            calls := calls + span;
          } else {
            assert calls + [] == calls;
          }
      }
    }
    assert args[..|args|] == args;
    out := Values(acc);
  }

  lemma NothingRead(reader: Reader)
    ensures AllAnswer(reader, []) && ReadAll(reader, []) == []
  {
  }

  lemma OneIndex(reader: Reader, n: int)
    ensures reader(n).None? ==> RaisedAt(reader, [n])
    ensures reader(n).Some? ==> AllAnswer(reader, [n]) && ReadAll(reader, [n]) == [reader(n).value]
  {
    assert [n][..0] == [];
  }

  lemma ReadsJoin(reader: Reader, a: seq<int>, b: seq<int>)
    requires AllAnswer(reader, a) && AllAnswer(reader, b)
    ensures AllAnswer(reader, a + b) && ReadAll(reader, a + b) == ReadAll(reader, a) + ReadAll(reader, b)
  {
  }

  lemma RaisedBehind(reader: Reader, before: seq<int>, at: seq<int>)
    requires AllAnswer(reader, before) && RaisedAt(reader, at)
    ensures RaisedAt(reader, before + at)
  {
    var all := before + at;
    assert all[..|all| - 1] == before + at[..|at| - 1];
  }

  lemma RaisedWithin(args: seq<Arg>, olen: int, reader: Reader, calls: seq<int>)
    requires ValidArgs(args) && IsLong(olen) && calls <= ReadsUntil(args, olen) && RaisedAt(reader, calls)
    ensures !AllAnswer(reader, ReadsUntil(args, olen))
  {
    var all, k := ReadsUntil(args, olen), |calls| - 1;
    assert all[k] == calls[k];
  }

  lemma {:induction false} UntilIsAll(args: seq<Arg>, olen: int)
    requires ValidArgs(args) && IsLong(olen)
    ensures AllReads(args, olen).Some? ==> AllReads(args, olen).value == ReadsUntil(args, olen)
  {
    if args != [] {
      UntilIsAll(args[1..], olen);
    }
  }

  lemma {:induction false} UntilAppend(a: seq<Arg>, b: seq<Arg>, olen: int)
    requires ValidArgs(a) && ValidArgs(b) && IsLong(olen) && AllReads(a, olen).Some?
    ensures ValidArgs(a + b) && ReadsUntil(a + b, olen) == AllReads(a, olen).value + ReadsUntil(b, olen)
    decreases |a|
  {
    hide Reads;
    if a == [] {
      assert a + b == b && [] + ReadsUntil(b, olen) == ReadsUntil(b, olen);
    } else {
      assert (a + b)[1..] == a[1..] + b;
      UntilAppend(a[1..], b, olen);
      var f, x, y := Reads(a[0], olen).value, AllReads(a[1..], olen).value, ReadsUntil(b, olen);
      assert f + (x + y) == (f + x) + y;
    }
  }

  /** Behind readable arguments the next one's reads follow, or there are no more. */
  lemma UntilStep(args: seq<Arg>, i: nat, olen: int)
    requires ValidArgs(args) && IsLong(olen) && i < |args| && AllReads(args[..i], olen).Some?
    ensures args[i].Of? ==> ValidRange(args[i].r)
    ensures var x, y := AllReads(args[..i], olen).value, Reads(args[i], olen);
            if y.None? then ReadsUntil(args, olen) == x else x + y.value <= ReadsUntil(args, olen)
  {
    hide Reads, AllReads;
    assert args == args[..i] + args[i..];
    UntilAppend(args[..i], args[i..], olen);
    var x, y := AllReads(args[..i], olen).value, Reads(args[i], olen);
    if y.Some? {
      assert x + (y.value + ReadsUntil(args[i..][1..], olen)) == (x + y.value) + ReadsUntil(args[i..][1..], olen);
    } else {
      assert x + [] == x;
    }
  }

  lemma OneRead(a: Arg, olen: int)
    requires ValidArgs([a]) && IsLong(olen)
    ensures a.Of? ==> ValidRange(a.r)
    ensures AllReads([a], olen) == Reads(a, olen)
  {
    assert [a][0] == a && [a][1..] == [];
    if Reads(a, olen).Some? {
      assert Reads(a, olen).value + [] == Reads(a, olen).value;
    }
  }

  lemma NoReads(olen: int)
    requires IsLong(olen)
    ensures AllReads([], olen) == Some([])
  {
  }

  /** The next argument's reads come after those before it, and one that cannot be read
      stops the whole call. */
  lemma ReadsStep(args: seq<Arg>, i: nat, olen: int)
    requires ValidArgs(args) && IsLong(olen) && i < |args|
    ensures args[i].Of? ==> ValidRange(args[i].r)
    ensures var x, y := AllReads(args[..i], olen), Reads(args[i], olen);
            AllReads(args[..i + 1], olen) == if x.None? || y.None? then None else Some(x.value + y.value)
    ensures Reads(args[i], olen).None? ==> AllReads(args, olen).None?
  {
    hide AllReads, Reads;
    assert args[..i + 1] == args[..i] + [args[i]] && args == args[..i + 1] + args[i + 1..];
    OneRead(args[i], olen);
    AllReadsAppend(args[..i], [args[i]], olen);
    AllReadsAppend(args[..i + 1], args[i + 1..], olen);
  }

  /** One window, from its first index to its last or to the one the reader raises on. */
  method ReadWindow(beg: int, len: int, reader: Reader) returns (got: seq<Value>, n: nat, ok: bool)
    requires len >= 0
    ensures n <= len == |Span(beg, len)|
    ensures ok ==> n == len && AllAnswer(reader, Span(beg, len)) && got == ReadAll(reader, Span(beg, len))
    ensures !ok ==> RaisedAt(reader, Span(beg, len)[..n])
  {
    got := [];
    for i := 0 to len
      invariant AllAnswer(reader, Span(beg, len)[..i]) && got == ReadAll(reader, Span(beg, len)[..i])
    {
      assert Span(beg, len)[..i + 1] == Span(beg, len)[..i] + [beg + i];
      var v := reader(beg + i);
      if v.None? {
        assert Span(beg, len)[..i + 1][..i] == Span(beg, len)[..i];
        return got, i + 1, false;
      }
      got := got + [v.value];
    }
    assert Span(beg, len)[..len] == Span(beg, len);
    n, ok := len, true;
  }

  /** An index reads itself, inside the collection or not; the reader checks it. */
  lemma IndexReadsItself(n: int, olen: int)
    requires IsLong(olen)
    ensures AllReads([Index(n)], olen) == Some([n])
  {
    hide AllReads;
    OneRead(Index(n), olen);
  }

  predicate Ascending(at: seq<int>) {
    forall i, j :: 0 <= i < j < |at| ==> at[i] < at[j]
  }

  /** A Range reads the indices it selects, each once and in order, if and only if its end
      does not overflow. */
  lemma RangeReadsItsSelection(r: Range, olen: int)
    requires ValidRange(r) && IsLong(olen) && Reads(Of(r), olen).Some?
    ensures !r.begin.Unconvertible? && !r.end.Unconvertible?
    ensures Ascending(Reads(Of(r), olen).value)
    ensures 0 <= StartOf(r, olen) <= olen ==>
              ((forall i :: i in Reads(Of(r), olen).value <==> Selects(r, olen, i)) <==> !EndOverflows(r, olen))
  {
    var a := RangeAnswer(r, olen, false);
    if a.Window? {
      WindowIsSelection(r, olen, false);
      SpanHolds(a.beg, a.len);
      hide RangeAnswer, Span;
      if forall i :: i in Reads(Of(r), olen).value <==> Selects(r, olen, i) {
        forall i ensures a.beg <= i < a.beg + a.len <==> Selects(r, olen, i) {
          assert i in Span(a.beg, a.len) <==> a.beg <= i < a.beg + a.len;
        }
      }
    }
  }

  lemma SpanHolds(beg: int, len: int)
    requires len >= 0
    ensures Ascending(Span(beg, len)) && forall i :: i in Span(beg, len) <==> beg <= i < beg + len
  {
    forall i | beg <= i < beg + len ensures i in Span(beg, len) {
      assert Span(beg, len)[i - beg] == i;
    }
  }

  /** A Range is read exactly when its endpoints are Integers; it makes the reader touch only
      indices inside the collection, and out of bounds it contributes nothing. */
  lemma RangesReadInBounds(r: Range, olen: int)
    requires ValidRange(r) && IsLong(olen)
    ensures Reads(Of(r), olen).Some? <==> !r.begin.Unconvertible? && !r.end.Unconvertible?
    ensures Reads(Of(r), olen).Some? ==>
              && (forall k :: 0 <= k < |Reads(Of(r), olen).value| ==> 0 <= Reads(Of(r), olen).value[k] < olen)
              && (!(0 <= StartOf(r, olen) <= olen) ==> Reads(Of(r), olen).value == [])
  {
  }

  /** The argument is neither an index nor a Range between Integers. */
  predicate Unusable(a: Arg) {
    a.Neither? || (a.Of? && (a.r.begin.Unconvertible? || a.r.end.Unconvertible?))
  }

  /** The call is refused exactly for such an argument. */
  lemma {:induction false} RefusedExactly(args: seq<Arg>, olen: int)
    requires ValidArgs(args) && IsLong(olen)
    ensures AllReads(args, olen).None? <==> exists i :: 0 <= i < |args| && Unusable(args[i])
  {
    hide Reads;
    if args != [] {
      RefusedExactly(args[1..], olen);
      assert Reads(args[0], olen).None? <==> Unusable(args[0]) by {
        OneUnusable(args[0], olen);
      }
      if i :| 0 <= i < |args[1..]| && Unusable(args[1..][i]) {
        assert Unusable(args[i + 1]);
      }
      if i :| 0 <= i < |args| && Unusable(args[i]) {
        assert i > 0 ==> Unusable(args[1..][i - 1]);
      }
    }
  }

  lemma OneUnusable(a: Arg, olen: int)
    requires (a.Of? ==> ValidRange(a.r)) && IsLong(olen)
    ensures Reads(a, olen).None? <==> Unusable(a)
  {
    if a.Of? {
      RangesReadInBounds(a.r, olen);
    }
  }
}
