/** The two listeners of `rb_gc_mark`. A collector walk puts a `MARK_SINK` up, a
    retention sweep a `RETAIN_SINK`, and a mark function reports into whichever is
    up while it runs. A mark function is a script of reports and of nested visits. */
module MarkSinks {

  import opened Options
  import HandleState

  type Word = HandleState.Word

  datatype Action =
    | Mark(v: Word)                 // rb_gc_mark, rb_gc_mark_movable
    | MarkMaybe(v: Word)            // rb_gc_mark_maybe
    | MarkRun(vs: seq<Word>)        // rb_gc_mark_locations over these slots
    | Visit(o: Word, take: bool)    // a nested collector visit
    | Sweep(o: Word)                // a nested retention sweep

  datatype MarkFn = NoMark | DefaultMark | Script(actions: seq<Action>)

  datatype CData = CData(mark: MarkFn, data: Word)

  type Objects = map<Word, CData>

  /** The object has a real mark function and a struct to hand it. */
  predicate Walkable(objs: Objects, o: Word) {
    o in objs && objs[o].mark.Script? && objs[o].data != 0
  }

  function ScriptOf(objs: Objects, o: Word): seq<Action> {
    if Walkable(objs, o) then objs[o].mark.actions else []
  }

  // ---- what a walk and a sweep are told ---------------------------------------------

  /** The slots from `start` up to `end`, where both bounds were given. */
  function Between(memory: seq<Word>, start: Option<nat>, end: Option<nat>): seq<Word> {
    if start.Some? && end.Some? && start.value <= end.value <= |memory| then memory[start.value..end.value] else []
  }

  lemma BetweenWhole(vs: seq<Word>)
    ensures Between(vs, Some(0), Some(|vs|)) == vs
  {
    assert vs[0..|vs|] == vs;
  }

  function WalkReport(live: set<Word>, a: Action): seq<Word> {
    match a
    case Mark(v) => [v]
    case MarkMaybe(v) => if !HandleState.SpecialConst(v) && v in live then [v] else []
    case MarkRun(vs) => vs
    case _ => []
  }

  /** An object's own edges, in the order its mark function reports them. */
  function OwnEdges(live: set<Word>, script: seq<Action>): seq<Word> {
    if script == [] then [] else WalkReport(live, script[0]) + OwnEdges(live, script[1..])
  }

  /** The retention sweep hears `rb_gc_mark` alone. */
  function RawMarks(script: seq<Action>): seq<Word> {
    if script == [] then []
    else RawMark(script[0]) + RawMarks(script[1..])
  }

  function RawMark(a: Action): seq<Word> {
    if a.Mark? then [a.v] else []
  }

  /** And it hears it from a walk nested in the mark function too. */
  function SweptBy(objs: Objects, a: Action): seq<Word> {
    match a
    case Mark(v) => [v]
    case Visit(o, take) => if take then [] else RawMarks(ScriptOf(objs, o))
    case _ => []
  }

  function SweptEdges(objs: Objects, script: seq<Action>): seq<Word> {
    if script == [] then [] else SweptBy(objs, script[0]) + SweptEdges(objs, script[1..])
  }

  lemma {:induction false} OwnEdgesSnoc(live: set<Word>, script: seq<Action>, a: Action)
    ensures OwnEdges(live, script + [a]) == OwnEdges(live, script) + WalkReport(live, a)
    decreases |script|
  {
    if script == [] {
      assert script + [a] == [a] && [a][1..] == [];
    } else {
      assert (script + [a])[1..] == script[1..] + [a];
      OwnEdgesSnoc(live, script[1..], a);
      hide WalkReport;
    }
  }

  lemma {:induction false} RawMarksSnoc(script: seq<Action>, a: Action)
    ensures RawMarks(script + [a]) == RawMarks(script) + RawMark(a)
    decreases |script|
  {
    hide RawMark;
    if script == [] {
      assert script + [a] == [a] && [a][1..] == [];
    } else {
      assert (script + [a])[1..] == script[1..] + [a];
      RawMarksSnoc(script[1..], a);
    }
  }

  lemma {:induction false} SweptEdgesSnoc(objs: Objects, script: seq<Action>, a: Action)
    ensures SweptEdges(objs, script + [a]) == SweptEdges(objs, script) + SweptBy(objs, a)
    decreases |script|
  {
    hide SweptBy;
    if script == [] {
      assert script + [a] == [a] && [a][1..] == [];
    } else {
      assert (script + [a])[1..] == script[1..] + [a];
      SweptEdgesSnoc(objs, script[1..], a);
    }
  }

  // ---- the sinks -------------------------------------------------------------------------

  /** A sink that heard `l`, if it is up. */
  function Push(sink: Option<seq<Word>>, l: seq<Word>): Option<seq<Word>> {
    if sink.Some? then Some(sink.value + l) else None
  }

  lemma PushMore(sink: Option<seq<Word>>, l: seq<Word>, m: seq<Word>)
    ensures Push(sink, []) == sink && Push(Push(sink, l), m) == Push(sink, l + m)
  {
    if sink.Some? {
      assert sink.value + [] == sink.value;
      assert (sink.value + l) + m == sink.value + (l + m);
    }
  }

  class Sinks {
    var markSink: Option<seq<Word>>
    var retainSink: Option<seq<Word>>

    method RbGcMark(v: Word)
      modifies this
      ensures markSink == Push(old(markSink), [v]) && retainSink == Push(old(retainSink), [v])
    {
      if markSink.Some? {
        markSink := Some(markSink.value + [v]);
      }
      if retainSink.Some? {
        retainSink := Some(retainSink.value + [v]);
      }
    }

    method RbGcMarkMaybe(live: set<Word>, v: Word)
      modifies this
      ensures markSink == Push(old(markSink), WalkReport(live, MarkMaybe(v))) && retainSink == old(retainSink)
    {
      PushMore(markSink, [], []);
      if markSink.Some? && !HandleState.SpecialConst(v) && v in live {
        markSink := Some(markSink.value + [v]);
      }
    }

    /** The run of slots between `start` and `end`: nothing where either bound is null or
        the bounds cross. */
    method RbGcMarkLocations(memory: seq<Word>, start: Option<nat>, end: Option<nat>)
      requires start.Some? && end.Some? ==> start.value <= |memory| && end.value <= |memory|
      modifies this
      ensures markSink == Push(old(markSink), Between(memory, start, end)) && retainSink == old(retainSink)
    {
      PushMore(markSink, [], []);
      if markSink.Some? && start.Some? && end.Some? {
        var n := if end.value >= start.value then end.value - start.value else 0;
        assert memory[start.value..start.value + 0] == [];
        for i := 0 to n
          invariant markSink == Push(old(markSink), memory[start.value..start.value + i])
          invariant retainSink == old(retainSink)
        {
          var v := memory[start.value + i];
          PushMore(old(markSink), memory[start.value..start.value + i], [v]);
          assert memory[start.value..start.value + i + 1] == memory[start.value..start.value + i] + [v];
          markSink := Some(markSink.value + [v]);
        }
      }
    }

    /** `gc_visit`: the sweep arm reports nothing; a walk inside a walk reports nothing
        and adds nothing to the outer one; otherwise exactly the object's own edges, in
        order, are appended and the sink is down again. */
    method GcVisit(objs: Objects, live: set<Word>, o: Word, out: seq<Word>, take: bool) returns (r: seq<Word>)
      modifies this
      ensures take || old(markSink).Some? ==> r == out && markSink == old(markSink) && retainSink == old(retainSink)
      ensures !take && old(markSink).None? ==>
                && r == out + OwnEdges(live, ScriptOf(objs, o))
                && markSink == None && retainSink == Push(old(retainSink), RawMarks(ScriptOf(objs, o)))
      ensures o in objs && (objs[o].data == 0 || !objs[o].mark.Script?) ==> r == out && retainSink == old(retainSink)
      decreases (if markSink.None? then 1 else 0) + (if retainSink.None? then 1 else 0), 0
    {
      r := out;
      PushMore(retainSink, [], []);
      assert out + [] == out;
      if take || !Walkable(objs, o) || markSink.Some? {
        return;
      }
      markSink := Some([]);
      RunWalked(objs, live, ScriptOf(objs, o));
      r := r + markSink.value;
      markSink := None;
    }

    /** `refresh_mark_pins` up to its edge list: refused inside any other listener. */
    method Collect(objs: Objects, live: set<Word>, o: Word) returns (edges: Option<seq<Word>>)
      modifies this
      ensures markSink == old(markSink) && retainSink == old(retainSink)
      ensures edges == if old(markSink).None? && old(retainSink).None? && Walkable(objs, o)
                       then Some(SweptEdges(objs, ScriptOf(objs, o))) else None
      ensures o in objs && (objs[o].data == 0 || !objs[o].mark.Script?) ==> edges == None
      decreases (if markSink.None? then 1 else 0) + (if retainSink.None? then 1 else 0), 0
    {
      if !Walkable(objs, o) || retainSink.Some? || markSink.Some? {
        return None;
      }
      retainSink := Some([]);
      RunSwept(objs, live, ScriptOf(objs, o));
      edges := retainSink;
      assert [] + SweptEdges(objs, ScriptOf(objs, o)) == SweptEdges(objs, ScriptOf(objs, o));
      retainSink := None;
    }

    /** A mark function under a walk: nested visits and sweeps are refused. */
    method RunWalked(objs: Objects, live: set<Word>, script: seq<Action>)
      requires markSink.Some?
      modifies this
      ensures markSink == Push(old(markSink), OwnEdges(live, script))
      ensures retainSink == Push(old(retainSink), RawMarks(script))
      decreases (if retainSink.None? then 1 else 0), 1
    {
      PushMore(markSink, [], []);
      PushMore(retainSink, [], []);
      for i := 0 to |script|
        invariant markSink == Push(old(markSink), OwnEdges(live, script[..i]))
        invariant retainSink == Push(old(retainSink), RawMarks(script[..i]))
      {
        OwnEdgesSnoc(live, script[..i], script[i]);
        RawMarksSnoc(script[..i], script[i]);
        PushMore(old(markSink), OwnEdges(live, script[..i]), WalkReport(live, script[i]));
        PushMore(old(retainSink), RawMarks(script[..i]), RawMark(script[i]));
        PushMore(markSink, [], []);
        PushMore(retainSink, [], []);
        assert script[..i + 1] == script[..i] + [script[i]];
        if script[i].MarkRun? {
          BetweenWhole(script[i].vs);
        }
        match script[i] {
          case Mark(v) => RbGcMark(v);
          case MarkMaybe(v) => RbGcMarkMaybe(live, v);
          case MarkRun(vs) => RbGcMarkLocations(vs, Some(0), Some(|vs|));
          case Visit(o, take) => var _ := GcVisit(objs, live, o, [], take);
          case Sweep(o) => var _ := Collect(objs, live, o);
        }
      }
      assert script[..|script|] == script;
    }

    /** A mark function under a sweep alone: a nested walk is let in. */
    method RunSwept(objs: Objects, live: set<Word>, script: seq<Action>)
      requires markSink.None? && retainSink.Some?
      modifies this
      ensures markSink == None && retainSink == Push(old(retainSink), SweptEdges(objs, script))
      decreases 1, 1
    {
      PushMore(markSink, [], []);
      PushMore(retainSink, [], []);
      for i := 0 to |script|
        invariant markSink == None && retainSink == Push(old(retainSink), SweptEdges(objs, script[..i]))
      {
        SweptEdgesSnoc(objs, script[..i], script[i]);
        PushMore(old(retainSink), SweptEdges(objs, script[..i]), SweptBy(objs, script[i]));
        PushMore(retainSink, [], []);
        assert script[..i + 1] == script[..i] + [script[i]];
        if script[i].MarkRun? {
          BetweenWhole(script[i].vs);
        }
        match script[i] {
          case Mark(v) => RbGcMark(v);
          case MarkMaybe(v) => RbGcMarkMaybe(live, v);
          case MarkRun(vs) => RbGcMarkLocations(vs, Some(0), Some(|vs|));
          case Visit(o, take) => var _ := GcVisit(objs, live, o, [], take);
          case Sweep(o) => var _ := Collect(objs, live, o);
        }
      }
      assert script[..|script|] == script;
    }
  }

  // ---- when the sweep hears what the walk hears --------------------------------------------

  /** The sweep hears of this action what the walk does: not a live word marked maybe, not
      a run of slots, and nothing of a visited object's own. */
  predicate Heard(objs: Objects, live: set<Word>, a: Action) {
    match a
    case Mark(_) => true
    case MarkMaybe(v) => HandleState.SpecialConst(v) || v !in live
    case MarkRun(vs) => vs == []
    case Visit(o, take) => take || RawMarks(ScriptOf(objs, o)) == []
    case Sweep(_) => true
  }

  lemma HeardIs(objs: Objects, live: set<Word>, a: Action)
    ensures SweptBy(objs, a) == WalkReport(live, a) <==> Heard(objs, live, a)
  {
  }

  /** Sweep and walk agree however far the mark function has come. */
  ghost predicate AgreeThroughout(objs: Objects, live: set<Word>, script: seq<Action>) {
    forall i :: 0 <= i <= |script| ==> SweptEdges(objs, script[..i]) == OwnEdges(live, script[..i])
  }

  lemma {:induction false} HeardAgrees(objs: Objects, live: set<Word>, script: seq<Action>, n: nat)
    requires n <= |script| && forall i :: 0 <= i < n ==> Heard(objs, live, script[i])
    ensures SweptEdges(objs, script[..n]) == OwnEdges(live, script[..n])
    decreases n
  {
    if n > 0 {
      HeardAgrees(objs, live, script, n - 1);
      assert script[..n] == script[..n - 1] + [script[n - 1]];
      SweptEdgesSnoc(objs, script[..n - 1], script[n - 1]);
      OwnEdgesSnoc(live, script[..n - 1], script[n - 1]);
      HeardIs(objs, live, script[n - 1]);
    }
  }

  /** For every mark function: sweep and walk agree throughout if and only if every action
      is one the sweep hears. */
  lemma SweepHearsItsOwn(objs: Objects, live: set<Word>, script: seq<Action>)
    ensures AgreeThroughout(objs, live, script)
       <==> forall i :: 0 <= i < |script| ==> Heard(objs, live, script[i])
  {
    hide Heard, SweptEdges, OwnEdges;
    if forall i :: 0 <= i < |script| ==> Heard(objs, live, script[i]) {
      forall n | 0 <= n <= |script| ensures SweptEdges(objs, script[..n]) == OwnEdges(live, script[..n]) {
        HeardAgrees(objs, live, script, n);
      }
    }
    if AgreeThroughout(objs, live, script) {
      forall i | 0 <= i < |script| ensures Heard(objs, live, script[i]) {
        AgreeStep(objs, live, script, i);
      }
    }
  }

  lemma AgreeStep(objs: Objects, live: set<Word>, script: seq<Action>, i: nat)
    requires AgreeThroughout(objs, live, script) && i < |script|
    ensures Heard(objs, live, script[i])
  {
    hide Heard, SweptEdges, OwnEdges, SweptBy, WalkReport;
    var before, a := script[..i], script[i];
    assert script[..i + 1] == before + [a];
    SweptEdgesSnoc(objs, before, a);
    OwnEdgesSnoc(live, before, a);
    var x, y, z := OwnEdges(live, before), SweptBy(objs, a), WalkReport(live, a);
    assert SweptEdges(objs, before) == x && x + y == x + z;
    assert y == (x + y)[|x|..] && z == (x + z)[|x|..];
    HeardIs(objs, live, a);
  }

  // ---- mark functions that use `rb_gc_mark` alone ----------------------------------------------

  /** A mark function that reports through `rb_gc_mark` and otherwise only visits. */
  predicate MarksAndVisits(script: seq<Action>) {
    forall i :: 0 <= i < |script| ==> script[i].Mark? || script[i].Visit? || script[i].Sweep?
  }

  lemma {:induction false} SweepIsNoShorter(objs: Objects, live: set<Word>, script: seq<Action>)
    requires MarksAndVisits(script)
    ensures |SweptEdges(objs, script)| >= |OwnEdges(live, script)|
    ensures |SweptEdges(objs, script)| == |OwnEdges(live, script)| ==>
              forall i :: 0 <= i < |script| ==> Heard(objs, live, script[i])
  {
    if script != [] {
      SweepIsNoShorter(objs, live, script[1..]);
      if |SweptEdges(objs, script)| == |OwnEdges(live, script)| {
        assert |SweptBy(objs, script[0])| == |WalkReport(live, script[0])|;
        forall i | 0 <= i < |script| ensures Heard(objs, live, script[i]) {
          assert i > 0 ==> script[1..][i - 1] == script[i];
        }
      }
    }
  }

  /** For these the whole list is enough to tell: it is the object's own edges if and only
      if nothing the function visits marks anything. */
  lemma VisitsMustBeSilent(objs: Objects, live: set<Word>, script: seq<Action>)
    requires MarksAndVisits(script)
    ensures SweptEdges(objs, script) == OwnEdges(live, script)
       <==> forall i :: 0 <= i < |script| ==> Heard(objs, live, script[i])
  {
    hide Heard, SweptEdges, OwnEdges;
    if forall i :: 0 <= i < |script| ==> Heard(objs, live, script[i]) {
      HeardAgrees(objs, live, script, |script|);
      assert script[..|script|] == script;
    } else {
      SweepIsNoShorter(objs, live, script);
    }
  }

  /** One visit of another object is enough: its edge is pinned as the visitor's own. */
  lemma NestedWalkSplices(live: set<Word>)
    ensures var objs := map[8 := CData(Script([Mark(64)]), 1)];
            OwnEdges(live, [Visit(8, false)]) == [] && SweptEdges(objs, [Visit(8, false)]) == [64]
  {
    var objs: Objects := map[8 := CData(Script([Mark(64)]), 1)];
    assert [Visit(8, false)][1..] == [] && [Mark(64)][1..] == [];
    assert ScriptOf(objs, 8) == [Mark(64)] && RawMarks([Mark(64)]) == [64];
  }
}
