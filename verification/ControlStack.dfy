/** The thread's own state: a stack of blocks, a stack of receivers, the list of pairs
    being visited and the pending exception, pushed, popped and taken as the entry
    points run. Every method is proved to compute what the environment-passing
    semantics says, and to leave the stacks as it found them whatever happens. */
module ControlStack {
  import opened Options
  import opened Sums
  import opened Control

  function Top<T>(s: seq<T>): Option<T> {
    if s == [] then None else Some(s[|s| - 1])
  }

  /** `current_block`: the top frame's block, if it was given one. */
  function CurrentBlock(blocks: seq<Option<Block>>): Option<Block> {
    if blocks == [] then None else blocks[|blocks| - 1]
  }

  function Pairs(visiting: seq<Pair>): set<Pair> {
    set p | p in visiting
  }

  function Without(visiting: seq<Pair>, pair: Pair): seq<Pair> {
    if visiting == [] then []
    else (if visiting[0] == pair then [] else [visiting[0]]) + Without(visiting[1..], pair)
  }

  lemma {:induction false} WithoutAbsent(visiting: seq<Pair>, pair: Pair)
    requires pair !in visiting
    ensures Without(visiting, pair) == visiting && Without(visiting + [pair], pair) == visiting
  {
    if visiting == [] {
      assert visiting + [pair] == [pair] && [pair][1..] == [];
    } else {
      WithoutAbsent(visiting[1..], pair);
      assert (visiting + [pair])[1..] == visiting[1..] + [pair];
    }
  }

  class Thread {
    var errinfo: Option<Value>
    var log: seq<nat>
    var blocks: seq<Option<Block>>
    var receivers: seq<Value>
    var visiting: seq<Pair>

    ghost function EnvNow(): Env
      reads this
    {
      Env(CurrentBlock(blocks), Top(receivers), Pairs(visiting))
    }

    ghost function StoreNow(): Store
      reads this
    {
      Store(errinfo, log)
    }

    ghost predicate Valid()
      reads this
    {
      NoDup(visiting)
    }

    /** A C body run to its end. */
    method Run(fuel: nat, w: World, c: Code, locals: Locals) returns (r: Outcome)
      requires Valid()
      modifies this
      ensures blocks == old(blocks) && receivers == old(receivers) && visiting == old(visiting)
      ensures (r, StoreNow()) == Eval(fuel, w, c, locals, old(EnvNow()), old(StoreNow()))
      decreases fuel, c, 0
    {
      match c
      case Answer(e) => r := Ok(Val(e, locals));
      case Leave(l) => r := Err(SignalOf(l, locals));
      case If(e, yes, no) =>
        if Val(e, locals) != 0 {
          r := Run(fuel, w, yes, locals);
        } else {
          r := Run(fuel, w, no, locals);
        }
      case Let(x, op, rest) =>
        var after;
        r, after := Call(fuel, w, op, locals);
        if r.Ok? {
          r := Run(fuel, w, rest, after[x := r.v]);
        }
    }

    /** One call of an entry point. */
    method Call(fuel: nat, w: World, op: Op, locals: Locals) returns (r: Outcome, after: Locals)
      requires Valid()
      modifies this
      ensures blocks == old(blocks) && receivers == old(receivers) && visiting == old(visiting)
      ensures (r, StoreNow(), after) == EvalOp(fuel, w, op, locals, old(EnvNow()), old(StoreNow()))
      decreases fuel, op, 1
    {
      hide Eval;
      after := locals;
      match op
      case Plain(body, arg) => r := Run(fuel, w, body, map[0 := Val(arg, locals)]);
      case Yield(arg) => r := RbYield(fuel, w, Val(arg, locals), op);
      case Method(recv, body, arg, block, blockArg) =>
        r := Trampoline(fuel, w, Val(recv, locals), body, Val(arg, locals), BlockOf(block, Val(blockArg, locals)));
      case Passing(recv, body, arg) =>
        r := Trampoline(fuel, w, Val(recv, locals), body, Val(arg, locals), CurrentBlock(blocks));
      case Iterate(body, arg, block, blockArg) =>
        r := RbIterate(fuel, w, body, Val(arg, locals), BlockOf(block, Val(blockArg, locals)));
      case Protect(body, arg, state) =>
        r, after := RbProtect(fuel, w, body, Val(arg, locals), state, locals);
      case Ensure(body, arg, ens, ensArg) =>
        r := RbEnsure(fuel, w, body, Val(arg, locals), ens, Val(ensArg, locals), op);
      case Rescue(body, arg, resc, rescArg, classes) =>
        r := RbRescue2(fuel, w, body, Val(arg, locals), resc, Val(rescArg, locals), classes, op);
      case Recursive(obj, paired, arg, body) =>
        r := ExecRecursive(fuel, w, Val(obj, locals), Val(paired, locals), Val(arg, locals), body);
      case _ => r := CallLeaf(fuel, w, op, locals);
    }

    /** The entry points that run no body. */
    method CallLeaf(fuel: nat, w: World, op: Op, locals: Locals) returns (r: Outcome)
      requires op.Note? || op.BlockGiven? || op.Receiver? || op.JumpTag? || op.ErrInfo? || op.SetErrInfo?
      modifies this
      ensures blocks == old(blocks) && receivers == old(receivers) && visiting == old(visiting)
      ensures (r, StoreNow(), locals) == EvalOp(fuel, w, op, locals, old(EnvNow()), old(StoreNow()))
    {
      match op
      case Note(n) =>
        log := log + [n];
        r := Ok(NIL);
      case BlockGiven => r := Ok(if CurrentBlock(blocks).Some? then 1 else 0);
      case Receiver => r := Ok(if receivers == [] then NIL else receivers[|receivers| - 1]);
      case JumpTag => r := RbJumpTag(w);
      case ErrInfo => r := Pending(w, errinfo);
      case SetErrInfo(e) =>
        errinfo := if Val(e, locals) == NIL then None else Some(Val(e, locals));
        r := Ok(NIL);
    }

    method RbYield(fuel: nat, w: World, arg: Value, ghost op: Op) returns (r: Outcome)
      requires Valid()
      modifies this
      ensures blocks == old(blocks) && receivers == old(receivers) && visiting == old(visiting)
      ensures CurrentBlock(blocks).None? ==> r == Err(Raise(w.noBlock)) && StoreNow() == old(StoreNow())
      ensures CurrentBlock(blocks).Some? && fuel == 0 ==> r == Diverges && StoreNow() == old(StoreNow())
      ensures CurrentBlock(blocks).Some? && fuel > 0 ==>
                var b := CurrentBlock(blocks).value;
                (r, StoreNow()) == Eval(fuel - 1, w, b.code, map[0 := arg, 1 := b.arg], old(EnvNow()), old(StoreNow()))
      decreases fuel, op, 0
    {
      var block := CurrentBlock(blocks);
      if block.None? {
        return Err(Raise(w.noBlock));
      }
      if fuel == 0 {
        return Diverges;
      }
      r := Run(fuel - 1, w, block.value.code, map[0 := arg, 1 := block.value.arg]);
    }

    /** A method call: the trampoline parks the block and the receiver for its length. */
    method Trampoline(fuel: nat, w: World, recv: Value, body: Code, arg: Value, block: Option<Block>)
      returns (r: Outcome)
      requires Valid()
      modifies this
      ensures blocks == old(blocks) && receivers == old(receivers) && visiting == old(visiting)
      ensures (r, StoreNow()) ==
              Eval(fuel, w, body, map[0 := arg], Env(block, Some(recv), Pairs(old(visiting))), old(StoreNow()))
      decreases fuel, body, 1
    {
      blocks := blocks + [block];
      receivers := receivers + [recv];
      r := Run(fuel, w, body, map[0 := arg]);
      receivers := receivers[..|receivers| - 1];
      blocks := blocks[..|blocks| - 1];
    }

    method RbIterate(fuel: nat, w: World, body: Code, arg: Value, block: Option<Block>) returns (r: Outcome)
      requires Valid()
      modifies this
      ensures blocks == old(blocks) && receivers == old(receivers) && visiting == old(visiting)
      ensures (r, StoreNow()) ==
              Eval(fuel, w, body, map[0 := arg], old(EnvNow()).(block := block), old(StoreNow()))
      decreases fuel, body, 1
    {
      blocks := blocks + [block];
      r := Run(fuel, w, body, map[0 := arg]);
      blocks := blocks[..|blocks| - 1];
    }

    method RbProtect(fuel: nat, w: World, body: Code, arg: Value, state: Option<nat>, locals: Locals)
      returns (r: Outcome, after: Locals)
      requires Valid()
      modifies this
      ensures blocks == old(blocks) && receivers == old(receivers) && visiting == old(visiting)
      ensures var e := Eval(fuel, w, body, map[0 := arg], old(EnvNow()), old(StoreNow()));
              (r, StoreNow(), after) == ProtectEnd(e.0, e.1, locals, state)
      decreases fuel, body, 1
    {
      after := locals;
      r := Run(fuel, w, body, map[0 := arg]);
      if r.Diverges? {
        return;
      }
      if state.Some? {
        after := after[state.value := if r.Ok? then 0 else 1];
      }
      if r.Err? {
        SetErrinfo(r.sig);
        r := Ok(NIL);
      }
    }

    method SetErrinfo(sig: Signal)
      modifies this`errinfo
      ensures StoreNow() == Caught(old(StoreNow()), sig)
    {
      if sig.Raise? {
        errinfo := Some(sig.exc);
      }
    }

    method RbEnsure(fuel: nat, w: World, body: Code, arg: Value, ens: Code, ensArg: Value, ghost op: Op)
      returns (r: Outcome)
      requires Valid() && op.Ensure? && op.body == body && op.ens == ens
      modifies this
      ensures blocks == old(blocks) && receivers == old(receivers) && visiting == old(visiting)
      ensures var e := Eval(fuel, w, body, map[0 := arg], old(EnvNow()), old(StoreNow()));
              if e.0.Diverges? then (r, StoreNow()) == e
              else
                var f := Eval(fuel, w, ens, map[0 := ensArg], old(EnvNow()), e.1);
                (r, StoreNow()) == (if f.0.Ok? then e.0 else f.0, f.1)
      decreases fuel, op, 0
    {
      r := Run(fuel, w, body, map[0 := arg]);
      if !r.Diverges? {
        var cleanup := Run(fuel, w, ens, map[0 := ensArg]);
        if !cleanup.Ok? {
          r := cleanup;
        }
      }
    }

    method RbRescue2(fuel: nat, w: World, body: Code, arg: Value, resc: Code, rescArg: Value,
                     classes: seq<Value>, ghost op: Op)
      returns (r: Outcome)
      requires Valid() && op.Rescue? && op.body == body && op.resc == resc
      modifies this
      ensures blocks == old(blocks) && receivers == old(receivers) && visiting == old(visiting)
      ensures var e := Eval(fuel, w, body, map[0 := arg], old(EnvNow()), old(StoreNow()));
              if e.0.Err? && e.0.sig.Raise? && RescuedBy(w, e.0.sig.exc, classes)
              then (r, StoreNow()) ==
                   if w.refused(e.0.sig.exc) then (Err(Raise(w.noTag)), Caught(e.1, e.0.sig)) else
                   Eval(fuel, w, resc, map[0 := rescArg, 1 := e.0.sig.exc], old(EnvNow()), Caught(e.1, e.0.sig))
              else (r, StoreNow()) == e
      decreases fuel, op, 0
    {
      r := Run(fuel, w, body, map[0 := arg]);
      if r.Err? && r.sig.Raise? && RescuedBy(w, r.sig.exc, classes) {
        var exc := r.sig.exc;
        SetErrinfo(r.sig);
        if w.refused(exc) {
          return Err(Raise(w.noTag));
        }
        r := Run(fuel, w, resc, map[0 := rescArg, 1 := exc]);
      }
    }

    method RbJumpTag(w: World) returns (r: Outcome)
      modifies this`errinfo
      ensures errinfo == None
      ensures r == Err(Raise(if old(errinfo).Some? then old(errinfo).value else w.noPending))
    {
      r := Err(Raise(if errinfo.Some? then errinfo.value else w.noPending));
      errinfo := None;
    }

    method ExecRecursive(fuel: nat, w: World, obj: Value, paired: Value, arg: Value, body: Code)
      returns (r: Outcome)
      requires Valid()
      modifies this
      ensures blocks == old(blocks) && receivers == old(receivers) && visiting == old(visiting)
      ensures var recur := if (obj, paired) in old(visiting) then 1 else 0;
              (r, StoreNow()) ==
              Eval(fuel, w, body, map[0 := obj, 1 := arg, 2 := recur],
                   old(EnvNow()).(visiting := Pairs(old(visiting)) + {(obj, paired)}), old(StoreNow()))
      decreases fuel, body, 1
    {
      var pair := (obj, paired);
      var seen := BeginVisit(pair);
      assert Pairs(visiting) == Pairs(old(visiting)) + {pair};
      r := Run(fuel, w, body, map[0 := obj, 1 := arg, 2 := if seen then 1 else 0]);
      if !seen {
        WithoutAbsent(old(visiting), pair);
        EndVisit(pair);
      }
    }

    /** The first half of `exec_recursive`: a pair not being visited yet is listed. */
    method BeginVisit(pair: Pair) returns (seen: bool)
      requires Valid()
      modifies this`visiting
      ensures Valid() && seen == (pair in old(visiting))
      ensures visiting == old(visiting) + if seen then [] else [pair]
    {
      seen := pair in visiting;
      if !seen {
        visiting := visiting + [pair];
      }
    }

    /** And its last: the pair is taken off the list. */
    method EndVisit(pair: Pair)
      modifies this`visiting
      ensures visiting == Without(old(visiting), pair)
    {
      visiting := Without(visiting, pair);
    }
  }
}
