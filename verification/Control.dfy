/** Control flow across C bodies. A C body is a program over the entry points; its
    meaning is given by passing the environment down: the innermost frame's block and
    receiver, and the pairs some enclosing `rb_exec_recursive` is inside. */
module Control {
  import opened Options

  type Value = int

  const NIL: Value := 4

  datatype Signal =
    | Break(v: Value) | Next(v: Value) | Redo | Retry | Return(v: Value)
    | Raise(exc: Value) | Throw(tag: Value, v: Value) | Terminate

  /** How a body ends. `Diverges` is a run that has not ended after `fuel` nested yields. */
  datatype Outcome = Ok(v: Value) | Err(sig: Signal) | Diverges

  datatype Expr = Const(v: Value) | Local(x: nat)

  /** The signal a body leaves with, its values computed from the locals. */
  datatype Leaving =
    | LeaveRaise(e: Expr) | LeaveBreak(e: Expr) | LeaveThrow(tag: Expr, e: Expr) | LeaveWith(sig: Signal)

  /** A C function's body. Its arguments are its first locals. */
  datatype Code =
    | Answer(e: Expr)
    | Leave(l: Leaving)
    | If(e: Expr, yes: Code, no: Code)
    | Let(x: nat, op: Op, rest: Code)

  datatype Op =
    | Note(n: nat)                                                   // an effect somebody can observe
    | Plain(body: Code, arg: Expr)                                   // an ordinary C call
    | Yield(arg: Expr)                                               // rb_yield
    | BlockGiven                                                     // rb_block_given_p
    | Receiver                                                       // what rb_call_super reads
    | Method(recv: Expr, body: Code, arg: Expr, block: Option<Code>, blockArg: Expr)  // a method trampoline
    | Passing(recv: Expr, body: Code, arg: Expr)                     // rb_funcall_passing_block
    | Iterate(body: Code, arg: Expr, block: Option<Code>, blockArg: Expr)  // rb_iterate
    | Protect(body: Code, arg: Expr, state: Option<nat>)             // rb_protect
    | Ensure(body: Code, arg: Expr, ens: Code, ensArg: Expr)         // rb_ensure
    | Rescue(body: Code, arg: Expr, resc: Code, rescArg: Expr, classes: seq<Value>)  // rb_rescue2
    | JumpTag                                                        // rb_jump_tag
    | ErrInfo                                                        // rb_errinfo
    | SetErrInfo(e: Expr)                                            // rb_set_errinfo
    | Recursive(obj: Expr, paired: Expr, arg: Expr, body: Code)      // rb_exec_recursive_paired

  /** A C block: the function and its callback argument. */
  datatype Block = Block(code: Code, arg: Value)

  type Locals = map<nat, Value>
  type Pair = (Value, Value)

  /** What a body reads from the frames around it. */
  datatype Env = Env(block: Option<Block>, recv: Option<Value>, visiting: set<Pair>)

  /** What bodies hand on to each other. */
  datatype Store = Store(errinfo: Option<Value>, log: seq<nat>)

  /** The exception hierarchy, which exceptions `to_value` refuses, and the exceptions the
      runtime itself builds. */
  datatype World = World(isA: (Value, Value) -> bool, refused: Value -> bool,
                         standardError: Value, noBlock: Value, noPending: Value, noTag: Value)

  function Val(e: Expr, locals: Locals): Value {
    match e
    case Const(v) => v
    case Local(x) => if x in locals then locals[x] else NIL
  }

  function SignalOf(l: Leaving, locals: Locals): Signal {
    match l
    case LeaveRaise(e) => Raise(Val(e, locals))
    case LeaveBreak(e) => Break(Val(e, locals))
    case LeaveThrow(t, e) => Throw(Val(t, locals), Val(e, locals))
    case LeaveWith(sig) => sig
  }

  function BlockOf(code: Option<Code>, arg: Value): Option<Block> {
    if code.Some? then Some(Block(code.value, arg)) else None
  }

  /** `set_errinfo`: only a raise becomes `$!`. */
  function Caught(st: Store, sig: Signal): Store {
    if sig.Raise? then st.(errinfo := Some(sig.exc)) else st
  }

  /** `rescued_by`: an empty class list means `StandardError`. */
  predicate RescuedBy(w: World, exc: Value, classes: seq<Value>) {
    if classes == [] then w.isA(exc, w.standardError)
    else exists i :: 0 <= i < |classes| && w.isA(exc, classes[i])
  }

  // ---- the environment-passing semantics -------------------------------------------

  function Eval(fuel: nat, w: World, c: Code, locals: Locals, env: Env, st: Store): (Outcome, Store)
    decreases fuel, c, 0
  {
    match c
    case Answer(e) => (Ok(Val(e, locals)), st)
    case Leave(l) => (Err(SignalOf(l, locals)), st)
    case If(e, yes, no) => if Val(e, locals) != 0 then Eval(fuel, w, yes, locals, env, st)
                           else Eval(fuel, w, no, locals, env, st)
    case Let(x, op, rest) =>
      var r := EvalOp(fuel, w, op, locals, env, st);
      if r.0.Ok? then Eval(fuel, w, rest, r.2[x := r.0.v], env, r.1) else (r.0, r.1)
  }

  /** An entry point's outcome, the store after it, and the caller's locals, which only
      `rb_protect` writes to. */
  function EvalOp(fuel: nat, w: World, op: Op, locals: Locals, env: Env, st: Store): (Outcome, Store, Locals)
    decreases fuel, op, 1
  {
    match op
    case Note(n) => (Ok(NIL), st.(log := st.log + [n]), locals)
    case Plain(body, arg) =>
      var r := Eval(fuel, w, body, map[0 := Val(arg, locals)], env, st);
      (r.0, r.1, locals)
    case Yield(arg) =>
      // The block runs in the frame of the `rb_yield`: nothing pushes a frame for it.
      if env.block.None? then (Err(Raise(w.noBlock)), st, locals)
      else if fuel == 0 then (Diverges, st, locals)
      else
        var r := Eval(fuel - 1, w, env.block.value.code,
                      map[0 := Val(arg, locals), 1 := env.block.value.arg], env, st);
        (r.0, r.1, locals)
    case BlockGiven => (Ok(if env.block.Some? then 1 else 0), st, locals)
    case Receiver => (Ok(if env.recv.Some? then env.recv.value else NIL), st, locals)
    case Method(recv, body, arg, block, blockArg) =>
      var inner := Env(BlockOf(block, Val(blockArg, locals)), Some(Val(recv, locals)), env.visiting);
      var r := Eval(fuel, w, body, map[0 := Val(arg, locals)], inner, st);
      (r.0, r.1, locals)
    case Passing(recv, body, arg) =>
      var r := Eval(fuel, w, body, map[0 := Val(arg, locals)], env.(recv := Some(Val(recv, locals))), st);
      (r.0, r.1, locals)
    case Iterate(body, arg, block, blockArg) =>
      var inner := env.(block := BlockOf(block, Val(blockArg, locals)));
      var r := Eval(fuel, w, body, map[0 := Val(arg, locals)], inner, st);
      (r.0, r.1, locals)
    case Protect(body, arg, state) =>
      var r := Eval(fuel, w, body, map[0 := Val(arg, locals)], env, st);
      ProtectEnd(r.0, r.1, locals, state)
    case Ensure(body, arg, ens, ensArg) =>
      var r := Eval(fuel, w, body, map[0 := Val(arg, locals)], env, st);
      if r.0.Diverges? then (Diverges, r.1, locals)
      else
        var f := Eval(fuel, w, ens, map[0 := Val(ensArg, locals)], env, r.1);
        (if f.0.Ok? then r.0 else f.0, f.1, locals)
    case Rescue(body, arg, resc, rescArg, classes) =>
      var r := Eval(fuel, w, body, map[0 := Val(arg, locals)], env, st);
      if r.0.Err? && r.0.sig.Raise? && RescuedBy(w, r.0.sig.exc, classes) then
        // The exception is pending by the time its `VALUE` may be refused.
        if w.refused(r.0.sig.exc) then (Err(Raise(w.noTag)), Caught(r.1, r.0.sig), locals) else
        var f := Eval(fuel, w, resc, map[0 := Val(rescArg, locals), 1 := r.0.sig.exc], env, Caught(r.1, r.0.sig));
        (f.0, f.1, locals)
      else (r.0, r.1, locals)
    case JumpTag =>
      (Err(Raise(if st.errinfo.Some? then st.errinfo.value else w.noPending)), st.(errinfo := None), locals)
    case ErrInfo => (Pending(w, st.errinfo), st, locals)
    case SetErrInfo(e) =>
      (Ok(NIL), st.(errinfo := if Val(e, locals) == NIL then None else Some(Val(e, locals))), locals)
    case Recursive(obj, paired, arg, body) =>
      var pair := (Val(obj, locals), Val(paired, locals));
      var recur := if pair in env.visiting then 1 else 0;
      var r := Eval(fuel, w, body, map[0 := pair.0, 1 := Val(arg, locals), 2 := recur],
                    env.(visiting := env.visiting + {pair}), st);
      (r.0, r.1, locals)
  }

  /** The `VALUE` of the pending exception. */
  function Pending(w: World, errinfo: Option<Value>): Outcome {
    if errinfo.None? then Ok(NIL)
    else if w.refused(errinfo.value) then Err(Raise(w.noTag))
    else Ok(errinfo.value)
  }

  function ProtectEnd(out: Outcome, st: Store, locals: Locals, state: Option<nat>): (Outcome, Store, Locals) {
    var marked := if state.Some? then locals[state.value := if out.Ok? then 0 else 1] else locals;
    match out
    case Ok(_) => (out, st, marked)
    case Err(sig) => (Ok(NIL), Caught(st, sig), marked)
    case Diverges => (Diverges, st, locals)
  }
}
