/** What each entry point is for, as an extension can observe it: which handler runs, whose
    block is called, what is pending, who is told that it recurs. */
module EntryLaws {
  import opened Options
  import opened Control
  import opened ControlLaws

  // ---- rescue ----------------------------------------------------------------------------------

  /** The exception is one of the classes asked for; no class asked for is `StandardError`. */
  ghost predicate Wanted(w: World, exc: Value, classes: seq<Value>) {
    || (classes == [] && w.isA(exc, w.standardError))
    || exists c :: c in classes && w.isA(exc, c)
  }

  lemma WantedIsRescued(w: World, exc: Value, classes: seq<Value>)
    ensures RescuedBy(w, exc, classes) <==> Wanted(w, exc, classes)
  {
    if c :| c in classes && w.isA(exc, c) {
      var i :| 0 <= i < |classes| && classes[i] == c;
      assert w.isA(exc, classes[i]);
    }
    if classes != [] && RescuedBy(w, exc, classes) {
      var i :| 0 <= i < |classes| && w.isA(exc, classes[i]);
      var c := classes[i];
      assert c in classes && w.isA(exc, c);
    }
  }

  /** The body, run under `rb_rescue2`. */
  function Body(fuel: nat, w: World, body: Code, arg: Expr, locals: Locals, env: Env, st: Store): (Outcome, Store) {
    Eval(fuel, w, body, map[0 := Val(arg, locals)], env, st)
  }

  /** A raise of a wanted exception ends as the handler does, given that exception and with
      it pending. */
  lemma RescueHandles(fuel: nat, w: World, body: Code, arg: Expr, resc: Code, rescArg: Expr, classes: seq<Value>,
                      locals: Locals, env: Env, st: Store, exc: Value)
    requires Body(fuel, w, body, arg, locals, env, st).0 == Err(Raise(exc))
    requires Wanted(w, exc, classes) && !w.refused(exc)
    ensures var after := Body(fuel, w, body, arg, locals, env, st).1.(errinfo := Some(exc));
            var h := Eval(fuel, w, resc, map[0 := Val(rescArg, locals), 1 := exc], env, after);
            EvalOp(fuel, w, Rescue(body, arg, resc, rescArg, classes), locals, env, st) == (h.0, h.1, locals)
  {
    hide Eval;
    WantedIsRescued(w, exc, classes);
  }

  /** Every other ending passes through, and a wanted exception C cannot be handed is
      replaced by the refusal. */
  lemma RescuePasses(fuel: nat, w: World, body: Code, arg: Expr, resc: Code, rescArg: Expr, classes: seq<Value>,
                     locals: Locals, env: Env, st: Store)
    ensures var b := Body(fuel, w, body, arg, locals, env, st);
            var r := EvalOp(fuel, w, Rescue(body, arg, resc, rescArg, classes), locals, env, st);
            && (!(b.0.Err? && b.0.sig.Raise? && Wanted(w, b.0.sig.exc, classes)) ==> r == (b.0, b.1, locals))
            && (b.0.Err? && b.0.sig.Raise? && Wanted(w, b.0.sig.exc, classes) && w.refused(b.0.sig.exc) ==>
                  r == (Err(Raise(w.noTag)), b.1.(errinfo := Some(b.0.sig.exc)), locals))
  {
    hide Eval;
    var b := Body(fuel, w, body, arg, locals, env, st);
    if b.0.Err? && b.0.sig.Raise? {
      WantedIsRescued(w, b.0.sig.exc, classes);
    }
  }

  /** The handler runs once for a raise of a wanted exception and not at all otherwise. */
  lemma RescueRunsOnce(fuel: nat, w: World, body: Code, arg: Expr, n: nat, rest: Code, rescArg: Expr, classes: seq<Value>,
                       locals: Locals, env: Env, st: Store)
    requires n !in Notes(body) && n !in Notes(rest) && n !in EnvNotes(env)
    ensures var b := Body(fuel, w, body, arg, locals, env, st).0;
            var r := EvalOp(fuel, w, Rescue(body, arg, Cleanup(n, rest), rescArg, classes), locals, env, st);
            var handled := b.Err? && b.sig.Raise? && Wanted(w, b.sig.exc, classes) && !w.refused(b.sig.exc);
            Count(r.1.log, n) == Count(st.log, n) + if handled then 1 else 0
  {
    var b := Body(fuel, w, body, arg, locals, env, st);
    UnnamedIsUncounted(fuel, w, body, map[0 := Val(arg, locals)], env, st, n);
    if b.0.Err? && b.0.sig.Raise? && Wanted(w, b.0.sig.exc, classes) && !w.refused(b.0.sig.exc) {
      var exc, after := b.0.sig.exc, b.1.(errinfo := Some(b.0.sig.exc));
      RescueHandles(fuel, w, body, arg, Cleanup(n, rest), rescArg, classes, locals, env, st, exc);
      NotesOnce(fuel, w, n, rest, map[0 := Val(rescArg, locals), 1 := exc], env, after);
    } else {
      RescuePasses(fuel, w, body, arg, Cleanup(n, rest), rescArg, classes, locals, env, st);
    }
  }

  lemma NotesOnce(fuel: nat, w: World, n: nat, rest: Code, locals: Locals, env: Env, st: Store)
    requires n !in Notes(rest) && n !in EnvNotes(env)
    ensures Count(Eval(fuel, w, Cleanup(n, rest), locals, env, st).1.log, n) == Count(st.log, n) + 1
  {
    var noted := st.(log := st.log + [n]);
    assert multiset(noted.log) == multiset(st.log) + multiset{n};
    UnnamedIsUncounted(fuel, w, rest, locals[0 := NIL], env, noted, n);
  }

  // ---- what is pending -------------------------------------------------------------------------

  /** `rb_protect` ends normally whatever the body does, says so in the caller's variable,
      and leaves a raise, and nothing else, pending. */
  lemma ProtectReports(fuel: nat, w: World, body: Code, arg: Expr, x: nat, locals: Locals, env: Env, st: Store)
    requires !Body(fuel, w, body, arg, locals, env, st).0.Diverges?
    ensures var b := Body(fuel, w, body, arg, locals, env, st);
            var r := EvalOp(fuel, w, Protect(body, arg, Some(x)), locals, env, st);
            && r.0 == Ok(if b.0.Ok? then b.0.v else NIL)
            && r.2 == locals[x := if b.0.Ok? then 0 else 1]
            && r.1.errinfo == (if b.0.Err? && b.0.sig.Raise? then Some(b.0.sig.exc) else b.1.errinfo)
            && r.1.log == b.1.log
  {
    hide Eval;
  }

  /** What is set is what is read and what is re-raised, once; nil is nothing pending. */
  lemma PendingIsTaken(fuel: nat, w: World, v: Value, locals: Locals, env: Env, st: Store)
    ensures var pending := EvalOp(fuel, w, SetErrInfo(Const(v)), locals, env, st).1;
            var jump := EvalOp(fuel, w, JumpTag, locals, env, pending);
            && (v != NIL ==> jump.0 == Err(Raise(v)))
            && (v == NIL ==> jump.0 == Err(Raise(w.noPending)))
            && (!w.refused(v) || v == NIL ==> EvalOp(fuel, w, ErrInfo, locals, env, pending).0 == Ok(v))
            && EvalOp(fuel, w, ErrInfo, locals, env, jump.1).0 == Ok(NIL)
  {
  }

  // ---- whose block, whose receiver --------------------------------------------------------------

  /** A body that yields its argument and answers what the block does. */
  function YieldIt(): Code {
    Let(1, Yield(Local(0)), Answer(Local(1)))
  }

  /** One that answers whether it has a block, and one that answers its receiver. */
  function AskBlock(): Code {
    Let(1, BlockGiven, Answer(Local(1)))
  }

  function AskReceiver(): Code {
    Let(1, Receiver, Answer(Local(1)))
  }

  lemma AskedReceiver(fuel: nat, w: World, locals: Locals, env: Env, st: Store)
    ensures Eval(fuel, w, AskReceiver(), locals, env, st) == (Ok(if env.recv.Some? then env.recv.value else NIL), st)
  {
    EvalLet(fuel, w, 1, Receiver, Answer(Local(1)), locals, env, st);
  }

  lemma AskedBlock(fuel: nat, w: World, locals: Locals, env: Env, st: Store)
    ensures Eval(fuel, w, AskBlock(), locals, env, st) == (Ok(if env.block.Some? then 1 else 0), st)
  {
    EvalLet(fuel, w, 1, BlockGiven, Answer(Local(1)), locals, env, st);
  }

  /** The value yielded is the block's first argument and its own is the second. */
  lemma Yielded(fuel: nat, w: World, v: Value, env: Env, st: Store)
    ensures env.block.None? ==> Eval(fuel, w, YieldIt(), map[0 := v], env, st) == (Err(Raise(w.noBlock)), st)
    ensures env.block.Some? && fuel > 0 ==>
              Eval(fuel, w, YieldIt(), map[0 := v], env, st)
              == Eval(fuel - 1, w, env.block.value.code, map[0 := v, 1 := env.block.value.arg], env, st)
  {
    EvalLet(fuel, w, 1, Yield(Local(0)), Answer(Local(1)), map[0 := v], env, st);
  }

  /** A method sees the receiver and the block it was called with, and nothing of its
      caller's frame. */
  lemma MethodSeesItsOwn(fuel: nat, w: World, recv: Expr, body: Code, arg: Expr, block: Option<Code>, blockArg: Expr,
                         locals: Locals, env: Env, other: Env, st: Store)
    requires env.visiting == other.visiting
    ensures EvalOp(fuel, w, Method(recv, AskReceiver(), arg, block, blockArg), locals, env, st).0 == Ok(Val(recv, locals))
    ensures EvalOp(fuel, w, Method(recv, AskBlock(), arg, block, blockArg), locals, env, st).0
         == Ok(if block.Some? then 1 else 0)
    ensures EvalOp(fuel, w, Method(recv, body, arg, block, blockArg), locals, env, st)
         == EvalOp(fuel, w, Method(recv, body, arg, block, blockArg), locals, other, st)
  {
    var inner := Env(BlockOf(block, Val(blockArg, locals)), Some(Val(recv, locals)), env.visiting);
    AskedReceiver(fuel, w, map[0 := Val(arg, locals)], inner, st);
    AskedBlock(fuel, w, map[0 := Val(arg, locals)], inner, st);
    hide Eval, AskReceiver, AskBlock;
  }

  /** Its yield runs that block, on the value yielded and the block's own argument. */
  lemma MethodYieldsToItsBlock(fuel: nat, w: World, recv: Expr, arg: Expr, code: Code, blockArg: Expr,
                               locals: Locals, env: Env, st: Store)
    requires fuel > 0
    ensures var inner := Env(Some(Block(code, Val(blockArg, locals))), Some(Val(recv, locals)), env.visiting);
            var b := Eval(fuel - 1, w, code, map[0 := Val(arg, locals), 1 := Val(blockArg, locals)], inner, st);
            var r := EvalOp(fuel, w, Method(recv, YieldIt(), arg, Some(code), blockArg), locals, env, st);
            r.0 == b.0 && r.1 == b.1
  {
    var inner := Env(Some(Block(code, Val(blockArg, locals))), Some(Val(recv, locals)), env.visiting);
    Yielded(fuel, w, Val(arg, locals), inner, st);
    hide Eval, YieldIt;
  }

  lemma NoBlockNoYield(fuel: nat, w: World, recv: Expr, arg: Expr, blockArg: Expr, locals: Locals, env: Env, st: Store)
    ensures EvalOp(fuel, w, Method(recv, YieldIt(), arg, None, blockArg), locals, env, st).0 == Err(Raise(w.noBlock))
  {
    Yielded(fuel, w, Val(arg, locals), Env(None, Some(Val(recv, locals)), env.visiting), st);
    hide Eval, YieldIt;
  }

  /** `rb_funcall_passing_block` hands the caller's own block on, with another receiver. */
  lemma PassingHandsOn(fuel: nat, w: World, recv: Expr, arg: Expr, locals: Locals, env: Env, st: Store)
    ensures EvalOp(fuel, w, Passing(recv, AskReceiver(), arg), locals, env, st).0 == Ok(Val(recv, locals))
    ensures EvalOp(fuel, w, Passing(recv, AskBlock(), arg), locals, env, st).0 == Ok(if env.block.Some? then 1 else 0)
    ensures fuel > 0 && env.block.Some? ==>
              var b := Eval(fuel - 1, w, env.block.value.code, map[0 := Val(arg, locals), 1 := env.block.value.arg],
                            env.(recv := Some(Val(recv, locals))), st);
              var r := EvalOp(fuel, w, Passing(recv, YieldIt(), arg), locals, env, st);
              r.0 == b.0 && r.1 == b.1
  {
    var inner := env.(recv := Some(Val(recv, locals)));
    AskedReceiver(fuel, w, map[0 := Val(arg, locals)], inner, st);
    AskedBlock(fuel, w, map[0 := Val(arg, locals)], inner, st);
    Yielded(fuel, w, Val(arg, locals), inner, st);
    hide Eval, AskReceiver, AskBlock, YieldIt;
  }

  /** `rb_iterate` installs its block for the body and leaves the receiver. */
  lemma IterateInstalls(fuel: nat, w: World, arg: Expr, code: Code, blockArg: Expr, locals: Locals, env: Env, st: Store)
    ensures EvalOp(fuel, w, Iterate(AskReceiver(), arg, Some(code), blockArg), locals, env, st).0
         == EvalOp(fuel, w, Receiver, locals, env, st).0
    ensures EvalOp(fuel, w, Iterate(AskBlock(), arg, None, blockArg), locals, env, st).0 == Ok(0)
    ensures fuel > 0 ==>
              var block := Block(code, Val(blockArg, locals));
              var b := Eval(fuel - 1, w, code, map[0 := Val(arg, locals), 1 := Val(blockArg, locals)],
                            env.(block := Some(block)), st);
              var r := EvalOp(fuel, w, Iterate(YieldIt(), arg, Some(code), blockArg), locals, env, st);
              r.0 == b.0 && r.1 == b.1
  {
    var inner := env.(block := Some(Block(code, Val(blockArg, locals))));
    AskedReceiver(fuel, w, map[0 := Val(arg, locals)], inner, st);
    AskedBlock(fuel, w, map[0 := Val(arg, locals)], env.(block := None), st);
    Yielded(fuel, w, Val(arg, locals), inner, st);
    hide Eval, AskReceiver, AskBlock, YieldIt;
  }

  /** An ordinary C call has no frame of its own: it sees its caller's. */
  lemma PlainSharesTheFrame(fuel: nat, w: World, arg: Expr, locals: Locals, env: Env, st: Store)
    ensures EvalOp(fuel, w, Plain(AskBlock(), arg), locals, env, st).0 == EvalOp(fuel, w, BlockGiven, locals, env, st).0
    ensures EvalOp(fuel, w, Plain(AskReceiver(), arg), locals, env, st).0 == EvalOp(fuel, w, Receiver, locals, env, st).0
    ensures EvalOp(fuel, w, Plain(YieldIt(), arg), locals, env, st).0 == EvalOp(fuel, w, Yield(arg), locals, env, st).0
  {
    AskedReceiver(fuel, w, map[0 := Val(arg, locals)], env, st);
    AskedBlock(fuel, w, map[0 := Val(arg, locals)], env, st);
    YieldedHere(fuel, w, arg, locals, env, st);
    hide Eval, AskReceiver, AskBlock, YieldIt;
  }

  lemma YieldedHere(fuel: nat, w: World, arg: Expr, locals: Locals, env: Env, st: Store)
    ensures Eval(fuel, w, YieldIt(), map[0 := Val(arg, locals)], env, st).0
         == EvalOp(fuel, w, Yield(arg), locals, env, st).0
  {
    EvalLet(fuel, w, 1, Yield(Local(0)), Answer(Local(1)), map[0 := Val(arg, locals)], env, st);
  }

  // ---- who recurs ------------------------------------------------------------------------------

  /** A body that answers whether it was told it recurs. */
  function AskRecur(): Code {
    Answer(Local(2))
  }

  /** A call is told it recurs exactly when one around it visits the same pair, and once it
      is left another is told what it would have been told before. */
  lemma RecursionIsTold(fuel: nat, w: World, o: Value, p: Value, o': Value, p': Value, arg: Expr,
                        locals: Locals, env: Env, st: Store)
    ensures EvalOp(fuel, w, Recursive(Const(o), Const(p), arg, AskRecur()), locals, env, st).0
         == Ok(if (o, p) in env.visiting then 1 else 0)
    ensures EvalOp(fuel, w, Recursive(Const(o), Const(p), arg,
                       Let(3, Recursive(Const(o'), Const(p'), arg, AskRecur()), Answer(Local(3)))), locals, env, st).0
         == Ok(if (o', p') == (o, p) || (o', p') in env.visiting then 1 else 0)
    ensures Eval(fuel, w, Let(3, Recursive(Const(o), Const(p), arg, AskRecur()),
                     Let(4, Recursive(Const(o'), Const(p'), arg, AskRecur()), Answer(Local(4)))), locals, env, st).0
         == Ok(if (o', p') in env.visiting then 1 else 0)
  {
    var inner := env.(visiting := env.visiting + {(o, p)});
    var l := map[0 := o, 1 := Val(arg, locals), 2 := if (o, p) in env.visiting then 1 else 0];
    var again := Recursive(Const(o'), Const(p'), arg, AskRecur());
    Told(fuel, w, o', p', arg, l, inner, st);
    EvalLet(fuel, w, 3, again, Answer(Local(3)), l, inner, st);
    Told(fuel, w, o, p, arg, locals, env, st);
    var told := if (o, p) in env.visiting then 1 else 0;
    Told(fuel, w, o', p', arg, locals[3 := told], env, st);
    EvalLet(fuel, w, 3, Recursive(Const(o), Const(p), arg, AskRecur()), Let(4, again, Answer(Local(4))), locals, env, st);
    EvalLet(fuel, w, 4, again, Answer(Local(4)), locals[3 := told], env, st);
  }

  lemma Told(fuel: nat, w: World, o: Value, p: Value, arg: Expr, locals: Locals, env: Env, st: Store)
    ensures EvalOp(fuel, w, Recursive(Const(o), Const(p), arg, AskRecur()), locals, env, st)
         == (Ok(if (o, p) in env.visiting then 1 else 0), st, locals)
  {
  }
}
