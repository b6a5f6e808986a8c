/** Laws of the entry points, over every body and every way it can end. */
module ControlLaws {
  import opened Options
  import opened Control

  // ---- the fuel is no bound -----------------------------------------------------------

  /** A run that ends, ends the same with any more fuel. */
  lemma {:induction false} FuelIsEnough(fuel: nat, more: nat, w: World, c: Code, locals: Locals, env: Env, st: Store)
    requires fuel <= more && !Eval(fuel, w, c, locals, env, st).0.Diverges?
    ensures Eval(more, w, c, locals, env, st) == Eval(fuel, w, c, locals, env, st)
    decreases fuel, c, 0
  {
    match c
    case Answer(_) =>
    case Leave(_) =>
    case If(e, yes, no) =>
      if Val(e, locals) != 0 {
        FuelIsEnough(fuel, more, w, yes, locals, env, st);
      } else {
        FuelIsEnough(fuel, more, w, no, locals, env, st);
      }
    case Let(x, op, rest) =>
      OpFuelIsEnough(fuel, more, w, op, locals, env, st);
      var r := EvalOp(fuel, w, op, locals, env, st);
      if r.0.Ok? {
        FuelIsEnough(fuel, more, w, rest, r.2[x := r.0.v], env, r.1);
      }
  }

  lemma {:induction false} OpFuelIsEnough(fuel: nat, more: nat, w: World, op: Op, locals: Locals, env: Env, st: Store)
    requires fuel <= more && !EvalOp(fuel, w, op, locals, env, st).0.Diverges?
    ensures EvalOp(more, w, op, locals, env, st) == EvalOp(fuel, w, op, locals, env, st)
    decreases fuel, op, 1
  {
    match op
    case Plain(body, arg) => FuelIsEnough(fuel, more, w, body, map[0 := Val(arg, locals)], env, st);
    case Yield(arg) =>
      if env.block.Some? {
        var b := env.block.value;
        FuelIsEnough(fuel - 1, more - 1, w, b.code, map[0 := Val(arg, locals), 1 := b.arg], env, st);
      }
    case Method(recv, body, arg, block, blockArg) =>
      FuelIsEnough(fuel, more, w, body, map[0 := Val(arg, locals)],
                   Env(BlockOf(block, Val(blockArg, locals)), Some(Val(recv, locals)), env.visiting), st);
    case Passing(recv, body, arg) =>
      FuelIsEnough(fuel, more, w, body, map[0 := Val(arg, locals)], env.(recv := Some(Val(recv, locals))), st);
    case Iterate(body, arg, block, blockArg) =>
      FuelIsEnough(fuel, more, w, body, map[0 := Val(arg, locals)],
                   env.(block := BlockOf(block, Val(blockArg, locals))), st);
    case Protect(body, arg, _) => FuelIsEnough(fuel, more, w, body, map[0 := Val(arg, locals)], env, st);
    case Ensure(body, arg, ens, ensArg) =>
      FuelIsEnough(fuel, more, w, body, map[0 := Val(arg, locals)], env, st);
      var r := Eval(fuel, w, body, map[0 := Val(arg, locals)], env, st);
      FuelIsEnough(fuel, more, w, ens, map[0 := Val(ensArg, locals)], env, r.1);
    case Rescue(body, arg, resc, rescArg, classes) =>
      FuelIsEnough(fuel, more, w, body, map[0 := Val(arg, locals)], env, st);
      var r := Eval(fuel, w, body, map[0 := Val(arg, locals)], env, st);
      if r.0.Err? && r.0.sig.Raise? && RescuedBy(w, r.0.sig.exc, classes) && !w.refused(r.0.sig.exc) {
        FuelIsEnough(fuel, more, w, resc, map[0 := Val(rescArg, locals), 1 := r.0.sig.exc], env, Caught(r.1, r.0.sig));
      }
    case Recursive(obj, paired, arg, body) =>
      var pair := (Val(obj, locals), Val(paired, locals));
      FuelIsEnough(fuel, more, w, body, map[0 := pair.0, 1 := Val(arg, locals), 2 := if pair in env.visiting then 1 else 0],
                   env.(visiting := env.visiting + {pair}), st);
    case _ =>
  }

  // ---- rb_ensure runs its cleanup exactly once ---------------------------------------------

  /** Every effect a body can name. */
  function Notes(c: Code): set<nat>
    decreases c, 0
  {
    match c
    case Answer(_) => {}
    case Leave(_) => {}
    case If(_, yes, no) => Notes(yes) + Notes(no)
    case Let(_, op, rest) => OpNotes(op) + Notes(rest)
  }

  function OpNotes(op: Op): set<nat>
    decreases op, 1
  {
    match op
    case Note(n) => {n}
    case Plain(body, _) => Notes(body)
    case Method(_, body, _, block, _) => Notes(body) + (if block.Some? then Notes(block.value) else {})
    case Passing(_, body, _) => Notes(body)
    case Iterate(body, _, block, _) => Notes(body) + (if block.Some? then Notes(block.value) else {})
    case Protect(body, _, _) => Notes(body)
    case Ensure(body, _, ens, _) => Notes(body) + Notes(ens)
    case Rescue(body, _, resc, _, _) => Notes(body) + Notes(resc)
    case Recursive(_, _, _, body) => Notes(body)
    case _ => {}
  }

  /** And every effect the block it may yield to can. */
  function EnvNotes(env: Env): set<nat> {
    if env.block.Some? then Notes(env.block.value.code) else {}
  }

  /** How often `n` was noted. */
  function Count(log: seq<nat>, n: nat): nat {
    multiset(log)[n]
  }

  /** A body adds no note it does not name. */
  lemma {:induction false} UnnamedIsUncounted(fuel: nat, w: World, c: Code, locals: Locals, env: Env, st: Store, n: nat)
    requires n !in Notes(c) && n !in EnvNotes(env)
    ensures Count(Eval(fuel, w, c, locals, env, st).1.log, n) == Count(st.log, n)
    decreases fuel, c, 0
  {
    match c
    case Answer(_) =>
    case Leave(_) =>
    case If(e, yes, no) =>
      UnnamedIsUncounted(fuel, w, yes, locals, env, st, n);
      UnnamedIsUncounted(fuel, w, no, locals, env, st, n);
    case Let(x, op, rest) =>
      OpUnnamedIsUncounted(fuel, w, op, locals, env, st, n);
      var r := EvalOp(fuel, w, op, locals, env, st);
      if r.0.Ok? {
        UnnamedIsUncounted(fuel, w, rest, r.2[x := r.0.v], env, r.1, n);
      }
  }

  lemma {:induction false} OpUnnamedIsUncounted(fuel: nat, w: World, op: Op, locals: Locals, env: Env, st: Store, n: nat)
    requires n !in OpNotes(op) && n !in EnvNotes(env)
    ensures Count(EvalOp(fuel, w, op, locals, env, st).1.log, n) == Count(st.log, n)
    decreases fuel, op, 1
  {
    match op
    case Note(m) => assert multiset(st.log + [m]) == multiset(st.log) + multiset{m};
    case Plain(body, arg) => UnnamedIsUncounted(fuel, w, body, map[0 := Val(arg, locals)], env, st, n);
    case Yield(arg) =>
      if env.block.Some? && fuel > 0 {
        var b := env.block.value;
        UnnamedIsUncounted(fuel - 1, w, b.code, map[0 := Val(arg, locals), 1 := b.arg], env, st, n);
      }
    case Method(recv, body, arg, block, blockArg) =>
      UnnamedIsUncounted(fuel, w, body, map[0 := Val(arg, locals)],
                         Env(BlockOf(block, Val(blockArg, locals)), Some(Val(recv, locals)), env.visiting), st, n);
    case Passing(recv, body, arg) =>
      UnnamedIsUncounted(fuel, w, body, map[0 := Val(arg, locals)], env.(recv := Some(Val(recv, locals))), st, n);
    case Iterate(body, arg, block, blockArg) =>
      UnnamedIsUncounted(fuel, w, body, map[0 := Val(arg, locals)],
                         env.(block := BlockOf(block, Val(blockArg, locals))), st, n);
    case Protect(body, arg, _) => UnnamedIsUncounted(fuel, w, body, map[0 := Val(arg, locals)], env, st, n);
    case Ensure(body, arg, ens, ensArg) =>
      UnnamedIsUncounted(fuel, w, body, map[0 := Val(arg, locals)], env, st, n);
      var r := Eval(fuel, w, body, map[0 := Val(arg, locals)], env, st);
      UnnamedIsUncounted(fuel, w, ens, map[0 := Val(ensArg, locals)], env, r.1, n);
    case Rescue(body, arg, resc, rescArg, classes) =>
      UnnamedIsUncounted(fuel, w, body, map[0 := Val(arg, locals)], env, st, n);
      var r := Eval(fuel, w, body, map[0 := Val(arg, locals)], env, st);
      if r.0.Err? && r.0.sig.Raise? {
        UnnamedIsUncounted(fuel, w, resc, map[0 := Val(rescArg, locals), 1 := r.0.sig.exc], env, Caught(r.1, r.0.sig), n);
      }
    case Recursive(obj, paired, arg, body) =>
      var pair := (Val(obj, locals), Val(paired, locals));
      UnnamedIsUncounted(fuel, w, body, map[0 := pair.0, 1 := Val(arg, locals), 2 := if pair in env.visiting then 1 else 0],
                         env.(visiting := env.visiting + {pair}), st, n);
    case _ =>
  }

  /** A cleanup that begins by noting `n` and then does anything else. */
  function Cleanup(n: nat, rest: Code): Code {
    Let(0, Note(n), rest)
  }

  /** Whatever way the body ends, its cleanup ran exactly once when `rb_ensure` is left;
      a cleanup that ends normally lets the body's end stand, and a signal from the
      cleanup replaces it. */
  lemma EnsureRunsOnce(fuel: nat, w: World, body: Code, arg: Expr, n: nat, rest: Code, ensArg: Expr,
                       locals: Locals, env: Env, st: Store)
    requires n !in Notes(body) && n !in Notes(rest) && n !in EnvNotes(env)
    requires !Eval(fuel, w, body, map[0 := Val(arg, locals)], env, st).0.Diverges?
    ensures var r := EvalOp(fuel, w, Ensure(body, arg, Cleanup(n, rest), ensArg), locals, env, st);
            var b := Eval(fuel, w, body, map[0 := Val(arg, locals)], env, st);
            var f := Eval(fuel, w, Cleanup(n, rest), map[0 := Val(ensArg, locals)], env, b.1);
            && Count(r.1.log, n) == Count(st.log, n) + 1
            && (f.0.Ok? ==> r.0 == b.0)
            && (!f.0.Ok? ==> r.0 == f.0)
  {
    hide Eval, Cleanup, Count, Notes, EnvNotes;
    var b := Eval(fuel, w, body, map[0 := Val(arg, locals)], env, st);
    UnnamedIsUncounted(fuel, w, body, map[0 := Val(arg, locals)], env, st, n);
    CleanupNotesOnce(fuel, w, n, rest, Val(ensArg, locals), env, b.1);
  }

  lemma CleanupNotesOnce(fuel: nat, w: World, n: nat, rest: Code, arg: Value, env: Env, st: Store)
    requires n !in Notes(rest) && n !in EnvNotes(env)
    ensures Count(Eval(fuel, w, Cleanup(n, rest), map[0 := arg], env, st).1.log, n) == Count(st.log, n) + 1
  {
    var noted := st.(log := st.log + [n]);
    assert multiset(noted.log) == multiset(st.log) + multiset{n};
    UnnamedIsUncounted(fuel, w, rest, map[0 := arg][0 := NIL], env, noted, n);
  }

  // ---- cleaning up by hand --------------------------------------------------------------------

  /** `rb_protect`, then the cleanup, then `rb_jump_tag` when the state is set. */
  function ByHand(body: Code, arg: Value, cleanup: Code, cleanArg: Value): Code {
    Let(1, Protect(body, Const(arg), Some(2)),
        Let(3, Plain(cleanup, Const(cleanArg)),
            If(Local(2), Let(4, JumpTag, Answer(Const(NIL))), Answer(Local(1)))))
  }

  function WithEnsure(body: Code, arg: Value, cleanup: Code, cleanArg: Value): Code {
    Let(1, Ensure(body, Const(arg), cleanup, Const(cleanArg)), Answer(Local(1)))
  }

  /** The cleanup returns, and leaves the pending exception alone. */
  ghost predicate Tidy(fuel: nat, w: World, cleanup: Code, arg: Value, env: Env) {
    forall st :: TidyFrom(fuel, w, cleanup, arg, env, st)
  }

  predicate TidyFrom(fuel: nat, w: World, cleanup: Code, arg: Value, env: Env, st: Store) {
    var r := Eval(fuel, w, cleanup, map[0 := arg], env, st);
    r.0.Ok? && r.1.errinfo == st.errinfo
  }

  lemma EvalLet(fuel: nat, w: World, x: nat, op: Op, rest: Code, locals: Locals, env: Env, st: Store)
    ensures var r := EvalOp(fuel, w, op, locals, env, st);
            Eval(fuel, w, Let(x, op, rest), locals, env, st)
            == if r.0.Ok? then Eval(fuel, w, rest, r.2[x := r.0.v], env, r.1) else (r.0, r.1)
  {
  }

  lemma ByHandEnds(fuel: nat, w: World, body: Code, arg: Value, cleanup: Code, cleanArg: Value, env: Env, st: Store)
    requires Tidy(fuel, w, cleanup, cleanArg, env)
    requires !Eval(fuel, w, body, map[0 := arg], env, st).0.Diverges?
    ensures var b := Eval(fuel, w, body, map[0 := arg], env, st);
            var h := Eval(fuel, w, ByHand(body, arg, cleanup, cleanArg), map[], env, st);
            h.0 == match b.0
                   case Ok(v) => Ok(v)
                   case Err(Raise(e)) => Err(Raise(e))
                   case _ => Err(Raise(if b.1.errinfo.Some? then b.1.errinfo.value else w.noPending))
  {
    hide Eval, Tidy;
    var b := Eval(fuel, w, body, map[0 := arg], env, st);
    var p := ProtectEnd(b.0, b.1, map[], Some(2));
    var jump := Let(4, JumpTag, Answer(Const(NIL)));
    var last := If(Local(2), jump, Answer(Local(1)));
    var clean := Let(3, Plain(cleanup, Const(cleanArg)), last);
    EvalLet(fuel, w, 1, Protect(body, Const(arg), Some(2)), clean, map[], env, st);
    var l1 := p.2[1 := p.0.v];
    EvalLet(fuel, w, 3, Plain(cleanup, Const(cleanArg)), last, l1, env, p.1);
    assert TidyFrom(fuel, w, cleanup, cleanArg, env, p.1) by {
      TidyAt(fuel, w, cleanup, cleanArg, env, p.1);
    }
    var c := Eval(fuel, w, cleanup, map[0 := cleanArg], env, p.1);
    var l3 := l1[3 := c.0.v];
    LastEnds(fuel, w, l3, env, c.1);
  }

  lemma TidyAt(fuel: nat, w: World, cleanup: Code, arg: Value, env: Env, st: Store)
    requires Tidy(fuel, w, cleanup, arg, env)
    ensures TidyFrom(fuel, w, cleanup, arg, env, st)
  {
  }

  lemma LastEnds(fuel: nat, w: World, l: Locals, env: Env, st: Store)
    requires 1 in l && 2 in l
    ensures Eval(fuel, w, If(Local(2), Let(4, JumpTag, Answer(Const(NIL))), Answer(Local(1))), l, env, st).0
         == if l[2] != 0 then Err(Raise(if st.errinfo.Some? then st.errinfo.value else w.noPending)) else Ok(l[1])
  {
    EvalLet(fuel, w, 4, JumpTag, Answer(Const(NIL)), l, env, st);
  }

  lemma EnsureEnds(fuel: nat, w: World, body: Code, arg: Value, cleanup: Code, cleanArg: Value, env: Env, st: Store)
    requires Tidy(fuel, w, cleanup, cleanArg, env)
    requires !Eval(fuel, w, body, map[0 := arg], env, st).0.Diverges?
    ensures Eval(fuel, w, WithEnsure(body, arg, cleanup, cleanArg), map[], env, st).0
         == Eval(fuel, w, body, map[0 := arg], env, st).0
  {
    var b := Eval(fuel, w, body, map[0 := arg], env, st);
    assert TidyFrom(fuel, w, cleanup, cleanArg, env, b.1);
    EvalLet(fuel, w, 1, Ensure(body, Const(arg), cleanup, Const(cleanArg)), Answer(Local(1)), map[], env, st);
  }

  /** For a tidy cleanup, cleaning up by hand ends as `rb_ensure` does exactly when the
      body returns or raises. A body that leaves by `break`, `throw` or any other signal
      is turned into a raise: of the exception pending from before, or of the complaint
      that none is. */
  lemma ByHandIsEnsure(fuel: nat, w: World, body: Code, arg: Value, cleanup: Code, cleanArg: Value, env: Env, st: Store)
    requires Tidy(fuel, w, cleanup, cleanArg, env)
    requires !Eval(fuel, w, body, map[0 := arg], env, st).0.Diverges?
    ensures var b := Eval(fuel, w, body, map[0 := arg], env, st).0;
            Eval(fuel, w, ByHand(body, arg, cleanup, cleanArg), map[], env, st).0
              == Eval(fuel, w, WithEnsure(body, arg, cleanup, cleanArg), map[], env, st).0
            <==> b.Ok? || b.sig.Raise?
  {
    ByHandEnds(fuel, w, body, arg, cleanup, cleanArg, env, st);
    EnsureEnds(fuel, w, body, arg, cleanup, cleanArg, env, st);
  }

  /** A `break` past `rb_protect` and `rb_jump_tag` comes out as a raise. */
  lemma BreakIsLostByHand(w: World, v: Value, env: Env)
    ensures var body, cleanup := Leave(LeaveBreak(Const(v))), Answer(Const(NIL));
            && Eval(0, w, WithEnsure(body, 0, cleanup, 0), map[], env, Store(None, [])).0 == Err(Break(v))
            && Eval(0, w, ByHand(body, 0, cleanup, 0), map[], env, Store(None, [])).0 == Err(Raise(w.noPending))
  {
    var body, cleanup := Leave(LeaveBreak(Const(v))), Answer(Const(NIL));
    forall st ensures TidyFrom(0, w, cleanup, 0, env, st) {
    }
    ByHandEnds(0, w, body, 0, cleanup, 0, env, Store(None, []));
    EnsureEnds(0, w, body, 0, cleanup, 0, env, Store(None, []));
  }
}
