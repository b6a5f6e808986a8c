/** Working off a multiset of pending jobs, where a job may ask for more jobs.
    When any two different jobs commute, every schedule that finishes ends in the
    same state. */
module Confluence {

  /** What a job does: the state after it, and the jobs it asks for. */
  type Machine<!S, !W> = (S, W) -> (S, seq<W>)

  ghost predicate Commutes<S(!new), W(!new)>(fire: Machine<S, W>) {
    forall s, v, w | v != w :: Commute(fire, s, v, w)
  }

  ghost predicate Commute<S, W>(fire: Machine<S, W>, s: S, v: W, w: W) {
    && fire(fire(s, v).0, w).1 == fire(s, w).1
    && fire(fire(s, w).0, v).1 == fire(s, v).1
    && fire(fire(s, v).0, w).0 == fire(fire(s, w).0, v).0
  }

  /** The jobs pending after `w` is done. */
  ghost function Pending<S, W>(fire: Machine<S, W>, s: S, todo: multiset<W>, w: W): multiset<W> {
    todo - multiset{w} + multiset(fire(s, w).1)
  }

  /** `order` lists the jobs of one schedule that works `todo` off from `s` and ends in `t`. */
  ghost predicate Drains<S, W>(fire: Machine<S, W>, s: S, todo: multiset<W>, order: seq<W>, t: S)
    decreases |order|
  {
    if order == [] then todo == multiset{} && s == t
    else
      && order[0] in todo
      && Drains(fire, fire(s, order[0]).0, Pending(fire, s, todo, order[0]), order[1..], t)
  }

  lemma PendingCommutes<S, W>(fire: Machine<S, W>, s: S, todo: multiset<W>, v: W, w: W)
    requires v != w && v in todo && w in todo && Commute(fire, s, v, w)
    ensures Pending(fire, fire(s, v).0, Pending(fire, s, todo, v), w)
         == Pending(fire, fire(s, w).0, Pending(fire, s, todo, w), v)
  {
    var mv, mw := multiset(fire(s, v).1), multiset(fire(s, w).1);
    assert (todo - multiset{v} + mv) - multiset{w} + mw == (todo - multiset{w} + mw) - multiset{v} + mv;
  }

  lemma DrainsCons<S, W>(fire: Machine<S, W>, s: S, todo: multiset<W>, w: W, rest: seq<W>, t: S)
    ensures Drains(fire, s, todo, [w] + rest, t)
       <==> w in todo && Drains(fire, fire(s, w).0, Pending(fire, s, todo, w), rest, t)
  {
    assert ([w] + rest)[1..] == rest;
  }

  /** Two adjacent jobs that were both pending from the start change places. */
  lemma Swap<S(!new), W(!new)>(fire: Machine<S, W>, s: S, todo: multiset<W>, v: W, w: W, rest: seq<W>, t: S)
    requires Commutes(fire) && v != w && v in todo && w in todo
    requires Drains(fire, fire(s, v).0, Pending(fire, s, todo, v), [w] + rest, t)
    ensures Drains(fire, s, todo, [w] + ([v] + rest), t)
  {
    assert Commute(fire, s, v, w);
    PendingCommutes(fire, s, todo, v, w);
    DrainsCons(fire, fire(s, v).0, Pending(fire, s, todo, v), w, rest, t);
    DrainsCons(fire, fire(s, w).0, Pending(fire, s, todo, w), v, rest, t);
    DrainsCons(fire, s, todo, w, [v] + rest, t);
  }

  lemma DrainsHead<S, W>(fire: Machine<S, W>, s: S, todo: multiset<W>, order: seq<W>, t: S)
    requires Drains(fire, s, todo, order, t)
    ensures todo == multiset{} <==> order == []
    ensures order == [] ==> s == t
    ensures order != [] ==> order[0] in todo && order == [order[0]] + order[1..]
    ensures order != [] ==> Drains(fire, fire(s, order[0]).0, Pending(fire, s, todo, order[0]), order[1..], t)
  {
  }

  /** A pending job can be moved to the front of any schedule. */
  lemma {:induction false} Promote<S(!new), W(!new)>(fire: Machine<S, W>, s: S, todo: multiset<W>,
                                                     order: seq<W>, t: S, w: W)
    returns (moved: seq<W>)
    requires Commutes(fire) && Drains(fire, s, todo, order, t) && w in todo
    ensures |moved| == |order| && moved != [] && moved[0] == w
    ensures multiset(moved) == multiset(order)
    ensures Drains(fire, s, todo, moved, t)
    decreases |order|
  {
    hide Commutes, Drains;
    DrainsHead(fire, s, todo, order, t);
    var v, after := order[0], order[1..];
    if v == w {
      moved := order;
    } else {
      var rest := Promote(fire, fire(s, v).0, Pending(fire, s, todo, v), after, t, w);
      hide Pending;
      var tail := rest[1..];
      assert rest == [w] + tail;
      moved := [w] + ([v] + tail);
      Swap(fire, s, todo, v, w, tail, t);
      SwapCounts(v, w, after, tail);
    }
  }

  lemma SwapCounts<W>(v: W, w: W, after: seq<W>, tail: seq<W>)
    requires multiset(after) == multiset([w] + tail)
    ensures multiset([w] + ([v] + tail)) == multiset([v] + after)
  {
  }

  /** Any two schedules do the same jobs and end in the same state. */
  lemma {:induction false} Confluent<S(!new), W(!new)>(fire: Machine<S, W>, s: S, todo: multiset<W>,
                                                       o1: seq<W>, t1: S, o2: seq<W>, t2: S)
    requires Commutes(fire) && Drains(fire, s, todo, o1, t1) && Drains(fire, s, todo, o2, t2)
    ensures t1 == t2 && multiset(o1) == multiset(o2)
    decreases |o1|
  {
    hide Commutes, Drains, Pending;
    DrainsHead(fire, s, todo, o1, t1);
    DrainsHead(fire, s, todo, o2, t2);
    if o1 != [] {
      var w := o1[0];
      var moved := Promote(fire, s, todo, o2, t2, w);
      DrainsHead(fire, s, todo, moved, t2);
      Confluent(fire, fire(s, w).0, Pending(fire, s, todo, w), o1[1..], t1, moved[1..], t2);
      assert multiset([w] + o1[1..]) == multiset([w] + moved[1..]);
    }
  }

  // ---- nested order -----------------------------------------------------------

  /** A job that asks for more has made the state smaller. */
  predicate ShrinksAt<S, W>(fire: Machine<S, W>, size: S -> nat, s: S, w: W) {
    && size(fire(s, w).0) <= size(s)
    && (fire(s, w).1 != [] ==> size(fire(s, w).0) < size(s))
  }

  ghost predicate Shrinks<S(!new), W(!new)>(fire: Machine<S, W>, size: S -> nat) {
    forall s, w :: ShrinksAt(fire, size, s, w)
  }

  /** Depth first: what a job asks for is done before the job behind it. */
  function Nested<S(!new), W(!new)>(fire: Machine<S, W>, size: S -> nat, s: S, ws: seq<W>): S
    requires Shrinks(fire, size)
    decreases size(s), |ws|
  {
    if ws == [] then s
    else
      assert ShrinksAt(fire, size, s, ws[0]);
      Nested(fire, size, fire(s, ws[0]).0, fire(s, ws[0]).1 + ws[1..])
  }

  lemma {:induction false} NestedAppend<S(!new), W(!new)>(fire: Machine<S, W>, size: S -> nat, s: S,
                                                          ws: seq<W>, more: seq<W>)
    requires Shrinks(fire, size)
    ensures Nested(fire, size, s, ws + more) == Nested(fire, size, Nested(fire, size, s, ws), more)
    decreases size(s), |ws|
  {
    if ws == [] {
      assert ws + more == more;
    } else {
      assert ShrinksAt(fire, size, s, ws[0]);
      var t, asked := fire(s, ws[0]).0, fire(s, ws[0]).1;
      assert asked + (ws + more)[1..] == (asked + ws[1..]) + more;
      NestedAppend(fire, size, t, asked + ws[1..], more);
    }
  }

  /** Nested order is one schedule. */
  lemma {:induction false} NestedDrains<S(!new), W(!new)>(fire: Machine<S, W>, size: S -> nat, s: S, ws: seq<W>)
    returns (order: seq<W>)
    requires Shrinks(fire, size)
    ensures Drains(fire, s, multiset(ws), order, Nested(fire, size, s, ws))
    decreases size(s), |ws|
  {
    if ws == [] {
      order := [];
    } else {
      assert ShrinksAt(fire, size, s, ws[0]);
      var rest := NestedDrains(fire, size, fire(s, ws[0]).0, fire(s, ws[0]).1 + ws[1..]);
      order := [ws[0]] + rest;
      DrainsCons(fire, s, multiset(ws), ws[0], rest, Nested(fire, size, s, ws));
      PendingTail(fire, s, ws);
    }
  }

  lemma PendingTail<S, W>(fire: Machine<S, W>, s: S, ws: seq<W>)
    requires ws != []
    ensures ws[0] in multiset(ws)
    ensures Pending(fire, s, multiset(ws), ws[0]) == multiset(fire(s, ws[0]).1 + ws[1..])
  {
    assert ws == [ws[0]] + ws[1..];
  }

  /** One job keeps `good`, a predicate of the state and the jobs still pending. */
  predicate Preserves<S, W>(fire: Machine<S, W>, good: (S, seq<W>) -> bool, s: S, w: W, rest: seq<W>) {
    good(s, [w] + rest) ==> good(fire(s, w).0, fire(s, w).1 + rest)
  }

  /** What every job keeps, a whole nested run keeps. */
  lemma {:induction false} NestedKeeps<S(!new), W(!new)>(fire: Machine<S, W>, size: S -> nat,
                                                         good: (S, seq<W>) -> bool, s: S,
                                                         ws: seq<W>, rest: seq<W>)
    requires Shrinks(fire, size)
    requires forall s, w, rest :: Preserves(fire, good, s, w, rest)
    requires good(s, ws + rest)
    ensures good(Nested(fire, size, s, ws), rest)
    decreases size(s), |ws|
  {
    if ws == [] {
      assert ws + rest == rest;
    } else {
      var w, after := ws[0], ws[1..];
      assert ShrinksAt(fire, size, s, w);
      assert Preserves(fire, good, s, w, after + rest);
      assert ws + rest == [w] + (after + rest);
      assert fire(s, w).1 + (after + rest) == (fire(s, w).1 + after) + rest;
      NestedKeeps(fire, size, good, fire(s, w).0, fire(s, w).1 + after, rest);
    }
  }

  /** A job does the same beside `f`. */
  ghost predicate Beside<S, W>(fire: Machine<S, W>, f: S -> S, s: S, w: W) {
    fire(f(s), w) == (f(fire(s, w).0), fire(s, w).1)
  }

  /** What every job leaves alone can be changed before a run or after it. */
  lemma {:induction false} NestedBeside<S(!new), W(!new)>(fire: Machine<S, W>, size: S -> nat, f: S -> S,
                                                          s: S, ws: seq<W>)
    requires Shrinks(fire, size) && forall s, w :: Beside(fire, f, s, w)
    ensures Nested(fire, size, f(s), ws) == f(Nested(fire, size, s, ws))
    decreases size(s), |ws|
  {
    if ws != [] {
      assert Beside(fire, f, s, ws[0]);
      assert ShrinksAt(fire, size, s, ws[0]) && ShrinksAt(fire, size, f(s), ws[0]);
      NestedBeside(fire, size, f, fire(s, ws[0]).0, fire(s, ws[0]).1 + ws[1..]);
    }
  }
}
