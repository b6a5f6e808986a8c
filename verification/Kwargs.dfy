/** `rb_get_kwargs`: named keywords out of a Hash and into a C caller's slots. */
module Kwargs {
  import opened Options
  import opened Sums

  datatype Key = Sym(id: nat) | Other(key: int)

  /** A Ruby value, and whether C can be handed it at all. */
  datatype Value = Tagged(v: int) | Untagged(v: int)

  type Pair = (Key, Value)

  /** A Hash in insertion order; no key occurs twice. */
  type Hash = seq<Pair>

  ghost predicate IsHash(h: Hash) {
    forall i, j :: 0 <= i < j < |h| ==> h[i].0 != h[j].0
  }

  datatype Argument = HashOf(pairs: Hash) | NilArg | Unsuitable

  datatype Slot = Empty | Given(v: Value) | Undef | Rest(pairs: Hash)

  datatype Answer =
    | Filled(count: int)
    | WrongType
    | Missing(id: nat)        // missing keyword
    | Unknown(key: Key)       // unknown keyword
    | Refused(v: Value)       // a value with no `VALUE`

  function Lookup(h: Hash, k: Key): Option<Value> {
    if h == [] then None else if h[0].0 == k then Some(h[0].1) else Lookup(h[1..], k)
  }

  function Max0(n: int): nat {
    if n < 0 then 0 else n
  }

  /** A negative count asks for a rest Hash beside `-optional - 1` optionals. */
  function NamedCount(required: int, optional: int): nat {
    Max0(required) + Max0(if optional < 0 then -optional - 1 else optional)
  }

  /** The pairs whose key is not one of `ids`, in order. */
  function LeftPair(p: Pair, ids: seq<nat>): Hash {
    if p.0.Sym? && p.0.id in ids then [] else [p]
  }

  function Leftover(h: Hash, ids: seq<nat>): Hash {
    if h == [] then []
    else LeftPair(h[0], ids) + Leftover(h[1..], ids)
  }

  function SlotFor(h: Hash, id: nat): Slot {
    var v := Lookup(h, Sym(id));
    if v.Some? then Given(v.value) else Undef
  }

  /** What stops the walk at a name: a required keyword that is missing, or a value
      that cannot be handed to C. */
  function Stops(h: Hash, id: nat, required: bool): Option<Answer> {
    var v := Lookup(h, Sym(id));
    if v.Some? && v.value.Untagged? then Some(Refused(v.value))
    else if v.None? && required then Some(Missing(id))
    else None
  }

  function FirstStop(h: Hash, ids: seq<nat>, required: nat): Option<Answer> {
    if ids == [] then None
    else
      var s := Stops(h, ids[0], required > 0);
      if s.Some? then s else FirstStop(h, ids[1..], if required > 0 then required - 1 else 0)
  }

  /** How many names the walk gets past. */
  function StopsAt(h: Hash, ids: seq<nat>, required: nat): (n: nat)
    ensures n <= |ids|
  {
    if ids == [] || Stops(h, ids[0], required > 0).Some? then 0
    else 1 + StopsAt(h, ids[1..], if required > 0 then required - 1 else 0)
  }

  /** The answer, from the pairs, the names and how many of them are required. */
  function AnswerFor(h: Hash, ids: seq<nat>, required: nat, rest: bool): Answer {
    var stop := FirstStop(h, ids, required);
    if stop.Some? then stop.value
    else if rest then Filled(|ids| + 1)
    else if Leftover(h, ids) != [] then Unknown(Leftover(h, ids)[0].0)
    else Filled(|ids|)
  }

  // ---- as the code runs it --------------------------------------------------------------------

  lemma {:induction false} StopAt(h: Hash, ids: seq<nat>, required: nat, i: nat)
    requires i < |ids|
    requires forall j :: 0 <= j < i ==> Stops(h, ids[j], j < required) == None
    requires Stops(h, ids[i], i < required).Some?
    ensures FirstStop(h, ids, required) == Stops(h, ids[i], i < required)
    decreases i
  {
    if i > 0 {
      assert Stops(h, ids[0], 0 < required) == None;
      var less := if required > 0 then required - 1 else 0;
      forall j | 0 <= j < i - 1 ensures Stops(h, ids[1..][j], j < less) == None {
        assert Stops(h, ids[j + 1], j + 1 < required) == None;
      }
      StopAt(h, ids[1..], less, i - 1);
    }
  }

  /** The walk gets past exactly the names before the first that stops it. */
  lemma {:induction false} StopsAtIs(h: Hash, ids: seq<nat>, required: nat, n: nat)
    requires n <= |ids| && forall j :: 0 <= j < n ==> Stops(h, ids[j], j < required) == None
    requires n < |ids| ==> Stops(h, ids[n], n < required).Some?
    ensures StopsAt(h, ids, required) == n
    decreases n
  {
    if n > 0 {
      assert Stops(h, ids[0], 0 < required) == None;
      var less := if required > 0 then required - 1 else 0;
      forall j | 0 <= j < n - 1 ensures Stops(h, ids[1..][j], j < less) == None {
        assert Stops(h, ids[j + 1], j + 1 < required) == None;
      }
      StopsAtIs(h, ids[1..], less, n - 1);
    }
  }

  lemma {:induction false} NoStop(h: Hash, ids: seq<nat>, required: nat)
    ensures FirstStop(h, ids, required).None?
       <==> forall j :: 0 <= j < |ids| ==> Stops(h, ids[j], j < required) == None
  {
    if ids != [] {
      var less := if required > 0 then required - 1 else 0;
      NoStop(h, ids[1..], less);
      assert forall j :: 0 < j < |ids| ==> ids[j] == ids[1..][j - 1] && (j < required <==> j - 1 < less);
      if forall j :: 0 <= j < |ids| ==> Stops(h, ids[j], j < required) == None {
        forall j | 0 <= j < |ids[1..]| ensures Stops(h, ids[1..][j], j < less) == None {
          assert Stops(h, ids[j + 1], j + 1 < required) == None;
        }
      }
      if FirstStop(h, ids, required).None? {
        forall j | 0 <= j < |ids| ensures Stops(h, ids[j], j < required) == None {
          if j > 0 {
            assert Stops(h, ids[1..][j - 1], j - 1 < less) == None;
          }
        }
      }
    }
  }

  lemma {:induction false} LeftoverSnoc(h: Hash, p: Pair, ids: seq<nat>)
    ensures Leftover(h + [p], ids) == Leftover(h, ids) + LeftPair(p, ids)
    decreases |h|
  {
    hide LeftPair;
    if h == [] {
      assert h + [p] == [p] && [p][1..] == [];
      assert LeftPair(p, ids) + [] == [] + LeftPair(p, ids);
    } else {
      assert (h + [p])[1..] == h[1..] + [p];
      LeftoverSnoc(h[1..], p, ids);
      assert LeftPair(h[0], ids) + (Leftover(h[1..], ids) + LeftPair(p, ids))
          == (LeftPair(h[0], ids) + Leftover(h[1..], ids)) + LeftPair(p, ids);
    }
  }

  /** The filter that collects what is left over. */
  method CollectRest(h: Hash, taken: seq<nat>) returns (rest: Hash)
    ensures rest == Leftover(h, taken)
  {
    rest := [];
    for i := 0 to |h|
      invariant rest == Leftover(h[..i], taken)
    {
      LeftoverSnoc(h[..i], h[i], taken);
      assert h[..i + 1] == h[..i] + [h[i]];
      if !(h[i].0.Sym? && h[i].0.id in taken) {
        rest := rest + [h[i]];
      }
    }
    assert h[..|h|] == h;
  }

  /** `rb_get_kwargs`. `slots` is the caller's array and may be null. */
  method GetKwargs(hash: Argument, table: seq<nat>, required: int, optional: int, slots: array?<Slot>)
    returns (r: Answer)
    requires NamedCount(required, optional) <= |table|
    requires slots != null ==>
               slots.Length >= NamedCount(required, optional) + (if optional < 0 then 1 else 0)
    modifies if slots == null then {} else {slots}
    ensures hash.Unsuitable? ==> r == WrongType
    ensures !hash.Unsuitable? ==>
              var h := if hash.NilArg? then [] else hash.pairs;
              r == AnswerFor(h, table[..NamedCount(required, optional)], Max0(required), optional < 0)
    ensures r.Filled? && slots != null ==>
              var h, n := if hash.NilArg? then [] else hash.pairs, NamedCount(required, optional);
              && (forall i :: 0 <= i < n ==> slots[i] == SlotFor(h, table[i]))
              && (optional < 0 ==> slots[n] == Rest(Leftover(h, table[..n])))
    ensures slots != null ==>
              forall k :: NamedCount(required, optional) + (if optional < 0 then 1 else 0) <= k < slots.Length ==>
                            slots[k] == old(slots[k])
    ensures slots != null && !hash.Unsuitable? ==>
              var h, n := if hash.NilArg? then [] else hash.pairs, NamedCount(required, optional);
              var m := StopsAt(h, table[..n], Max0(required));
              && (forall i :: 0 <= i < m ==> slots[i] == SlotFor(h, table[i]))
              && (forall i :: m <= i < slots.Length && !r.Filled? ==> slots[i] == old(slots[i]))
    ensures hash.Unsuitable? && slots != null ==> slots[..] == old(slots[..])
  {
    if hash.Unsuitable? {
      return WrongType;
    }
    var h := if hash.NilArg? then [] else hash.pairs;
    var named, need := NamedCount(required, optional), Max0(required);
    ghost var ids := table[..named];
    var taken := [];
    for i := 0 to named
      invariant taken == ids[..i]
      invariant forall j :: 0 <= j < i ==> Stops(h, ids[j], j < need) == None
      invariant slots != null ==> forall j :: 0 <= j < i ==> slots[j] == SlotFor(h, table[j])
      invariant slots != null ==> forall k :: i <= k < slots.Length ==> slots[k] == old(slots[k])
    {
      var id := table[i];
      assert ids[i] == id && ids[..i + 1] == ids[..i] + [id];
      taken := taken + [id];
      var found := Lookup(h, Sym(id));
      if found.Some? && found.value.Untagged? {
        StopAt(h, ids, need, i);
        StopsAtIs(h, ids, need, i);
        return Refused(found.value);
      }
      if found.None? && i < need {
        StopAt(h, ids, need, i);
        StopsAtIs(h, ids, need, i);
        return Missing(id);
      }
      if slots != null {
        slots[i] := if found.Some? then Given(found.value) else Undef;
      }
    }
    NoStop(h, ids, need);
    StopsAtIs(h, ids, need, named);
    assert ids[..named] == ids;
    var rest := CollectRest(h, taken);
    if optional < 0 {
      if slots != null {
        slots[named] := Rest(rest);
      }
      return Filled(named + 1);
    }
    if rest != [] {
      return Unknown(rest[0].0);
    }
    return Filled(named);
  }

  // ---- what the answer means --------------------------------------------------------------------

  /** It succeeds exactly when every required keyword is there, every value found can be
      handed to C, and nothing is left over unless a rest Hash takes it. */
  lemma SucceedsExactly(h: Hash, ids: seq<nat>, required: nat, rest: bool)
    ensures AnswerFor(h, ids, required, rest).Filled? <==>
            && (forall j :: 0 <= j < |ids| && j < required ==> Lookup(h, Sym(ids[j])).Some?)
            && (forall j :: 0 <= j < |ids| && Lookup(h, Sym(ids[j])).Some? ==> Lookup(h, Sym(ids[j])).value.Tagged?)
            && (rest || Leftover(h, ids) == [])
  {
    NoStop(h, ids, required);
    FirstStopIsAnError(h, ids, required);
    if forall j :: 0 <= j < |ids| ==> Stops(h, ids[j], j < required) == None {
      forall j | 0 <= j < |ids|
        ensures j < required ==> Lookup(h, Sym(ids[j])).Some?
        ensures Lookup(h, Sym(ids[j])).Some? ==> Lookup(h, Sym(ids[j])).value.Tagged?
      {
        assert Stops(h, ids[j], j < required) == None;
      }
    }
  }

  lemma {:induction false} FirstStopIsAnError(h: Hash, ids: seq<nat>, required: nat)
    ensures var s := FirstStop(h, ids, required); s.Some? ==> s.value.Missing? || s.value.Refused?
  {
    if ids != [] {
      FirstStopIsAnError(h, ids[1..], if required > 0 then required - 1 else 0);
    }
  }

  /** A missing required keyword is reported before any unknown one: the first missing
      one, whatever else the Hash holds. */
  lemma MissingComesFirst(h: Hash, ids: seq<nat>, required: nat, rest: bool, i: nat)
    requires i < |ids| && i < required && Lookup(h, Sym(ids[i])).None?
    requires forall j :: 0 <= j < i ==> Lookup(h, Sym(ids[j])).Some? && Lookup(h, Sym(ids[j])).value.Tagged?
    ensures AnswerFor(h, ids, required, rest) == Missing(ids[i])
  {
    StopAt(h, ids, required, i);
  }

  /** A value that cannot be handed to C stops the walk where it is found. */
  lemma RefusedComesFirst(h: Hash, ids: seq<nat>, required: nat, rest: bool, i: nat)
    requires i < |ids| && Lookup(h, Sym(ids[i])).Some? && Lookup(h, Sym(ids[i])).value.Untagged?
    requires forall j :: 0 <= j < i ==> if Lookup(h, Sym(ids[j])).Some? then Lookup(h, Sym(ids[j])).value.Tagged? else j >= required
    ensures AnswerFor(h, ids, required, rest) == Refused(Lookup(h, Sym(ids[i])).value)
  {
    StopAt(h, ids, required, i);
  }

  /** The count answered is one for each name and one for the rest Hash. */
  lemma CountsTheSlots(h: Hash, ids: seq<nat>, required: nat, rest: bool)
    requires AnswerFor(h, ids, required, rest).Filled?
    ensures AnswerFor(h, ids, required, rest).count == |ids| + if rest then 1 else 0
  {
    FirstStopIsAnError(h, ids, required);
  }

  /** An unknown keyword is the first key of the Hash the table does not name. */
  lemma {:induction false} UnknownIsFirst(h: Hash, ids: seq<nat>)
    requires Leftover(h, ids) != []
    ensures exists i :: 0 <= i < |h| && h[i] == Leftover(h, ids)[0] && !(h[i].0.Sym? && h[i].0.id in ids)
                        && forall j :: 0 <= j < i ==> h[j].0.Sym? && h[j].0.id in ids
  {
    if h[0].0.Sym? && h[0].0.id in ids {
      UnknownIsFirst(h[1..], ids);
      var i :| 0 <= i < |h[1..]| && h[1..][i] == Leftover(h[1..], ids)[0] && !(h[1..][i].0.Sym? && h[1..][i].0.id in ids)
               && forall j :: 0 <= j < i ==> h[1..][j].0.Sym? && h[1..][j].0.id in ids;
      assert [] + Leftover(h[1..], ids) == Leftover(h[1..], ids);
      assert h[i + 1] == h[1..][i];
      assert forall j :: 0 < j < i + 1 ==> h[j] == h[1..][j - 1];
    } else {
      assert h[0] == Leftover(h, ids)[0];
    }
  }

  lemma UnknownAnswer(h: Hash, ids: seq<nat>, required: nat, k: Key)
    requires AnswerFor(h, ids, required, false) == Unknown(k)
    ensures exists i :: 0 <= i < |h| && h[i].0 == k && !(k.Sym? && k.id in ids)
                        && forall j :: 0 <= j < i ==> h[j].0.Sym? && h[j].0.id in ids
  {
    FirstStopIsAnError(h, ids, required);
    UnknownIsFirst(h, ids);
  }

  /** A count of `k` optionals is `k` names, with a rest Hash or without; a negative count of
      required ones is none. */
  lemma NamesAskedFor(required: int, k: nat)
    ensures NamedCount(required, k) == NamedCount(required, -1 - k) == k + if required > 0 then required else 0
  {
  }

  // ---- nothing is lost and nothing is taken twice ------------------------------------------------

  /** The pairs the table's names are found at, in its order. */
  function TakenPairs(h: Hash, ids: seq<nat>): seq<Pair> {
    if ids == [] then []
    else
      var v := Lookup(h, Sym(ids[0]));
      TakenPair(ids[0], v) + TakenPairs(h, ids[1..])
  }

  function TakenPair(id: nat, v: Option<Value>): seq<Pair> {
    if v.Some? then [(Sym(id), v.value)] else []
  }

  lemma {:induction false} LookupIsMembership(h: Hash, k: Key, v: Value)
    requires IsHash(h)
    ensures Lookup(h, k) == Some(v) <==> (k, v) in h
  {
    if h != [] {
      LookupIsMembership(h[1..], k, v);
      assert h == [h[0]] + h[1..];
    }
  }

  /** A slot holds the value its name has in the Hash, and is `Qundef` exactly where it has
      none. */
  lemma SlotsHoldTheValues(h: Hash, id: nat, v: Value)
    requires IsHash(h)
    ensures SlotFor(h, id) == Given(v) <==> (Sym(id), v) in h
    ensures SlotFor(h, id) == Undef <==> forall u :: (Sym(id), u) !in h
  {
    LookupIsMembership(h, Sym(id), v);
    forall u ensures Lookup(h, Sym(id)) == Some(u) <==> (Sym(id), u) in h {
      LookupIsMembership(h, Sym(id), u);
    }
    if Lookup(h, Sym(id)).Some? {
      assert (Sym(id), Lookup(h, Sym(id)).value) in h;
    }
  }

  /** The pairs read off filled slots. */
  function PairsIn(slots: seq<Slot>, ids: seq<nat>): seq<Pair>
    requires |slots| == |ids|
  {
    if slots == [] then []
    else (if slots[0].Given? then [(Sym(ids[0]), slots[0].v)] else []) + PairsIn(slots[1..], ids[1..])
  }

  /** The slots of a successful call. */
  ghost predicate FilledFrom(slots: seq<Slot>, h: Hash, ids: seq<nat>) {
    |slots| == |ids| && forall i :: 0 <= i < |ids| ==> slots[i] == SlotFor(h, ids[i])
  }

  lemma {:induction false} PairsAreTaken(slots: seq<Slot>, h: Hash, ids: seq<nat>)
    requires FilledFrom(slots, h, ids)
    ensures PairsIn(slots, ids) == TakenPairs(h, ids)
    decreases |ids|
  {
    if ids != [] {
      PairsAreTaken(slots[1..], h, ids[1..]);
    }
  }

  lemma {:induction false} HashCount(h: Hash, p: Pair)
    requires IsHash(h)
    ensures multiset(h)[p] == if p in h then 1 else 0
  {
    NoDupCount(h, p);
  }

  lemma FirstCount(h: Hash, id: nat, p: Pair)
    requires IsHash(h)
    ensures multiset(TakenPair(id, Lookup(h, Sym(id))))[p] == if p in h && p.0 == Sym(id) then 1 else 0
  {
    LookupIsMembership(h, Sym(id), p.1);
  }

  lemma {:induction false} TakenCount(h: Hash, ids: seq<nat>, p: Pair)
    requires IsHash(h)
    ensures multiset(TakenPairs(h, ids))[p] == if p in h && p.0.Sym? then multiset(ids)[p.0.id] else 0
    decreases |ids|
  {
    hide IsHash, TakenPair, Lookup;
    if ids != [] {
      TakenCount(h, ids[1..], p);
      FirstCount(h, ids[0], p);
      var first, rest := TakenPair(ids[0], Lookup(h, Sym(ids[0]))), TakenPairs(h, ids[1..]);
      assert multiset(first + rest) == multiset(first) + multiset(rest);
      assert ids == [ids[0]] + ids[1..];
      assert multiset(ids) == multiset{ids[0]} + multiset(ids[1..]);
    }
  }

  lemma {:induction false} LeftoverCount(h: Hash, ids: seq<nat>, p: Pair)
    ensures multiset(Leftover(h, ids))[p] == if p.0.Sym? && p.0.id in ids then 0 else multiset(h)[p]
    decreases |h|
  {
    if h != [] {
      LeftoverCount(h[1..], ids, p);
      var first := if h[0].0.Sym? && h[0].0.id in ids then [] else [h[0]];
      assert multiset(first + Leftover(h[1..], ids)) == multiset(first) + multiset(Leftover(h[1..], ids));
      assert h == [h[0]] + h[1..];
      assert multiset(h) == multiset{h[0]} + multiset(h[1..]);
    }
  }

  /** No keyword of the Hash is named twice. */
  ghost predicate NamedOnce(h: Hash, ids: seq<nat>) {
    forall p :: p in h && p.0.Sym? ==> multiset(ids)[p.0.id] <= 1
  }

  ghost predicate Balanced(whole: multiset<Pair>, taken: multiset<Pair>, left: multiset<Pair>, p: Pair) {
    whole[p] == taken[p] + left[p]
  }

  lemma BalancedIsSum(whole: multiset<Pair>, taken: multiset<Pair>, left: multiset<Pair>)
    ensures whole == taken + left <==> forall p :: Balanced(whole, taken, left, p)
  {
    if whole == taken + left {
      assert forall p :: whole[p] == (taken + left)[p];
    }
    if forall p :: Balanced(whole, taken, left, p) {
      forall p ensures whole[p] == (taken + left)[p] {
        assert Balanced(whole, taken, left, p);
      }
    }
  }

  lemma PairCount(h: Hash, ids: seq<nat>, p: Pair)
    requires IsHash(h)
    ensures Balanced(multiset(h), multiset(TakenPairs(h, ids)), multiset(Leftover(h, ids)), p)
       <==> (p in h && p.0.Sym? ==> multiset(ids)[p.0.id] <= 1)
  {
    TakenCount(h, ids, p);
    LeftoverCount(h, ids, p);
    HashCount(h, p);
  }

  lemma TakenAndLeft(h: Hash, ids: seq<nat>)
    requires IsHash(h)
    ensures multiset(h) == multiset(TakenPairs(h, ids)) + multiset(Leftover(h, ids)) <==> NamedOnce(h, ids)
  {
    hide TakenPairs, Leftover, IsHash, Balanced;
    var taken, left := multiset(TakenPairs(h, ids)), multiset(Leftover(h, ids));
    BalancedIsSum(multiset(h), taken, left);
    forall p ensures Balanced(multiset(h), taken, left, p) <==> (p in h && p.0.Sym? ==> multiset(ids)[p.0.id] <= 1) {
      PairCount(h, ids, p);
    }
  }

  /** The Hash is the disjoint union of the pairs in the filled slots and what is left over,
      exactly when the table names none of its keywords twice. */
  lemma SlotsAndLeftoverPartition(slots: seq<Slot>, h: Hash, ids: seq<nat>)
    requires IsHash(h) && FilledFrom(slots, h, ids)
    ensures multiset(h) == multiset(PairsIn(slots, ids)) + multiset(Leftover(h, ids)) <==> NamedOnce(h, ids)
  {
    hide TakenPairs, Leftover, IsHash, PairsIn, FilledFrom;
    PairsAreTaken(slots, h, ids);
    TakenAndLeft(h, ids);
  }

  /** A name listed twice fills two slots from the one pair. */
  lemma RepeatedNameIsDoubled(v: Value)
    ensures var h, ids, slots := [(Sym(1), v)], [1, 1], [Given(v), Given(v)];
            && IsHash(h) && FilledFrom(slots, h, ids) && Leftover(h, ids) == []
            && multiset(h) != multiset(PairsIn(slots, ids)) + multiset(Leftover(h, ids))
  {
    var h: Hash, ids: seq<nat>, slots := [(Sym(1), v)], [1, 1], [Given(v), Given(v)];
    assert ids[1..] == [1] && [1][1..] == [] && h[1..] == [] && slots[1..] == [Given(v)] && [Given(v)][1..] == [];
    assert PairsIn([Given(v)], [1]) == [(Sym(1), v)];
    assert multiset(h)[(Sym(1), v)] == 1;
    assert multiset(PairsIn(slots, ids))[(Sym(1), v)] == 2;
  }

  /** Places of `h` at which `left` is found in order. */
  predicate InOrderAt(h: Hash, left: Hash, at: seq<nat>) {
    && |at| == |left|
    && (forall i :: 0 <= i < |at| ==> at[i] < |h| && h[at[i]] == left[i])
    && (forall i, j :: 0 <= i < j < |at| ==> at[i] < at[j])
  }

  /** The leftover pairs keep their order: they sit at increasing places of the Hash. */
  lemma {:induction false} LeftoverKeepsOrder(h: Hash, ids: seq<nat>) returns (at: seq<nat>)
    ensures InOrderAt(h, Leftover(h, ids), at)
    decreases |h|
  {
    if h == [] {
      at := [];
    } else {
      var rest := LeftoverKeepsOrder(h[1..], ids);
      var left, shifted := Leftover(h[1..], ids), seq(|rest|, i requires 0 <= i < |rest| => rest[i] + 1);
      assert InOrderAt(h, left, shifted);
      if h[0].0.Sym? && h[0].0.id in ids {
        at := shifted;
        assert [] + left == left;
      } else {
        at := [0] + shifted;
        FirstPlace(h, left, shifted);
      }
    }
  }

  lemma FirstPlace(h: Hash, left: Hash, at: seq<nat>)
    requires h != [] && InOrderAt(h, left, at) && forall i :: 0 <= i < |at| ==> at[i] > 0
    ensures InOrderAt(h, [h[0]] + left, [0] + at)
  {
  }
}
