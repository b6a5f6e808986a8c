# A verified model of zeo's C-extension layer and class tables

zeo compiles Ruby to native code and lets C extensions written against the
C API of CRuby run beside it. A C extension sees a Ruby object as a `VALUE`: one machine
word. Immediate values spell themselves in the word; everything else is the
address of a *handle*, an entry in a table that keeps the Ruby object alive for as
long as somebody on the C side holds a pin on it. Pins are held by scopes (one per
Ruby-to-C call), by wrapped C structs (`CData`, for what a write barrier or a mark
function told them of), by registrations, and by classes on themselves. Releasing
the last pin drops a strong reference, which may drop a `CData`, which releases
its own pins, and so on.

The project models that protocol, the control flow between C bodies, the
argument, range and text helpers, and the class-ancestry tables of the ABI crate,
and proves what they promise over all inputs, all runs and all reachable states.

## Layout

- Handles as values: `HandleState` (the state and the release cascade),
  `HandleOps` (the entry points), `HandleInvariant` (the invariant, stated with the releases still
  pending), `HandleRuns` (steps, runs, reachable states).
- Their proofs: `Confluence` and `Sums` (general facts), `Cascade`, `ReleaseKeeps`,
  `OpsKeep`, `OpsKeepMore`, `RefreshKeeps`, `RoundTrip`, `Frames`; the promises are in
  `HandleTheorems`, `Lifetimes`, `CPointers`, `MarkRefresh`, `HandleContracts` and `PopExact` (which
  compares a pop with one in which dead words have stand-ins, `StandIns`), and the runs that
  end where a promise fails in `BrokenContracts`.
- Handles in place: `HandleTable`, a class whose methods follow the code and are
  proved to end in the state the functions of `HandleOps` give. `MarkSinks` does
  the same for the two listeners of `rb_gc_mark`. `Immediates` is the word
  layout, bit for bit.
- Control flow: `Control` gives programs over the entry points a meaning by passing
  the environment down; `ControlStack` is the thread with its stacks;
  `ControlLaws`, `EntryLaws` and `RecursiveWalk` hold the laws.
- Class tables: `Hierarchy`, `Reachability`, `NaiveOrder`, `ClassChain`,
  `ClassTables`, `ExceptionTable`.
- Helpers for extensions: `Kwargs`, `Ranges`, `ScanArgs`, `Formatter`.

An address an allocator picks is a parameter (any free one, a freed one
included), and so are the class table's contents, the words a mark function reports
(any, changing with every C write), whether another sweep is in progress,
and the outcome of each conversion a formatter or a range read asks for.

## Where the code and its words differ

The model follows the code.

- `crates/zeo-capi/src/value.rs` describes an integer outside the Fixnum range as
  taking a handle; `builtin_type` has no tag for it, so `to_value` refuses it.
- The header of `crates/zeo-capi/src/gc.rs` says a write barrier has nothing to protect; the
  barrier retains the young word on behalf of a `CData` owner.
- The header of `crates/zeo-capi/src/handles.rs` has registered addresses keep a handle alive;
  releasing the last pin consults no such list.
- `rb_exec_recursive_outer` is described as unwinding to the outermost call; it
  behaves as `rb_exec_recursive`.

Several natural promises hold only under a condition. Each has its exact condition and an
input at which it fails:

- Pins balance across a barrier, a kept return value or a repinning exactly when the
  words given are live (`BarrierExact`, `KeepExact`, `RepinExact`), with reachable states
  where a dead one loses the balance.
- A returning call keeps them in balance exactly when no struct that outlives it reported a
  dead word when its turn to be refreshed came (`ScopePopExact`). One that dies as the call
  returns takes its listing with it (`DyingStructIsForgiven`); where Ruby code refers to every
  struct the condition is that each reports live words at its turn (`RootedPopExact`).
- For that, it is necessary that the words are live when the call returns; it is enough where
  no struct has given a word up (`QuietPopExact`), and not otherwise: a `VALUE` moved from one
  struct to another is lost when the giver comes first (`MovedEdgeBreaksConservation`).
- A retention sweep hears what a collector walk hears exactly for the actions
  `SweepHearsItsOwn` names; a walk nested in it leaves its marks in the sweep
  (`NestedWalkSplices`).
- `rb_protect` followed by `rb_jump_tag` is `rb_ensure` only for answers and raises
  (`ByHandIsEnsure`): a break or a throw turns into a raise.
- An inclusive Range that ends at `LONG_MAX`, or an endless one over a collection of
  that length, wraps around (`WindowIsSelection`); the addition is modelled as it wraps in
  an optimised build.
- A format is printed as if straight into the buffer exactly when each conversion, or the room
  left for it, is shorter than the formatter's temporary (`PrintsExactly`, with the one further
  case of a NUL in the last place); `TerminatorSlipsIn` and `LongConversionOverruns` are inputs
  past that.
- `payload_root_of` returns exactly when the superclasses it climbs do not come round
  (`LoopEndsExactly`); two that name each other keep it going (`RoundChainNeverReturns`).
- Class to errno and back is the identity only for the first row of a shared errno
  (`ErrnoBack`), and keyword slots with the leftovers split a Hash only when no
  present name is listed twice (`SlotsAndLeftoverPartition`).

## Model

| member | source | states |
|---|---|---|
| `HandleRuns.ReachableOk` | crates/zeo-capi/src/handles.rs:23-37 | every state any interleaving of steps can reach, freed addresses handed out again included, satisfies the whole invariant: the identity map and the table agree, every count equals what is owed, class handles are immortal, listed words are live |
| `HandleRuns.NextKeeps` | crates/zeo-capi/src/handles.rs:244-376 | each of the fourteen kinds of step (allocation, dup, reference taken and dropped, field stored and cleared, C write, `to_value`, class read, scope entry and exit, kept return value, write barrier, registration) keeps the invariant |
| `HandleRuns.RunKeeps` | crates/zeo-capi/src/handles.rs:244-376 | the invariant survives every finite run from any state that satisfies it |
| `HandleTheorems.PinConservation` | crates/zeo-capi/src/handles.rs:346-376 | in every reachable state a handle's pin count is exactly its scope listings, plus the C structs that retain it, plus those that mark it, plus its registrations and class pins; so no release ever finds zero |
| `HandleTheorems.ListedIsLive` | crates/zeo-capi/src/data.rs:120-148 | every word any scope, C struct or registration lists is live |
| `HandleTheorems.HandleLivesWhileHeld` | crates/zeo-capi/src/handles.rs:354-376 | an address is in the table if and only if it is a heap word some holder lists: freed at the last release, never before, never later |
| `HandleTheorems.CDataPinsCount` | crates/zeo-capi/src/data.rs:120-148 | the pins C structs owe a word are the number of structs that retain it plus the number that mark it, no struct counted twice in a list |
| `HandleTheorems.ValueIsStable` | crates/zeo-capi/src/handles.rs:378-390 | over any run through which somebody holds a handle, it stays in the table and stands for the same Ruby value |
| `HandleTheorems.ClassHandleForever` | crates/zeo-capi/src/handles.rs:279-286 | a class handle stays and keeps naming its class over every run, held or not |
| `HandleTheorems.KlassMemoForever` | crates/zeo-capi/src/handles.rs:391-417 | a memoised class word names a class handle for the rest of every run |
| `Lifetimes.RetainedForLife` | crates/zeo-capi/src/data.rs:315-339 | a word stored in a C struct through the write barrier is alive, and names what it named, over every run at whose end the struct's object is still there |
| `Lifetimes.BarrierLists` | crates/zeo-capi/src/data.rs:315-339 | the barrier lists the stored heap word in the struct it was stored in, and nothing else anywhere |
| `Lifetimes.MarkedWhileReported` | crates/zeo-capi/src/data.rs:245-282 | a marked word the struct's mark function goes on reporting is alive, and names what it named, over every run at whose end the object is still there |
| `Lifetimes.ReturnMarks` | crates/zeo-capi/src/scope.rs:86-115 | after every return, each struct the call handled that lives on marks exactly the handles its mark function reports, and they are alive |
| `Lifetimes.IdleRefresh` | crates/zeo-capi/src/data.rs:252-260 | no mark function, the default one, an empty slot or another listener: the struct is left alone |
| `Lifetimes.RegisteredForever` | crates/zeo-capi/src/gc.rs:119-128 | a registered word is in the table, for the same value, at the end of every run |
| `Lifetimes.ConvertedUntilReturn` | crates/zeo-capi/src/scope.rs:117-128 | a converted value is alive and its word reads as it over every run in which the call it was converted in has not returned; a class, and anything converted outside a call, over every run |
| `Lifetimes.PinIsRecorded` | crates/zeo-capi/src/handles.rs:262-276 | the pin of a conversion goes to the innermost scope and no other, to the class itself, or with no scope open to the process |
| `Lifetimes.WrappedHasItsClass` | crates/zeo-capi/src/data.rs:150-184 | an object wrapped under a class, converted and asked for its class answers that class |
| `HandleTheorems.EqualityOverTime` | crates/zeo-capi/src/handles.rs:139-169 | convert any value, let any run pass that holds the answer, convert any other, with whatever classes are known by then: the two words are equal exactly when the values are and have an identity to share; a boxed number gets a new word each time |
| `HandleTheorems.CountsFit` | crates/zeo-capi/src/handles.rs:220-227 | no pin count is past the number of listings, so a 32-bit count is exact while those number no more than 32 bits hold |
| `HandleTheorems.NextStable` | crates/zeo-capi/src/handles.rs:288-376 | no step changes what a surviving handle stands for or gives up a class pin, even when an address is reused |
| `RoundTrip.ToValueRoundTrip` | crates/zeo-capi/src/convert.rs:24-54 | `value_of(to_value(v)) == v` on every value; `to_value` refuses exactly the kinds with no type tag and the class ids the class table does not know, and then changes nothing; an immediate is its own word and changes nothing |
| `RoundTrip.ConstantsReadAsThemselves` | crates/zeo-capi/src/convert.rs:40-54 | a word that is no handle reads as itself, and the undefined word as nil |
| `RoundTrip.EqualityIsIdentity` | crates/zeo-capi/src/handles.rs:139-169 | two live words are equal if and only if they stand for the same identity-bearing value |
| `RoundTrip.HitNamesTheSame` | crates/zeo-capi/src/handles.rs:288-300 | a hit in the identity map answers a live entry for that very value, never a reused address's former one |
| `RoundTrip.KlassWordAnswers` | crates/zeo-capi/src/handles.rs:399-416 | the class read answers a live handle for the object's own class, and for anything else the class it has; it is refused exactly with no memo and a class the table does not know |
| `RoundTrip.KlassWordIsMemoized` | crates/zeo-capi/src/handles.rs:399-416 | a second read, with whatever class table, answers the same word and changes nothing |
| `RoundTrip.KlassWordKeeps` | crates/zeo-capi/src/handles.rs:399-416 | reading a class, memo and all, keeps the invariant |
| `Cascade.AnyOrderSettles` | crates/zeo-capi/src/data.rs:285-313 | however the releases of a cascade are interleaved, including those that releases themselves ask for, the end state is the same |
| `Cascade.SettleDrains` | crates/zeo-capi/src/data.rs:285-313 | the reference cascade is itself one such complete schedule |
| `Cascade.SettlePermutes` | crates/zeo-capi/src/data.rs:291-298 | draining `retained` before `marked`, or any permutation of a list of releases, makes no difference |
| `Cascade.FireCommutes` | crates/zeo-capi/src/handles.rs:361-376 | any two different releases commute, state and follow-up releases alike |
| `ReleaseKeeps.FireKeeps` | crates/zeo-capi/src/handles.rs:361-376 | one release turns the invariant with it pending into the invariant with its follow-ups pending |
| `ReleaseKeeps.SettleKeeps` | crates/zeo-capi/src/data.rs:285-313 | a cascade run to its end, with other releases still pending around it, keeps the invariant |
| `Frames.SettleReleases` | crates/zeo-capi/src/data.rs:285-313 | a cascade only takes handles and objects away and leaves the survivors' values, identities and bodies alone |
| `Frames.ScopePopReleases` | crates/zeo-capi/src/scope.rs:86-115 | so does a whole scope pop, refreshes included |
| `CPointers.WrapsAreAccounted` | crates/zeo-capi/src/data.rs:150-184 | for every C struct address and free function, wraps equal live owners plus drops, in every reachable state |
| `CPointers.FreedAtMostOnce` | crates/zeo-capi/src/data.rs:285-313 | an address wrapped once is freed at most once, by its own free function and no other, and has been freed exactly when no object owns it |
| `CPointers.DeathFreesOnce` | crates/zeo-capi/src/data.rs:299-312 | the step in which the owning object dies is the step that frees, once |
| `CPointers.CopyOwnsNothing` | crates/zeo-capi/src/data.rs:476-511 | a `dup` with no C allocator owns no C memory and takes none over; it has the class and mark function of its source, the free function only if typed, and retains nothing |
| `RefreshKeeps.RefreshKeepsInv` | crates/zeo-capi/src/data.rs:245-282 | a refresh whose mark function reports live words keeps the invariant, with other releases pending around it |
| `RefreshKeeps.ScopePopKeeps` | crates/zeo-capi/src/scope.rs:86-115 | a scope pop each of whose structs reports live words at its turn keeps the whole invariant, cascade and all |
| `PopExact.ScopePopExact` | crates/zeo-capi/src/scope.rs:86-115 | in every reachable state a whole pop, refreshes and releases, keeps the pins in balance, and the whole invariant, if and only if no struct that outlives it reported a dead word at its turn |
| `PopExact.RootedPopExact` | crates/zeo-capi/src/scope.rs:86-115 | where Ruby code refers to every struct of the scope that is: if and only if each reports live words at its turn |
| `PopExact.RefreshesExact` | crates/zeo-capi/src/scope.rs:86-115 | the refreshes alone, with the scope's own pins still pending, keep the invariant if and only if each struct reports live words at its turn |
| `PopExact.RootedSurvives` | crates/zeo-capi/src/scope.rs:86-115 | an object Ruby code refers to survives every pop, whatever the structs report |
| `PopExact.OuterSurvives` | crates/zeo-capi/src/scope.rs:86-115 | so does a handle an outer scope lists |
| `PopExact.KeptSurvives` | crates/zeo-capi/src/scope.rs:58-70 | a kept return value is live after the call's scope is popped and names the same value, whatever the structs report |
| `PopExact.QuietPopExact` | crates/zeo-capi/src/scope.rs:86-115 | read off the state before the pop: live reports are always needed, and where no struct has stopped reporting a word they are also enough |
| `MarkRefresh.RefreshContents` | crates/zeo-capi/src/data.rs:252-282 | after a refresh the marked list is exactly the reported heap words, each once |
| `MarkRefresh.RefreshCounts` | crates/zeo-capi/src/data.rs:252-282 | every surviving handle's count moves by exactly the newly reported, minus the stale, minus what dying structs gave back |
| `MarkRefresh.RefreshMovesOnce` | crates/zeo-capi/src/data.rs:267-281 | a word reported many times gains one pin, and only if it was not marked; a word no longer reported loses one |
| `RefreshKeeps.AddEdgesContents` | crates/zeo-capi/src/data.rs:267-273 | the grown list holds the old words and the reported heap words, with no repeats |
| `RefreshKeeps.Partition` | crates/zeo-capi/src/data.rs:274-281 | kept and stale split the list with nothing lost or doubled |
| `OpsKeepMore.BarrierKeeps` | crates/zeo-capi/src/data.rs:315-339 | the write barrier keeps the invariant when both words are live |
| `HandleContracts.BarrierExact` | crates/zeo-capi/src/data.rs:315-339 | the barrier keeps pins balanced if and only if the young word is live or the owner does not newly retain it |
| `HandleContracts.DeadBarrierBreaksConservation` | crates/zeo-capi/src/data.rs:324-339 | a reachable state and a dead word with which the barrier does lose the balance |
| `HandleContracts.KeepExact` | crates/zeo-capi/src/scope.rs:58-70 | keeping a return value balances if and only if it is live or there is no enclosing scope |
| `HandleContracts.KeepHolds` | crates/zeo-capi/src/scope.rs:58-70 | keeping adds one pin, the enclosing scope's, and none at the outermost |
| `HandleContracts.RepinExact` | crates/zeo-capi/src/data.rs:267-281 | repinning balances if and only if every reported heap word is live |
| `HandleContracts.MovedEdgeIsLost` | crates/zeo-capi/src/scope.rs:86-115 | a word moved from one C struct to another is freed, and the pins are out of balance, if the giver is refreshed first; refreshed after the taker, it is kept and they balance |
| `BrokenContracts.MovedEdgeBreaksConservation` | crates/zeo-capi/src/scope.rs:86-115 | a run of twelve steps comes to that state: every report is live when the call returns, and after the whole return the pins are out of balance |
| `BrokenContracts.DyingStructIsForgiven` | crates/zeo-capi/src/scope.rs:86-115 | a reachable state in which a struct reports a dead word, dies as the call returns and takes its listing with it: the invariant holds after the return |
| `BrokenContracts.DeadKeepBreaksConservation` | crates/zeo-capi/src/scope.rs:58-70 | a reachable state and a dead return value with which keeping it loses the balance |
| `BrokenContracts.DeadReportBreaksConservation` | crates/zeo-capi/src/data.rs:267-281 | a reachable state and a dead report with which repinning loses the balance |
| `HandleContracts.AnchoredExit` | crates/zeo-capi/src/scope.rs:86-115 | where each reported word has a holder the pop does not disturb, the exit is safe in whatever order the scope lists its structs, moved words included |
| `MarkSinks.SweepHearsItsOwn` | crates/zeo-capi/src/data.rs:341-366 | for every mark function, a retention sweep hears at each point what a walk hears if and only if the function marks no live word through `rb_gc_mark_maybe`, no slots through `rb_gc_mark_locations`, and visits nothing that marks |
| `MarkSinks.VisitsMustBeSilent` | crates/zeo-capi/src/data.rs:341-366 | for mark functions that use `rb_gc_mark` alone the collected list is the function's own edges if and only if nothing they visit marks anything |
| `MarkSinks.NestedWalkSplices` | crates/zeo-capi/src/data.rs:341-366 | a concrete nested visit whose edge is collected as the outer struct's |
| `MarkSinks.Sinks.Collect` | crates/zeo-capi/src/data.rs:252-266 | a sweep runs only where no sink is up, there is a mark function and something to hand it; it collects what the script reports and restores both sinks |
| `MarkSinks.Sinks.GcVisit` | crates/zeo-capi/src/data.rs:447-474 | a walk appends exactly the struct's own edges, reports nothing when re-entered or when the collector takes, and takes its sink down |
| `MarkSinks.Sinks.RunWalked` | crates/zeo-capi/src/data.rs:412-424 | under a walk a whole script of marks and nested visits reports its own edges to the walk, and its raw marks to a sweep outside it |
| `MarkSinks.Sinks.RunSwept` | crates/zeo-capi/src/data.rs:341-366 | under a sweep a whole script leaves its marks and those of every walk nested in it |
| `MarkSinks.Sinks.RbGcMark` | crates/zeo-capi/src/call.rs:263-283 | a mark reaches both sinks |
| `MarkSinks.Sinks.RbGcMarkMaybe` | crates/zeo-capi/src/gc.rs:102-117 | a conservative mark reaches the walk only, and only if the word is live |
| `MarkSinks.Sinks.RbGcMarkLocations` | crates/zeo-capi/src/call.rs:290-299 | the slots between the bounds reach the walk only, one by one in order; null or crossed bounds report nothing |
| `HandleTable.Runtime.constructor` | crates/zeo-capi/src/handles.rs:171-234 | the fields start as the empty state |
| `HandleTable.Runtime.Unpin` | crates/zeo-capi/src/handles.rs:354-376 | nested in-place release, recursing through object drops, ends as the reference cascade does |
| `HandleTable.Runtime.RemoveEntry` | crates/zeo-capi/src/handles.rs:366-372 | the entry and its identity go together, before anything is dropped |
| `HandleTable.Runtime.DropReference` | crates/zeo-capi/src/data.rs:285-313 | giving up a strong reference ends as the cascade does |
| `HandleTable.Runtime.DropObject` | crates/zeo-capi/src/data.rs:291-312 | draining `retained`, then `marked`, then freeing ends as the cascade of both lists with the free recorded |
| `HandleTable.FreeBeforeOrAfter` | crates/zeo-capi/src/data.rs:291-312 | recording the free before or after the releases makes no difference to the end state |
| `HandleTable.Runtime.UnpinEach` | crates/zeo-capi/src/scope.rs:86-115 | a loop of releases is the cascade of the list |
| `HandleTable.Runtime.DropEach` | crates/zeo-capi/src/data.rs:285-313 | a loop of reference drops is the cascade of the list |
| `HandleTable.Runtime.PinRaw` | crates/zeo-capi/src/handles.rs:344-352 | adds one pin to a live heap word and nothing elsewhere |
| `HandleTable.Runtime.Intern` | crates/zeo-capi/src/handles.rs:288-342 | answers the entry the identity names with one more pin, or mints one with one pin |
| `HandleTable.Runtime.Pin` | crates/zeo-capi/src/handles.rs:244-277 | classes gain a pin of their own, everything else is listed in the innermost scope |
| `HandleTable.Runtime.KlassWord` | crates/zeo-capi/src/handles.rs:391-417 | the memo is answered or filled, also when minting the class handle moved the table |
| `HandleTable.Runtime.PinForever` | crates/zeo-capi/src/handles.rs:428-435 | a registration pins a live heap word and ignores anything else |
| `HandleTable.Runtime.RetainWrite` | crates/zeo-capi/src/data.rs:315-339 | a C struct lists and pins the young word once; any other owner is left alone |
| `HandleTable.Runtime.RefreshMarkPins` | crates/zeo-capi/src/data.rs:245-282 | pinning, then going through the list and releasing as it goes, ends as one refresh of the state does |
| `HandleTable.Runtime.PinReported` | crates/zeo-capi/src/data.rs:267-273 | pins exactly the words it appends |
| `HandleTable.Runtime.StillReported` | crates/zeo-capi/src/data.rs:274-281 | what stays is what is still reported, in list order |
| `HandleTable.Runtime.ReleaseStale` | crates/zeo-capi/src/data.rs:274-281 | each word no longer reported is released as it is come to, cascade and all, and together that is the cascade of the stale words |
| `HandleTable.Runtime.RefreshMarksFor` | crates/zeo-capi/src/data.rs:368-380 | only a live heap handle of a C struct is refreshed |
| `HandleTable.Runtime.EnterScope` | crates/zeo-capi/src/scope.rs:50-56 | opens an empty scope |
| `HandleTable.Runtime.KeepInParent` | crates/zeo-capi/src/scope.rs:58-70 | pins into the enclosing scope, or nowhere when there is none |
| `HandleTable.Runtime.PopScope` | crates/zeo-capi/src/scope.rs:86-115 | refreshes every struct the scope lists, then releases the list |
| `OpsKeep.PinKeeps` | crates/zeo-capi/src/handles.rs:253-277 | converting any presentable value keeps the invariant |
| `OpsKeepMore.KeepKeeps` | crates/zeo-capi/src/scope.rs:58-70 | keeping a live word keeps the invariant |
| `OpsKeepMore.PinForeverKeeps` | crates/zeo-capi/src/gc.rs:119-128 | registering any word at all keeps the invariant |
| `OpsKeepMore.AllocKeeps` | crates/zeo-capi/src/data.rs:150-184 | wrapping a C struct at any free address, a reused one included, keeps the invariant |
| `Immediates.ImmediateRoundTrip` | crates/zeo-capi/src/value.rs:113-148 | every value with an immediate spelling is read back as itself; the word is a special constant, is not the undefined word and can be no heap address |
| `Immediates.ImmediatesAreInjective` | crates/zeo-capi/src/value.rs:113-148 | two immediates with the same word are the same value, across kinds |
| `Immediates.ImmediatesExactly` | crates/zeo-capi/src/value.rs:113-129 | everything that may be immediate is, except a number whose two high bits differ and a double the rotation cannot hold |
| `Immediates.FlonumsExactly` | crates/zeo-capi/src/value.rs:86-103 | a double is held exactly when it is `+0.0` or its exponent field is between 0x300 and 0x4FF, but for the pattern that would be spelled like `+0.0` |
| `Immediates.FixnumsExactly` | crates/zeo-capi/src/value.rs:65-67 | a Fixnum is a number whose two high bits agree |
| `Immediates.ConstantWords` | crates/zeo-capi/src/value.rs:24-27 | nil, true, false and the undefined word are the words the C headers compile in |
| `Immediates.OneSpelling` | crates/zeo-capi/src/value.rs:131-148 | every word read as an immediate is the one spelling of what it reads as, exactly unless it is a symbol with bits above its 32-bit id |
| `Immediates.FixnumRoundTrip` | crates/zeo-capi/src/value.rs:65-76 | tag and untag over the whole 63-bit range |
| `Immediates.FlonumRoundTrip` | crates/zeo-capi/src/value.rs:86-111 | every double the rotation accepts comes back bit for bit |
| `Immediates.SymbolRoundTrip` | crates/zeo-capi/src/value.rs:78-84 | every 32-bit id comes back and carries the symbol tag |
| `ControlStack.Thread.Run` | crates/zeo-capi/src/call.rs:411-459 | for every program over the entry points, including ones left by raise, break or throw, the stack machine leaves the block, receiver and visiting stacks as it found them and computes what passing the environment down computes |
| `ControlStack.Thread.Call` | crates/zeo-capi/src/call.rs:110-168 | the same for every single entry point |
| `ControlStack.Thread.CallLeaf` | crates/zeo-capi/src/call.rs:210-236 | reading the block, the receiver or the pending exception sees exactly the innermost frame's |
| `ControlStack.Thread.RbYield` | crates/zeo-capi/src/call.rs:465-473 | the block runs in the yielder's own frame, and a yield with no block raises |
| `ControlStack.Thread.Trampoline` | crates/zeo-capi/src/method.rs:145-184 | a method body sees its own block and receiver, never its caller's |
| `ControlStack.Thread.RbIterate` | crates/zeo-capi/src/eval.rs:83-96 | the installed block is seen inside the body only |
| `ControlStack.Thread.RbProtect` | crates/zeo-capi/src/call.rs:110-130 | whatever ends the body is caught; the state slot is set both ways |
| `ControlStack.Thread.SetErrinfo` | crates/zeo-capi/src/call.rs:327-331 | a raise becomes pending; a break or a throw leaves what was pending |
| `ControlStack.Thread.RbEnsure` | crates/zeo-capi/src/call.rs:132-145 | the cleanup follows every ending of the body, and only its own failure replaces the body's |
| `ControlStack.Thread.RbRescue2` | crates/zeo-capi/src/call.rs:147-168 | only a raise of a listed class is rescued; it is pending before its conversion may be refused; every other ending passes through |
| `ControlStack.Thread.RbJumpTag` | crates/zeo-capi/src/call.rs:201-208 | re-raises what is pending and takes it |
| `ControlStack.Thread.ExecRecursive` | crates/zeo-capi/src/eval.rs:818-843 | a body is told it recurs exactly when an enclosing call visits the same pair, and the visiting list is restored however the body ends |
| `ControlStack.Thread.BeginVisit` | crates/zeo-capi/src/eval.rs:831-836 | tells whether the pair is being visited, and lists it if not |
| `ControlStack.Thread.EndVisit` | crates/zeo-capi/src/eval.rs:839-841 | takes every listing of the pair off |
| `EntryLaws.RescueHandles` | crates/zeo-capi/src/call.rs:147-168 | a raise of an exception that is one of the classes asked for ends as the handler does, given it and with it pending |
| `EntryLaws.RescuePasses` | crates/zeo-capi/src/call.rs:147-168 | every other ending passes through; a wanted exception C cannot be handed is replaced by the refusal |
| `EntryLaws.RescueRunsOnce` | crates/zeo-capi/src/call.rs:147-168 | over every body and ending, the handler runs once for a raise of a wanted exception and not at all otherwise |
| `EntryLaws.WantedIsRescued` | crates/zeo-capi/src/call.rs:364-373 | the class test matches exactly any listed class, and `StandardError` for an empty list |
| `EntryLaws.ProtectReports` | crates/zeo-capi/src/call.rs:110-130 | `rb_protect` ends normally whatever the body does, says so in the state slot, and leaves a raise and nothing else pending |
| `EntryLaws.PendingIsTaken` | crates/zeo-capi/src/call.rs:201-219 | what is set as pending is what is read and what is re-raised, once; nil is nothing pending |
| `EntryLaws.MethodSeesItsOwn` | crates/zeo-capi/src/method.rs:145-184 | a method sees the receiver and block it was called with, and behaves the same in every frame of its caller |
| `EntryLaws.MethodYieldsToItsBlock` | crates/zeo-capi/src/call.rs:465-473 | its yield runs that block on the value yielded and the block's own argument |
| `EntryLaws.NoBlockNoYield` | crates/zeo-capi/src/call.rs:465-473 | a method called without a block raises on a yield, whatever block its caller has |
| `EntryLaws.PassingHandsOn` | crates/zeo-capi/src/eval.rs:118-126 | `rb_funcall_passing_block` hands the caller's own block on under another receiver |
| `EntryLaws.IterateInstalls` | crates/zeo-capi/src/eval.rs:83-96 | `rb_iterate` installs its block for the body and leaves the receiver |
| `EntryLaws.PlainSharesTheFrame` | crates/zeo-capi/src/call.rs:411-459 | an ordinary C call has no frame: it sees its caller's block and receiver |
| `EntryLaws.RecursionIsTold` | crates/zeo-capi/src/eval.rs:818-843 | a call is told it recurs exactly when one around it visits the same pair, and one that was left does not count |
| `ControlLaws.EnsureRunsOnce` | crates/zeo-capi/src/call.rs:132-145 | over every body, environment and ending, the cleanup runs exactly once |
| `ControlLaws.ByHandIsEnsure` | crates/zeo-capi/src/call.rs:110-145 | protect, clean up, jump by hand ends as `rb_ensure` does if and only if the body answers or raises |
| `ControlLaws.ByHandEnds` | crates/zeo-capi/src/call.rs:201-208 | what the by-hand pattern turns each ending into |
| `ControlLaws.EnsureEnds` | crates/zeo-capi/src/call.rs:132-145 | `rb_ensure` with a tidy cleanup ends exactly as its body |
| `ControlLaws.BreakIsLostByHand` | crates/zeo-capi/src/call.rs:201-208 | a concrete break that the by-hand pattern turns into a raise |
| `ControlLaws.FuelIsEnough` | crates/zeo-capi/src/call.rs:465-473 | the bound on nested yields changes no run that ends under it |
| `ControlLaws.UnnamedIsUncounted` | crates/zeo-capi/src/call.rs:132-145 | a body that does not name an effect leaves its count alone, whatever it calls |
| `RecursiveWalk.Walk` | crates/zeo-capi/src/eval.rs:674-683 | walking any finite graph of objects, cyclic ones included, ends, restores the visiting list and unfolds each object until it meets itself on the path |
| `RecursiveWalk.WalkEach` | crates/zeo-capi/src/eval.rs:818-843 | the same over a list of children |
| `RecursiveWalk.UnfoldDepth` | crates/zeo-capi/src/eval.rs:818-843 | no path is longer than the number of objects not yet visited, plus one |
| `RecursiveWalk.WalkCoversTheReachable` | crates/zeo-capi/src/eval.rs:674-683 | a walk spells out exactly the objects reachable from where it starts |
| `RecursiveWalk.KidsInOrder` | crates/zeo-capi/src/eval.rs:674-683 | each object spelled out has a tree for every reference it holds, in order, and is cut short exactly on its own path |
| `Hierarchy.DeclaredAncestors` | crates/zeo-abi/src/hierarchy.rs:140-144 | the recursive in-place walk answers the reference linearization, on every table, cyclic ones included |
| `Hierarchy.Linearizer.ExpandCore` | crates/zeo-abi/src/hierarchy.rs:98-113 | one expansion extends the list as the reference does |
| `Hierarchy.Linearizer.ExpandIncludes` | crates/zeo-abi/src/hierarchy.rs:104-108 | the includes are expanded from the last to the first |
| `Hierarchy.Linearizer.constructor` | crates/zeo-abi/src/hierarchy.rs:140-144 | the list starts empty |
| `Hierarchy.ExpandAllAppend` | crates/zeo-abi/src/hierarchy.rs:98-113 | expanding two lists in a row is expanding one list |
| `Reachability.AncestorsAreReachable` | crates/zeo-abi/src/hierarchy.rs:98-144 | on every table the ancestors are exactly the ids a path of declared edges reaches, each once, the class itself first |
| `Reachability.AncestryIsTransitive` | crates/zeo-abi/src/hierarchy.rs:140-144 | an ancestor's ancestor is an ancestor |
| `Reachability.OwnEdgesInOrder` | crates/zeo-abi/src/hierarchy.rs:98-113 | where the edges lead no further: the class, its includes from the last to the first, then its superclass |
| `NaiveOrder.AncestorsAreNaive` | crates/zeo-abi/src/hierarchy.rs:98-113 | on every acyclic table the pruned walk is the unpruned expansion with each id kept at its first occurrence |
| `NaiveOrder.ExpandIsFirstSeen` | crates/zeo-abi/src/hierarchy.rs:98-113 | the same from the middle of a walk, with any list so far and any stack of unfinished classes |
| `ClassChain.AncestorClassesAreTheChain` | crates/zeo-abi/src/hierarchy.rs:98-113 | the classes among a class's ancestors are its superclass chain, in order |
| `ClassChain.ModuleHasNoClasses` | crates/zeo-abi/src/hierarchy.rs:98-113 | a module's ancestors are modules |
| `ClassTables.GraphHasTheEdges` | crates/zeo-abi/src/hierarchy.rs:76-96 | the graph holds for each id exactly the edges the lookup through the three tables answers |
| `ClassTables.BuiltinEdges` | crates/zeo-abi/src/hierarchy.rs:85-87 | a builtin has its own row's superclass and includes |
| `ClassTables.ExceptionEdges` | crates/zeo-abi/src/hierarchy.rs:88-95 | an exception has its own row's superclass and the includes of the first row that names it, or none |
| `ClassTables.ObjectEdges` | crates/zeo-abi/src/hierarchy.rs:82-84 | `Object` has its declared superclass and includes |
| `ClassTables.UnknownEdges` | crates/zeo-abi/src/hierarchy.rs:96-96 | an id no table has is its own only ancestor |
| `ClassTables.BuiltinAncestors` | crates/zeo-abi/src/hierarchy.rs:98-144 | every include and the superclass a builtin's row declares, with all their ancestors, are its declared ancestors |
| `ClassTables.ExceptionAncestors` | crates/zeo-abi/src/hierarchy.rs:98-144 | the same for an exception and its row among the exception includes |
| `ClassTables.ObjectAncestors` | crates/zeo-abi/src/hierarchy.rs:98-144 | the same for `Object` |
| `ClassTables.IndexIsSearch` | crates/zeo-abi/src/builtins.rs:105-111 | indexing a contiguous table finds what searching it finds, for every id |
| `ClassTables.PayloadRootOf` | crates/zeo-abi/src/builtins.rs:113-127 | wherever the climb ends it answers the first payload root on the superclass chain |
| `ClassTables.RootsAreClassRows` | crates/zeo-abi/src/builtins.rs:98-103 | a payload root is exactly a builtin row that is a class and not exempt |
| `ClassTables.FirstRootIs` | crates/zeo-abi/src/builtins.rs:113-127 | what is answered is a root on the chain with none before it, and nothing exactly when the chain has none |
| `ClassTables.LoopEndsExactly` | crates/zeo-abi/src/builtins.rs:119-127 | the loop returns at all if and only if the superclasses up to its return do not come round, whatever the includes do |
| `ClassTables.RoundChainNeverReturns` | crates/zeo-abi/src/builtins.rs:119-127 | two builtins that are each other's superclass keep the loop going for ever |
| `ClassTables.AcyclicEnds` | crates/zeo-abi/src/builtins.rs:119-127 | on a table in which no class is above itself it returns for every id |
| `ClassTables.RootIsFirstAncestor` | crates/zeo-abi/src/builtins.rs:113-127 | which is the first payload root among the ancestors' classes |
| `ClassTables.NoRootOutside` | crates/zeo-abi/src/builtins.rs:105-127 | no chain that starts outside the builtin table meets a payload root, so stopping there loses nothing |
| `ExceptionTable.BuildExceptionClasses` | crates/zeo-abi/src/exceptions.rs:637-663 | the index loop fills every row with its block's own entry |
| `ExceptionTable.SplicedIds` | crates/zeo-abi/src/exceptions.rs:14-21 | the three blocks' ids run on without a gap, wherever the builtins end |
| `ExceptionTable.SplicedIdsAreTheirOwn` | crates/zeo-abi/src/exceptions.rs:14-21 | no exception id is a builtin's or `Object`'s, and each finds its own row |
| `ExceptionTable.SplicedIsDeclared` | crates/zeo-abi/src/exceptions.rs:637-663 | the spliced table meets what the ancestry and payload-root theorems ask of the declared tables |
| `ExceptionTable.ErrnosAreSystemCallErrors` | crates/zeo-abi/src/exceptions.rs:637-663 | every errno class has the core row at place 30, and all that row's ancestors, among its own |
| `ExceptionTable.EveryIdIsTaken` | crates/zeo-abi/src/exceptions.rs:14-21 | `Object`, the builtins and the exceptions take every id from 0 on without a gap |
| `ExceptionTable.ErrnoClassId` | crates/zeo-abi/src/exceptions.rs:533-545 | the name search answers the class of a row with that name, or the name is in no row |
| `ExceptionTable.ConstStrEq` | crates/zeo-abi/src/exceptions.rs:547-562 | the byte loop decides equality |
| `ExceptionTable.ErrnoThere` | crates/zeo-abi/src/exceptions.rs:572-582 | errno to class and back is the identity, and a class is found exactly for a listed non-zero errno |
| `ExceptionTable.ErrnoBack` | crates/zeo-abi/src/exceptions.rs:564-582 | class to errno and back is the identity if and only if the errno is non-zero and no earlier row shares it |
| `ExceptionTable.SharedErrnoIsLost` | crates/zeo-abi/src/exceptions.rs:564-582 | two names for one errno: the second one's class comes back as the first one's |
| `ExceptionTable.ErrnoInverse` | crates/zeo-abi/src/exceptions.rs:564-582 | with no errno shared, the two lookups are inverse relations on non-zero errnos |
| `ExceptionTable.ErrnoBlock` | crates/zeo-abi/src/exceptions.rs:564-570 | the lookup answers exactly on the errno block of ids |
| `ExceptionTable.PositionIsFirst` | crates/zeo-abi/src/exceptions.rs:572-582 | the search answers the first row with the errno, or there is none or the errno is zero |
| `Kwargs.GetKwargs` | crates/zeo-capi/src/final.rs:229-290 | the loops answer what the table of names, the counts and the Hash determine, fill every slot, or on an error those before the name that stopped it, and write no other |
| `Kwargs.SlotsHoldTheValues` | crates/zeo-capi/src/final.rs:257-265 | a slot holds a value exactly if the Hash has that pair, and is the undefined word exactly if it has none for the name |
| `Kwargs.CountsTheSlots` | crates/zeo-capi/src/final.rs:279-290 | the count answered is one for each name and one for the rest Hash |
| `Kwargs.NamesAskedFor` | crates/zeo-capi/src/final.rs:246-249 | `k` optionals are `k` names with a rest Hash or without; a negative required count is none |
| `Kwargs.RefusedComesFirst` | crates/zeo-capi/src/final.rs:250-265 | a value C cannot be handed stops the walk where it is found |
| `Kwargs.UnknownAnswer` | crates/zeo-capi/src/final.rs:286-288 | an unknown keyword is the first key of the Hash the table does not name |
| `Kwargs.CollectRest` | crates/zeo-capi/src/final.rs:272-278 | the rest is the Hash without the taken names |
| `Kwargs.SucceedsExactly` | crates/zeo-capi/src/final.rs:235-290 | the call succeeds if and only if every required name is present, every named value has a tag, and nothing is left over or a rest was asked for |
| `Kwargs.MissingComesFirst` | crates/zeo-capi/src/final.rs:250-265 | the first missing required name is the error, before any leftover is looked at |
| `Kwargs.SlotsAndLeftoverPartition` | crates/zeo-capi/src/final.rs:250-278 | the pairs read off the filled slots and the leftovers split the Hash with nothing lost or doubled if and only if no present name is listed twice |
| `Kwargs.RepeatedNameIsDoubled` | crates/zeo-capi/src/final.rs:250-278 | a name listed twice fills two slots from the one pair |
| `Kwargs.LeftoverKeepsOrder` | crates/zeo-capi/src/final.rs:272-278 | leftovers keep the Hash's order |
| `Ranges.RangeBegLen` | crates/zeo-capi/src/builtins.rs:698-746 | the window begins where the Range does, empty or not, and lies inside the collection; the four answers are told apart exactly, errors included |
| `Ranges.WindowIsSelection` | crates/zeo-capi/src/builtins.rs:698-746 | the window holds exactly the indices the Range selects if and only if the end does not overflow a C `long` |
| `Ranges.LargestEndSelectsNothing` | crates/zeo-capi/src/builtins.rs:725-746 | an inclusive range that ends at `LONG_MAX` answers an empty window |
| `Ranges.GetValuesAt` | crates/zeo-capi/src/final.rs:318-361 | the reader is called on exactly the selected indices, in argument order, up to the first argument that cannot be read or the first index it raises on; which of the three ways the call ends is settled exactly, and the answers are theirs |
| `Ranges.ReadWindow` | crates/zeo-capi/src/final.rs:338-344 | one window is read from its first index to its last, or to the one the reader raises on |
| `Ranges.RangeReadsItsSelection` | crates/zeo-capi/src/final.rs:318-361 | a Range reads the indices it selects, each once and in order, if and only if its end does not overflow |
| `Ranges.IndexReadsItself` | crates/zeo-capi/src/final.rs:350-360 | an index reads itself, inside the collection or not |
| `Ranges.RefusedExactly` | crates/zeo-capi/src/final.rs:318-361 | the call is refused exactly for an argument that is neither an index nor a Range between Integers |
| `Ranges.RangesReadInBounds` | crates/zeo-capi/src/final.rs:318-361 | a Range between Integers, and no other, is read; it never reads outside the collection, and out of bounds it contributes nothing |
| `ScanArgs.ScanArgsPlan` | crates/zeo-capi/src/call.rs:483-512 | the parser accepts exactly the well-formed formats and answers their meaning |
| `ScanArgs.FormatsMean` | crates/zeo-capi/src/call.rs:483-512 | every format of a digit, perhaps another, and a run of the three flags is accepted and means what it spells; a colon says nothing |
| `ScanArgs.FormatsAre` | crates/zeo-capi/src/call.rs:483-512 | every format accepted is one of those |
| `ScanArgs.PrintedPlanParses` | crates/zeo-capi/src/call.rs:483-512 | every plan, printed, parses back to itself |
| `ScanArgs.ScanArgs` | crates/zeo-capi/csrc/cext_va.c:164-216 | memory ends as the slots stored in order through the caller's addresses, shared and null ones included; a bad format writes nothing |
| `ScanArgs.Store` | crates/zeo-capi/csrc/cext_va.c:193-199 | a store through an address, and none through null |
| `ScanArgs.LastStoreWins` | crates/zeo-capi/csrc/cext_va.c:193-214 | a cell holds the value of the last slot that names it, and what it held if none does |
| `ScanArgs.EachHasItsOwn` | crates/zeo-capi/csrc/cext_va.c:193-214 | where no two slots share a cell each holds its own slot's value |
| `ScanArgs.ConsumedInOrder` | crates/zeo-capi/csrc/cext_va.c:174-216 | arguments go to the named slots in order, missing ones are nil, the rest is the splat |
| `ScanArgs.SplatLosesNothing` | crates/zeo-capi/csrc/cext_va.c:164-216 | with a splat, named slots and rest put back together are the arguments |
| `ScanArgs.NamedAre` | crates/zeo-capi/csrc/cext_va.c:164-216 | a named slot holds its argument |
| `Formatter.Vsnprintf` | crates/zeo-capi/csrc/cext_fmt.c:342-357 | while every copy stays inside its temporary the buffer holds the copies and a NUL; it holds the longest prefix of the full text that has room if and only if every piece comes out; nothing past the capacity is written in any case |
| `Formatter.TemporaryExact` | crates/zeo-capi/csrc/cext_fmt.c:76-85 | going by way of the 4096-byte temporary copies the text cut to the room if and only if the text or the room is shorter than it, or the byte in its last place is a NUL anyway |
| `Formatter.PrintsExactly` | crates/zeo-capi/csrc/cext_fmt.c:94-115 | over a whole format: the assembled text is the full text cut to the capacity if and only if every piece comes out |
| `Formatter.TerminatorSlipsIn` | crates/zeo-capi/csrc/cext_fmt.c:364-373 | 4096 bytes of text into a buffer of 8192 end in the temporary's NUL |
| `Formatter.SmallBufferFits` | crates/zeo-capi/csrc/cext_fmt.c:375-391 | a buffer no larger than the temporary, as every message buffer is, is always served |
| `Formatter.LongConversionOverruns` | crates/zeo-capi/csrc/cext_fmt.c:364-373 | 5000 bytes of text into a buffer of 8192 ask for more than the temporary holds |
| `Formatter.Output.constructor` | crates/zeo-capi/csrc/cext_fmt.c:342-357 | an empty, terminated buffer |
| `Formatter.Output.OutStr` | crates/zeo-capi/csrc/cext_fmt.c:60-74 | appends as many bytes as fit and the terminator |
| `Formatter.Output.Copy` | crates/zeo-capi/csrc/cext_fmt.c:108-115 | a literal run is cut to the room left |
| `Formatter.Output.Emit` | crates/zeo-capi/csrc/cext_fmt.c:76-85 | tells whether the copy stays inside the temporary, and if so appends exactly those bytes of it |
| `Formatter.Output.Append` | crates/zeo-capi/csrc/cext_fmt.c:94-115 | the same for any one step of the format walk; literals are cut to the room |
| `Formatter.Output.AppendAll` | crates/zeo-capi/csrc/cext_fmt.c:94-115 | the copies of all pieces one after the other, as long as each stays inside |
| `Formatter.CutAppend` | crates/zeo-capi/csrc/cext_fmt.c:60-74 | cutting each piece to the room left is cutting the whole text |

## Left out

- RunKeeps: a step is atomic; true parallelism under the table lock, and the order in which threads take it, are not modelled.
- Pin: counts are unbounded naturals; `CountsFit` says when the 32 bits of the code hold them, and what happens past that is not modelled.
- RefreshMarkPins: the new list is put in place before the loop that releases stale words, where the code edits it under a lock as it goes; nothing can look at it in between.
- DropObject: a free function or a mark function that calls back into the runtime is not modelled; a free is recorded, not performed.
- AnchoredExit: sufficient, not necessary; the exact condition is in `ScopePopExact`, which follows the refreshes one after the other.
- Run: programs are finite trees over the entry points; loops in C, Ruby-side catch tables and Ruby blocks as closures over Ruby frames are not modelled. The bound in the semantics counts nested yields only.
- GetKwargs: a table shorter than the counts demand is the caller's error; counts whose negation leaves 32 bits are not modelled.
- Vsnprintf: starts from the pieces the format walk comes to; parsing a conversion and the text it prints are not modelled. A copy past the temporary's end has no defined result in C, and the model stops there.
- PayloadRootOf: is called only where the climb ends, since the code does not return elsewhere; `LoopEndsExactly` says where that is.
- The contents of the builtin, exception and errno tables: the theorems hold for every table of the declared shape.
- `dup` of a struct whose class has a C allocator: it is a run of the steps that are modelled, not a step of its own.
- Reassigning the data slot of a live `CData`, and the flag bits of a handle (frozen, type tag).
- `rb_gc_register_address`: a list of slots to read, which takes no pin.
- The cycle collector, text scratch buffers, array and string projections and their write-back at scope exit.
- Encoding, numeric, IO, threads, `st` tables and the other entry points, which are mostly one-call conversions.
- The compiler and the rest of the runtime.
