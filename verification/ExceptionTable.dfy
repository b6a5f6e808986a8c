/** The exception rows: three blocks spliced into one run of ids that starts right after
    the builtins and moves with them, and the two lookups between an errno and its class. */
module ExceptionTable {
  import opened Options
  import opened Hierarchy
  import opened ClassTables

  datatype Errno = Errno(name: string, errno: int)

  /** `SystemCallError`'s place in the core block. */
  const SYSTEM_CALL_ERROR: nat := 30

  /** `exc_id`, over however many builtins there are. */
  function ExcId(builtins: nat, offset: nat): ClassId {
    builtins + 1 + offset
  }

  function ErrnoRow(builtins: nat, core: nat, j: nat, e: Errno): Exception {
    Exception(ExcId(builtins, core + j), e.name, Some(ExcId(builtins, SYSTEM_CALL_ERROR)), false)
  }

  function ErrnoRows(builtins: nat, core: nat, errnos: seq<Errno>): seq<Exception> {
    seq(|errnos|, j requires 0 <= j < |errnos| => ErrnoRow(builtins, core, j, errnos[j]))
  }

  /** `build_exception_classes`. The table is seeded with the first core row, so there is one. */
  method BuildExceptionClasses(builtins: nat, core: seq<Exception>, errnos: seq<Errno>, waits: seq<Exception>)
    returns (out: seq<Exception>)
    requires core != []
    ensures out == core + ErrnoRows(builtins, |core|, errnos) + waits
  {
    var rows := new Exception[|core| + |errnos| + |waits|](_ => core[0]);
    var i := 0;
    while i < |core|
      invariant 0 <= i <= |core|
      invariant forall m :: 0 <= m < i ==> rows[m] == core[m]
    {
      rows[i] := core[i];
      i := i + 1;
    }
    var j := 0;
    while j < |errnos|
      invariant 0 <= j <= |errnos|
      invariant forall m :: 0 <= m < |core| ==> rows[m] == core[m]
      invariant forall m :: |core| <= m < |core| + j ==>
                  rows[m] == ErrnoRow(builtins, |core|, m - |core|, errnos[m - |core|])
    {
      rows[|core| + j] := ErrnoRow(builtins, |core|, j, errnos[j]);
      j := j + 1;
    }
    var k, n := 0, |core| + |errnos|;
    while k < |waits|
      invariant 0 <= k <= |waits|
      invariant forall m :: 0 <= m < |core| ==> rows[m] == core[m]
      invariant forall m :: |core| <= m < n ==>
                  rows[m] == ErrnoRow(builtins, |core|, m - |core|, errnos[m - |core|])
      invariant forall m :: n <= m < n + k ==> rows[m] == waits[m - n]
    {
      rows[n + k] := waits[k];
      k := k + 1;
    }
    out := rows[..];
  }

  /** Rows carry consecutive ids from `first` on. */
  predicate Numbered(rows: seq<Exception>, first: nat) {
    forall i :: 0 <= i < |rows| ==> rows[i].id == first + i
  }

  /** With each block numbered from its own place, row `i` of the spliced table has the
      id `i` past the first exception id, whatever the builtin count and errno set. */
  lemma SplicedIds(builtins: nat, core: seq<Exception>, errnos: seq<Errno>, waits: seq<Exception>)
    requires Numbered(core, ExcId(builtins, 0)) && Numbered(waits, ExcId(builtins, |core| + |errnos|))
    ensures Numbered(core + ErrnoRows(builtins, |core|, errnos) + waits, ExcId(builtins, 0))
  {
    var rows := core + ErrnoRows(builtins, |core|, errnos) + waits;
    forall i | 0 <= i < |rows| ensures rows[i].id == ExcId(builtins, 0) + i {
      if |core| <= i < |core| + |errnos| {
        assert rows[i] == ErrnoRow(builtins, |core|, i - |core|, errnos[i - |core|]);
      }
    }
  }

  /** No exception has `Object`'s id or a builtin's, and a search by id finds the row the
      position says. */
  lemma SplicedIdsAreTheirOwn(bs: seq<Builtin>, rows: seq<Exception>, i: nat)
    requires Contiguous(bs) && Numbered(rows, ExcId(|bs|, 0)) && i < |rows|
    ensures rows[i].id != OBJECT && BuiltinClass(bs, rows[i].id) == None
    ensures FindException(rows, rows[i].id) == Some(rows[i])
  {
    SearchNumbered(rows, ExcId(|bs|, 0), i);
  }

  /** The ids run on without a gap: `Object`, the builtins, the exceptions. */
  lemma EveryIdIsTaken(bs: seq<Builtin>, rows: seq<Exception>, id: ClassId)
    requires Contiguous(bs) && Numbered(rows, ExcId(|bs|, 0))
    ensures id <= |bs| + |rows| <==>
              id == OBJECT || (exists i :: 0 <= i < |bs| && bs[i].id == id) || exists i :: 0 <= i < |rows| && rows[i].id == id
  {
    if 1 <= id <= |bs| {
      assert bs[id - 1].id == id;
    } else if |bs| < id <= |bs| + |rows| {
      assert rows[id - |bs| - 1].id == id;
    }
  }

  /** The superclass is `Object` or another exception. */
  predicate FromExceptions(builtins: nat, e: Exception) {
    e.superclass.Some? ==> e.superclass.value == OBJECT || e.superclass.value > builtins
  }

  /** The spliced table is what the ancestry theorems ask of the exceptions, once the core
      and wait rows name no builtin as superclass: the errno rows never do. */
  lemma SplicedIsDeclared(t: Tables, core: seq<Exception>, errnos: seq<Errno>, waits: seq<Exception>)
    requires Contiguous(t.builtins)
    requires t.exceptions == core + ErrnoRows(|t.builtins|, |core|, errnos) + waits
    requires Numbered(core, ExcId(|t.builtins|, 0)) && Numbered(waits, ExcId(|t.builtins|, |core| + |errnos|))
    requires forall e :: e in core || e in waits ==> FromExceptions(|t.builtins|, e)
    requires t.objectSuper in t.notRoots && t.objectSuper != OBJECT
    requires BuiltinClass(t.builtins, t.objectSuper).Some? && BuiltinClass(t.builtins, t.objectSuper).value.superclass.None?
    ensures Declared(t)
  {
    SplicedIds(|t.builtins|, core, errnos, waits);
    var rows := ErrnoRows(|t.builtins|, |core|, errnos);
    forall e | e in t.exceptions ensures e.id > |t.builtins| && FromExceptions(|t.builtins|, e) {
      var i :| 0 <= i < |t.exceptions| && t.exceptions[i] == e;
      if e in rows {
        assert e.superclass == Some(ExcId(|t.builtins|, SYSTEM_CALL_ERROR));
      }
    }
    IndexIsSearch(t.builtins, t.objectSuper);
  }

  /** Every errno class descends from the core row at place 30, `SystemCallError`, and from
      all that row does. */
  lemma ErrnosAreSystemCallErrors(t: Tables, core: seq<Exception>, errnos: seq<Errno>, waits: seq<Exception>, j: nat)
    requires Contiguous(t.builtins) && j < |errnos|
    requires t.exceptions == core + ErrnoRows(|t.builtins|, |core|, errnos) + waits
    requires Numbered(core, ExcId(|t.builtins|, 0)) && Numbered(waits, ExcId(|t.builtins|, |core| + |errnos|))
    ensures var g, id, sys := GraphOf(t), ExcId(|t.builtins|, |core| + j), ExcId(|t.builtins|, 30);
            sys in Ancestors(g, id) && forall x :: x in Ancestors(g, sys) ==> x in Ancestors(g, id)
  {
    SplicedIds(|t.builtins|, core, errnos, waits);
    var i := |core| + j;
    assert t.exceptions[i] == ErrnoRow(|t.builtins|, |core|, j, errnos[j]);
    hide GraphOf, Ancestors;
    ExceptionAncestors(t, i, ExcId(|t.builtins|, 30));
  }

  lemma {:induction false} SearchNumbered(rows: seq<Exception>, first: nat, i: nat)
    requires Numbered(rows, first) && i < |rows|
    ensures FindException(rows, first + i) == Some(rows[i])
  {
    if i > 0 {
      SearchNumbered(rows[1..], first + 1, i - 1);
    }
  }

  // ---- names ------------------------------------------------------------------------------------

  /** `const_str_eq`. */
  method ConstStrEq(a: string, b: string) returns (eq: bool)
    ensures eq <==> a == b
  {
    if |a| != |b| {
      return false;
    }
    var i := 0;
    while i < |a|
      invariant 0 <= i <= |a|
      invariant a[..i] == b[..i]
    {
      if a[i] != b[i] {
        return false;
      }
      i := i + 1;
    }
    return true;
  }

  /** `errno_class_id`: the id of the first row of that name; `None` where the source
      refuses to build. */
  method ErrnoClassId(builtins: nat, core: nat, errnos: seq<Errno>, name: string) returns (r: Option<ClassId>)
    ensures r.None? ==> forall i :: 0 <= i < |errnos| ==> errnos[i].name != name
    ensures r.Some? ==> ErrnoNamed(builtins, core, errnos, name, r.value)
  {
    var i := 0;
    while i < |errnos|
      invariant 0 <= i <= |errnos|
      invariant forall j :: 0 <= j < i ==> errnos[j].name != name
    {
      var eq := ConstStrEq(errnos[i].name, name);
      if eq {
        return Some(ExcId(builtins, core + i));
      }
      i := i + 1;
    }
    return None;
  }

  ghost predicate ErrnoNamed(builtins: nat, core: nat, errnos: seq<Errno>, name: string, id: ClassId) {
    && ExcId(builtins, core) <= id < ExcId(builtins, core + |errnos|)
    && errnos[id - ExcId(builtins, core)].name == name
    && forall j :: 0 <= j < id - ExcId(builtins, core) ==> errnos[j].name != name
  }

  // ---- errno and class ------------------------------------------------------------------------------

  /** `errno_of_class`: a range check, not a search. */
  function ErrnoOfClass(builtins: nat, core: nat, errnos: seq<Errno>, id: ClassId): Option<int> {
    var first := ExcId(builtins, core);
    if id < first || id - first >= |errnos| then None else Some(errnos[id - first].errno)
  }

  function Position(errnos: seq<Errno>, errno: int): Option<nat> {
    if errnos == [] then None
    else if errnos[0].errno == errno && errno != 0 then Some(0)
    else
      var p := Position(errnos[1..], errno);
      if p.Some? then Some(p.value + 1) else None
  }

  /** `errno_class`: the first row with that errno; never `Errno::NOERROR`. */
  function ErrnoClass(builtins: nat, core: nat, errnos: seq<Errno>, errno: int): Option<ClassId> {
    var p := Position(errnos, errno);
    if p.Some? then Some(ExcId(builtins, core + p.value)) else None
  }

  lemma {:induction false} PositionIsFirst(errnos: seq<Errno>, errno: int)
    ensures var p := Position(errnos, errno);
            && (p.None? <==> errno == 0 || forall i :: 0 <= i < |errnos| ==> errnos[i].errno != errno)
            && (p.Some? ==> p.value < |errnos| && errnos[p.value].errno == errno
                            && forall j :: 0 <= j < p.value ==> errnos[j].errno != errno)
  {
    if errnos != [] {
      PositionIsFirst(errnos[1..], errno);
      assert forall i :: 0 < i < |errnos| ==> errnos[i] == errnos[1..][i - 1];
    }
  }

  /** A class has an errno exactly inside the block. */
  lemma ErrnoBlock(builtins: nat, core: nat, errnos: seq<Errno>, id: ClassId)
    ensures ErrnoOfClass(builtins, core, errnos, id).Some?
       <==> ExcId(builtins, core) <= id < ExcId(builtins, core + |errnos|)
  {
  }

  /** From an errno to its class and back. */
  lemma ErrnoThere(builtins: nat, core: nat, errnos: seq<Errno>, errno: int)
    ensures var c := ErrnoClass(builtins, core, errnos, errno);
            && (c.Some? ==> ErrnoOfClass(builtins, core, errnos, c.value) == Some(errno))
            && (c.Some? <==> errno != 0 && exists i :: 0 <= i < |errnos| && errnos[i].errno == errno)
  {
    PositionIsFirst(errnos, errno);
  }

  /** From a class to its errno and back, exactly when the errno is not zero and no
      earlier row has it. */
  lemma ErrnoBack(builtins: nat, core: nat, errnos: seq<Errno>, id: ClassId)
    requires ErrnoOfClass(builtins, core, errnos, id).Some?
    ensures var i := id - ExcId(builtins, core);
            ErrnoClass(builtins, core, errnos, ErrnoOfClass(builtins, core, errnos, id).value) == Some(id)
            <==> errnos[i].errno != 0 && forall j :: 0 <= j < i ==> errnos[j].errno != errnos[i].errno
  {
    var i := id - ExcId(builtins, core);
    PositionIsFirst(errnos, errnos[i].errno);
  }

  /** Two names for one errno: the second one's class comes back as the first one's. */
  lemma SharedErrnoIsLost(builtins: nat, core: nat)
    ensures var errnos := [Errno("EAGAIN", 11), Errno("EWOULDBLOCK", 11)];
            && ErrnoOfClass(builtins, core, errnos, ExcId(builtins, core + 1)) == Some(11)
            && ErrnoClass(builtins, core, errnos, 11) == Some(ExcId(builtins, core))
  {
    var errnos := [Errno("EAGAIN", 11), Errno("EWOULDBLOCK", 11)];
    assert errnos[0].errno == 11 && errnos[1].errno == 11;
    PositionIsFirst(errnos, 11);
  }

  /** With distinct errno values the two lookups are inverse on the non-zero ones. */
  lemma ErrnoInverse(builtins: nat, core: nat, errnos: seq<Errno>, id: ClassId, errno: int)
    requires forall i, j :: 0 <= i < j < |errnos| ==> errnos[i].errno != errnos[j].errno
    requires errno != 0
    ensures ErrnoClass(builtins, core, errnos, errno) == Some(id) <==> ErrnoOfClass(builtins, core, errnos, id) == Some(errno)
  {
    PositionIsFirst(errnos, errno);
    if ErrnoOfClass(builtins, core, errnos, id) == Some(errno) {
      ErrnoBack(builtins, core, errnos, id);
    }
  }
}
