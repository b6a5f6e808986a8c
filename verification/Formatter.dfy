/** The bounded formatter: literal runs and conversions are appended to a fixed buffer
    one at a time, each conversion by way of a temporary of its own. */
module Formatter {

  const FMT_MAX: nat := 4096
  const NUL: char := '\0'

  /** What one step of the format walk appends: a literal run, or the full text of a
      conversion as `snprintf` would print it with room enough. A conversion that fails
      prints nothing. */
  datatype Piece = Literal(text: string) | Conversion(text: string) | Failed

  function TextOf(p: Piece): string {
    if p.Failed? then [] else p.text
  }

  function FullText(ps: seq<Piece>): string {
    if ps == [] then [] else TextOf(ps[0]) + FullText(ps[1..])
  }

  function Cut(s: string, n: nat): string {
    if |s| <= n then s else s[..n]
  }

  lemma {:induction false} FullTextSnoc(ps: seq<Piece>, p: Piece)
    ensures FullText(ps + [p]) == FullText(ps) + TextOf(p)
    decreases |ps|
  {
    if ps == [] {
      assert ps + [p] == [p] && [p][1..] == [];
    } else {
      assert (ps + [p])[1..] == ps[1..] + [p];
      FullTextSnoc(ps[1..], p);
    }
  }

  /** Cutting each piece to the room left is cutting the whole. */
  lemma CutAppend(ps: seq<Piece>, i: nat, n: nat)
    requires i < |ps|
    ensures var done := Cut(FullText(ps[..i]), n);
            |done| <= n && done + Cut(TextOf(ps[i]), n - |done|) == Cut(FullText(ps[..i + 1]), n)
  {
    FullTextSnoc(ps[..i], ps[i]);
    assert ps[..i + 1] == ps[..i] + [ps[i]];
  }

  // ---- the temporary ------------------------------------------------------------------------

  /** What `snprintf` leaves in the temporary: the text cut to leave room for a NUL. */
  function Temporary(text: string): string {
    var kept := Cut(text, FMT_MAX - 1);
    kept + seq(FMT_MAX - |kept|, _ => NUL)
  }

  /** How many bytes are then copied from it, with room for `room`. */
  function Asked(text: string, room: nat): nat {
    if |text| <= room then |text| else room
  }

  /** The copy stays inside the temporary. Literals use none. */
  predicate Inside(p: Piece, room: nat) {
    p.Conversion? ==> Asked(p.text, room) <= FMT_MAX
  }

  /** What is copied for one piece. */
  function Copied(p: Piece, room: nat): (r: string)
    requires Inside(p, room)
    ensures |r| == |Cut(TextOf(p), room)|
  {
    match p
    case Literal(text) => Cut(text, room)
    case Conversion(text) => Temporary(text)[..Asked(text, room)]
    case Failed => []
  }

  /** The text was printed whole, or no more is asked for than was printed, or the one
      byte more is the NUL the text has there itself. */
  predicate ComesOut(p: Piece, room: nat) {
    p.Conversion? ==>
      || |p.text| < FMT_MAX || room < FMT_MAX
      || (Asked(p.text, room) == FMT_MAX && p.text[FMT_MAX - 1] == NUL)
  }

  /** Going by way of the temporary copies the text cut to the room if and only if it comes
      out; otherwise the copy takes in the terminator, or runs past the end. */
  lemma TemporaryExact(p: Piece, room: nat)
    ensures Inside(p, room) && Copied(p, room) == Cut(TextOf(p), room) <==> ComesOut(p, room)
  {
    if p.Conversion? && Inside(p, room) {
      var text, n := p.text, Asked(p.text, room);
      var tmp := Temporary(text);
      assert forall i :: 0 <= i < n && i < FMT_MAX - 1 ==> tmp[i] == text[i];
      assert |text| >= FMT_MAX ==> tmp[FMT_MAX - 1] == NUL;
      assert Cut(text, room) == text[..n];
      if n == FMT_MAX {
        assert tmp[..n][FMT_MAX - 1] == NUL && text[..n][FMT_MAX - 1] == text[FMT_MAX - 1];
      }
    }
  }

  /** The room left before piece `i`. */
  function Room(ps: seq<Piece>, cap: nat, i: nat): nat
    requires cap > 0 && i <= |ps|
  {
    cap - 1 - |Cut(FullText(ps[..i]), cap - 1)|
  }

  /** Every copy stays inside the temporary. */
  ghost predicate AllInside(ps: seq<Piece>, cap: nat) {
    cap > 0 ==> forall i :: 0 <= i < |ps| ==> Inside(ps[i], Room(ps, cap, i))
  }

  ghost predicate AllComeOut(ps: seq<Piece>, cap: nat) {
    cap > 0 ==> forall i :: 0 <= i < |ps| ==> ComesOut(ps[i], Room(ps, cap, i))
  }

  /** What the first `n` pieces leave in the buffer. */
  ghost function Assembled(ps: seq<Piece>, cap: nat, n: nat): (r: string)
    requires cap > 0 && n <= |ps| && forall i :: 0 <= i < n ==> Inside(ps[i], Room(ps, cap, i))
    ensures |r| == |Cut(FullText(ps[..n]), cap - 1)|
  {
    LengthStep(ps, cap, n);
    if n == 0 then [] else Assembled(ps, cap, n - 1) + Copied(ps[n - 1], Room(ps, cap, n - 1))
  }

  lemma LengthStep(ps: seq<Piece>, cap: nat, n: nat)
    requires cap > 0 && n <= |ps|
    ensures n == 0 ==> |Cut(FullText(ps[..n]), cap - 1)| == 0
    ensures n > 0 ==>
              |Cut(FullText(ps[..n]), cap - 1)|
                == |Cut(FullText(ps[..n - 1]), cap - 1)| + |Cut(TextOf(ps[n - 1]), Room(ps, cap, n - 1))|
  {
    hide Cut, FullText;
    if n == 0 {
      NothingYet(cap - 1);
      assert ps[..0] == [];
    } else {
      CutAppend(ps, n - 1, cap - 1);
    }
  }

  lemma SplitEqual(a: string, b: string, c: string, d: string)
    requires |a| == |c|
    ensures a + b == c + d <==> a == c && b == d
  {
    assert a == (a + b)[..|a|] && b == (a + b)[|a|..];
    assert c == (c + d)[..|c|] && d == (c + d)[|c|..];
  }

  lemma {:induction false} AssembledExact(ps: seq<Piece>, cap: nat, n: nat)
    requires cap > 0 && n <= |ps| && forall i :: 0 <= i < n ==> Inside(ps[i], Room(ps, cap, i))
    ensures Assembled(ps, cap, n) == Cut(FullText(ps[..n]), cap - 1)
       <==> forall i :: 0 <= i < n ==> ComesOut(ps[i], Room(ps, cap, i))
    decreases n
  {
    hide Cut, FullText, Copied, Inside, ComesOut;
    if n == 0 {
      NothingYet(cap - 1);
      assert ps[..0] == [];
    } else {
      AssembledExact(ps, cap, n - 1);
      CutAppend(ps, n - 1, cap - 1);
      TemporaryExact(ps[n - 1], Room(ps, cap, n - 1));
      SplitEqual(Assembled(ps, cap, n - 1), Copied(ps[n - 1], Room(ps, cap, n - 1)),
                 Cut(FullText(ps[..n - 1]), cap - 1), Cut(TextOf(ps[n - 1]), Room(ps, cap, n - 1)));
    }
  }

  /** Where every copy stays inside the temporary, the buffer holds the full text cut to
      its capacity if and only if every piece comes out. */
  lemma PrintsExactly(ps: seq<Piece>, cap: nat)
    requires cap > 0 && AllInside(ps, cap)
    ensures Assembled(ps, cap, |ps|) == Cut(FullText(ps), cap - 1) <==> AllComeOut(ps, cap)
  {
    hide Cut, FullText, Inside, ComesOut;
    AssembledExact(ps, cap, |ps|);
    assert ps[..|ps|] == ps;
  }

  lemma ComesOutInside(ps: seq<Piece>, cap: nat)
    requires AllComeOut(ps, cap)
    ensures AllInside(ps, cap)
  {
    if cap > 0 {
      forall i | 0 <= i < |ps| ensures Inside(ps[i], Room(ps, cap, i)) {
        TemporaryExact(ps[i], Room(ps, cap, i));
      }
    }
  }

  /** A buffer no larger than the temporary is always served. */
  lemma SmallBufferFits(ps: seq<Piece>, cap: nat)
    requires cap <= 4096
    ensures AllComeOut(ps, cap)
  {
    if cap > 0 {
      forall i | 0 <= i < |ps| ensures Room(ps, cap, i) < FMT_MAX {
        assert Room(ps, cap, i) <= cap - 1;
      }
    }
  }

  /** A larger one is not: 4096 bytes of text into 8192 end in the temporary's NUL. */
  lemma TerminatorSlipsIn(text: string)
    requires |text| == 4096 && text[4095] != NUL
    ensures var ps := [Conversion(text)];
            AllInside(ps, 8192) && !AllComeOut(ps, 8192) && Assembled(ps, 8192, 1) == text[..4095] + [NUL]
  {
    var ps := [Conversion(text)];
    assert ps[..0] == [] && FullText([]) == [];
    assert Room(ps, 8192, 0) == 8191 && Inside(ps[0], 8191) && !ComesOut(ps[0], 8191);
    assert Assembled(ps, 8192, 1) == [] + Copied(ps[0], 8191);
    assert Temporary(text)[..FMT_MAX] == text[..FMT_MAX - 1] + [NUL];
  }

  /** And 5000 bytes ask for more than the temporary holds. */
  lemma LongConversionOverruns(text: string)
    requires |text| == 5000
    ensures !AllInside([Conversion(text)], 8192)
  {
    var ps := [Conversion(text)];
    assert ps[..0] == [] && FullText([]) == [];
    assert Room(ps, 8192, 0) == 8191 && !Inside(ps[0], 8191);
  }

  lemma NothingYet(n: nat)
    ensures Cut(FullText([]), n) == []
  {
  }

  class Output {
    const buf: array<char>
    const cap: nat
    var len: nat

    /** The bytes so far, their terminator after them. */
    ghost predicate Valid()
      reads this, buf
    {
      cap <= buf.Length && len < cap && buf[len] == NUL
    }

    ghost function Contents(): string
      requires Valid()
      reads this, buf
    {
      buf[..len]
    }

    constructor (buf: array<char>, cap: nat)
      requires 0 < cap <= buf.Length
      modifies buf
      ensures this.buf == buf && this.cap == cap && Valid() && Contents() == []
      ensures forall i :: cap <= i < buf.Length ==> buf[i] == old(buf[i])
    {
      this.buf := buf;
      this.cap := cap;
      this.len := 0;
      new;
      buf[0] := NUL;
    }

    /** `zeo_out_str`: as much of the first `n` bytes at `s` as there is room for. The
        source is read only that far. */
    method OutStr(s: array<char>, n: nat)
      requires Valid() && s != buf && (n <= s.Length || cap - len - 1 <= s.Length)
      modifies this`len, buf
      ensures Valid()
      ensures Contents() == old(Contents()) + s[..(if n < cap - old(len) - 1 then n else cap - old(len) - 1)]
      ensures forall i :: cap <= i < buf.Length ==> buf[i] == old(buf[i])
    {
      var room := cap - len - 1;
      var m := if n > room then room else n;
      var i := 0;
      while i < m
        invariant 0 <= i <= m && len == old(len)
        invariant forall k :: 0 <= k < len ==> buf[k] == old(buf[k])
        invariant forall k :: 0 <= k < i ==> buf[len + k] == s[k]
        invariant forall k :: cap <= k < buf.Length ==> buf[k] == old(buf[k])
      {
        buf[len + i] := s[i];
        i := i + 1;
      }
      len := len + m;
      buf[len] := NUL;
    }

    /** A literal run. */
    method Copy(text: string)
      requires Valid()
      modifies this`len, buf
      ensures Valid() && Contents() == old(Contents()) + Cut(text, cap - 1 - |old(Contents())|)
      ensures forall i :: cap <= i < buf.Length ==> buf[i] == old(buf[i])
    {
      var s := new char[|text|](i requires 0 <= i < |text| => text[i]);
      assert s[..] == text;
      OutStr(s, |text|);
    }

    /** `ZEO_EMIT`: `snprintf` prints into a temporary, cut at its size, and answers the
        length of the full text; that many bytes are then asked for. A copy that would run
        past the temporary's end has no defined result, and the model stops. */
    method Emit(text: string) returns (ok: bool)
      requires Valid()
      modifies this`len, buf
      ensures Valid() && ok == Inside(Conversion(text), cap - 1 - |old(Contents())|)
      ensures ok ==> Contents() == old(Contents()) + Copied(Conversion(text), cap - 1 - |old(Contents())|)
      ensures !ok ==> Contents() == old(Contents())
      ensures forall i :: cap <= i < buf.Length ==> buf[i] == old(buf[i])
    {
      var printed := Temporary(text);
      var tmp := new char[FMT_MAX](i requires 0 <= i < FMT_MAX => printed[i]);
      assert tmp[..] == printed;
      var n := |text|;
      if n > FMT_MAX && cap - len - 1 > FMT_MAX {
        return false;
      }
      if n > 0 {
        var m := Asked(text, cap - len - 1);
        assert m <= FMT_MAX && tmp[..m] == printed[..m];
        OutStr(tmp, n);
      }
      ok := true;
    }

    method Append(p: Piece) returns (ok: bool)
      requires Valid()
      modifies this`len, buf
      ensures Valid() && ok == Inside(p, cap - 1 - |old(Contents())|)
      ensures ok ==> Contents() == old(Contents()) + Copied(p, cap - 1 - |old(Contents())|)
      ensures !ok ==> Contents() == old(Contents())
      ensures forall i :: cap <= i < buf.Length ==> buf[i] == old(buf[i])
    {
      ok := true;
      match p
      case Literal(text) => Copy(text);
      case Conversion(text) => ok := Emit(text);
      case Failed => assert Contents() + [] == Contents();
    }

    method AppendAll(pieces: seq<Piece>) returns (ok: bool)
      requires Valid() && Contents() == []
      modifies this`len, buf
      ensures Valid() && ok == AllInside(pieces, cap)
      ensures ok ==> Contents() == Assembled(pieces, cap, |pieces|)
      ensures forall i :: cap <= i < buf.Length ==> buf[i] == old(buf[i])
    {
      hide Cut, FullText, Inside, Copied;
      for i := 0 to |pieces|
        invariant Valid() && forall j :: 0 <= j < i ==> Inside(pieces[j], Room(pieces, cap, j))
        invariant Contents() == Assembled(pieces, cap, i)
        invariant forall k :: cap <= k < buf.Length ==> buf[k] == old(buf[k])
      {
        ok := Append(pieces[i]);
        if !ok {
          assert !Inside(pieces[i], Room(pieces, cap, i));
          return;
        }
      }
      ok := true;
    }
  }

  /** `zeo_cext_vsnprintf`, over the pieces the format walk comes to. While every copy stays
      inside its temporary the buffer holds the copies and a NUL; it holds the first
      `cap - 1` bytes of the full text, as if printed straight into it, if and only if
      every piece comes out. Nothing past the capacity is written in any case. */
  method Vsnprintf(buf: array<char>, cap: nat, pieces: seq<Piece>) returns (n: nat, ok: bool)
    requires cap <= buf.Length
    modifies buf
    ensures ok == AllInside(pieces, cap)
    ensures cap == 0 ==> n == 0 && buf[..] == old(buf[..])
    ensures cap > 0 ==> n < cap && buf[n] == NUL
    ensures cap > 0 && ok ==> buf[..n] == Assembled(pieces, cap, |pieces|) && n == |Cut(FullText(pieces), cap - 1)|
    ensures cap > 0 ==> (ok && buf[..n] == Cut(FullText(pieces), cap - 1) <==> AllComeOut(pieces, cap))
    ensures forall i :: cap <= i < buf.Length ==> buf[i] == old(buf[i])
  {
    hide Cut, FullText, Inside, ComesOut;
    if cap == 0 {
      return 0, true;
    }
    var o := new Output(buf, cap);
    ok := o.AppendAll(pieces);
    n := o.len;
    assert pieces[..|pieces|] == pieces;
    if ok {
      PrintsExactly(pieces, cap);
    } else if AllComeOut(pieces, cap) {
      ComesOutInside(pieces, cap);
    }
  }
}
