/** The `VALUE`s that spell themselves: nil, true, false, Fixnums, flonums and static
    symbols, bit for bit. */
module Immediates {
  import opened Options

  type Word = bv64

  const Q_FALSE: Word := 0x00
  const Q_NIL: Word := 0x04
  const Q_TRUE: Word := 0x14
  const Q_UNDEF: Word := 0x24

  const SIGN: bv64 := 0x8000_0000_0000_0000
  const FIXNUM_MAX: bv64 := 0x3FFF_FFFF_FFFF_FFFF
  const FIXNUM_MIN: bv64 := 0xC000_0000_0000_0000
  const FLONUM_ZERO: Word := 0x8000_0000_0000_0002

  /** The kinds that may be immediate. An `i64` and a double are kept as their bits. */
  datatype Ruby = Nil | True | False | Int(n: bv64) | Float(bits: bv64) | Symbol(id: bv32) | Reference

  predicate IsImmediate(v: Word) {
    v & 7 != 0
  }

  predicate IsSpecialConst(v: Word) {
    IsImmediate(v) || v == Q_FALSE || v == Q_NIL || v == Q_TRUE || v == Q_UNDEF
  }

  /** `a <= b` as signed numbers. */
  predicate SignedLe(a: bv64, b: bv64) {
    (a ^ SIGN) <= (b ^ SIGN)
  }

  predicate FitsFixnum(n: bv64) {
    SignedLe(FIXNUM_MIN, n) && SignedLe(n, FIXNUM_MAX)
  }

  function Fixnum(n: bv64): Word {
    (n << 1) | 1
  }

  /** An arithmetic shift: the sign stays. */
  function FixnumValue(v: Word): bv64 {
    (v >> 1) | (v & SIGN)
  }

  function StaticSymbol(id: bv32): Word {
    ((id as bv64) << 8) | 0x0c
  }

  function StaticSymbolId(v: Word): bv32 {
    ((v >> 8) & 0xFFFF_FFFF) as bv32
  }

  /** `flonum`: the exponent's high bits decide whether the double can be rotated in. */
  function Flonum(t: bv64): Option<Word> {
    var high := (t >> 60) & 7;
    if t != 0x3000_0000_0000_0000 && (high == 3 || high == 4)
    then Some((t.RotateLeft(3) & 0xFFFF_FFFF_FFFF_FFFE) | 2)
    else if t == 0 then Some(FLONUM_ZERO)
    else None
  }

  /** The word before its rotation: the high bit says which two exponent bits were dropped. */
  function Unrotated(v: Word): bv64 {
    (2 - (v >> 63)) | (v & 0xFFFF_FFFF_FFFF_FFFC)
  }

  function FlonumValue(v: Word): bv64 {
    if v == FLONUM_ZERO then 0 else Unrotated(v).RotateRight(3)
  }

  /** `immediate_of`. */
  function ImmediateOf(r: Ruby): Option<Word> {
    match r
    case Nil => Some(Q_NIL)
    case True => Some(Q_TRUE)
    case False => Some(Q_FALSE)
    case Int(n) => if FitsFixnum(n) then Some(Fixnum(n)) else None
    case Float(bits) => Flonum(bits)
    case Symbol(id) => Some(StaticSymbol(id))
    case Reference => None
  }

  /** `from_immediate`. */
  function FromImmediate(v: Word): Option<Ruby> {
    if v == Q_NIL then Some(Nil)
    else if v == Q_TRUE then Some(True)
    else if v == Q_FALSE then Some(False)
    else if v == Q_UNDEF then None
    else if v & 1 != 0 then Some(Int(FixnumValue(v)))
    else if v & 3 == 2 then Some(Float(FlonumValue(v)))
    else if v & 0xff == 0x0c then Some(Symbol(StaticSymbolId(v)))
    else None
  }

  // ---- each encoding and back -----------------------------------------------------------------

  lemma FixnumRoundTrip(n: bv64)
    requires FitsFixnum(n)
    ensures FixnumValue(Fixnum(n)) == n && Fixnum(n) & 1 != 0
  {
  }

  lemma FlonumRoundTrip(t: bv64)
    requires Flonum(t).Some?
    ensures FlonumValue(Flonum(t).value) == t && Flonum(t).value & 3 == 2
  {
  }

  lemma SymbolRoundTrip(id: bv32)
    ensures StaticSymbolId(StaticSymbol(id)) == id && StaticSymbol(id) & 0xff == 0x0c
  {
  }

  lemma TagsAreDisjoint(v: Word)
    ensures v & 3 == 2 ==> v & 1 == 0 && v & 7 != 0
    ensures v & 0xff == 0x0c ==> v & 1 == 0 && v & 3 == 0 && v & 7 != 0
    ensures v & 1 != 0 ==> v & 7 != 0
    ensures v == Q_NIL || v == Q_TRUE || v == Q_FALSE || v == Q_UNDEF ==> v & 1 == 0 && v & 3 == 0 && v & 0xff != 0x0c
  {
  }

  /** An immediate reads back as the value it was made from, and no handle, which is
      8-aligned and not zero, can be taken for one. */
  lemma ImmediateRoundTrip(r: Ruby)
    requires ImmediateOf(r).Some?
    ensures var w := ImmediateOf(r).value;
            FromImmediate(w) == Some(r) && IsSpecialConst(w) && w != Q_UNDEF && (w & 7 != 0 || w == 0)
  {
    hide Fixnum, FixnumValue, Flonum, FlonumValue, StaticSymbol, StaticSymbolId, FitsFixnum;
    var w := ImmediateOf(r).value;
    TagsAreDisjoint(w);
    match r
    case Int(n) => FixnumRoundTrip(n);
    case Float(bits) => FlonumRoundTrip(bits);
    case Symbol(id) => SymbolRoundTrip(id);
    case _ =>
  }

  /** Two values never share an immediate. */
  lemma ImmediatesAreInjective(r: Ruby, q: Ruby)
    requires ImmediateOf(r).Some? && ImmediateOf(r) == ImmediateOf(q)
    ensures r == q
  {
    ImmediateRoundTrip(r);
    ImmediateRoundTrip(q);
  }

  // ---- which values are immediate, and which words are ------------------------------------------

  /** A Fixnum is a number whose two high bits agree: 63 bits hold it. */
  lemma FixnumsExactly(n: bv64)
    ensures FitsFixnum(n) <==> n >> 62 == 0 || n >> 62 == 3
  {
  }

  /** A flonum is `+0.0`, or a double whose exponent field is between 0x300 and 0x4FF, but for
      the one pattern that would be spelled like `+0.0`. */
  lemma FlonumsExactly(t: bv64)
    ensures Flonum(t).Some?
       <==> t == 0 || (0x300 <= (t >> 52) & 0x7FF && (t >> 52) & 0x7FF <= 0x4FF && t != 0x3000_0000_0000_0000)
  {
  }

  /** The fixed words the headers of the C API compile in. */
  lemma ConstantWords()
    ensures ImmediateOf(Nil) == Some(0x04) && ImmediateOf(True) == Some(0x14) && ImmediateOf(False) == Some(0x00)
    ensures FromImmediate(0x24) == None && IsSpecialConst(0x24)
  {
  }

  /** Everything else that may be immediate is. */
  lemma ImmediatesExactly(r: Ruby)
    ensures ImmediateOf(r).None? <==>
              || r.Reference?
              || (r.Int? && !(r.n >> 62 == 0 || r.n >> 62 == 3))
              || (r.Float? && Flonum(r.bits).None?)
  {
    hide Flonum, Fixnum, FitsFixnum;
    if r.Int? {
      FixnumsExactly(r.n);
    }
  }

  lemma FixnumHighBits(w: Word)
    ensures var n := FixnumValue(w); n >> 62 == 0 || n >> 62 == 3
  {
  }

  lemma FixnumBack(w: Word)
    requires w & 1 == 1
    ensures ((w >> 1) << 1) | 1 == w
  {
  }

  lemma SignDrops(w: Word)
    ensures ((w >> 1) | (w & SIGN)) << 1 == (w >> 1) << 1
  {
  }

  lemma FixnumWords(w: Word)
    requires w & 1 != 0
    ensures FitsFixnum(FixnumValue(w)) && Fixnum(FixnumValue(w)) == w
  {
    FixnumHighBits(w);
    FixnumsExactly(FixnumValue(w));
    LowBit(w);
    FixnumBack(w);
    SignDrops(w);
    hide FitsFixnum;
  }

  lemma LowBit(w: Word)
    requires w & 1 != 0
    ensures w & 1 == 1
  {
  }

  lemma RotateBack(x: bv64)
    ensures x.RotateRight(3).RotateLeft(3) == x
    ensures (x.RotateRight(3) >> 60) & 7 == ((x & 3) << 1) | (x >> 63)
    ensures x.RotateRight(3) == 0x3000_0000_0000_0000 <==> x == 0x8000_0000_0000_0001
  {
  }

  predicate GoodBits(x: bv64, w: Word) {
    && ((((x & 3) << 1) | (x >> 63)) == 3 || (((x & 3) << 1) | (x >> 63)) == 4)
    && x != 0x8000_0000_0000_0001 && (x & 0xFFFF_FFFF_FFFF_FFFE) | 2 == w
  }

  lemma FlonumBits(w: Word)
    requires w & 3 == 2 && w != FLONUM_ZERO
    ensures GoodBits(Unrotated(w), w)
  {
  }

  lemma GoodIsFlonum(x: bv64, w: Word)
    requires GoodBits(x, w)
    ensures Flonum(x.RotateRight(3)) == Some(w)
  {
    RotateBack(x);
  }

  lemma ZeroIsFlonum()
    ensures Flonum(FlonumValue(FLONUM_ZERO)) == Some(FLONUM_ZERO)
  {
  }

  lemma ValueIsRotated(w: Word)
    requires w != FLONUM_ZERO
    ensures FlonumValue(w) == Unrotated(w).RotateRight(3)
  {
    hide Unrotated;
  }

  lemma FlonumWords(w: Word)
    requires w & 3 == 2
    ensures Flonum(FlonumValue(w)) == Some(w)
  {
    hide *;
    if w == FLONUM_ZERO {
      ZeroIsFlonum();
    } else {
      FlonumBits(w);
      GoodIsFlonum(Unrotated(w), w);
      ValueIsRotated(w);
    }
  }

  lemma SymbolWords(w: Word)
    requires w & 0xff == 0x0c
    ensures StaticSymbol(StaticSymbolId(w)) == w <==> w >> 40 == 0
  {
  }

  /** Every word read as an immediate is the one spelling of what it reads as, except that a
      symbol's id has 32 bits and the bits of the word above them are dropped. */
  lemma OneSpelling(w: Word)
    requires FromImmediate(w).Some?
    ensures ImmediateOf(FromImmediate(w).value) == Some(w)
       <==> (FromImmediate(w).value.Symbol? ==> w >> 40 == 0)
  {
    hide Fixnum, FixnumValue, Flonum, FlonumValue, StaticSymbol, StaticSymbolId, FitsFixnum;
    match FromImmediate(w).value
    case Int(_) => FixnumWords(w);
    case Float(_) => FlonumWords(w);
    case Symbol(_) => SymbolWords(w);
    case _ =>
  }
}
