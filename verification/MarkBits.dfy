/**
The `marked` byte of an object and the bit tricks of `lgc.h`, against the
colours the rest of the collector is written in.
*/
module MarkBits {
  import opened GcState

  const WHITEBITS: bv8 := 0x03
  const BLACK: bv8 := 0x04
  const FIXED: bv8 := 0x20

  /** At most one of the three colour bits is set. */
  predicate OneColor(m: bv8) {
    m & 0x07 == 0 || m & 0x07 == 1 || m & 0x07 == 2 || m & 0x07 == 4
  }

  function ColorOf(m: bv8): Color {
    if m & 0x01 != 0 then White(false)
    else if m & 0x02 != 0 then White(true)
    else if m & BLACK != 0 then Black
    else Gray
  }

  /** The values `currentwhite` takes: one white, and the fixed bit that protects fixed objects. */
  function WhiteByte(which: bool): bv8 {
    if which then 0x22 else 0x21
  }

  function OtherWhite(cw: bv8): bv8 { cw ^ WHITEBITS }

  function MakeWhite(m: bv8, cw: bv8): bv8 { (m & 0xf8) | (cw & WHITEBITS) }

  function White2Gray(m: bv8): bv8 { m & 0xfc }

  function Gray2Black(m: bv8): bv8 { m | BLACK }

  function Black2Gray(m: bv8): bv8 { m & 0xfb }

  function ChangeWhite(m: bv8): bv8 { m ^ WHITEBITS }

  /** `isdead`. */
  predicate IsDeadBits(m: bv8, cw: bv8) { m & OtherWhite(cw) & WHITEBITS != 0 }

  /** The test of `sweeplist` that spares an object. */
  predicate Spared(m: bv8, cw: bv8) { (m ^ WHITEBITS) & OtherWhite(cw) != 0 }

  /** Flipping the current white keeps the protection of fixed objects. */
  lemma FlipWhite(which: bool)
    ensures OtherWhite(WhiteByte(which)) == WhiteByte(!which)
  {
  }

  /** Recolouring does what it says and touches no bit beyond the colour. */
  lemma Recolour(m: bv8, which: bool)
    requires OneColor(m)
    ensures var w := MakeWhite(m, WhiteByte(which)); OneColor(w) && ColorOf(w) == White(which) && w & 0xf8 == m & 0xf8
    ensures ColorOf(m).White? ==>
              && OneColor(White2Gray(m)) && ColorOf(White2Gray(m)) == Gray && White2Gray(m) & 0xf8 == m & 0xf8
              && OneColor(ChangeWhite(m)) && ColorOf(ChangeWhite(m)) == White(!ColorOf(m).which) && ChangeWhite(m) & 0xf8 == m & 0xf8
    ensures ColorOf(m) == Gray ==>
              OneColor(Gray2Black(m)) && ColorOf(Gray2Black(m)) == Black && Gray2Black(m) & 0xf8 == m & 0xf8
    ensures ColorOf(m) == Black ==>
              OneColor(Black2Gray(m)) && ColorOf(Black2Gray(m)) == Gray && Black2Gray(m) & 0xf8 == m & 0xf8
  {
  }

  /** A sweep spares exactly the objects that are fixed or not white of the other kind. */
  lemma SweepTest(m: bv8, which: bool)
    requires OneColor(m)
    ensures IsDeadBits(m, WhiteByte(which)) <==> ColorOf(m) == White(!which)
    ensures Spared(m, WhiteByte(which)) <==> !(ColorOf(m) == White(!which) && m & FIXED == 0)
  {
  }
}
