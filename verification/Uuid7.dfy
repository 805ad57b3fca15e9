/**
 UUID version 7 as assembled bit by bit (section 5.7 of RFC 9562): 48 bits of millisecond time, the
 version, 12 random bits, the variant, 62 random bits.
 */
module Uuid7 {

  const MASK48: bv128 := 0xFFFF_FFFF_FFFF
  const MASK62: bv128 := 0x3FFF_FFFF_FFFF_FFFF

  /** The fields of an id, read back from their places in the layout. */
  function Time(v: bv128): bv128 { v >> 80 }
  function Version(v: bv128): bv128 { (v >> 76) & 0xF }
  function RandA(v: bv128): bv128 { (v >> 64) & 0xFFF }
  function Variant(v: bv128): bv128 { (v >> 62) & 0x3 }
  function RandB(v: bv128): bv128 { v & MASK62 }

  function Layout(unixMs: bv128, randA: bv128, randB: bv128): bv128 {
    ((unixMs & MASK48) << 80) | (0x7 << 76) | ((randA & 0x0FFF) << 64) | (0x2 << 62) | (randB & MASK62)
  }

  lemma FieldsReadBack(unixMs: bv128, randA: bv128, randB: bv128)
    ensures Time(Layout(unixMs, randA, randB)) == unixMs & MASK48
    ensures Version(Layout(unixMs, randA, randB)) == 7
    ensures RandA(Layout(unixMs, randA, randB)) == randA & 0x0FFF
    ensures Variant(Layout(unixMs, randA, randB)) == 2
    ensures RandB(Layout(unixMs, randA, randB)) == randB & MASK62
  {}

  /** `randA` and `randB` are the integers read from the system's random source. Whatever the clock
      and the random bits, every field reads back as what was put in: no two overlap, and nothing is
      shifted out of the 128 bits. */
  method Generate(unixMs: bv128, randA: bv128, randB: bv128) returns (value: bv128)
    ensures Time(value) == unixMs & MASK48
    ensures Version(value) == 7
    ensures RandA(value) == randA & 0x0FFF
    ensures Variant(value) == 2
    ensures RandB(value) == randB & MASK62
  {
    FieldsReadBack(unixMs, randA, randB);
    value := (unixMs & MASK48) << 80;
    value := value | (0x7 << 76);
    value := value | ((randA & 0x0FFF) << 64);
    value := value | (0x2 << 62);
    value := value | (randB & MASK62);
  }

  /** An id is its five fields: two ids with the same fields are the same. */
  lemma FieldsDetermineId(v: bv128, w: bv128)
    requires Time(v) == Time(w) && Version(v) == Version(w) && RandA(v) == RandA(w)
    requires Variant(v) == Variant(w) && RandB(v) == RandB(w)
    ensures v == w
  {}

  /** Of two ids the one with the earlier time is the smaller number, whatever the other bits. */
  lemma EarlierIsSmaller(v: bv128, w: bv128)
    requires Time(v) < Time(w)
    ensures v < w
  {}
}
