/** Bitwise `&` and `|` on the 8-bit values MIDI messages are made of. */
module Bits {

  /** One byte of a MIDI message, as delivered in a `Uint8Array`. */
  type byte = b: int | 0 <= b < 256

  /** A MIDI channel number as carried in the low nibble of a status byte. */
  type channel = c: int | 0 <= c < 16

  /** `a & b` on non-negative integers, one bit at a time from the lowest:
      a result bit is set when both operand bits are. */
  function And(a: nat, b: nat): nat
    decreases a
  {
    if a == 0 || b == 0 then 0
    else 2 * And(a / 2, b / 2) + (if a % 2 == 1 && b % 2 == 1 then 1 else 0)
  }

  /** `a | b` on non-negative integers: a result bit is set when either
      operand bit is. */
  function Or(a: nat, b: nat): nat
    decreases a
  {
    if a == 0 then b
    else if b == 0 then a
    else 2 * Or(a / 2, b / 2) + (if a % 2 == 1 || b % 2 == 1 then 1 else 0)
  }

  /** A mask with a clear lowest bit: the lowest bit of the result is clear
      and the rest is the masked rest. */
  lemma AndDouble(a: nat, b: nat)
    ensures And(a, 2 * b) == 2 * And(a / 2, b)
  {
    if a != 0 && b != 0 {
      assert (2 * b) / 2 == b && (2 * b) % 2 == 0;
    }
  }

  /** An operand with a clear lowest bit contributes nothing to it: the
      lowest bit of the result is the other operand's. */
  lemma OrDouble(a: nat, b: nat)
    ensures Or(2 * a, b) == 2 * Or(a, b / 2) + b % 2
  {
    if a != 0 && b != 0 {
      assert (2 * a) / 2 == a && (2 * a) % 2 == 0;
    }
  }

  /** Masking a value below 16 with `0x0F` keeps it whole. */
  lemma AndLowNibble(t: nat)
    requires t < 16
    ensures And(t, 15) == t
  {
    if t != 0 {
      var t1 := t / 2;
      if t1 != 0 {
        var t2 := t1 / 2;
        if t2 != 0 {
          assert And(t2, 3) == t2 by {
            if t2 / 2 != 0 {
              assert And(t2 / 2, 1) == t2 / 2;
            }
          }
        }
        assert And(t1, 7) == t1;
      }
    }
  }

  /** Masking with 0xF0 keeps the high nibble and clears the channel. */
  lemma MaskHighNibble(s: byte)
    ensures And(s, 0xF0) == 16 * (s / 16)
  {
    var s1 := s / 2;
    var s2 := s1 / 2;
    var s3 := s2 / 2;
    var s4 := s3 / 2;
    AndDouble(s, 120);
    AndDouble(s1, 60);
    AndDouble(s2, 30);
    AndDouble(s3, 15);
    AndLowNibble(s4);
    assert s4 == s / 16;
  }

  /** OR-ing a value below 16 into a multiple of 16 is the same as adding
      it: the two occupy different nibbles. */
  lemma OrIntoHighNibble(m: nat, c: nat)
    requires c < 16
    ensures Or(16 * m, c) == 16 * m + c
  {
    var c1 := c / 2;
    var c2 := c1 / 2;
    var c3 := c2 / 2;
    OrDouble(8 * m, c);
    OrDouble(4 * m, c1);
    OrDouble(2 * m, c2);
    OrDouble(m, c3);
    assert c3 / 2 == 0;
    assert c == 8 * c3 + 4 * (c2 % 2) + 2 * (c1 % 2) + c % 2;
  }

  /** OR-ing a channel into one of the status nibbles the model sends
      (note-off, note-on, control-change) is the same as adding it. */
  lemma OrChannel(h: byte, c: channel)
    requires h in {0x80, 0x90, 0xB0}
    ensures Or(h, c) == h + c
  {
    if h == 0x80 {
      OrIntoHighNibble(8, c);
    } else if h == 0x90 {
      OrIntoHighNibble(9, c);
    } else {
      OrIntoHighNibble(11, c);
    }
  }
}
