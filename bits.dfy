/**
 * A Java `int` as the 32 bits it consists of.
 *
 * A word is a sequence of 32 booleans, least significant bit first, and the
 * Java operators the settings screen uses on `int` values are defined on it
 * bit by bit: `&`, `|`, `~`, `<<`, `>>>` and the wrapping `+` (a ripple-carry
 * adder whose carry out of bit 31 is dropped). Values and masks are
 * therefore Java's two's-complement bit patterns, whatever their sign.
 */
module Bits {

  /** Number of bits of a Java `int`. */
  const Width: nat := 32

  /** A Java `int`: bit `i` (0 = least significant) is `w[i]`. */
  type Word = w: seq<bool> | |w| == Width witness seq(32, i => false)

  /** The word `0`. */
  function Zero(): Word
  {
    seq(Width, i => false)
  }

  /** `a & b`. */
  function And(a: Word, b: Word): Word
  {
    seq(Width, i requires 0 <= i < Width => a[i] && b[i])
  }

  /** `a | b`. */
  function Or(a: Word, b: Word): Word
  {
    seq(Width, i requires 0 <= i < Width => a[i] || b[i])
  }

  /** `~a`. */
  function Not(a: Word): Word
  {
    seq(Width, i requires 0 <= i < Width => !a[i])
  }

  /** `a << n`: Java uses only the low five bits of the shift count. */
  function ShiftLeft(a: Word, n: nat): Word
  {
    seq(Width, i requires 0 <= i < Width => n % Width <= i && a[i - n % Width])
  }

  /** `a >>> n`: zeros come in at the top. */
  function ShiftRightUnsigned(a: Word, n: nat): Word
  {
    seq(Width, i requires 0 <= i < Width => i + n % Width < Width && a[i + n % Width])
  }

  /** The carry into bit `i` of `a + b`. */
  function Carry(a: Word, b: Word, i: nat): bool
    requires i <= Width
  {
    if i == 0 then false
    else
      var c := Carry(a, b, i - 1);
      (a[i - 1] && b[i - 1]) || (a[i - 1] && c) || (b[i - 1] && c)
  }

  /** `a + b`, wrapping: the carry out of bit 31 is dropped. */
  function Add(a: Word, b: Word): Word
  {
    seq(Width, i requires 0 <= i < Width => (a[i] != b[i]) != Carry(a, b, i))
  }

  /** The two words have no bit in common. */
  predicate Disjoint(a: Word, b: Word) {
    forall i :: 0 <= i < Width ==> !(a[i] && b[i])
  }

  /** "No bit in common" is Java's `(a & b) == 0`. */
  lemma DisjointIffAndZero(a: Word, b: Word)
    ensures Disjoint(a, b) <==> And(a, b) == Zero()
  {
    if !Disjoint(a, b) {
      var i :| 0 <= i < Width && a[i] && b[i];
      assert And(a, b)[i] != Zero()[i];
    }
  }

  /** Adding two words with no bit in common never produces a carry. */
  lemma {:induction false} NoCarry(a: Word, b: Word, i: nat)
    requires Disjoint(a, b) && i <= Width
    ensures !Carry(a, b, i)
  {
    if i > 0 {
      NoCarry(a, b, i - 1);
    }
  }

  /** Hence on such words the wrapping `+` is `|`. */
  lemma DisjointAddIsOr(a: Word, b: Word)
    requires Disjoint(a, b)
    ensures Add(a, b) == Or(a, b)
  {
    forall i | 0 <= i < Width
      ensures Add(a, b)[i] == Or(a, b)[i]
    {
      NoCarry(a, b, i);
    }
  }

  // -----------------------------------------------------------------------
  // The number a word stands for
  // -----------------------------------------------------------------------

  function Pow2(n: nat): nat {
    if n == 0 then 1 else 2 * Pow2(n - 1)
  }

  /** Pow2 of a double exponent is the square. */
  lemma {:induction false} Pow2Double(n: nat)
    ensures Pow2(2 * n) == Pow2(n) * Pow2(n)
  {
    if n > 0 {
      Pow2Double(n - 1);
      assert Pow2(2 * n) == 4 * Pow2(2 * (n - 1));
    }
  }

  /** 2^32 = 0x1_0000_0000. */
  lemma Pow2Width()
    ensures Pow2(Width) == 0x1_0000_0000
  {
    assert Pow2(4) == 16;
    Pow2Double(4);
    Pow2Double(8);
    Pow2Double(16);
  }

  /** The number formed by bits 0 .. n-1 of `w`. */
  function ValueBelow(w: Word, n: nat): nat
    requires n <= Width
  {
    if n == 0 then 0 else ValueBelow(w, n - 1) + (if w[n - 1] then Pow2(n - 1) else 0)
  }

  /** The word read as an unsigned number in 0 .. 2^32 - 1; a Java `int` is
      this number minus 2^32 when bit 31 is set. */
  function ToNat(w: Word): nat {
    ValueBelow(w, Width)
  }

  lemma {:induction false} ValueBelowBound(w: Word, n: nat)
    requires n <= Width
    ensures ValueBelow(w, n) < Pow2(n)
  {
    if n > 0 {
      ValueBelowBound(w, n - 1);
    }
  }

  /** Bits 0 .. n-1 of `a + b`, together with the carry into bit n, add up
      to bits 0 .. n-1 of `a` plus those of `b`. */
  lemma {:induction false} AddBelow(a: Word, b: Word, n: nat)
    requires n <= Width
    ensures ValueBelow(Add(a, b), n) + (if Carry(a, b, n) then Pow2(n) else 0)
         == ValueBelow(a, n) + ValueBelow(b, n)
  {
    if n > 0 {
      AddBelow(a, b, n - 1);
      assert Add(a, b)[n - 1] == ((a[n - 1] != b[n - 1]) != Carry(a, b, n - 1));
    }
  }

  /** `Add` is Java's wrapping `+`: the sum taken modulo 2^32. */
  lemma AddIsSumModulo(a: Word, b: Word)
    ensures ToNat(Add(a, b)) == (ToNat(a) + ToNat(b)) % 0x1_0000_0000
  {
    AddBelow(a, b, Width);
    ValueBelowBound(Add(a, b), Width);
    Pow2Width();
  }
}
