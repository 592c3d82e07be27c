/** The slot masks as the source keeps them: 32-bit words, whose operations are
    those of sets of slots. */
module ShmWords {
  import opened ByteLocks
  import opened ShmProtocol

  // ------------------------------------------------------------------- bits

  function Single(i: nat): bv32
    requires i < NLOCK
  {
    (1 as bv32) << i
  }

  predicate Bit(x: bv32, i: nat)
    requires i < NLOCK
  {
    Meets(x, Single(i))
  }

  predicate Meets(x: bv32, y: bv32) {
    x & y != 0
  }

  /** A word with no bit beyond the eight slots. */
  predicate Narrow(x: bv32) {
    x & 0xFF == x
  }

  predicate IsSet(x: bv32, i: nat) {
    i < NLOCK && Bit(x, i)
  }

  /** The slots a word stands for. */
  function Bits(x: bv32): set<nat> {
    set i: nat | i < NLOCK && IsSet(x, i)
  }

  function Mask(offset: nat, count: nat): bv32
    requires offset + count <= NLOCK
  {
    (((1 as bv32) << count) - 1) << offset
  }

  predicate Power(s: bv32) {
    s == 1 || s == 2 || s == 4 || s == 8 || s == 16 || s == 32 || s == 64 || s == 128
  }

  lemma SingleIs(i: nat)
    requires i < NLOCK
    ensures Power(Single(i))
    ensures Single(i) == match i case 0 => 1 case 1 => 2 case 2 => 4 case 3 => 8 case 4 => 16 case 5 => 32 case 6 => 64 case _ => 128
  {
  }

  lemma SingleIsPower(i: nat)
    requires i < NLOCK
    ensures Power(Single(i))
  {
    SingleIs(i);
  }

  lemma MaskBit(offset: nat, count: nat, i: nat)
    requires offset + count <= NLOCK && i < NLOCK
    ensures Bit(Mask(offset, count), i) <==> offset <= i < offset + count
  {
    SingleIs(i);
    match offset
    case 0 =>
    case 1 =>
    case 2 =>
    case _ =>
  }

  lemma MaskIsNarrow(offset: nat, count: nat)
    requires offset + count <= NLOCK
    ensures Narrow(Mask(offset, count))
  {
  }

  lemma MaskIsSlots(offset: nat, count: nat)
    requires offset + count <= NLOCK
    ensures Bits(Mask(offset, count)) == Slots(offset, count)
  {
    hide Bit, Mask;
    forall i: nat | i < NLOCK ensures Bit(Mask(offset, count), i) <==> i in Slots(offset, count) {
      MaskBit(offset, count, i);
    }
  }

  // The operations on words, named so that proofs can keep them closed.
  function Or(a: bv32, b: bv32): bv32 { a | b }
  function And(a: bv32, b: bv32): bv32 { a & b }
  function AndNot(a: bv32, b: bv32): bv32 { a & !b }

  lemma OrRaw(a: bv32, b: bv32, s: bv32)
    requires Power(s)
    ensures Or(a, b) & s != 0 <==> a & s != 0 || b & s != 0
  {
  }

  lemma OrWord(a: bv32, b: bv32, s: bv32)
    requires Power(s)
    ensures Meets(Or(a, b), s) <==> Meets(a, s) || Meets(b, s)
  {
    OrRaw(a, b, s);
    hide Or, Power;
  }

  lemma AndRaw(a: bv32, b: bv32, s: bv32)
    requires Power(s)
    ensures And(a, b) & s != 0 <==> a & s != 0 && b & s != 0
  {
  }

  lemma AndWord(a: bv32, b: bv32, s: bv32)
    requires Power(s)
    ensures Meets(And(a, b), s) <==> Meets(a, s) && Meets(b, s)
  {
    AndRaw(a, b, s);
    hide And, Power;
  }

  lemma AndNotRaw(a: bv32, b: bv32, s: bv32)
    requires Power(s)
    ensures AndNot(a, b) & s != 0 <==> a & s != 0 && !(b & s != 0)
  {
  }

  lemma AndNotWord(a: bv32, b: bv32, s: bv32)
    requires Power(s)
    ensures Meets(AndNot(a, b), s) <==> Meets(a, s) && !Meets(b, s)
  {
    AndNotRaw(a, b, s);
    hide AndNot, Power;
  }

  lemma OrAt(a: bv32, b: bv32, i: nat)
    requires i < NLOCK
    ensures IsSet(Or(a, b), i) <==> IsSet(a, i) || IsSet(b, i)
  {
    SingleIsPower(i);
    hide Single, Or, Power, Meets;
    OrWord(a, b, Single(i));
  }

  lemma AndAt(a: bv32, b: bv32, i: nat)
    requires i < NLOCK
    ensures IsSet(And(a, b), i) <==> IsSet(a, i) && IsSet(b, i)
  {
    SingleIsPower(i);
    hide Single, And, Power, Meets;
    AndWord(a, b, Single(i));
  }

  lemma AndNotAt(a: bv32, b: bv32, i: nat)
    requires i < NLOCK
    ensures IsSet(AndNot(a, b), i) <==> IsSet(a, i) && !IsSet(b, i)
  {
    SingleIsPower(i);
    hide Single, AndNot, Power, Meets;
    AndNotWord(a, b, Single(i));
  }

  /** The words' operations are those of the sets of slots. */
  lemma WordsAreSets(a: bv32, b: bv32)
    ensures Bits(Or(a, b)) == Bits(a) + Bits(b)
    ensures Bits(And(a, b)) == Bits(a) * Bits(b)
    ensures Bits(AndNot(a, b)) == Bits(a) - Bits(b)
  {
    hide IsSet, Or, And, AndNot;
    forall i: nat | i < NLOCK
      ensures IsSet(Or(a, b), i) <==> IsSet(a, i) || IsSet(b, i)
      ensures IsSet(And(a, b), i) <==> IsSet(a, i) && IsSet(b, i)
      ensures IsSet(AndNot(a, b), i) <==> IsSet(a, i) && !IsSet(b, i)
    {
      OrAt(a, b, i);
      AndAt(a, b, i);
      AndNotAt(a, b, i);
    }
  }

  lemma ZeroWord(x: bv32)
    requires Narrow(x)
    ensures x == 0 <==> x & 1 == 0 && x & 2 == 0 && x & 4 == 0 && x & 8 == 0 && x & 16 == 0 && x & 32 == 0 && x & 64 == 0 && x & 128 == 0
  {
  }

  lemma ZeroIsEmpty(x: bv32)
    requires Narrow(x)
    ensures x == 0 <==> Bits(x) == {}
  {
    ZeroWord(x);
    if x == 0 {
    } else {
      var i: nat := if x & 1 != 0 then 0 else if x & 2 != 0 then 1 else if x & 4 != 0 then 2 else if x & 8 != 0 then 3
        else if x & 16 != 0 then 4 else if x & 32 != 0 then 5 else if x & 64 != 0 then 6 else 7;
      SingleIs(i);
      assert IsSet(x, i) && i in Bits(x);
    }
  }

  lemma NarrowWords(a: bv32, b: bv32)
    requires Narrow(a) && Narrow(b)
    ensures Narrow(Or(a, b)) && Narrow(And(a, b)) && Narrow(AndNot(a, b))
  {
  }

  lemma MaskedWord(a: bv32, b: bv32)
    requires Narrow(b)
    ensures And(a, b) == b <==> AndNot(b, a) == 0
  {
  }

  lemma NothingLeft(a: set<nat>, b: set<nat>)
    ensures a - b == {} <==> a <= b
    ensures b * a == {} <==> a !! b
  {
    if a - b == {} {
      forall x | x in a ensures x in b { assert x in a - b <==> x !in b; }
    }
    if b * a == {} {
      forall x | x in a ensures x !in b { assert x in b * a <==> x in b; }
    }
  }

  lemma CoversIsSubset(held: bv32, mask: bv32)
    requires Narrow(held) && Narrow(mask)
    ensures And(held, mask) == mask <==> Bits(mask) <= Bits(held)
  {
    hide Bits, Narrow, Or, And, AndNot;
    MaskedWord(held, mask);
    NarrowWords(mask, held);
    ZeroIsEmpty(AndNot(mask, held));
    WordsAreSets(mask, held);
    NothingLeft(Bits(mask), Bits(held));
  }

  lemma MeetsIsOverlap(held: bv32, mask: bv32)
    requires Narrow(held) && Narrow(mask)
    ensures And(held, mask) == 0 <==> Bits(mask) !! Bits(held)
  {
    hide Bits, Narrow, Or, And, AndNot;
    NarrowWords(held, mask);
    ZeroIsEmpty(And(held, mask));
    WordsAreSets(held, mask);
    NothingLeft(Bits(mask), Bits(held));
  }

  function Word(shared: bv32, exclusive: bv32): Masks {
    Masks(Bits(shared), Bits(exclusive))
  }

  /** The tests on words decide what the tests on sets of slots do. */
  lemma DecidesUnlock(shared: bv32, exclusive: bv32, mask: bv32, offset: nat, count: nat, mode: bool)
    requires Narrow(shared) && Narrow(exclusive) && Narrow(mask) && Bits(mask) == Slots(offset, count)
    ensures Requested(Word(shared, exclusive), offset, count, if mode then UNLOCK_EXCLUSIVE else UNLOCK_SHARED) ==
      if And(Or(shared, exclusive), mask) == 0 then Answer(Ok)
      else if And(if mode then exclusive else shared, mask) != mask then Answer(IoErrShmLock)
      else Release(SlotRange(offset, count))
  {
    hide Bits, Slots, Narrow, Or, And, AndNot;
    NarrowWords(shared, exclusive);
    WordsAreSets(shared, exclusive);
    MeetsIsOverlap(Or(shared, exclusive), mask);
    CoversIsSubset(if mode then exclusive else shared, mask);
  }

  lemma DecidesLock(shared: bv32, exclusive: bv32, mask: bv32, offset: nat, count: nat, mode: bool)
    requires Narrow(shared) && Narrow(exclusive) && Narrow(mask) && Bits(mask) == Slots(offset, count)
    ensures Requested(Word(shared, exclusive), offset, count, if mode then LOCK_EXCLUSIVE else LOCK_SHARED) ==
      if !mode && And(shared, mask) == mask && And(exclusive, mask) == 0 then Answer(Ok)
      else if And(Or(shared, exclusive), mask) != 0 then Answer(IoErrShmLock)
      else Take(Held(SlotRange(offset, count), mode))
  {
    hide Bits, Slots, Narrow, Or, And, AndNot;
    NarrowWords(shared, exclusive);
    WordsAreSets(shared, exclusive);
    MeetsIsOverlap(Or(shared, exclusive), mask);
    MeetsIsOverlap(exclusive, mask);
    CoversIsSubset(shared, mask);
  }

  lemma UpdatesWords(shared: bv32, exclusive: bv32, mask: bv32)
    requires Narrow(shared) && Narrow(exclusive) && Narrow(mask)
    ensures Word(AndNot(shared, mask), AndNot(exclusive, mask)) == Without(Word(shared, exclusive), Bits(mask))
    ensures Word(Or(shared, mask), exclusive) == With(Word(shared, exclusive), false, Bits(mask))
    ensures Word(shared, Or(exclusive, mask)) == With(Word(shared, exclusive), true, Bits(mask))
    ensures Narrow(AndNot(shared, mask)) && Narrow(AndNot(exclusive, mask)) && Narrow(Or(shared, mask)) && Narrow(Or(exclusive, mask))
  {
    hide Bits, Narrow, Or, And, AndNot;
    NarrowWords(shared, mask);
    NarrowWords(exclusive, mask);
    WordsAreSets(shared, mask);
    WordsAreSets(exclusive, mask);
  }

  // ------------------------------------------------------------------ flags

  /** The four legal flag words, by number. */
  function Kind(flags: bv32): int {
    if flags == 5 then UNLOCK_SHARED else if flags == 6 then LOCK_SHARED
    else if flags == 9 then UNLOCK_EXCLUSIVE else if flags == 10 then LOCK_EXCLUSIVE else 0
  }
}
