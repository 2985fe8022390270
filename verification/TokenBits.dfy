/** The words of completion tokens and slots as the code makes and reads them, with masks, shifts and or. */
module TokenBits {
  import opened Arithmetic
  import opened Bits
  import opened Tokens

  const BOOT_SHIFT: nat := 48
  const GENERATION_SHIFT: nat := 16
  const SLOT_SHIFT: nat := 0

  const BOOT_MASK: nat := 0xFFFF
  const GENERATION_MASK: nat := 0xFFFF_FFFF
  const SLOT_MASK: nat := 0xFFFF
  const TAG_MASK: nat := 0xFFFF_FFFF_FFFF

  const TOKEN_BOOT_MASK: nat := 0xFFFF_0000_0000_0000
  const TOKEN_GENERATION_MASK: nat := 0xFFFF_FFFF_0000
  const TOKEN_SLOT_MASK: nat := 0xFFFF
  const TOKEN_TAG_MASK: nat := 0xFFFF_FFFF_FFFF_0000
  const RESULT_MASK: nat := 0xFFFF

  /** fsa_completion_token_make, of a 64-bit, a 32-bit and a 16-bit number. */
  function TokenMake(boot: nat, gen: nat, slot: nat): nat {
    Packed(boot, if gen == 0 then INITIAL_GENERATION else gen, slot)
  }

  function Packed(boot: nat, gen: nat, slot: nat): nat {
    Or(Or(Shl(And(boot, BOOT_MASK), BOOT_SHIFT), Shl(And(gen, GENERATION_MASK), GENERATION_SHIFT)),
       Shl(And(slot, SLOT_MASK), SLOT_SHIFT))
  }

  function TokenBoot(w: nat): nat { Shr(And(w, TOKEN_BOOT_MASK), BOOT_SHIFT) }

  function TokenGeneration(w: nat): nat { Shr(And(w, TOKEN_GENERATION_MASK), GENERATION_SHIFT) }

  function TokenSlot(w: nat): nat { Shr(And(w, TOKEN_SLOT_MASK), SLOT_SHIFT) }

  function TokenTag(w: nat): nat { Shr(And(w, TOKEN_TAG_MASK), GENERATION_SHIFT) }

  /** fsa_completion_slot_encode */
  function SlotEncode(tag: nat, result: nat): nat {
    Or(Shl(And(tag, TAG_MASK), GENERATION_SHIFT), result)
  }

  function SlotResult(w: nat): nat { And(w, RESULT_MASK) }

  lemma {:induction false} Powers()
    ensures Pow2(0) == 1 && Pow2(16) == TWO_16 && Pow2(32) == TWO_32 && Pow2(48) == TWO_48
  {
    assert Pow2(8) == 256;
    assert Pow2(16) == TWO_16;
    assert Pow2(24) == 0x100_0000;
    assert Pow2(32) == TWO_32;
    assert Pow2(40) == 0x100_0000_0000;
  }

  lemma {:induction false} Masks()
    ensures TOKEN_BOOT_MASK == Shl(Pow2(16) - 1, BOOT_SHIFT)
    ensures TOKEN_GENERATION_MASK == Shl(Pow2(32) - 1, GENERATION_SHIFT)
    ensures TOKEN_TAG_MASK == Shl(Pow2(48) - 1, GENERATION_SHIFT)
  {
    Powers();
  }

  lemma {:induction false} BootIsRead(w: nat)
    ensures TokenBoot(w) == BootOf(w)
  {
    Powers();
    Masks();
    FieldMask(w, BOOT_SHIFT, 16);
  }

  lemma {:induction false} GenerationIsRead(w: nat)
    ensures TokenGeneration(w) == GenerationOf(w)
  {
    Powers();
    Masks();
    FieldMask(w, GENERATION_SHIFT, 32);
  }

  lemma {:induction false} TagIsRead(w: nat)
    ensures TokenTag(w) == TagOf(w)
  {
    Powers();
    Masks();
    FieldMask(w, GENERATION_SHIFT, 48);
  }

  lemma {:induction false} LowIsRead(w: nat)
    ensures TokenSlot(w) == SlotOf(w) && SlotResult(w) == ResultOf(w)
  {
    Powers();
    LowMask(w, 16);
  }

  /** Masks and shifts read the fields of a word. */
  lemma {:induction false} FieldsAreRead(w: nat)
    ensures TokenBoot(w) == BootOf(w)
    ensures TokenGeneration(w) == GenerationOf(w)
    ensures TokenSlot(w) == SlotOf(w) && SlotResult(w) == ResultOf(w)
    ensures TokenTag(w) == TagOf(w)
  {
    BootIsRead(w);
    GenerationIsRead(w);
    LowIsRead(w);
    TagIsRead(w);
  }

  lemma {:induction false} PackedIs(boot: nat, gen: nat, slot: nat)
    ensures Packed(boot, gen, slot) == Word(Token(boot % TWO_16, gen % TWO_32, slot % TWO_16))
  {
    Powers();
    PackThree(boot, gen, slot, 16, 32, 16);
  }

  /** The or of the shifted fields is the word of the token they make. */
  lemma {:induction false} WordIsMade(boot: nat, gen: nat, slot: nat)
    requires gen < TWO_32 && slot < TWO_16
    ensures TokenMake(boot, gen, slot) == Word(Make(boot, gen, slot))
  {
    MakeIs(boot, gen, slot);
    PackedIs(boot, if gen == 0 then INITIAL_GENERATION else gen, slot);
  }

  lemma {:induction false} SlotIsEncoded(tag: nat, result: nat)
    requires result < TWO_16
    ensures SlotEncode(tag, result) == SlotWord(tag, result)
  {
    Powers();
    LowMask(tag, 48);
    OrIsSum(tag % TWO_48, result, GENERATION_SHIFT);
  }

  /** A token made from any boot generation reads back as its fields, generation zero counting as the
      first. */
  lemma {:induction false} MadeIsReadBack(boot: nat, gen: nat, slot: nat, w: nat)
    requires gen < TWO_32 && slot < TWO_16 && w == TokenMake(boot, gen, slot)
    ensures 0 < w < TWO_64
    ensures Token(TokenBoot(w), TokenGeneration(w), TokenSlot(w)) == Make(boot, gen, slot)
  {
    var t := Make(boot, gen, slot);
    assert w == Word(t) by {
      WordIsMade(boot, gen, slot);
    }
    FieldsAreRead(w);
    TokenRoundTrip(t);
  }
}
