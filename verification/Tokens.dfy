/** Completion tokens and completion slots as 64-bit words. */
module Tokens {
  import opened Arithmetic

  const TWO_16: nat := 0x1_0000
  const TWO_32: nat := 0x1_0000_0000
  const TWO_48: nat := 0x1_0000_0000_0000

  const SLOT_COUNT: nat := 64
  const PENDING: nat := 0
  const SUCCESS: nat := 1
  const REBOOTED: nat := 0xFFFF
  const INITIAL_GENERATION: nat := 1

  /** The fields of a token: boot generation, allocation generation and slot index. */
  datatype Token = Token(boot: nat, gen: nat, slot: nat)

  predicate Fits(t: Token) {
    t.boot < TWO_16 && 0 < t.gen < TWO_32 && t.slot < TWO_16
  }

  /** The fields a token is made with. */
  function Make(boot: nat, gen: nat, slot: nat): Token {
    Token(boot % TWO_16, if gen % TWO_32 == 0 then INITIAL_GENERATION else gen % TWO_32, slot % TWO_16)
  }

  /** The word that carries a token, as the sum of its fields. */
  function Word(t: Token): nat {
    t.boot * TWO_48 + t.gen * TWO_16 + t.slot
  }

  function BootOf(w: nat): nat { w / TWO_48 % TWO_16 }

  function GenerationOf(w: nat): nat { w / TWO_16 % TWO_32 }

  function SlotOf(w: nat): nat { w % TWO_16 }

  /** The upper 48 bits: everything but the slot index. */
  function TagOf(w: nat): nat { w / TWO_16 % TWO_48 }

  predicate HasValidSlot(w: nat) {
    w != 0 && GenerationOf(w) != 0 && SlotOf(w) < SLOT_COUNT
  }

  /** The word of a completion slot. */
  function SlotWord(tag: nat, result: nat): nat {
    tag % TWO_48 * TWO_16 + result
  }

  function ResultOf(w: nat): nat { w % TWO_16 }

  /** fsa_completion_next_alloc_generation */
  function NextGeneration(gen: nat): nat {
    if gen == 0 || gen == TWO_32 - 1 then INITIAL_GENERATION else gen + 1
  }

  /** Every field of a token is read back from its word. */
  lemma {:induction false} TokenRoundTrip(t: Token)
    requires Fits(t)
    ensures 0 < Word(t) < TWO_64
    ensures Token(BootOf(Word(t)), GenerationOf(Word(t)), SlotOf(Word(t))) == t
    ensures TagOf(Word(t)) == t.boot * TWO_32 + t.gen
  {
    var w := Word(t);
    assert w == (t.boot * TWO_32 + t.gen) * TWO_16 + t.slot;
    assert w / TWO_16 == t.boot * TWO_32 + t.gen;
    assert w / TWO_48 == t.boot;
  }

  /** So a word names one token, and a tag together with a slot index does too. */
  lemma {:induction false} WordsAreTokens(t: Token, u: Token)
    requires Fits(t) && Fits(u)
    ensures Word(t) == Word(u) <==> t == u
    ensures t.slot == u.slot && TagOf(Word(t)) == TagOf(Word(u)) <==> t == u
  {
    TokenRoundTrip(t);
    TokenRoundTrip(u);
  }

  /** A completion slot gives back the tag and the result stored in it, and its tag is a token's tag
      exactly when the token is the one it was written for. */
  lemma {:induction false} SlotRoundTrip(t: Token, u: Token, result: nat)
    requires Fits(t) && Fits(u) && t.slot == u.slot && result < TWO_16
    ensures ResultOf(SlotWord(TagOf(Word(t)), result)) == result
    ensures TagOf(SlotWord(TagOf(Word(t)), result)) == TagOf(Word(t))
    ensures TagOf(SlotWord(TagOf(Word(t)), result)) == TagOf(Word(u)) <==> t == u
  {
    TokenRoundTrip(t);
    var tag := TagOf(Word(t));
    assert tag < TWO_48 && tag % TWO_48 == tag;
    assert SlotWord(tag, result) / TWO_16 == tag;
    WordsAreTokens(t, u);
  }

  /** A 32-bit generation is itself, and zero counts as the first. */
  lemma {:induction false} MakeIs(boot: nat, gen: nat, slot: nat)
    requires gen < TWO_32
    ensures var g := if gen == 0 then INITIAL_GENERATION else gen;
            Make(boot, gen, slot) == Token(boot % TWO_16, g % TWO_32, slot % TWO_16)
  {
  }

  lemma {:induction false} MakeFits(boot: nat, gen: nat, slot: nat)
    requires slot < SLOT_COUNT
    ensures Fits(Make(boot, gen, slot)) && HasValidSlot(Word(Make(boot, gen, slot)))
    ensures Make(boot, gen, slot).slot == slot
  {
    TokenRoundTrip(Make(boot, gen, slot));
  }

  /** Exactly the words with a generation and a slot of the pool are tokens the firmware answers. */
  lemma {:induction false} ValidSlotIs(boot: nat, gen: nat, slot: nat)
    requires boot < TWO_16 && gen < TWO_32 && slot < TWO_16
    ensures HasValidSlot(Word(Token(boot, gen, slot))) <==> gen != 0 && slot < SLOT_COUNT
  {
    var w := Word(Token(boot, gen, slot));
    SplitIs(w, TWO_16, boot * TWO_32 + gen, slot);
    SplitIs(boot * TWO_32 + gen, TWO_32, boot, gen);
  }

  // ---- The cycle of generations -----------------------------------------------------------------

  function Advanced(gen: nat, n: nat): nat {
    if n == 0 then gen else NextGeneration(Advanced(gen, n - 1))
  }

  lemma {:induction false} AdvancedIs(gen: nat, n: nat)
    requires 0 < gen < TWO_32
    ensures Advanced(gen, n) == (gen - 1 + n) % (TWO_32 - 1) + 1
  {
    if n > 0 {
      AdvancedIs(gen, n - 1);
      var (q, r) := ((gen - 2 + n) / (TWO_32 - 1), (gen - 2 + n) % (TWO_32 - 1));
      Split(gen - 2 + n, TWO_32 - 1);
      if r + 1 < TWO_32 - 1 {
        SplitIs(gen - 1 + n, TWO_32 - 1, q, r + 1);
      } else {
        SplitIs(gen - 1 + n, TWO_32 - 1, q + 1, 0);
      }
    }
  }

  lemma {:induction false} AdvancedSum(gen: nat, m: nat, n: nat)
    ensures Advanced(Advanced(gen, m), n) == Advanced(gen, m + n)
  {
    if n > 0 {
      AdvancedSum(gen, m, n - 1);
    }
  }

  /** A generation comes back only after all the others: 2^32 - 1 steps. */
  lemma {:induction false} GenerationsDiffer(gen: nat, n: nat)
    requires 0 < gen < TWO_32
    ensures 0 < Advanced(gen, n) < TWO_32
    ensures Advanced(gen, n) == gen <==> n % (TWO_32 - 1) == 0
  {
    AdvancedIs(gen, n);
    var (q, r) := (n / (TWO_32 - 1), n % (TWO_32 - 1));
    Split(n, TWO_32 - 1);
    if gen - 1 + r < TWO_32 - 1 {
      SplitIs(gen - 1 + n, TWO_32 - 1, q, gen - 1 + r);
    } else {
      SplitIs(gen - 1 + n, TWO_32 - 1, q + 1, gen - 1 + r - (TWO_32 - 1));
    }
  }

  lemma {:induction false} GenerationMoves(gen: nat, n: nat)
    requires 0 < gen < TWO_32 && 0 < n < TWO_32 - 1
    ensures Advanced(gen, n) != gen
  {
    GenerationsDiffer(gen, n);
  }
}
