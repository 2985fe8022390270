/** The host's record of which completion tokens are in use, and of the stale ones a reset left behind. */
module HostTokens {
  import opened Options
  import opened Tokens

  datatype Meta = Meta(inUse: bool, token: Token)

  const UNUSED := Meta(false, Token(0, 0, 0))

  // ---- Operations on values -------------------------------------------------------------------

  /** allocate_completion_slot from slot `i` on. A candidate that equals a stale token is not handed
      out; its slot is passed over and the generation moves on. */
  function Allocate(slots: seq<Meta>, stale: seq<Token>, boot: nat, gen: nat, i: nat): (seq<Meta>, nat, Option<nat>)
    requires i <= |slots|
    decreases |slots| - i
  {
    if i == |slots| then (slots, gen, None)
    else if slots[i].inUse then Allocate(slots, stale, boot, gen, i + 1)
    else if Make(boot, gen, i) in stale then Allocate(slots[i := UNUSED], stale, boot, NextGeneration(gen), i + 1)
    else (slots[i := Meta(true, Make(boot, gen, i))], NextGeneration(gen), Some(i))
  }

  /** find_completion_slot */
  predicate Holds(slots: seq<Meta>, t: Token) {
    t.slot < |slots| && slots[t.slot].inUse && slots[t.slot].token == t
  }

  /** The slots after the one `t` holds, if it holds one, is freed. */
  function Freed(slots: seq<Meta>, t: Token): seq<Meta> {
    if Holds(slots, t) then slots[t.slot := UNUSED] else slots
  }

  /** `stale` without the first occurrence of `t`. */
  function Erased(stale: seq<Token>, t: Token): seq<Token> {
    if stale == [] then [] else if stale[0] == t then stale[1..] else [stale[0]] + Erased(stale[1..], t)
  }

  /** The tokens in use, in slot order. */
  function InUse(slots: seq<Meta>): seq<Token> {
    if slots == [] then []
    else InUse(slots[..|slots| - 1]) + (if slots[|slots| - 1].inUse then [slots[|slots| - 1].token] else [])
  }

  function AllUnused(n: nat): seq<Meta> {
    seq(n, i => UNUSED)
  }

  // ---- Ownership --------------------------------------------------------------------------------

  predicate MetaOk(slots: seq<Meta>, i: nat)
    requires i < |slots|
  {
    if slots[i].inUse then Fits(slots[i].token) && slots[i].token.slot == i else slots[i] == UNUSED
  }

  /** Tokens in use and stale tokens are all different and none of them is zero. */
  ghost predicate TokensOk(slots: seq<Meta>, stale: seq<Token>) {
    && |slots| <= SLOT_COUNT
    && (forall i: nat | i < |slots| :: MetaOk(slots, i))
    && (forall i | 0 <= i < |stale| :: Fits(stale[i]) && !Holds(slots, stale[i]))
    && (forall i, j | 0 <= i < j < |stale| :: stale[i] != stale[j])
  }

  lemma {:induction false} AllocateOk(slots: seq<Meta>, stale: seq<Token>, boot: nat, gen: nat, i: nat)
    requires TokensOk(slots, stale) && i <= |slots|
    ensures var (slots', gen', k) := Allocate(slots, stale, boot, gen, i);
            && TokensOk(slots', stale)
            && (k.None? ==> slots' == slots)
            && (k.Some? ==>
                  && i <= k.value < |slots| == |slots'| && !slots[k.value].inUse
                  && slots'[k.value].inUse && slots' == slots[k.value := slots'[k.value]]
                  && slots'[k.value].token.boot == boot % TWO_16
                  && slots'[k.value].token !in stale && !Holds(slots, slots'[k.value].token))
    decreases |slots| - i
  {
    if i < |slots| {
      assert MetaOk(slots, i);
      if slots[i].inUse {
        AllocateOk(slots, stale, boot, gen, i + 1);
      } else if Make(boot, gen, i) in stale {
        assert slots[i := UNUSED] == slots;
        AllocateOk(slots, stale, boot, NextGeneration(gen), i + 1);
      } else {
        MakeFits(boot, gen, i);
        var slots' := slots[i := Meta(true, Make(boot, gen, i))];
        forall j: nat | j < |slots'| ensures MetaOk(slots', j) {
          assert MetaOk(slots, j);
        }
      }
    }
  }

  /** A free slot is always found unless stale tokens of the same boot generation stand in the way. */
  lemma {:induction false} AllocateFinds(slots: seq<Meta>, stale: seq<Token>, boot: nat, gen: nat, i: nat)
    requires i <= |slots| && forall j | 0 <= j < |stale| :: stale[j].boot != boot % TWO_16
    ensures Allocate(slots, stale, boot, gen, i).2.Some? <==> exists k :: i <= k < |slots| && !slots[k].inUse
    decreases |slots| - i
  {
    if i < |slots| {
      assert Make(boot, gen, i).boot == boot % TWO_16;
      assert Make(boot, gen, i) !in stale;
      if slots[i].inUse {
        AllocateFinds(slots, stale, boot, gen, i + 1);
      }
    }
  }

  /** Releasing a token frees the slot that token holds and no other. */
  lemma {:induction false} FreedOk(slots: seq<Meta>, stale: seq<Token>, t: Token, u: Token)
    requires TokensOk(slots, stale)
    ensures TokensOk(Freed(slots, t), stale)
    ensures Holds(Freed(slots, t), u) <==> Holds(slots, u) && u != t
  {
    var slots' := Freed(slots, t);
    forall i: nat | i < |slots'| ensures MetaOk(slots', i) {
      assert MetaOk(slots, i);
    }
    if t.slot < |slots| {
      assert MetaOk(slots, t.slot);
    }
  }

  lemma {:induction false} ErasedAt(stale: seq<Token>, t: Token, k: nat)
    requires k < |stale| && stale[k] == t && forall j | 0 <= j < k :: stale[j] != t
    ensures Erased(stale, t) == stale[..k] + stale[k + 1..]
  {
    if k > 0 {
      ErasedAt(stale[1..], t, k - 1);
      assert stale[1..][..k - 1] == stale[1..k] && stale[1..][k..] == stale[k + 1..];
    }
  }

  lemma {:induction false} ErasedOk(slots: seq<Meta>, stale: seq<Token>, t: Token)
    requires TokensOk(slots, stale) && t in stale
    ensures TokensOk(slots, Erased(stale, t))
    ensures forall u :: u in Erased(stale, t) <==> u in stale && u != t
  {
    var k :| 0 <= k < |stale| && stale[k] == t;
    ErasedAt(stale, t, k);
    WithoutOne(slots, stale, k);
    forall u ensures u in Erased(stale, t) <==> u in stale && u != t {
      OneLess(stale, k, u);
    }
  }

  lemma {:induction false} WithoutOne(slots: seq<Meta>, stale: seq<Token>, k: nat)
    requires TokensOk(slots, stale) && k < |stale|
    ensures TokensOk(slots, stale[..k] + stale[k + 1..])
  {
    var stale' := stale[..k] + stale[k + 1..];
    forall j | 0 <= j < |stale'| ensures stale'[j] == stale[if j < k then j else j + 1] {
    }
  }

  lemma {:induction false} OneLess(stale: seq<Token>, k: nat, u: Token)
    requires k < |stale| && forall i, j | 0 <= i < j < |stale| :: stale[i] != stale[j]
    ensures u in stale[..k] + stale[k + 1..] <==> u in stale && u != stale[k]
  {
    assert stale == stale[..k] + [stale[k]] + stale[k + 1..];
    if u == stale[k] {
      assert forall j | 0 <= j < k :: stale[j] != u;
      assert forall j | k < j < |stale| :: stale[j] != u;
    }
  }

  lemma {:induction false} InUseIs(slots: seq<Meta>, t: Token)
    requires forall i: nat | i < |slots| :: MetaOk(slots, i)
    ensures t in InUse(slots) <==> Holds(slots, t)
    ensures forall i, j | 0 <= i < j < |InUse(slots)| :: InUse(slots)[i].slot < InUse(slots)[j].slot
    ensures forall i | 0 <= i < |InUse(slots)| :: Fits(InUse(slots)[i]) && InUse(slots)[i].slot < |slots|
  {
    if slots != [] {
      var n := |slots| - 1;
      var rest := slots[..n];
      forall i: nat | i < |rest| ensures MetaOk(rest, i) {
        assert MetaOk(slots, i);
      }
      InUseIs(rest, t);
      assert MetaOk(slots, n);
    }
  }

  /** A reset makes every token in use stale. */
  lemma {:induction false} ResetOk(slots: seq<Meta>, stale: seq<Token>)
    requires TokensOk(slots, stale)
    ensures TokensOk(AllUnused(|slots|), stale + InUse(slots))
    ensures forall t :: t in stale + InUse(slots) <==> t in stale || Holds(slots, t)
  {
    var used, all := InUse(slots), stale + InUse(slots);
    forall t ensures t in all <==> t in stale || Holds(slots, t) {
      InUseIs(slots, t);
    }
    InUseIs(slots, Token(0, 0, 0));
    var slots' := AllUnused(|slots|);
    forall i: nat | i < |slots'| ensures MetaOk(slots', i) {
    }
    forall i, j | 0 <= i < j < |all| ensures all[i] != all[j] {
      if i < |stale| <= j {
        assert used[j - |stale|] in used;
        InUseIs(slots, all[j]);
      }
    }
  }

  // ---- The host's state ---------------------------------------------------------------------------

  class HostSlots {
    var slots: seq<Meta>
    var stale: seq<Token>
    var boot: nat
    var gen: nat

    ghost predicate Valid()
      reads this
    {
      TokensOk(slots, stale)
    }

    constructor (n: nat)
      requires n <= SLOT_COUNT
      ensures Valid() && slots == AllUnused(n) && stale == [] && gen == INITIAL_GENERATION
    {
      slots, stale, boot, gen := AllUnused(n), [], 0, INITIAL_GENERATION;
      new;
      forall i: nat | i < |slots| ensures MetaOk(slots, i) {
      }
    }

    /** Takes the first free slot whose token is not stale. */
    method AllocateCompletionSlot() returns (k: Option<nat>)
      requires Valid()
      modifies this`slots, this`gen
      ensures Valid() && (slots, gen, k) == Allocate(old(slots), stale, boot, old(gen), 0)
    {
      AllocateOk(slots, stale, boot, gen, 0);
      for i := 0 to |slots|
        invariant |slots| == old(|slots|)
        invariant Allocate(slots, stale, boot, gen, i) == Allocate(old(slots), stale, boot, old(gen), 0)
      {
        if !slots[i].inUse {
          var token := Make(boot, gen, i);
          if token in stale {
            slots := slots[i := UNUSED];
            gen := NextGeneration(gen);
          } else {
            slots := slots[i := Meta(true, token)];
            gen := NextGeneration(gen);
            return Some(i);
          }
        }
      }
      return None;
    }

    /** Forgets a stale token, once. */
    method ReleaseStale(t: Token) returns (found: bool)
      requires Valid()
      modifies this`stale
      ensures Valid() && found == (t in old(stale)) && stale == if found then Erased(old(stale), t) else old(stale)
    {
      for k := 0 to |stale|
        invariant stale == old(stale) && forall j | 0 <= j < k :: stale[j] != t
      {
        if stale[k] == t {
          ErasedAt(stale, t, k);
          ErasedOk(slots, stale, t);
          stale := stale[..k] + stale[k + 1..];
          return true;
        }
      }
      return false;
    }

    /** Frees the slot `t` holds, if it still does. */
    method ReleaseSlot(t: Token) returns (found: bool)
      requires Valid()
      modifies this`slots
      ensures Valid() && found == Holds(old(slots), t) && slots == Freed(old(slots), t)
    {
      FreedOk(slots, stale, t, t);
      found := t.slot < |slots| && slots[t.slot].inUse && slots[t.slot].token == t;
      if found {
        slots := slots[t.slot := UNUSED];
      }
    }

    /** After the firmware came back with boot generation `boot`: every token in use becomes stale. */
    method Reset(boot: nat)
      requires Valid()
      modifies this
      ensures Valid() && this.boot == boot && gen == INITIAL_GENERATION
      ensures slots == AllUnused(|old(slots)|) && stale == old(stale) + InUse(old(slots))
    {
      ResetOk(slots, stale);
      for i := 0 to |slots|
        invariant slots == old(slots) && stale == old(stale) + InUse(slots[..i])
      {
        assert slots[..i + 1][..i] == slots[..i];
        if slots[i].inUse {
          stale := stale + [slots[i].token];
        }
      }
      assert slots[..|slots|] == slots;
      slots := AllUnused(|slots|);
      this.boot, gen := boot, INITIAL_GENERATION;
    }
  }
}
