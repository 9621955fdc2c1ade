/**
 * The 64-bit word of an AtomicSharedPtr: a control-block address in the upper
 * 48 bits and the local access count in the lower 16. The word is kept as the
 * raw number the hardware sees; fetch_add and the CAS operands wrap at 2^64.
 */
module PackedWord {
  const MAGIC := 0x1_0000            // 1 << kMagicLen
  const ADDRESSES := 0x1_0000_0000_0000 // 2^48
  const WORDS := 0x1_0000_0000_0000_0000 // 2^64

  function Ptr(w: nat): nat { w / MAGIC }

  function Cnt(w: nat): nat { w % MAGIC }

  /** `address << kMagicLen`, truncated to the width of the word. */
  function Pack(address: nat): nat { (address * MAGIC) % WORDS }

  function Inc(w: nat): nat { (w + 1) % WORDS }

  function Dec(w: nat): nat { (w + WORDS - 1) % WORDS }

  /** `w & ~kMagicMask`. */
  function ClearCount(w: nat): nat { w - w % MAGIC }

  lemma PackFields(address: nat)
    requires address < ADDRESSES
    ensures Ptr(Pack(address)) == address && Cnt(Pack(address)) == 0
  {
    assert address * MAGIC < WORDS;
  }

  /** Away from the ends of the 16-bit field, counting does not disturb the address. */
  lemma IncFields(w: nat)
    requires w < WORDS && Cnt(w) < MAGIC - 1
    ensures Ptr(Inc(w)) == Ptr(w) && Cnt(Inc(w)) == Cnt(w) + 1 && Inc(w) < WORDS
  {
    assert w + 1 < WORDS;
  }

  /** Exactly a full count carries into the address. */
  lemma IncCarries(w: nat)
    requires w < WORDS
    ensures Ptr(Inc(w)) == Ptr(w) <==> Cnt(w) != MAGIC - 1
  {
    if w == WORDS - 1 {
      assert Inc(w) == 0;
    } else {
      assert Inc(w) == w + 1;
    }
  }

  lemma DecFields(w: nat)
    requires w < WORDS && Cnt(w) > 0
    ensures Ptr(Dec(w)) == Ptr(w) && Cnt(Dec(w)) == Cnt(w) - 1 && Dec(w) < WORDS
  {
    assert w + WORDS - 1 == (w - 1) + WORDS;
    assert Dec(w) == w - 1;
  }

  /** A word is determined by its two fields. */
  lemma SameFields(v: nat, w: nat)
    requires Ptr(v) == Ptr(w) && Cnt(v) == Cnt(w)
    ensures v == w
  {
    assert v == MAGIC * Ptr(v) + Cnt(v);
    assert w == MAGIC * Ptr(w) + Cnt(w);
  }

  lemma ClearFields(w: nat)
    requires w < WORDS
    ensures Ptr(ClearCount(w)) == Ptr(w) && Cnt(ClearCount(w)) == 0 && ClearCount(w) < WORDS
  {
  }
}
