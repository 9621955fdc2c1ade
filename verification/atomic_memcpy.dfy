/** The copy inside the sequence lock: atomic accesses of whole words, then of single bytes. */
module AtomicMemcpy {
  import opened RingIndex
  import opened SeqLockMachine

  /** One atomic access: the bytes from..to, all at once. */
  datatype Access = Access(from: nat, to: nat)

  /** The accesses are those of the units of the given width from unit `from` on. */
  predicate Unitwise(accesses: seq<Access>, width: nat, from: nat) {
    forall i :: 0 <= i < |accesses| ==> accesses[i] == Access((from + i) * width, (from + i) * width + width)
  }

  /** One loop of the copy: the units from..to of the given width, in order, each by one access. */
  method CopyUnits(dest: array<Byte>, src: array<Byte>, width: nat, from: nat, to: nat) returns (ghost accesses: seq<Access>)
    requires dest != src && 0 < width && from <= to && to * width <= dest.Length && to * width <= src.Length
    modifies dest
    ensures forall k :: 0 <= k < dest.Length ==> dest[k] == if from * width <= k < to * width then src[k] else old(dest[k])
    ensures |accesses| == to - from && Unitwise(accesses, width, from)
  {
    accesses := [];
    for i := from to to
      invariant forall k :: 0 <= k < dest.Length ==> dest[k] == if from * width <= k < i * width then src[k] else old(dest[k])
      invariant |accesses| == i - from && Unitwise(accesses, width, from)
    {
      MulStep(i, to, width);
      if from < i { MulStep(from, i, width); }
      forall k | i * width <= k < i * width + width { dest[k] := src[k]; }
      accesses := accesses + [Access(i * width, i * width + width)];
      assert (i + 1) * width == i * width + width;
    }
  }

  /**
   * `atomic_memcpy_load` and `atomic_memcpy_store`: all count bytes arrive,
   * nothing else changes, and the accesses are the machine's chunks.
   */
  method Memcpy(dest: array<Byte>, src: array<Byte>, count: nat) returns (ghost accesses: seq<Access>)
    requires dest != src && count <= dest.Length && count <= src.Length
    modifies dest
    ensures dest[..] == src[..count] + old(dest[count..])
    ensures accesses == Chunks(0, count)
  {
    var words := count / WORD;
    ghost var wordwise := CopyUnits(dest, src, WORD, 0, words);
    ghost var bytewise := CopyUnits(dest, src, 1, words * WORD, count);
    accesses := wordwise + bytewise;
    AccessesAreChunks(count, wordwise, bytewise, 0);
    assert wordwise[0..] == wordwise;
  }

  /** The accesses by which the machine copies the bytes from position pos on. */
  function Chunks(pos: nat, count: nat): seq<Access>
    decreases count - pos
  {
    if pos >= count then [] else [Access(pos, ChunkEnd(pos, count))] + Chunks(ChunkEnd(pos, count), count)
  }

  lemma {:induction false} AccessesAreChunks(count: nat, wordwise: seq<Access>, bytewise: seq<Access>, i: nat)
    requires i <= |wordwise| == count / WORD && |bytewise| == count - count / WORD * WORD
    requires Unitwise(wordwise, WORD, 0) && Unitwise(bytewise, 1, count / WORD * WORD)
    ensures wordwise[i..] + bytewise == Chunks(i * WORD, count)
    decreases |wordwise| - i
  {
    if i < |wordwise| {
      ChunksAreAccesses(count, i);
      AccessesAreChunks(count, wordwise, bytewise, i + 1);
      assert wordwise[i..] + bytewise == [wordwise[i]] + (wordwise[i + 1..] + bytewise);
    } else {
      BytesAreChunks(count, bytewise, 0);
      assert wordwise[i..] + bytewise == bytewise[0..];
    }
  }

  lemma {:induction false} BytesAreChunks(count: nat, bytewise: seq<Access>, i: nat)
    requires i <= |bytewise| == count - count / WORD * WORD
    requires Unitwise(bytewise, 1, count / WORD * WORD)
    ensures bytewise[i..] == Chunks(count / WORD * WORD + i, count)
    decreases |bytewise| - i
  {
    if i < |bytewise| {
      ChunksAreAccesses(count, count / WORD * WORD + i);
      BytesAreChunks(count, bytewise, i + 1);
      assert bytewise[i..] == [bytewise[i]] + bytewise[i + 1..];
    }
  }

  /** The steps in which the machine copies are exactly the accesses of the two loops. */
  lemma ChunksAreAccesses(count: nat, i: nat)
    ensures i < count / WORD ==> ChunkEnd(i * WORD, count) == (i + 1) * WORD
    ensures count / WORD * WORD <= i < count ==> ChunkEnd(i, count) == i + 1
  {
    Split(count, WORD);
    if i < count / WORD { MulStep(i, count / WORD, WORD); }
  }

  /** The copy from a word boundary takes one access for every remaining word and every remaining byte. */
  lemma {:induction false} CopyLength(i: nat, count: nat)
    requires i <= count / WORD
    ensures i * WORD <= count && |Chunks(i * WORD, count)| == count / WORD - i + count % WORD
    decreases count - i
  {
    Split(count, WORD);
    if i < count / WORD {
      MulStep(i, count / WORD, WORD);
      ChunksAreAccesses(count, i);
      CopyLength(i + 1, count);
    } else {
      BytesLeft(i * WORD, count);
    }
  }

  lemma {:induction false} BytesLeft(pos: nat, count: nat)
    requires pos <= count < pos + WORD
    ensures |Chunks(pos, count)| == count - pos
    decreases count - pos
  {
    if pos < count { BytesLeft(pos + 1, count); }
  }
}
