/** The re-entrant destructor of SharedPtr over a heap updated in place. */
module CascadeObject {
  import opened Options
  import opened Cascade
  import opened CascadeConfluence
  import opened CascadeBalance

  class SharedPtrHeap {
    const heap: array<Block>
    var destructionQueue: seq<Ptr>
    var destructionInProgress: bool
    var freed: seq<nat> // history: the deleted blocks

    constructor (blocks: seq<Block>)
      ensures fresh(heap) && heap[..] == blocks
      ensures destructionQueue == [] && !destructionInProgress && freed == []
    {
      heap := new Block[|blocks|](i requires 0 <= i < |blocks| => blocks[i]);
      destructionQueue, destructionInProgress, freed := [], false, [];
    }

    /**
     * `~SharedPtr`. Called while the queue is being drained, by the destructor
     * of some block's data, it only queues its pointer: draining never nests.
     * Otherwise it drains, and does what the recursive destructor would.
     */
    method Destruct(p: Ptr)
      requires !destructionInProgress ==> destructionQueue == [] && Release(heap[..], p).Some?
      modifies this, heap
      ensures destructionInProgress == old(destructionInProgress)
      ensures old(destructionInProgress) ==>
        destructionQueue == old(destructionQueue) + [p] && heap[..] == old(heap[..]) && freed == old(freed)
      ensures !old(destructionInProgress) ==>
        && destructionQueue == [] && Some(heap[..]) == Release(old(heap[..]), p)
        && freed == old(freed) + Frees(old(heap[..]), [p])
      decreases if destructionInProgress then 0 else 3
    {
      destructionQueue := destructionQueue + [p];
      if !destructionInProgress {
        WorklistIsRecursion(heap[..], p);
        destructionInProgress := true;
        assert destructionQueue == [p];
        DrainQueue();
        destructionInProgress := false;
      }
    }

    /** The loop of `~SharedPtr`. */
    method DrainQueue()
      requires destructionInProgress && Drain(heap[..], destructionQueue).Some?
      modifies this, heap
      ensures destructionInProgress && destructionQueue == []
      ensures Some(heap[..]) == Drain(old(heap[..]), old(destructionQueue))
      ensures freed == old(freed) + Frees(old(heap[..]), old(destructionQueue))
      decreases 2
    {
      ghost var h, q := heap[..], destructionQueue;
      while destructionQueue != []
        invariant destructionInProgress
        invariant Drain(heap[..], destructionQueue) == Drain(h, q) && Drain(h, q).Some?
        invariant freed + Frees(heap[..], destructionQueue) == old(freed) + Frees(h, q)
        decreases Weight(heap[..]) + |destructionQueue|
      {
        var last := |destructionQueue| - 1;
        var blockToUnref := destructionQueue[last];
        DrainRound(heap[..], destructionQueue);
        destructionQueue := destructionQueue[..last];
        UnrefQueued(blockToUnref);
      }
    }

    /** `unref` from the drain loop: `delete blockToUnref->data` runs the destructors of the data's pointers. */
    method UnrefQueued(p: Ptr)
      requires destructionInProgress && Unref(heap[..], p).Some?
      modifies this, heap
      ensures destructionInProgress
      ensures heap[..] == Unref(old(heap[..]), p).value.0
      ensures destructionQueue == old(destructionQueue) + Unref(old(heap[..]), p).value.1
      ensures freed == old(freed) + (if p.Some? && old(heap[..])[p.value].count == 1 then [p.value] else [])
      decreases 1
    {
      if p.Some? {
        ghost var h := heap[..];
        var a := p.value;
        var before := heap[a].count;
        var fields := heap[a].fields;
        heap[a] := heap[a].(count := before - 1);
        if before == 1 {
          for i := 0 to |fields|
            invariant destructionInProgress && freed == old(freed)
            invariant heap[..] == h[a := h[a].(count := 0)]
            invariant destructionQueue == old(destructionQueue) + fields[..i]
          {
            Destruct(fields[i]);
          }
          heap[a] := Freed;
          freed := freed + [a];
        }
      }
    }

    /** `unref` from an assignment: each field's destructor drains on its own, while the block itself is still there. */
    method UnrefAssigned(p: Ptr)
      requires !destructionInProgress && destructionQueue == [] && Release(heap[..], p).Some?
      modifies this, heap
      ensures !destructionInProgress && destructionQueue == []
      ensures Some(heap[..]) == Release(old(heap[..]), p) == Drain(old(heap[..]), [p])
      decreases 4
    {
      WorklistIsRecursion(heap[..], p);
      if p.Some? {
        ghost var h := heap[..];
        var a := p.value;
        var before := heap[a].count;
        var fields := heap[a].fields;
        heap[a] := heap[a].(count := before - 1);
        assert heap[..] == h[a := h[a].(count := before - 1)];
        if before == 1 {
          ghost var h0 := heap[..];
          for i := 0 to |fields|
            invariant !destructionInProgress && destructionQueue == []
            invariant ReleaseAll(heap[..], fields[i..]) == ReleaseAll(h0, fields) && ReleaseAll(h0, fields).Some?
          {
            assert fields[i..][1..] == fields[i + 1..];
            Destruct(fields[i]);
          }
          heap[a] := Freed;
          freed := freed + [a];
        }
      }
    }
  }
}
