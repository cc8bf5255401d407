/** The generational arena: slots with a free list threaded through the free ones. A slot's generation is
    a 32-bit counter of how often it was freed. */
module Arena {
  import opened Wrappers

  const WRAP: nat := 0x1_0000_0000

  datatype Handle = Handle(index: nat, generation: nat)

  datatype Slot<T> =
    | Free(generation: nat, nextFree: Option<nat>)
    | Live(generation: nat, value: T)

  /** The slots in `free`, in this order, are the list that starts at `head`. */
  ghost predicate Threaded<T>(slots: seq<Slot<T>>, head: Option<nat>, free: seq<nat>)
    decreases |free|
  {
    if free == [] then head == None
    else
      && head == Some(free[0]) && free[0] < |slots| && slots[free[0]].Free?
      && Threaded(slots, slots[free[0]].nextFree, free[1..])
  }

  ghost predicate Distinct(free: seq<nat>) {
    forall i, j :: 0 <= i < j < |free| ==> free[i] != free[j]
  }

  /** The free list visits the free slots, each once, and ends. */
  ghost predicate ListsFree<T>(slots: seq<Slot<T>>, head: Option<nat>, free: seq<nat>) {
    && Threaded(slots, head, free) && Distinct(free)
    && forall i :: 0 <= i < |slots| ==> (slots[i].Free? <==> i in free)
  }

  function LiveCount<T>(slots: seq<Slot<T>>): nat {
    if slots == [] then 0 else LiveCount(slots[..|slots| - 1]) + (if slots[|slots| - 1].Live? then 1 else 0)
  }

  lemma {:induction false} LiveCountUpdate<T>(slots: seq<Slot<T>>, i: nat, slot: Slot<T>)
    requires i < |slots|
    ensures LiveCount(slots[i := slot]) + (if slots[i].Live? then 1 else 0) ==
            LiveCount(slots) + (if slot.Live? then 1 else 0)
    decreases |slots|
  {
    var last := |slots| - 1;
    if i < last {
      assert slots[i := slot][..last] == slots[..last][i := slot];
      LiveCountUpdate(slots[..last], i, slot);
    } else {
      assert slots[i := slot][..last] == slots[..last];
    }
  }

  /** A list that avoids a slot does not see it change. */
  lemma {:induction false} ThreadedElsewhere<T>(slots: seq<Slot<T>>, head: Option<nat>, free: seq<nat>, i: nat,
      slot: Slot<T>)
    requires Threaded(slots, head, free) && i < |slots| && i !in free
    ensures Threaded(slots[i := slot], head, free)
    decreases |free|
  {
    if free != [] {
      ThreadedElsewhere(slots, slots[free[0]].nextFree, free[1..], i, slot);
    }
  }

  lemma {:induction false} ThreadedGrows<T>(slots: seq<Slot<T>>, head: Option<nat>, free: seq<nat>, slot: Slot<T>)
    requires Threaded(slots, head, free)
    ensures Threaded(slots + [slot], head, free)
    decreases |free|
  {
    if free != [] {
      ThreadedGrows(slots, slots[free[0]].nextFree, free[1..], slot);
    }
  }

  /** What the arena maps to values: the live slots under their present generation. */
  ghost function Contents<T>(slots: seq<Slot<T>>): map<Handle, T> {
    map i: nat | i < |slots| && slots[i].Live? :: Handle(i, slots[i].generation) := slots[i].value
  }

  lemma ContentsAt<T>(slots: seq<Slot<T>>, h: Handle)
    ensures h in Contents(slots) <==>
            h.index < |slots| && slots[h.index].Live? && slots[h.index].generation == h.generation
    ensures h in Contents(slots) ==> Contents(slots)[h] == slots[h.index].value
  {
  }

  lemma LiveCountPush<T>(slots: seq<Slot<T>>, value: T)
    ensures LiveCount(slots + [Live(0, value)]) == LiveCount(slots) + 1
  {
    assert (slots + [Live(0, value)])[..|slots|] == slots;
  }

  /** Two arenas that differ in one slot map alike, but for the handles of that slot. */
  lemma ContentsUpdate<T>(slots: seq<Slot<T>>, i: nat, slot: Slot<T>)
    requires i < |slots|
    ensures var was := Handle(i, slots[i].generation); var now := Handle(i, slot.generation);
            var rest := Contents(slots) - {was};
            Contents(slots[i := slot]) == (if slot.Live? then rest[now := slot.value] else rest)
    ensures slots[i].Free? ==> forall g :: Handle(i, g) !in Contents(slots)
  {
    var after := slots[i := slot];
    var rest := Contents(slots) - {Handle(i, slots[i].generation)};
    var expected := if slot.Live? then rest[Handle(i, slot.generation) := slot.value] else rest;
    forall k: Handle ensures k in Contents(after) <==> k in expected {
      ContentsAt(after, k);
      ContentsAt(slots, k);
    }
    forall k | k in expected ensures Contents(after)[k] == expected[k] {
      ContentsAt(after, k);
      ContentsAt(slots, k);
    }
    assert Contents(after) == expected;
  }

  lemma ContentsPush<T>(slots: seq<Slot<T>>, value: T)
    ensures Contents(slots + [Live(0, value)]) == Contents(slots)[Handle(|slots|, 0) := value]
    ensures Handle(|slots|, 0) !in Contents(slots)
  {
    var after := slots + [Live(0, value)];
    var expected := Contents(slots)[Handle(|slots|, 0) := value];
    forall k: Handle ensures k in Contents(after) <==> k in expected {
      ContentsAt(after, k);
      ContentsAt(slots, k);
    }
    forall k | k in expected ensures Contents(after)[k] == expected[k] {
      ContentsAt(after, k);
      ContentsAt(slots, k);
    }
    assert Contents(after) == expected;
  }

  /** Taking the head of the free list. */
  lemma FreePopped<T>(slots: seq<Slot<T>>, free: seq<nat>, i: nat, slot: Slot<T>)
    requires ListsFree(slots, Some(i), free) && slot.Live?
    ensures free != [] && free[0] == i < |slots| && slots[i].Free?
    ensures ListsFree(slots[i := slot], slots[i].nextFree, free[1..])
  {
    var rest := free[1..];
    assert free == [i] + rest;
    forall j | 0 <= j < |rest| ensures rest[j] != i {
      assert free[j + 1] == rest[j];
    }
    ThreadedElsewhere(slots, slots[i].nextFree, rest, i, slot);
  }

  /** A freed slot becomes the head of the free list. */
  lemma FreePushed<T>(slots: seq<Slot<T>>, head: Option<nat>, free: seq<nat>, i: nat, generation: nat)
    requires ListsFree(slots, head, free) && i < |slots| && slots[i].Live?
    ensures ListsFree(slots[i := Free(generation, head)], Some(i), [i] + free)
  {
    ThreadedElsewhere(slots, head, free, i, Free(generation, head));
    assert ([i] + free)[1..] == free;
  }

  lemma FreeKept<T>(slots: seq<Slot<T>>, head: Option<nat>, free: seq<nat>, i: nat, slot: Slot<T>)
    requires ListsFree(slots, head, free) && i < |slots| && slots[i].Live? && slot.Live?
    ensures ListsFree(slots[i := slot], head, free)
  {
    ThreadedElsewhere(slots, head, free, i, slot);
  }

  lemma FreeGrown<T>(slots: seq<Slot<T>>, head: Option<nat>, free: seq<nat>, slot: Slot<T>)
    requires ListsFree(slots, head, free) && slot.Live?
    ensures ListsFree(slots + [slot], head, free)
  {
    ThreadedGrows(slots, head, free, slot);
    FreeInRange(slots, head, free);
  }

  lemma {:induction false} FreeInRange<T>(slots: seq<Slot<T>>, head: Option<nat>, free: seq<nat>)
    requires Threaded(slots, head, free)
    ensures forall i :: i in free ==> i < |slots|
    decreases |free|
  {
    if free != [] {
      FreeInRange(slots, slots[free[0]].nextFree, free[1..]);
      assert free == [free[0]] + free[1..];
    }
  }

  function SaturatingPred(n: nat): nat {
    if n > 0 then n - 1 else 0
  }

  class Arena<T> {
    var slots: seq<Slot<T>>
    var freeHead: Option<nat>
    var liveCount: nat
    ghost var free: seq<nat>
    /** How often each slot was freed. */
    ghost var frees: seq<nat>
    /** Every handle removed so far, as its slot and how often that slot had been freed before. */
    ghost var removed: set<(nat, nat)>

    ghost predicate Valid()
      reads this
    {
      && ListsFree(slots, freeHead, free)
      && liveCount == LiveCount(slots)
      && |frees| == |slots|
      && (forall i :: 0 <= i < |slots| ==> slots[i].generation == frees[i] % WRAP)
      && (forall r :: r in removed ==> r.0 < |slots| && r.1 < frees[r.0])
    }

    constructor ()
      ensures Valid() && Contents(slots) == map[] && removed == {} && slots == []
    {
      slots, freeHead, liveCount := [], None, 0;
      free, frees, removed := [], [], {};
    }

    /** The value goes under a handle that was not in use; a new slot is made when none is free. The index
        of a new slot is cut to 32 bits. */
    method Insert(value: T) returns (h: Handle)
      requires Valid()
      modifies this
      ensures Valid() && liveCount == old(liveCount) + 1 && removed == old(removed)
      ensures old(freeHead).Some? || |old(slots)| < WRAP ==>
                h !in Contents(old(slots)) && Contents(slots) == Contents(old(slots))[h := value]
      ensures frees == if old(freeHead).Some? then old(frees) else old(frees) + [0]
      ensures |slots| == |old(slots)| + (if old(freeHead).Some? then 0 else 1)
      ensures match old(freeHead)
              case None => h == Handle(|old(slots)| % WRAP, 0)
              case Some(i) => i < |old(frees)| && h == Handle(i, old(frees)[i] % WRAP)
    {
      hide Contents, ListsFree, LiveCount;
      if freeHead.Some? {
        var index := freeHead.value;
        FreePopped(slots, free, index, Live(0, value));
        var slot := Live(slots[index].generation, value);
        FreePopped(slots, free, index, slot);
        LiveCountUpdate(slots, index, slot);
        ContentsUpdate(slots, index, slot);
        h := Handle(index, slot.generation);
        assert Contents(slots) - {h} == Contents(slots);
        freeHead := slots[index].nextFree;
        slots := slots[index := slot];
        liveCount := liveCount + 1;
        free := free[1..];
      } else {
        var index := |slots| % WRAP;
        LiveCountPush(slots, value);
        FreeGrown(slots, freeHead, free, Live(0, value));
        ContentsPush(slots, value);
        slots := slots + [Live(0, value)];
        liveCount := liveCount + 1;
        frees := frees + [0];
        h := Handle(index, 0);
      }
    }

    method Get(h: Handle) returns (value: Option<T>)
      requires Valid()
      ensures value == if h in Contents(slots) then Some(Contents(slots)[h]) else None
    {
      ContentsAt(slots, h);
      value := if h.index < |slots| && slots[h.index].Live? && slots[h.index].generation == h.generation
               then Some(slots[h.index].value) else None;
    }

    /** A write through `get_mut`. */
    method Update(h: Handle, value: T) returns (ok: bool)
      requires Valid()
      modifies this
      ensures Valid() && ok == (h in Contents(old(slots)))
      ensures Contents(slots) == if ok then Contents(old(slots))[h := value] else Contents(old(slots))
      ensures frees == old(frees) && removed == old(removed) && liveCount == old(liveCount)
    {
      hide Contents, ListsFree, LiveCount;
      ContentsAt(slots, h);
      ok := h.index < |slots| && slots[h.index].Live? && slots[h.index].generation == h.generation;
      if ok {
        var slot := Live(h.generation, value);
        LiveCountUpdate(slots, h.index, slot);
        FreeKept(slots, freeHead, free, h.index, slot);
        ContentsUpdate(slots, h.index, slot);
        assert (Contents(slots) - {h})[h := value] == Contents(slots)[h := value];
        slots := slots[h.index := slot];
      }
    }

    method Remove(h: Handle) returns (value: Option<T>)
      requires Valid()
      modifies this
      ensures Valid()
      ensures value == if h in Contents(old(slots)) then Some(Contents(old(slots))[h]) else None
      ensures Contents(slots) == Contents(old(slots)) - {h}
      ensures liveCount == old(liveCount) - (if value.Some? then 1 else 0)
      ensures value.Some? ==> freeHead == Some(h.index) && |slots| == |old(slots)|
      ensures value.Some? ==> removed == old(removed) + {(h.index, old(frees)[h.index])}
      ensures value.Some? ==> frees == old(frees)[h.index := old(frees)[h.index] + 1]
      ensures value.None? ==> removed == old(removed) && frees == old(frees)
    {
      hide Contents, ListsFree, LiveCount;
      ContentsAt(slots, h);
      if h.index < |slots| && slots[h.index].Live? && slots[h.index].generation == h.generation {
        var slot := Free((h.generation + 1) % WRAP, freeHead);
        value := Some(slots[h.index].value);
        LiveCountUpdate(slots, h.index, slot);
        FreePushed(slots, freeHead, free, h.index, slot.generation);
        ContentsUpdate(slots, h.index, slot);
        NextGeneration(frees[h.index]);
        slots := slots[h.index := slot];
        freeHead := Some(h.index);
        liveCount := SaturatingPred(liveCount);
        removed := removed + {(h.index, frees[h.index])};
        frees := frees[h.index := frees[h.index] + 1];
        free := [h.index] + free;
      } else {
        value := None;
        assert Contents(slots) - {h} == Contents(slots);
      }
    }

    /** A removed handle resolves again exactly when its slot is live and has since been freed a multiple
        of 2^32 times; so never while no generation has wrapped. */
    lemma RemovedStaysStale(r: (nat, nat))
      requires Valid() && r in removed
      ensures Handle(r.0, r.1 % WRAP) in Contents(slots) <==> slots[r.0].Live? && (frees[r.0] - r.1) % WRAP == 0
      ensures frees[r.0] < WRAP ==> Handle(r.0, r.1 % WRAP) !in Contents(slots)
    {
      ContentsAt(slots, Handle(r.0, r.1 % WRAP));
      SameResidue(r.1, frees[r.0]);
    }
  }

  /** A run in which a removed handle resolves again: its slot is taken and freed 2^32 times. */
  method HandleComesBack<T>(value: T) returns (arena: Arena<T>, first: Handle)
    ensures arena.Valid() && (first.index, first.generation) in arena.removed
    ensures first in Contents(arena.slots)
  {
    hide Contents, ListsFree, LiveCount;
    arena := new Arena();
    first := arena.Insert(value);
    var h := first;
    for k := 0 to WRAP
      invariant fresh(arena) && arena.Valid() && first == Handle(0, 0)
      invariant |arena.slots| == 1 && arena.frees == [k]
      invariant h == Handle(0, k % WRAP) && h in Contents(arena.slots)
      invariant k > 0 ==> (0, 0) in arena.removed
    {
      var gone := arena.Remove(h);
      h := arena.Insert(value);
    }
  }

  lemma NextGeneration(n: nat)
    ensures (n % WRAP + 1) % WRAP == (n + 1) % WRAP
  {
  }

  lemma SameResidue(a: nat, b: nat)
    requires a <= b
    ensures a % WRAP == b % WRAP <==> (b - a) % WRAP == 0
  {
  }
}
