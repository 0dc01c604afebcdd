/**
 The reference counts of all live buffers, events and arenas (buffer.c and the arena half of
 arena.c). Freeing an object removes its entry, so using or releasing a freed object is a call
 whose precondition fails.
 */
module Heaps {
  import opened Prelude
  import opened Model

  class Heap {
    var counts: map<Ref, nat>
    /** The same counts as a multiset, which is what contracts elsewhere are written on. */
    ghost var refs: multiset<Ref>

    ghost predicate Valid()
      reads this
    {
      forall r: Ref :: (r in counts <==> r in refs) && (r in counts ==> counts[r] == refs[r])
    }

    constructor ()
      ensures Valid() && refs == multiset{}
    {
      counts := map[];
      refs := multiset{};
    }

    /** A new object is born with one reference, the caller's handle. */
    method Allocate(r: Ref)
      requires Valid() && r !in counts
      modifies this
      ensures Valid() && refs == old(refs) + multiset{r}
    {
      counts := counts[r := 1];
      refs := refs + multiset{r};
    }

    method Retain(r: Ref)
      requires Valid() && r in refs
      modifies this
      ensures Valid() && refs == old(refs) + multiset{r}
    {
      counts := counts[r := counts[r] + 1];
      refs := refs + multiset{r};
    }

    /** Gives one reference back; the object goes exactly when that was the last one. */
    method Release(r: Ref) returns (freed: bool)
      requires Valid() && r in refs
      modifies this
      ensures Valid() && refs == old(refs) - multiset{r}
      ensures freed <==> old(refs[r]) == 1
      ensures freed <==> r !in counts
    {
      if counts[r] > 1 {
        counts := counts[r := counts[r] - 1];
        freed := false;
      } else {
        counts := counts - {r};
        freed := true;
      }
      refs := refs - multiset{r};
    }

    method RetainAll(slots: seq<Ref>)
      requires Valid() && forall r :: r in slots ==> r in refs
      modifies this
      ensures Valid() && refs == old(refs) + multiset(slots)
    {
      for i := 0 to |slots|
        invariant Valid() && refs == old(refs) + multiset(slots[..i])
      {
        assert slots[..i + 1] == slots[..i] + [slots[i]];
        Retain(slots[i]);
      }
      assert slots[..|slots|] == slots;
    }

    method ReleaseAll(slots: seq<Ref>)
      requires Valid() && multiset(slots) <= refs
      modifies this
      ensures Valid() && refs == old(refs) - multiset(slots)
    {
      for i := 0 to |slots|
        invariant Valid() && refs == old(refs) - multiset(slots[..i])
      {
        assert slots == slots[..i] + [slots[i]] + slots[i + 1..];
        assert slots[..i + 1] == slots[..i] + [slots[i]];
        var _ := Release(slots[i]);
      }
      assert slots[..|slots|] == slots;
    }

    /** Clears one node, complete or partly built: every slot it fills goes back. */
    method ReleaseWork(w: Work)
      requires Valid() && WorkRefs(w) <= refs
      modifies this
      ensures Valid() && refs == old(refs) - WorkRefs(w)
    {
      ReleaseAll(WorkSlots(w));
    }

    /** Gives back every reference a list of nodes holds. */
    method ReleaseWorks(works: seq<Work>)
      requires Valid() && WorksRefs(works) <= refs
      modifies this
      ensures Valid() && refs == old(refs) - WorksRefs(works)
    {
      for i := 0 to |works|
        invariant Valid() && refs == old(refs) - WorksRefs(works[..i])
      {
        WorksRefsPrefix(works, i);
        ReleaseWork(works[i]);
      }
      assert works[..|works|] == works;
    }

    method ReleaseArena(arena: Option<Arena>)
      requires Valid() && ArenaRefs(arena) <= refs
      modifies this
      ensures Valid() && refs == old(refs) - ArenaRefs(arena)
    {
      if arena.Some? {
        var _ := Release(ArenaRef(arena.value));
      }
    }
  }

  lemma {:induction false} WorksRefsPrefix(works: seq<Work>, i: nat)
    requires i < |works|
    ensures WorksRefs(works[..i + 1]) == WorksRefs(works[..i]) + WorkRefs(works[i])
    ensures WorksRefs(works[..i + 1]) <= WorksRefs(works)
    decreases |works| - i
  {
    assert works[..i + 1] == works[..i] + [works[i]];
    WorksRefsSnoc(works[..i], works[i]);
    if i + 1 < |works| {
      WorksRefsPrefix(works, i + 1);
    } else {
      assert works[..i + 1] == works;
    }
  }
}
