/** Three paths in the repository that do not follow the descriptor protocol, and exactly
    what each of them breaks. None of them is a step of the pager. */
module BrokenPaths {
  import opened Common
  import opened Queues
  import opened Pager
  import opened PagerInvariant
  import opened FlatMemory

  /** `lrudisk_evictionworker_vector` with `extmem_migrate_downdisk_vector` on one victim: the
      victim's offset and residency flag are never moved. */
  function VectorEvict(s: State, v: Id, t: Id): State
    requires v < |s.pages| && t < |s.pages| && s.pages[v].va in s.ram
  {
    var (d, e) := (s.pages[v], s.pages[t]);
    var s1 := if WriteBack(s, v) then s.(store := s.store[e.offset := s.ram[d.va]]) else s;
    var d' := d.(swappedOut := true, migrating := false, hasReserve := false, reserve := None,
                 list := Some(DiskActive));
    Refile(Refile(Zap(s1, d.va), v, d'), t, Vacated(e, d, false))
  }

  /** Every vector eviction leaves two descriptors on one frame and none on the slot it
      wrote, and the page can no longer be read. */
  lemma VectorEvictionLosesThePage(s: State)
    requires Inv(s) && Enabled(s, Evict(false))
    ensures var v := s.lists.At(Eviction)[0];
      var t := Target(s, v).value;
      var s' := VectorEvict(s, v, t);
      && v != t && Slot(s'.pages[v]) == Slot(s'.pages[t])
      && (forall i :: 0 <= i < |s'.pages| ==> Slot(s'.pages[i]) != Slot(s.pages[t]))
      && Bytes(s, s.pages[v].va).Some? && Bytes(s', s.pages[v].va) == None
      && !Inv(s')
  {
    EvictPair(s, false);
    var v := s.lists.At(Eviction)[0];
    var t := Target(s, v).value;
    var s' := VectorEvict(s, v, t);
    forall i | 0 <= i < |s'.pages| ensures Slot(s'.pages[i]) != Slot(s.pages[t]) {
      if i != v && i != t { assert s'.pages[i] == s.pages[i]; }
    }
  }

  /** `lrudisk_swapin_external_async` without io_uring: nothing is read, so the page is
      mapped from whatever the thread's buffer holds. */
  function AsyncSwapIn(s: State, p: Id, f: Id, bits: Bits, buffer: Page): State
    requires p < |s.pages| && f < |s.pages|
  {
    SwapInTo(s, p, f, bits, buffer)
  }

  /** The page then reads as the buffer and every other as before, so memory is preserved
      exactly when the buffer already held the page. */
  lemma AsyncSwapInNeedsTheBytes(s: State, p: Id, f: Id, bits: Bits, buffer: Page)
    requires Inv(s) && Enabled(s, SwapIn(p, f, bits))
    ensures var s' := AsyncSwapIn(s, p, f, bits, buffer);
      && (forall va :: Bytes(s', va) == if va == s.pages[p].va then Some(buffer) else Bytes(s, va))
      && ((forall va :: Bytes(s', va) == Bytes(s, va)) <==> buffer == s.store[s.pages[p].offset])
  {
    assert RoleOk(s.pages[p]) && RoleOk(s.pages[f]);
    var s' := AsyncSwapIn(s, p, f, bits, buffer);
    assert Bytes(s', s.pages[p].va) == Some(buffer) && Bytes(s, s.pages[p].va) == Some(s.store[s.pages[p].offset]);
    forall va | va != s.pages[p].va ensures Bytes(s', va) == Bytes(s, va) {
      SwapInBytes(s, p, f, bits, va);
      assert Bytes(s', va) == Bytes(Next(s, SwapIn(p, f, bits)), va);
    }
  }

  /** A pointer-prefetch hit marks the page resident without taking a frame or leaving the
      disk list. */
  function PrefetchHit(s: State, p: Id, buffer: Page): State
    requires p < |s.pages|
  {
    var d := s.pages[p];
    s.(ram := s.ram[d.va := buffer],
       pages := s.pages[p := d.(inDram := true, swappedOut := false, migrating := false)])
  }

  /** So its record no longer fits its list, and its swap slot has no descriptor. */
  lemma PrefetchHitOrphansTheSlot(s: State, p: Id, buffer: Page)
    requires Inv(s) && p < |s.pages| && s.pages[p].list == Some(DiskActive)
    ensures var s' := PrefetchHit(s, p, buffer);
      && !RoleOk(s'.pages[p]) && !Inv(s')
      && (forall i :: 0 <= i < |s'.pages| ==> Slot(s'.pages[i]) != Slot(s.pages[p]))
  {
  }
}
