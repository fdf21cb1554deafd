/** Facts about states and lists behind the methods of `Policy.SwapManager`. */
module PolicyFacts {
  import opened Common
  import opened Queues
  import opened Pager
  import opened PagerInvariant
  import opened FlatMemory
  import opened Conservation
  import opened Flow
  import opened Reclaim
  import opened Shifts
  import opened Sweep
  import opened Starvation
  import opened Clusters
  import opened Fetch

  lemma RunExtend(dramSize: nat, diskSize: nat, trace: seq<Step>, s: State, step: Step)
    requires Run(dramSize, diskSize, trace) == Some(s) && Enabled(s, step)
    ensures Run(dramSize, diskSize, trace + [step]) == Some(Next(s, step))
  {
  }

  /** What an eviction needs of its victim and of the slot it goes to. */
  ghost predicate Evictable(s: State, v: Id) {
    && v < |s.pages| && s.pages[v].va in s.ram && s.pages[v].inDram && !s.pages[v].swappedOut
    && s.pages[v].list == Some(Eviction) && s.pages[v].offset + PAGE_SIZE <= s.dramSize
    && (s.pages[v].hasReserve <==> s.pages[v].reserve.Some?)
    && (s.pages[v].hasReserve ==>
          && s.pages[v].reserve.value < |s.pages| && s.pages[v].reserve.value != v
          && var e := s.pages[s.pages[v].reserve.value];
             e.reserve == Some(v) && e.list == Some(DiskReserve) && e.offset + PAGE_SIZE <= s.diskSize)
    && (s.lists.At(DiskFree) != [] ==>
          && s.lists.At(DiskFree)[0] < |s.pages| && s.lists.At(DiskFree)[0] != v
          && var e := s.pages[s.lists.At(DiskFree)[0]];
             && e.list == Some(DiskFree) && !e.present && !e.hasReserve && e.reserve == None
             && e.offset + PAGE_SIZE <= s.diskSize)
  }

  lemma VictimIsEvictable(s: State)
    requires Inv(s) && s.lists.At(Eviction) != []
    ensures s.lists.At(Eviction)[0] < |s.pages| && s.pages[s.lists.At(Eviction)[0]].va != 0
    ensures Evictable(s, s.lists.At(Eviction)[0])
  {
    var v := s.lists.At(Eviction)[0];
    OnList(s, Eviction);
    assert RoleOk(s.pages[v]) && Linked(s.pages, v) && Backed(s.pages, s.ram, s.dirty, s.store, v);
    assert InRange(s.dramSize, s.diskSize, s.pages[v]);
    if s.pages[v].hasReserve {
      var t := s.pages[v].reserve.value;
      assert RoleOk(s.pages[t]) && InRange(s.dramSize, s.diskSize, s.pages[t]);
    }
    if s.lists.At(DiskFree) != [] {
      OnList(s, DiskFree);
      var t := s.lists.At(DiskFree)[0];
      assert RoleOk(s.pages[t]) && InRange(s.dramSize, s.diskSize, s.pages[t]);
    }
  }

  /** A victim can be evicted exactly when it has a slot to go to, which it has unless more
      pages are tracked than there are slots. */
  lemma EvictEnabled(s: State, keep: bool)
    requires Inv(s) && s.lists.At(Eviction) != []
    ensures var v := s.lists.At(Eviction)[0];
      && (Enabled(s, Evict(keep)) <==> Target(s, v).Some?)
      && (Target(s, v).None? ==> |s.table| > s.diskSize / PAGE_SIZE)
      && (Enabled(s, Evict(keep)) ==>
            Next(s, Evict(keep)) == EvictTo(s, v, Target(s, v).value, keep, WriteBack(s, v)))
  {
    VictimIsEvictable(s);
    var v := s.lists.At(Eviction)[0];
    if Target(s, v).None? { FullDiskIsOvercommitted(s, v); }
  }

  lemma EvictionHands(s: State)
    requires Inv(s) && Enabled(s, Evict(true))
    ensures NewlyHeld(s.pages, Next(s, Evict(true)).pages, Target(s, s.lists.At(Eviction)[0]).value)
  {
    EvictUndisturbed(s);
  }

  lemma TakingHands(s: State)
    requires Inv(s) && Enabled(s, TakeFrame)
    ensures NewlyHeld(s.pages, Next(s, TakeFrame).pages, s.lists.At(DramFree)[0])
  {
    TakeUndisturbed(s);
  }

  /** Taking both off their lists before putting either back changes nothing. */
  lemma TradeQueues(lists: Lists, v: Id, t: Id, w: ListName, keep: bool)
    requires w == DiskReserve || w == DiskFree
    ensures var l1 := lists.With(Eviction, Drop(lists.At(Eviction), v));
      var l2 := l1.With(w, Drop(l1.At(w), t));
      var l3 := if keep then l2 else l2.With(DramFree, l2.At(DramFree) + [t]);
      l3.With(DiskActive, l3.At(DiskActive) + [v])
      == Move(Move(lists, v, Some(Eviction), Some(DiskActive)), t, Some(w), if keep then None else Some(DramFree))
  {
    var l1 := lists.With(Eviction, Drop(lists.At(Eviction), v));
    var l2 := l1.With(w, Drop(l1.At(w), t));
    WithCommute(l1, w, Drop(l1.At(w), t), DiskActive, l1.At(DiskActive) + [v]);
    WithCommute(l2, DramFree, l2.At(DramFree) + [t], DiskActive, l2.At(DiskActive) + [v]);
  }

  /** Exactly the pages of the range are gone, the others keep their bytes, and no frame is in
      hand that was not before. */
  ghost predicate Cleared(before: State, after: State, addr: nat, end: nat) {
    && (forall va :: va in after.table <==> va in before.table && !InUnmapRange(va, addr, end))
    && (forall va ::
          va in after.table ==> Bytes(after, va) == Bytes(before, va) && Migrating(after, va) == Migrating(before, va))
    && InHand(after) == InHand(before)
  }

  lemma ClearMore(s0: State, s: State, s': State, addr: nat, b: nat)
    requires addr <= b && b % PAGE_SIZE == addr % PAGE_SIZE && Cleared(s0, s, addr, b) && InHand(s') == InHand(s)
    requires forall va :: va in s'.table <==> va in s.table && va != b
    requires forall va :: va in s'.table ==> Bytes(s', va) == Bytes(s, va) && Migrating(s', va) == Migrating(s, va)
    ensures Cleared(s0, s', addr, b + PAGE_SIZE)
  {
    forall va: nat ensures InUnmapRange(va, addr, b + PAGE_SIZE) <==> va == b || InUnmapRange(va, addr, b) {
      if b <= va < b + PAGE_SIZE && va % PAGE_SIZE == b % PAGE_SIZE { SameResidue(va, b); }
    }
  }

  /** No page of the range is being migrated. */
  ghost predicate Quiet(s: State, addr: nat, end: nat) {
    forall va :: InUnmapRange(va, addr, end) ==> !Migrating(s, va)
  }

  lemma QuietMore(s: State, addr: nat, b: nat)
    requires addr <= b && b % PAGE_SIZE == addr % PAGE_SIZE && Quiet(s, addr, b) && !Migrating(s, b)
    ensures Quiet(s, addr, b + PAGE_SIZE)
  {
    forall va | InUnmapRange(va, addr, b + PAGE_SIZE) ensures !Migrating(s, va) {
      if b <= va { SameResidue(va, b); }
    }
  }

  /** The loop of `extmem_munmap` at `b`: the pages before it are gone, and none was migrating. */
  ghost predicate Unmapping(s0: State, s: State, addr: nat, b: nat) {
    addr <= b && b % PAGE_SIZE == addr % PAGE_SIZE && Cleared(s0, s, addr, b) && Quiet(s0, addr, b)
  }

  lemma UnmapMore(s0: State, s: State, s': State, addr: nat, b: nat)
    requires Unmapping(s0, s, addr, b) && !Migrating(s, b) && InHand(s') == InHand(s)
    requires forall va :: va in s'.table <==> va in s.table && va != b
    requires forall va :: va in s'.table ==> Bytes(s', va) == Bytes(s, va) && Migrating(s', va) == Migrating(s, va)
    ensures Unmapping(s0, s', addr, b + PAGE_SIZE)
  {
    MigratingStill(s0, s, addr, b);
    ClearMore(s0, s, s', addr, b);
    QuietMore(s0, addr, b);
  }

  lemma MigratingStill(s0: State, s: State, addr: nat, b: nat)
    requires Unmapping(s0, s, addr, b)
    ensures Migrating(s, b) == Migrating(s0, b)
  {
    assert !InUnmapRange(b, addr, b);
  }

  lemma UnmapDone(s0: State, s: State, addr: nat, b: nat, end: nat)
    requires Unmapping(s0, s, addr, b) && end <= b < end + PAGE_SIZE
    ensures Cleared(s0, s, addr, end) && Quiet(s0, addr, end)
  {
    forall va: nat ensures InUnmapRange(va, addr, end) <==> InUnmapRange(va, addr, b) {
      if end <= va < b && va % PAGE_SIZE == b % PAGE_SIZE { SameResidue(b, va); }
    }
  }

  lemma UnmapWaits(s0: State, s: State, addr: nat, b: nat, end: nat)
    requires Unmapping(s0, s, addr, b) && b < end && Migrating(s, b)
    ensures InUnmapRange(b, addr, end) && !Quiet(s0, addr, end)
  {
    MigratingStill(s0, s, addr, b);
    assert InUnmapRange(b, addr, end);
  }

  lemma SameResidue(x: nat, y: nat)
    requires x % PAGE_SIZE == y % PAGE_SIZE && y <= x < y + PAGE_SIZE
    ensures x == y
  {
  }

  /** The page is mapped and some thread is migrating it. */
  predicate Migrating(s: State, va: nat) {
    va in s.table && s.table[va] < |s.pages| && s.pages[s.table[va]].migrating
  }

  /** Unmapping a page leaves the bytes of every other one, and who is migrating it. */
  lemma UnmapEffect(s: State, va: nat)
    requires Inv(s) && Removable(s, va)
    ensures var s' := UnmapOne(s, va);
      forall u :: u in s'.table ==> Bytes(s', u) == Bytes(s, u) && Migrating(s', u) == Migrating(s, u)
  {
    forall u | u in UnmapOne(s, va).table
      ensures Bytes(UnmapOne(s, va), u) == Bytes(s, u) && Migrating(UnmapOne(s, va), u) == Migrating(s, u)
    {
      UnmapSpares(s, va, u);
      UnmapKeepsMigrating(s, va, u);
    }
  }

  lemma UnmapSpares(s: State, va: nat, u: nat)
    requires Inv(s) && Removable(s, va) && u in UnmapOne(s, va).table
    ensures Bytes(UnmapOne(s, va), u) == Bytes(s, u)
  {
    UnmapBytes(s, va, u);
    assert UnmapOne(s, va) == Next(s, Unmap(va)) && u != va;
  }

  lemma ReserveIsUnmapped(s: State, p: Id)
    requires Inv(s) && p < |s.pages| && s.pages[p].va != 0 && s.pages[p].hasReserve
    ensures s.pages[p].reserve.Some? && s.pages[p].reserve.value < |s.pages|
      && s.pages[s.pages[p].reserve.value].va == 0
  {
    assert Linked(s.pages, p) && RoleOk(s.pages[p]) && RoleOk(s.pages[s.pages[p].reserve.value]);
  }

  lemma UnmappedOther(pages: seq<Desc>, p: Id, q: Id)
    requires p < |pages| && RoleOk(pages[p]) && Linked(pages, p) && q < |pages| && q != p && pages[q].va != 0
    requires pages[p].hasReserve ==> pages[pages[p].reserve.value].va == 0
    ensures UnmappedPages(pages, p)[q] == pages[q]
  {
  }

  lemma UnmapSparesPage(s: State, va: nat, q: Id)
    requires Inv(s) && Removable(s, va) && q < |s.pages| && q != s.table[va] && s.pages[q].va != 0
    ensures |UnmapOne(s, va).pages| == |s.pages| && UnmapOne(s, va).pages[q] == s.pages[q]
  {
    var p := s.table[va];
    assert RoleOk(s.pages[p]) && Linked(s.pages, p) && s.pages[p].va == va != 0;
    UnmapFiled(s, va);
    if s.pages[p].hasReserve { ReserveIsUnmapped(s, p); }
    UnmappedOther(s.pages, p, q);
  }

  lemma UnmapKeepsMigrating(s: State, va: nat, u: nat)
    requires Inv(s) && Removable(s, va) && u in UnmapOne(s, va).table
    ensures Migrating(UnmapOne(s, va), u) == Migrating(s, u)
  {
    assert s.pages[s.table[u]].va == u && s.pages[s.table[va]].va == va;
    UnmapSparesPage(s, va, s.table[u]);
  }

  /** The addresses `extmem_munmap` looks up: `addr` and every page after it, up to `end`. */
  predicate InUnmapRange(va: nat, addr: nat, end: nat) {
    addr <= va < end && va % PAGE_SIZE == addr % PAGE_SIZE
  }

  ghost predicate Removable(s: State, va: nat) {
    && Enabled(s, Unmap(va))
    && var d := s.pages[s.table[va]];
    && d.list.Some? && d.list != Some(DiskReserve) && d.list != Some(DiskFree)
    && (!d.inDram ==> d.swappedOut && !d.hasReserve)
    && (d.hasReserve <==> d.reserve.Some?)
    && (d.hasReserve ==>
          && d.reserve.value != s.table[va]
          && s.pages[d.reserve.value].reserve == Some(s.table[va])
          && s.pages[d.reserve.value].list == Some(DiskReserve))
  }

  lemma UnmapReady(s: State, va: nat)
    requires Inv(s) && va in s.table && s.table[va] < |s.pages| && !s.pages[s.table[va]].migrating
    ensures Removable(s, va)
  {
    var p := s.table[va];
    assert RoleOk(s.pages[p]) && Linked(s.pages, p);
    if s.pages[p].hasReserve { assert RoleOk(s.pages[s.pages[p].reserve.value]); }
  }

  lemma UnmapFields(s: State, va: nat)
    requires Removable(s, va)
    ensures var (s', p) := (UnmapOne(s, va), s.table[va]);
      && s'.pages == (if s.pages[p].hasReserve
                      then s.pages[s.pages[p].reserve.value := Unreserved(s.pages[s.pages[p].reserve.value])]
                      else s.pages)[p := Unmapped(s.pages[p])]
      && s'.lists == Move(if s.pages[p].hasReserve
                          then Move(s.lists, s.pages[p].reserve.value, Some(DiskReserve), Some(DiskFree)) else s.lists,
                          p, s.pages[p].list, if s.pages[p].inDram then Some(DramFree) else Some(DiskFree))
  {
  }

  /** Taking the page off its list before its reserve changes nothing. */
  lemma UnmapLists(lists: Lists, p: Id, home: ListName, d: Desc)
    requires home != DiskReserve && home != DiskFree && (d.hasReserve ==> d.inDram && d.reserve.Some?)
    ensures var l1 := lists.With(home, Drop(lists.At(home), p));
      Join(if d.inDram && d.hasReserve then Move(l1, d.reserve.value, Some(DiskReserve), Some(DiskFree)) else l1, p,
           if d.inDram then Some(DramFree) else Some(DiskFree))
      == Move(if d.hasReserve then Move(lists, d.reserve.value, Some(DiskReserve), Some(DiskFree)) else lists,
              p, Some(home), if d.inDram then Some(DramFree) else Some(DiskFree))
  {
    if d.hasReserve { UnmapQueues(lists, p, home, d.reserve.value); }
  }

  lemma UnmapQueues(lists: Lists, p: Id, home: ListName, r: Id)
    requires home != DiskReserve && home != DiskFree
    ensures var l1 := lists.With(home, Drop(lists.At(home), p));
      var l2 := Move(l1, r, Some(DiskReserve), Some(DiskFree));
      l2.With(DramFree, l2.At(DramFree) + [p])
      == Move(Move(lists, r, Some(DiskReserve), Some(DiskFree)), p, Some(home), Some(DramFree))
  {
    var q := Drop(lists.At(home), p);
    var l0 := lists.With(DiskReserve, Drop(lists.At(DiskReserve), r));
    WithCommute(lists, home, q, DiskReserve, Drop(lists.At(DiskReserve), r));
    WithCommute(l0, home, q, DiskFree, l0.At(DiskFree) + [r]);
  }

  /** The fields after a first touch and after a swap-in. */
  ghost function ZeroMapped(s: State, f: Id, va: nat, bits: Bits): State
    requires f < |s.pages|
  {
    SetBits(s.(pages := MappedPages(s.pages, f, va), lists := Join(s.lists, f, Some(Inactive)),
               table := s.table[va := f], ram := s.ram[va := ZeroPage()]), va, bits)
  }

  ghost function SlotMapped(s: State, p: Id, f: Id, bits: Bits): State
    requires p < |s.pages| && f < |s.pages| && s.pages[p].offset in s.store
  {
    SetBits(s.(pages := JoinedPages(s.pages, p, f),
      lists := Join(Join(s.lists, f, Some(DiskReserve)), p, Some(Inactive)),
               ram := s.ram[s.pages[p].va := s.store[s.pages[p].offset]]), s.pages[p].va, bits)
  }

  lemma FirstTouchIs(s: State, f: Id, va: nat, bits: Bits)
    requires Inv(s) && Enabled(s, FirstTouch(f, va, bits))
    ensures Next(s, FirstTouch(f, va, bits)) == ZeroMapped(s, f, va, bits)
    ensures Bytes(ZeroMapped(s, f, va, bits), va) == Some(ZeroPage())
  {
    assert RoleOk(s.pages[f]);
  }

  lemma SwapInIs(s: State, p: Id, f: Id, bits: Bits)
    requires Enabled(s, SwapIn(p, f, bits))
    ensures Next(s, SwapIn(p, f, bits)) == SlotMapped(s, p, f, bits)
  {
  }

  lemma FreshNext(nd: nat, i: nat)
    ensures DramPages(i + 1) == DramPages(i) + [FreshDram(i)]
    ensures DramPages(nd) + DiskPages(i + 1) == DramPages(nd) + DiskPages(i) + [FreshDisk(i)]
    ensures Ids(nd, i + 1) == Ids(nd, i) + [nd + i]
  {
  }

  /** A claimed page and a held frame are ready for a swap-in. */
  lemma SwapInReady(s: State, p: Id, f: Id)
    requires Inv(s) && Detached(s, p) && Held(s, f)
    ensures !s.pages[p].inDram && s.pages[p].swappedOut && s.pages[p].migrating && s.pages[f].inDram
    ensures s.pages[p].offset in s.store && s.pages[p].offset < s.diskSize && s.pages[f].offset < s.dramSize
  {
    assert RoleOk(s.pages[p]) && RoleOk(s.pages[f]) && Backed(s.pages, s.ram, s.dirty, s.store, p);
    assert InRange(s.dramSize, s.diskSize, s.pages[p]) && InRange(s.dramSize, s.diskSize, s.pages[f]);
  }

  /** What a call of the inactive scan found, from the trace it left. */
  lemma CallFound(dramSize: nat, diskSize: nat, before: seq<Step>, after: seq<Step>, s: State, s': State, target: nat)
    requires Run(dramSize, diskSize, before) == Some(s) && Run(dramSize, diskSize, after) == Some(s')
    requires Extends(before, after, IsScan) && CallEnded(s, s', |after| - |before|, target)
    ensures SameVictims(s, s') <==> Spared(s, 100 * target)
    ensures SameVictims(s, s') ==> Swept(s, s', 100 * target)
  {
    var v := |after| - |before|;
    assert Inv(s) && Exec(s, Scans(v)) == Some(s') by { ScansRan(dramSize, diskSize, before, after, s, s'); }
    CallExactly(s, s', v, target);
  }

  /** One cluster's visits, from the call that made them. */
  lemma ClusterVisited(dramSize: nat, diskSize: nat, before: seq<Step>, after: seq<Step>, s: State, s': State)
    requires Run(dramSize, diskSize, before) == Some(s) && Run(dramSize, diskSize, after) == Some(s')
    requires Extends(before, after, IsScan)
    requires CallEnded(s, s', |after| - |before|, ScanTarget(SWAP_CLUSTER_COUNT, Inactives(s)))
    ensures VisitedBy(s, s', |after| - |before|) && Count(after, IsCool) == Count(before, IsCool)
    ensures Extends(before, after, Rescan)
  {
    ScansRan(dramSize, diskSize, before, after, s, s');
  }

  lemma ScansRan(dramSize: nat, diskSize: nat, before: seq<Step>, after: seq<Step>, s: State, s': State)
    requires Run(dramSize, diskSize, before) == Some(s) && Run(dramSize, diskSize, after) == Some(s')
    requires Extends(before, after, IsScan)
    ensures Inv(s) && Exec(s, Scans(|after| - |before|)) == Some(s')
    ensures Count(after, IsCool) == Count(before, IsCool)
  {
    ScansOfTrace(dramSize, diskSize, before, after);
    RunInv(dramSize, diskSize, before);
    CountKind(before, after, IsScan, IsCool, false);
  }

  /** What a reclaim that has ended found. */
  lemma ReclaimEnds(dramSize: nat, diskSize: nat, before: seq<Step>, s: State, s': State, p: nat, log: seq<Cluster>,
                    cooled: nat, reclaimed: nat, nr: int)
    requires Run(dramSize, diskSize, before) == Some(s) && p > 0
    requires Reclaims(s, s', log, nr, p, reclaimed, cooled)
    requires SWAP_CLUSTER_COUNT * |log| >= ShiftRight(Inactives(s), p) || reclaimed >= nr
    ensures nr > 0 && reclaimed == 0 ==> Dud(s, s', p)
    ensures Hopeless(s, p) ==> reclaimed == 0
  {
    RunInv(dramSize, diskSize, before);
    if nr > 0 && reclaimed == 0 { ReclaimIsDud(s, s', p, |log|, cooled); }
    if Hopeless(s, p) && log != [] {
      assert ClusterAt(s, log, |log| - 1, nr, p) && ClusterAt(s, log, 0, nr, p);
      HopelessIsSpared(s, p);
    }
  }

  /** A turn of the fetch loop came to nothing, and lowered the priority exactly if a frame can
      be fetched. */
  ghost predicate EmptyTurn(before: seq<Step>, s: State, after: seq<Step>, s': State, priority: nat, lowered: bool) {
    && Extends(before, after, Rescan) && Bare(s) && Bare(s')
    && s'.table == s.table && s'.dramSize == s.dramSize && s'.diskSize == s.diskSize
    && Settled(s.pages, s'.pages) && On(s'.pages, true, None) == On(s.pages, true, None)
    && (lowered <==> CanFetch(s))
    && if lowered then Dud(s, s', priority) else s' == s && after == before
  }

  /** Frame `f` was vacated by the oldest victim and is handed over. */
  ghost predicate Vacates(s: State, s': State, f: Id) {
    s.lists.At(Eviction) != [] && PagedOut(s, s', s.lists.At(Eviction)[0], f, true)
  }

  lemma EvictVacates(s: State)
    requires Inv(s) && Enabled(s, Evict(true))
    ensures Vacates(s, Next(s, Evict(true)), Target(s, s.lists.At(Eviction)[0]).value)
  {
    EvictFlow(s, true);
  }

  /** A turn of the fetch loop with no free frame: a reclaim of 32 at this priority if more than
      half of the frames are on the scanned lists, then the eviction of the oldest victim. */
  ghost predicate TurnRan(s: State, mid: State, s': State, log: seq<Cluster>, p: nat, lowered: bool,
                          r: Option<FetchResult>) {
    && (lowered <==> |s.lists.At(Active)| + |s.lists.At(Inactive)| > s.dramSize / (PAGE_SIZE * 2))
    && (if lowered then ReclaimRan(s, mid, log, 32, p) else mid == s)
    && (r.None? ==> s' == mid && mid.lists.At(Eviction) == [])
    && (r.Some? && r.value.Frame? ==> Vacates(mid, s', r.value.frame))
  }

  /** What the rest of the turns will bring. */
  ghost predicate Prospect(s: State, s': State, priority: nat) {
    if RunsDry(s) then Hopeless(s', priority) else Fertile(s', priority)
  }

  /** The fetch loop after `t` empty turns. */
  ghost predicate Searching(before: seq<Step>, s: State, after: seq<Step>, s': State, priority: nat, t: nat) {
    && Extends(before, after, Rescan)
    && s'.table == s.table && s'.dramSize == s.dramSize && s'.diskSize == s.diskSize
    && Settled(s.pages, s'.pages) && On(s'.pages, true, None) == On(s.pages, true, None)
    && (if t > 0 then Bare(s) && Bare(s') else s' == s && after == before)
    && (if CanFetch(s) then priority + t == 12 && Prospect(s, s', priority)
        else priority == 12 && s' == s && after == before)
  }

  lemma SearchStarts(before: seq<Step>, s: State)
    requires Inv(s)
    ensures Searching(before, s, before, s, 12, 0)
  {
    DryOrFertile(s);
  }

  lemma ProspectGoesOn(s: State, mid: State, s': State, p: nat)
    requires Inv(mid) && p > 0 && Prospect(s, mid, p) && Dud(mid, s', p)
    ensures Prospect(s, s', p - 1)
  {
    if RunsDry(s) { HopelessGoesOn(mid, s', p); } else { FertileGoesOn(mid, s', p); }
  }

  lemma SearchGoesOn(before: seq<Step>, s: State, from: seq<Step>, mid: State, after: seq<Step>, s': State,
                     priority: nat, t: nat, lowered: bool)
    requires Inv(mid) && priority > 0
    requires Searching(before, s, from, mid, priority, t) && EmptyTurn(from, mid, after, s', priority, lowered)
    ensures Searching(before, s, after, s', if lowered then priority - 1 else priority, t + 1)
  {
    assert CanFetch(mid) == CanFetch(s);
    if lowered { ProspectGoesOn(s, mid, s', priority); }
  }

  lemma SearchEnds(r: FetchResult, before: seq<Step>, s: State, from: seq<Step>, mid: State, after: seq<Step>,
                   s': State, priority: nat, t: nat)
    requires Searching(before, s, from, mid, priority, t)
    requires (r.Frame? || r == Fails(NoSlot)) && FetchEnds(r, from, mid, after, s')
    ensures FetchEnds(r, before, s, after, s')
  {
    if r.Frame? {
      FetchedSince(r.frame, before, s, from, mid, after, s');
    } else {
      NoRoomSince(s.dramSize, s.diskSize, before, from);
    }
  }

  lemma SearchUnfinished(before: seq<Step>, s: State, after: seq<Step>, s': State, priority: nat, t: nat)
    requires priority > 0 && Searching(before, s, after, s', priority, t)
    ensures t >= 12 ==> !CanFetch(s)
    ensures !CanFetch(s) ==> s' == s && after == before
  {
  }

  lemma SearchGivesUp(before: seq<Step>, s: State, after: seq<Step>, s': State, t: nat)
    requires Searching(before, s, after, s', 0, t)
    requires Run(s.dramSize, s.diskSize, before) == Some(s) && Run(s.dramSize, s.diskSize, after) == Some(s')
    ensures FoundNone(before, s, after, s')
  {
    NoGrowthNothingCold(s.dramSize, s.diskSize, before, after);
  }

  /** What a turn fetched the loop fetched, however many empty turns came before it. */
  lemma FetchedSince(f: Id, before: seq<Step>, s: State, from: seq<Step>, mid: State, after: seq<Step>, s': State)
    requires Extends(before, from, Rescan) && mid.dramSize == s.dramSize && mid.diskSize == s.diskSize
    requires Settled(s.pages, mid.pages) && On(mid.pages, true, None) == On(s.pages, true, None)
    requires Fetched(f, from, mid, after, s')
    ensures Fetched(f, before, s, after, s')
  {
    HeldSince(s.pages, mid.pages, s'.pages, f);
    ExtendsBoth(before, from, after);
  }

  lemma ExtendsBoth(before: seq<Step>, from: seq<Step>, after: seq<Step>)
    requires Extends(before, from, Rescan) && Extends(from, after, Fetching)
    ensures Extends(before, after, Fetching)
  {
    forall j | |before| <= j < |after| ensures Fetching(after[j]) {
      if j < |from| { assert after[j] == from[j]; }
    }
  }

  lemma HeldSince(before: seq<Desc>, mid: seq<Desc>, after: seq<Desc>, f: Id)
    requires Settled(before, mid) && On(mid, true, None) == On(before, true, None) && NewlyHeld(mid, after, f)
    ensures NewlyHeld(before, after, f)
  {
  }

  lemma MarkHeld(before: seq<Desc>, after: seq<Desc>, f: Id)
    requires NewlyHeld(before, after, f) && Settled(before, after)
    ensures var after' := after[f := after[f].(migrating := true)];
      NewlyHeld(before, after', f) && Settled(before, after')
  {
  }

  /** How a fault ended: handled, left to the thread that has the page, or a failed assert. */
  datatype FaultResult = Handled | Waits | Halted(why: Failure)

  /** Silent steps have led to a point where a victim waits with no slot to go to. */
  ghost predicate Blocked(dramSize: nat, diskSize: nat, before: seq<Step>) {
    exists steps :: NoRoomAt(dramSize, diskSize, steps) && Extends(before, steps, Silent)
  }

  lemma NoRoomBlocks(dramSize: nat, diskSize: nat, before: seq<Step>)
    requires NoRoom(dramSize, diskSize, before)
    ensures Blocked(dramSize, diskSize, before)
  {
    var steps :| NoRoomAt(dramSize, diskSize, steps) && Extends(before, steps, Rescan);
  }

  lemma BlockedSince(dramSize: nat, diskSize: nat, before: seq<Step>, from: seq<Step>)
    requires Extends(before, from, Silent) && Blocked(dramSize, diskSize, from)
    ensures Blocked(dramSize, diskSize, before)
  {
    var steps :| NoRoomAt(dramSize, diskSize, steps) && Extends(from, steps, Silent);
    forall j | |before| <= j < |steps| ensures Silent(steps[j]) {
      if j < |from| { assert steps[j] == from[j]; }
    }
  }

  /** What a handler that stops tells: the disk is overcommitted, or there was no frame to be
      had when it began, and after nothing but silent steps there is none now. */
  ghost predicate Halts(why: Failure, before: seq<Step>, s: State, after: seq<Step>, s': State) {
    match why
    case NoSlot => |s.table| > s.diskSize / PAGE_SIZE && Blocked(s.dramSize, s.diskSize, before)
    case OutOfMemory =>
      && Run(s.dramSize, s.diskSize, after) == Some(s') && Extends(before, after, Silent)
      && Starved(s) && Bare(s') && NothingCold(s.dramSize, s.diskSize, before, after)
    case Hang => !CanFetch(s) && !CanFetch(s') && Extends(before, after, NoScan)
  }

  /** Claims and detaches before the fetch change nothing that it looks at. */
  lemma HaltedSince(why: Failure, before: seq<Step>, s: State, from: seq<Step>, mid: State, after: seq<Step>, s': State)
    requires Extends(before, from, NoScan) && FetchAlike(s, mid) && mid.table == s.table && mid.diskSize == s.diskSize
    requires FetchEnds(Fails(why), from, mid, after, s')
    ensures Halts(why, before, s, after, s')
  {
    AlikeFetch(s, mid);
    if why == NoSlot {
      NoRoomBlocks(s.dramSize, s.diskSize, from);
      BlockedSince(s.dramSize, s.diskSize, before, from);
    }
  }

  predicate NoScan(step: Step) { Silent(step) && !step.Scan? }

  const CORE_PREFETCH_RATE := 32

  /** How many of the pages after `base`, from the `k`-th on, can be claimed in a row. */
  ghost function ClaimableRun(s: State, base: nat, k: nat): nat
    requires k <= CORE_PREFETCH_RATE
    decreases CORE_PREFETCH_RATE - k
  {
    if k == CORE_PREFETCH_RATE || !Enabled(s, Claim(Following(base, k))) then 0 else 1 + ClaimableRun(s, base, k + 1)
  }

  lemma {:induction false} RunStops(s: State, base: nat, k: nat, n: nat)
    requires k <= n <= CORE_PREFETCH_RATE
    requires n < CORE_PREFETCH_RATE ==> !Enabled(s, Claim(Following(base, n)))
    ensures k + ClaimableRun(s, base, k) <= n
    decreases n - k
  {
    if k < n { RunStops(s, base, k + 1, n); }
  }

  /** A page that could be claimed still can once another has been claimed and a frame fetched. */
  lemma StillClaimable(s: State, mid: State, s': State, p: Id, va: nat, u: nat)
    requires Inv(s) && Enabled(s, Claim(u)) && u != va && va in s.table && p == s.table[va]
    requires |mid.pages| == |s.pages| && p < |s.pages| && mid.pages == s.pages[p := mid.pages[p]]
    requires Settled(mid.pages, s'.pages) && s'.table == s.table
    ensures Enabled(s', Claim(u))
  {
    var q := s.table[u];
    assert RoleOk(s.pages[q]);
    assert mid.pages[q] == s.pages[q] && Still(mid.pages[q]);
  }

  /** A prefetch stopped for want of a frame: page `va` was claimed and detached, no frame could
      be had then, and nothing but rescans followed. */
  ghost predicate RanDry(why: Failure, dramSize: nat, diskSize: nat, before: seq<Step>, after: seq<Step>, va: nat) {
    exists m :: |before| <= m < |after| && RanDryAt(why, dramSize, diskSize, after, m, va)
  }

  ghost predicate RanDryAt(why: Failure, dramSize: nat, diskSize: nat, after: seq<Step>, m: nat, va: nat)
    requires m < |after|
  {
    var r := Run(dramSize, diskSize, after[..m + 1]);
    && after[m].Detach? && r.Some? && Extends(after[..m + 1], after, Rescan)
    && Detached(r.value, after[m].page) && r.value.pages[after[m].page].va == va
    && (if why == OutOfMemory then Starved(r.value) else !CanFetch(r.value) && |after| == m + 1)
  }

  lemma DriedUp(why: Failure, before: seq<Step>, from: seq<Step>, mid: State, after: seq<Step>, s': State, p: Id,
                va: nat)
    requires from == before + [Claim(va), Detach(p)] && Run(mid.dramSize, mid.diskSize, from) == Some(mid)
    requires Detached(mid, p) && mid.pages[p].va == va && why != NoSlot && FetchEnds(Fails(why), from, mid, after, s')
    ensures RanDry(why, mid.dramSize, mid.diskSize, before, after, va)
    ensures Extends(before, after, Silent) && s'.table == mid.table
  {
    var m := |from| - 1;
    assert after[..m + 1] == from;
    assert RanDryAt(why, mid.dramSize, mid.diskSize, after, m, va);
    FetchingSettles(mid.dramSize, mid.diskSize, from, after, mid, s');
    ClaimExtends(before, from, after, p, va);
  }

  lemma ClaimExtends(before: seq<Step>, from: seq<Step>, after: seq<Step>, p: Id, va: nat)
    requires from == before + [Claim(va), Detach(p)] && Extends(from, after, Silent)
    ensures Extends(before, after, Silent) && Extends(before, from, Silent)
  {
    forall j | |before| <= j < |after| ensures Silent(after[j]) {
      if j < |from| { assert after[j] == from[j]; }
    }
  }

  lemma RanDryLater(why: Failure, dramSize: nat, diskSize: nat, before: seq<Step>, from: seq<Step>, after: seq<Step>,
                    va: nat)
    requires |before| <= |from| && RanDry(why, dramSize, diskSize, from, after, va)
    ensures RanDry(why, dramSize, diskSize, before, after, va)
  {
    var m :| |from| <= m < |after| && RanDryAt(why, dramSize, diskSize, after, m, va);
  }

  datatype Job = Job(page: Id, frame: Id)

  datatype PrefetchResult = Got(job: Job) | Skip | Dead(why: Failure)

  /** A page claimed and detached, and a frame held for it. */
  ghost predicate Loose(pages: seq<Desc>, p: Id) { p < |pages| && pages[p].list == None && pages[p].va != 0 }

  ghost predicate Spare(pages: seq<Desc>, f: Id) { f < |pages| && pages[f].list == None && pages[f].va == 0 }

  /** The prefetcher's jobs from `from` on are ready, and no two share a page or a frame. */
  ghost predicate JobsOk(pages: seq<Desc>, js: seq<Job>, from: nat) {
    && (forall k :: from <= k < |js| ==> Loose(pages, js[k].page) && Spare(pages, js[k].frame))
    && (forall k, m :: from <= k < m < |js| ==> js[k].page != js[m].page && js[k].frame != js[m].frame)
  }

  ghost function Vas(pages: seq<Desc>, js: seq<Job>): (r: seq<nat>)
    requires JobsOk(pages, js, 0)
    ensures |r| == |js| && forall k :: 0 <= k < |js| ==> r[k] == pages[js[k].page].va
  {
    seq(|js|, k requires 0 <= k < |js| => pages[js[k].page].va)
  }

  /** The frames of these jobs. */
  ghost function Frames(js: seq<Job>): set<Id> { set j | j in js :: j.frame }

  lemma FramesMore(js: seq<Job>, j: Job)
    ensures Frames(js + [j]) == Frames(js) + {j.frame}
  {
    forall f ensures f in Frames(js + [j]) <==> f in Frames(js) || f == j.frame {
      if f == j.frame { assert j in js + [j]; }
      if f in Frames(js) {
        var k :| k in js && k.frame == f;
        assert k in js + [j];
      }
    }
  }

  /** Taking the frames of the first jobs away one by one. */
  lemma FramesPrefix(hands: set<Id>, js: seq<Job>, i: nat)
    requires i < |js|
    ensures Frames(js[..0]) == {} && js[..|js|] == js
    ensures hands - Frames(js[..i]) - {js[i].frame} == hands - Frames(js[..i + 1])
  {
    assert js[..i + 1] == js[..i] + [js[i]];
    FramesMore(js[..i], js[i]);
  }

  /** The page `k` after the one at `base`. */
  function Following(base: nat, k: nat): nat { base + (k + 1) * PAGE_SIZE }

  /** They are the next pages, one after the other. */
  lemma FollowsOn(base: nat, k: nat)
    ensures Following(base, k) == PAGE_SIZE + if k == 0 then base else Following(base, k - 1)
  {
  }

  /** What the prefetcher has gathered: jobs for the pages following `base`, with the pages
      beyond them as claimable as they were, and no frame in hand but theirs. */
  ghost predicate Gathered(s: State, s': State, base: nat, js: seq<Job>) {
    && s'.table == s.table && JobsOk(s'.pages, js, 0) && InHand(s') <= InHand(s) + Frames(js)
    && (forall k :: 0 <= k < |js| ==> Vas(s'.pages, js)[k] == Following(base, k))
    && (forall k ::
          |js| <= k && Enabled(s, Claim(Following(base, k))) ==> Enabled(s', Claim(Following(base, k))))
  }

  lemma GatherStarts(s: State, base: nat)
    ensures Gathered(s, s, base, [])
  {
  }

  lemma GatherMore(s: State, mid: State, s': State, base: nat, js: seq<Job>, j: Job)
    requires Gathered(s, mid, base, js) && s'.table == mid.table && JobsOk(s'.pages, js + [j], 0)
    requires Vas(s'.pages, js + [j]) == Vas(mid.pages, js) + [Following(base, |js|)]
    requires InHand(s') <= InHand(mid) + {j.frame}
    requires forall u :: u != Following(base, |js|) && Enabled(mid, Claim(u)) ==> Enabled(s', Claim(u))
    ensures Gathered(s, s', base, js + [j])
  {
    FramesMore(js, j);
    forall k | |js| + 1 <= k && Enabled(s, Claim(Following(base, k))) ensures Enabled(s', Claim(Following(base, k))) {
      assert Following(base, k) != Following(base, |js|);
    }
  }

  lemma AddJob(before: seq<Desc>, mid: seq<Desc>, after: seq<Desc>, js: seq<Job>, j: Job)
    requires JobsOk(before, js, 0) && Loose(mid, j.page) && |mid| == |before|
    requires before[j.page].list == Some(DiskActive) && mid == before[j.page := mid[j.page]]
    requires NewlyHeld(mid, after, j.frame) && Settled(mid, after)
    ensures JobsOk(after, js + [j], 0) && Vas(after, js + [j]) == Vas(before, js) + [mid[j.page].va]
  {
    forall k | 0 <= k < |js|
      ensures after[js[k].page] == before[js[k].page] && after[js[k].frame] == before[js[k].frame]
      && js[k].page != j.page && js[k].frame != j.frame
    {
      assert Loose(before, js[k].page) && Spare(before, js[k].frame);
      assert Still(mid[js[k].page]) && Still(mid[js[k].frame]);
    }
    assert Still(mid[j.page]);
  }

  /** Only the descriptor of page `va`, which was on the disk list, has changed. */
  ghost predicate Claimed(s: State, mid: State, p: Id, va: nat) {
    && |mid.pages| == |s.pages| && p < |s.pages| && mid.pages == s.pages[p := mid.pages[p]]
    && Loose(mid.pages, p) && mid.pages[p].va == va && s.pages[p].list == Some(DiskActive)
    && va in s.table && p == s.table[va]
  }

  /** A page claimed and detached, with every other page as it was. */
  lemma DetachedAlike(s: State, s': State, p: Id)
    requires Inv(s) && p < |s.pages| && s.pages[p].list == Some(DiskActive)
    requires s'.pages == s.pages[p := s.pages[p].(migrating := true, list := None)]
    requires s' == s.(pages := s'.pages, lists := Leave(s.lists, p, Some(DiskActive)))
    ensures FetchAlike(s, s')
  {
    assert RoleOk(s.pages[p]);
    assert On(s'.pages, true, None) == On(s.pages, true, None);
    forall i | 0 <= i < |s.pages| ensures ScannedAlike(s.pages[i], s'.pages[i]) {}
  }

  /** A page claimed and detached, and nothing else that a fetch looks at. */
  lemma Withdrawn(s: State, va: nat)
    requires Inv(s) && Enabled(s, Claim(va))
    ensures var (p, mid) := (s.table[va], Next(s, Claim(va)));
      && Enabled(mid, Detach(p))
      && Claimed(s, Next(mid, Detach(p)), p, va) && FetchAlike(s, Next(mid, Detach(p)))
  {
    var p := s.table[va];
    assert RoleOk(s.pages[p]);
    DetachedAlike(s, Next(Next(s, Claim(va)), Detach(p)), p);
  }

  /** The state once page `p` has been claimed and detached and frame `f` fetched for it. */
  ghost predicate Paired(s: State, mid: State, s': State, p: Id, f: Id, va: nat) {
    && Claimed(s, mid, p, va) && s'.table == s.table
    && NewlyHeld(mid.pages, s'.pages, f) && Settled(mid.pages, s'.pages)
  }

  lemma PairedJob(s: State, mid: State, s': State, p: Id, f: Id, va: nat, js: seq<Job>)
    requires Inv(s) && JobsOk(s.pages, js, 0) && Paired(s, mid, s', p, f, va)
    ensures JobsOk(s'.pages, js + [Job(p, f)], 0)
    ensures Vas(s'.pages, js + [Job(p, f)]) == Vas(s.pages, js) + [va]
    ensures forall u :: u != va && Enabled(s, Claim(u)) ==> Enabled(s', Claim(u))
  {
    AddJob(s.pages, mid.pages, s'.pages, js, Job(p, f));
    forall u | u != va && Enabled(s, Claim(u)) ensures Enabled(s', Claim(u)) { StillClaimable(s, mid, s', p, va, u); }
  }

  /** The jobs keep their addresses, and the first `n` are mapped. */
  ghost predicate JobsDone(pages: seq<Desc>, mapped: set<nat>, js: seq<Job>, vas: seq<nat>, n: nat) {
    && |vas| == |js|
    && (forall k :: 0 <= k < |js| ==> js[k].page < |pages| && pages[js[k].page].va == vas[k] != 0)
    && (forall k :: 0 <= k < n && k < |js| ==> pages[js[k].page].inDram && vas[k] in mapped)
  }

  lemma DropJob(before: seq<Desc>, after: seq<Desc>, mapped: set<nat>, js: seq<Job>, vas: seq<nat>, i: nat)
    requires i < |js| && JobsOk(before, js, i) && JobsDone(before, mapped, js, vas, i)
    requires var (p, f) := (js[i].page, js[i].frame);
      && p < |before| && f < |before|
      && after == before[f := Reserving(before[f], before[p], p)][p := BroughtIn(before[p], before[f], f)]
    ensures JobsOk(after, js, i + 1) && JobsDone(after, mapped + {vas[i]}, js, vas, i + 1)
  {
    assert Loose(before, js[i].page) && Spare(before, js[i].frame);
    forall k | i + 1 <= k < |js| ensures Loose(after, js[k].page) && Spare(after, js[k].frame) {
      assert Loose(before, js[k].page) && Spare(before, js[k].frame);
    }
  }

  lemma AllResident(s: State, js: seq<Job>, vas: seq<nat>)
    requires Inv(s) && JobsDone(s.pages, s.ram.Keys, js, vas, |js|)
    ensures forall k :: 0 <= k < |js| ==> Resident(s, vas[k])
  {
  }

  /** What an eviction did. `NoDiskPage` is the failed assert that ends the process. */
  datatype EvictResult = Idle | Freed(frame: Id) | NoDiskPage
}
