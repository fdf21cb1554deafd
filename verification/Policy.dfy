/** The policy and the fault handlers as they are written: descriptor fields and lists
    updated in place, one statement at a time. The ghost trace records the steps taken,
    and `Valid` says that the fields are what those steps give, so every result about
    runs holds of the object. The source's asserts are the asserts here. */
module Policy {
  import opened Common
  import opened Queues
  import opened Pager
  import opened PagerInvariant
  import opened FlatMemory
  import opened Conservation
  import opened Flow
  import opened Reclaim
  import opened Shifts
  import opened Sweep
  import opened Starvation
  import opened Clusters
  import opened Fetch
  import opened PolicyFacts

  class SwapManager {
    const dramSize: nat
    const diskSize: nat
    var pages: seq<Desc>
    var lists: Lists
    var table: map<nat, Id>
    var ram: map<nat, Page>
    var accessed: set<nat>
    var dirty: set<nat>
    var store: map<nat, Page>
    ghost var trace: seq<Step>

    ghost function View(): State
      reads this
    {
      State(dramSize, diskSize, pages, lists, table, ram, accessed, dirty, store)
    }

    ghost predicate Valid()
      reads this
    {
      Run(dramSize, diskSize, trace) == Some(View())
    }

    lemma Sound()
      requires Valid()
      ensures Inv(View())
    {
      RunInv(dramSize, diskSize, trace);
    }

    ghost method Commit(before: State, step: Step)
      requires Run(dramSize, diskSize, trace) == Some(before) && Enabled(before, step)
      requires View() == Next(before, step)
      modifies this`trace
      ensures Valid() && trace == old(trace) + [step]
    {
      RunExtend(dramSize, diskSize, trace, before, step);
      trace := trace + [step];
    }

    /** `lrudisk_init`: one descriptor per frame and per swap slot, all free. */
    constructor (dramSize: nat, diskSize: nat)
      ensures Valid() && trace == [] && View() == Init(dramSize, diskSize)
    {
      this.dramSize, this.diskSize := dramSize, diskSize;
      pages, lists, table := [], Lists(map[DramFree := [], DiskFree := []]), map[];
      ram, accessed, dirty, store, trace := map[], {}, {}, map[], [];
      new;
      AddFrames(dramSize / PAGE_SIZE);
      AddSlots(dramSize / PAGE_SIZE, diskSize / PAGE_SIZE);
    }

    method AddFrames(nd: nat)
      requires pages == [] && lists == Lists(map[DramFree := [], DiskFree := []])
      modifies this`pages, this`lists
      ensures pages == DramPages(nd) && lists == Lists(map[DramFree := Ids(0, nd), DiskFree := []])
    {
      for i := 0 to nd
        invariant pages == DramPages(i) && lists == Lists(map[DramFree := Ids(0, i), DiskFree := []])
      {
        pages := pages + [FreshDram(i).(list := None)];
        Enqueue(DramFree, i);
        FreshNext(0, i);
      }
    }

    method AddSlots(nd: nat, nk: nat)
      requires pages == DramPages(nd) && lists == Lists(map[DramFree := Ids(0, nd), DiskFree := []])
      modifies this`pages, this`lists
      ensures pages == DramPages(nd) + DiskPages(nk)
      ensures lists == Lists(map[DramFree := Ids(0, nd), DiskFree := Ids(nd, nk)])
    {
      for i := 0 to nk
        invariant pages == DramPages(nd) + DiskPages(i)
        invariant lists == Lists(map[DramFree := Ids(0, nd), DiskFree := Ids(nd, i)])
      {
        pages := pages + [FreshDisk(i).(list := None)];
        Enqueue(DiskFree, nd + i);
        FreshNext(nd, i);
      }
    }

    // -------------------------------------------------------------- list calls

    method Enqueue(w: ListName, id: Id)
      requires id < |pages| && pages[id].list == None
      modifies this`pages, this`lists
      ensures pages == old(pages)[id := old(pages)[id].(list := Some(w))]
      ensures lists == old(lists).With(w, old(lists).At(w) + [id])
    {
      lists := lists.With(w, lists.At(w) + [id]);
      pages := pages[id := pages[id].(list := Some(w))];
    }

    method Dequeue(w: ListName) returns (r: Option<Id>)
      requires lists.At(w) != [] ==> lists.At(w)[0] < |pages|
      modifies this`pages, this`lists
      ensures r.None? <==> old(lists).At(w) == []
      ensures r.None? ==> pages == old(pages) && lists == old(lists)
      ensures r.Some? ==> r.value == old(lists).At(w)[0]
      ensures r.Some? ==> pages == old(pages)[r.value := old(pages)[r.value].(list := None)]
      ensures r.Some? ==> lists == old(lists).With(w, Drop(old(lists).At(w), r.value))
    {
      if lists.At(w) == [] { return None; }
      var id := lists.At(w)[0];
      DropHead(lists.At(w));
      lists := lists.With(w, lists.At(w)[1..]);
      pages := pages[id := pages[id].(list := None)];
      return Some(id);
    }

    method TryRemove(w: Option<ListName>, id: Id) returns (ok: bool)
      requires id < |pages|
      modifies this`pages, this`lists
      ensures ok <==> w.Some? && old(pages)[id].list == w
      ensures !ok ==> pages == old(pages) && lists == old(lists)
      ensures ok ==> pages == old(pages)[id := old(pages)[id].(list := None)]
      ensures ok ==> lists == old(lists).With(w.value, Drop(old(lists).At(w.value), id))
    {
      if w.None? || pages[id].list != w { return false; }
      lists := lists.With(w.value, Drop(lists.At(w.value), id));
      pages := pages[id := pages[id].(list := None)];
      return true;
    }

    // -------------------------------------------------------------- migration

    /** `extmem_migrate_downdisk`: write the page out if asked, drop its mapping. */
    method MigrateDown(id: Id, diskOffset: nat, writeBack: bool)
      requires id < |pages| && pages[id].inDram && !pages[id].swappedOut && pages[id].va in ram
      requires pages[id].offset + PAGE_SIZE <= dramSize && diskOffset + PAGE_SIZE <= diskSize
      modifies this`pages, this`store, this`ram, this`accessed, this`dirty
      ensures store == if writeBack then old(store)[diskOffset := old(ram)[old(pages)[id].va]] else old(store)
      ensures var va := old(pages)[id].va;
        ram == old(ram) - {va} && accessed == old(accessed) - {va} && dirty == old(dirty) - {va}
      ensures pages == old(pages)[id := old(pages)[id].(
                offset := diskOffset, inDram := false, swappedOut := true, migrating := true)]
    {
      pages := pages[id := pages[id].(migrating := true)];
      assert pages[id].inDram;
      assert pages[id].offset < dramSize && pages[id].offset + PAGE_SIZE <= dramSize;
      assert diskOffset < diskSize && diskOffset + PAGE_SIZE <= diskSize;
      var va := pages[id].va;
      if writeBack {
        store := store[diskOffset := ram[va]];
      }
      ram, accessed, dirty := ram - {va}, accessed - {va}, dirty - {va};
      pages := pages[id := pages[id].(offset := diskOffset, inDram := false)];
      assert !pages[id].swappedOut;
      pages := pages[id := pages[id].(swappedOut := true)];
    }

    /** The state just after a victim is taken off the eviction list and claimed. */
    ghost predicate Taken(s: State, v: Id)
      reads this
    {
      && v < |s.pages|
      && View() == s.(pages := s.pages[v := s.pages[v].(list := None, migrating := true)],
                      lists := s.lists.With(Eviction, Drop(s.lists.At(Eviction), v)))
    }

    /** The fields after victim `v` and slot `t`, taken from list `w`, have traded places
        and before they are listed again. */
    ghost predicate Traded(s: State, v: Id, t: Id, w: ListName, writeBack: bool)
      requires v < |s.pages| && t < |s.pages| && s.pages[v].va in s.ram
      reads this
    {
      var (d, e) := (s.pages[v], s.pages[t]);
      var l1 := s.lists.With(Eviction, Drop(s.lists.At(Eviction), v));
      && dramSize == s.dramSize && diskSize == s.diskSize && table == s.table
      && pages == s.pages[v := Evicted(d, e).(list := None, migrating := true)][t := Vacated(e, d, true)]
      && lists == l1.With(w, Drop(l1.At(w), t))
      && store == (if writeBack then s.store[e.offset := s.ram[d.va]] else s.store)
      && ram == s.ram - {d.va} && accessed == s.accessed - {d.va} && dirty == s.dirty - {d.va}
    }

    /** Eviction to the reserve: the slot is still there to go back to. */
    method EvictToReserve(v: Id, writeBack: bool, ghost s: State) returns (t: Id)
      requires Taken(s, v) && Evictable(s, v) && s.pages[v].hasReserve
      modifies this`pages, this`lists, this`store, this`ram, this`accessed, this`dirty
      ensures Some(t) == s.pages[v].reserve && Traded(s, v, t, DiskReserve, writeBack)
    {
      t := pages[v].reserve.value;
      assert pages[t].reserve == Some(v);
      assert pages[t].list == Some(DiskReserve);
      var ok := TryRemove(pages[t].list, t);
      assert ok;
      var oldOffset := pages[v].offset;
      MigrateDown(v, pages[t].offset, writeBack);
      pages := pages[t := pages[t].(offset := oldOffset, inDram := true, present := false,
                                    hasReserve := false, reserve := None)]
                    [v := pages[v].(hasReserve := false, reserve := None)];
    }

    /** First eviction, or the reserve was given up: take a free slot. */
    method EvictToFree(v: Id, writeBack: bool, ghost s: State) returns (r: Option<Id>)
      requires Taken(s, v) && Evictable(s, v) && !s.pages[v].hasReserve && writeBack
      modifies this`pages, this`lists, this`store, this`ram, this`accessed, this`dirty
      ensures r == Target(s, v)
      ensures r.Some? ==> r.value < |s.pages| && Traded(s, v, r.value, DiskFree, writeBack)
    {
      r := Dequeue(DiskFree);
      if r.None? { return; }
      var t := r.value;
      assert !pages[t].present;
      var oldOffset := pages[v].offset;
      MigrateDown(v, pages[t].offset, writeBack);
      pages := pages[t := pages[t].(offset := oldOffset, inDram := true, present := false)];
    }

    /** List the victim and, unless it is handed over, the frame; then release the victim. */
    method FinishEviction(v: Id, t: Id, keep: bool, ghost s: State, ghost w: ListName, ghost writeBack: bool)
      requires v < |s.pages| && t < |s.pages| && v != t && s.pages[v].va in s.ram
      requires s.pages[v].list == Some(Eviction) && s.pages[t].list == Some(w)
      requires w == DiskReserve || w == DiskFree
      requires Traded(s, v, t, w, writeBack)
      modifies this`pages, this`lists
      ensures View() == EvictTo(s, v, t, keep, writeBack)
    {
      if !keep { Enqueue(DramFree, t); }
      Enqueue(DiskActive, v);
      assert pages[v].migrating && pages[v].swappedOut;
      pages := pages[v := pages[v].(migrating := false, swappedOut := true)];
      TradeQueues(s.lists, v, t, w, keep);
      assert pages == s.pages[v := Evicted(s.pages[v], s.pages[t])][t := Vacated(s.pages[t], s.pages[v], keep)];
    }

    /** The body of an eviction, once there is a victim. */
    method EvictVictim(keep: bool, ghost s: State) returns (r: EvictResult)
      requires View() == s && s.lists.At(Eviction) != [] && Evictable(s, s.lists.At(Eviction)[0])
      modifies this`pages, this`lists, this`store, this`ram, this`accessed, this`dirty
      ensures var v := s.lists.At(Eviction)[0];
        && !r.Idle? && (r.NoDiskPage? <==> Target(s, v).None?)
        && (r.Freed? ==> Target(s, v) == Some(r.frame) && r.frame < |s.pages|
                         && View() == EvictTo(s, v, r.frame, keep, WriteBack(s, v)))
    {
      var victim := Dequeue(Eviction);
      var v := victim.value;
      pages := pages[v := pages[v].(migrating := true)];
      var writeBack := pages[v].va in dirty || !pages[v].hasReserve;
      if pages[v].hasReserve {
        var t := EvictToReserve(v, writeBack, s);
        FinishEviction(v, t, keep, s, DiskReserve, writeBack);
        r := Freed(t);
      } else {
        var t := EvictToFree(v, writeBack, s);
        if t.None? { return NoDiskPage; }
        FinishEviction(v, t.value, keep, s, DiskFree, writeBack);
        r := Freed(t.value);
      }
    }

    /** One turn of `lrudisk_evictionworker`, or with `keep` the eviction inside
        `fetch_free_asynch`, which hands the frame over instead of listing it. */
    method EvictOne(keep: bool) returns (r: EvictResult)
      requires Valid()
      modifies this
      ensures r.Idle? <==> old(lists).At(Eviction) == []
      ensures r.Idle? ==> View() == old(View()) && trace == old(trace)
      ensures r.NoDiskPage? <==> old(lists).At(Eviction) != [] && !Enabled(old(View()), Evict(keep))
      ensures r.NoDiskPage? ==> |old(table)| > diskSize / PAGE_SIZE
      ensures r.Freed? ==> Valid() && trace == old(trace) + [Evict(keep)] && Enabled(old(View()), Evict(keep))
      ensures r.Freed? ==> PagedOut(old(View()), View(), old(lists).At(Eviction)[0], r.frame, keep)
      ensures r.Freed? ==> Claimable(View(), old(pages)[old(lists).At(Eviction)[0]].va)
    {
      ghost var s := View();
      r := EvictStep(keep);
      if r.Freed? {
        RunInv(dramSize, diskSize, old(trace));
        EvictFlow(s, keep);
      }
    }

    method EvictStep(keep: bool) returns (r: EvictResult)
      requires Valid()
      modifies this
      ensures r.Idle? <==> old(lists).At(Eviction) == []
      ensures r.Idle? ==> View() == old(View()) && trace == old(trace)
      ensures r.NoDiskPage? <==> old(lists).At(Eviction) != [] && !Enabled(old(View()), Evict(keep))
      ensures r.NoDiskPage? ==> |old(table)| > diskSize / PAGE_SIZE
      ensures r.Freed? ==> Valid() && trace == old(trace) + [Evict(keep)] && Enabled(old(View()), Evict(keep))
      ensures r.Freed? ==>
        View() == Next(old(View()), Evict(keep)) && Target(old(View()), old(lists).At(Eviction)[0]) == Some(r.frame)
    {
      if lists.At(Eviction) == [] { return Idle; }
      ghost var s := View();
      Sound();
      VictimIsEvictable(s);
      EvictEnabled(s, keep);
      r := EvictVictim(keep, s);
      if r.Freed? { Commit(s, Evict(keep)); }
    }

    // ---------------------------------------------------------------- reclaim

    method CoolPage(ghost s: State) returns (id: Id)
      requires View() == s && s.lists.At(Active) != []
      requires s.lists.At(Active)[0] < |s.pages| && s.pages[s.lists.At(Active)[0]].list == Some(Active)
      modifies this`pages, this`lists
      ensures id == s.lists.At(Active)[0]
      ensures View() == Refile(s, id, s.pages[id].(naccesses := 0, list := Some(Inactive)))
    {
      var page := Dequeue(Active);
      id := page.value;
      pages := pages[id := pages[id].(naccesses := 0)];
      Enqueue(Inactive, id);
    }

    /** An accessed page loses its bit and stays, or moves up on its second visit; a cold one
        goes to the eviction list. */
    method Judge(id: Id) returns (fate: Fate)
      requires id < |pages|
      modifies this`pages, this`accessed
      ensures fate == FateOf(old(View()), id)
      ensures accessed == old(accessed) - {old(pages)[id].va}
      ensures pages == old(pages)[id := Scanned(old(pages)[id], fate).(list := old(pages)[id].list)]
    {
      if pages[id].va in accessed {
        accessed := accessed - {pages[id].va};
        pages := pages[id := pages[id].(naccesses := pages[id].naccesses + 1)];
        if pages[id].naccesses > 1 {
          pages := pages[id := pages[id].(naccesses := 0)];
          fate := Promoted;
        } else {
          fate := Kept;
        }
      } else {
        pages := pages[id := pages[id].(naccesses := 0)];
        fate := Cold;
      }
    }

    method ScanPage(ghost s: State) returns (fate: Fate)
      requires View() == s && s.lists.At(Inactive) != []
      requires s.lists.At(Inactive)[0] < |s.pages| && s.pages[s.lists.At(Inactive)[0]].list == Some(Inactive)
      modifies this`pages, this`lists, this`accessed
      ensures View() == ScanOne(s, s.lists.At(Inactive)[0])
      ensures fate == FateOf(s, s.lists.At(Inactive)[0])
    {
      var page := Dequeue(Inactive);
      var id := page.value;
      fate := Judge(id);
      Enqueue(Destination(fate), id);
      assert pages == s.pages[id := Scanned(s.pages[id], fate)];
    }

    method CoolTurn()
      requires Valid() && lists.At(Active) != []
      modifies this
      ensures Valid() && trace == old(trace) + [Cool] && table == old(table)
      ensures Cooled(old(View()), View(), 1) && MovedDown(old(lists), lists, 1)
    {
      ghost var s := View();
      Sound();
      OnList(s, Active);
      CoolFlow(s);
      var id := CoolPage(s);
      CoolStep(s);
      Commit(s, Cool);
    }

    method ScanTurn() returns (fate: Fate)
      requires Valid() && lists.At(Inactive) != []
      modifies this
      ensures Valid() && trace == old(trace) + [Scan] && table == old(table)
      ensures |lists.At(Eviction)| == |old(lists).At(Eviction)| + if fate == Cold then 1 else 0
    {
      ghost var s := View();
      Sound();
      OnList(s, Inactive);
      fate := ScanPage(s);
      ScanRescans(s);
      Commit(s, Scan);
    }

    /** `shrink_active_list`: returns how many pages it moved down. */
    method ShrinkActive(nr: nat) returns (ret: nat)
      requires Valid()
      modifies this
      ensures Valid() && Extends(old(trace), trace, IsCool) && table == old(table)
      ensures ret == Min(nr, |old(lists).At(Active)|) && |trace| == |old(trace)| + ret
      ensures Cooled(old(View()), View(), ret) && MovedDown(old(lists), lists, ret)
    {
      ret := 0;
      if nr == 0 { return; }
      var target := Min(nr, |lists.At(Active)|);
      var tries := 0;
      ghost var s := View();
      while ret < target && |lists.At(Active)| > 0 && tries < target * 100
        invariant Valid() && Extends(old(trace), trace, IsCool) && table == old(table)
        invariant ret == tries <= target && Cooled(s, View(), ret) && MovedDown(s.lists, lists, ret)
        invariant |trace| == |old(trace)| + ret
        decreases target - ret
      {
        ghost var mid := View();
        CoolTurn();
        CoolMore(s, mid, View(), ret);
        MoveDownMore(s.lists, mid.lists, lists, ret);
        ret, tries := ret + 1, tries + 1;
      }
    }

    /** `shrink_inactive_list`: visits pages until enough are cold, the list is empty or a
        hundred times the target have been seen. The result is the growth of the eviction list. */
    method ShrinkInactive(nr: nat) returns (ret: nat)
      requires Valid()
      modifies this
      ensures Valid() && Extends(old(trace), trace, IsScan) && table == old(table)
      ensures ret == |lists.At(Eviction)| - |old(lists).At(Eviction)|
      ensures ret <= ScanTarget(nr, |old(lists).At(Inactive)|)
      ensures CallEnded(old(View()), View(), |trace| - |old(trace)|, ScanTarget(nr, |old(lists).At(Inactive)|))
      ensures ret == 0 <==> Spared(old(View()), 100 * ScanTarget(nr, |old(lists).At(Inactive)|))
      ensures ret == 0 ==> Swept(old(View()), View(), 100 * ScanTarget(nr, |old(lists).At(Inactive)|))
    {
      ghost var (before, s) := (trace, View());
      var target := ScanTarget(nr, |lists.At(Inactive)|);
      ret := 0;
      var tries := 0;
      while ret < target && |lists.At(Inactive)| > 0 && tries < target * 100
        invariant Valid() && Extends(old(trace), trace, IsScan) && table == old(table)
        invariant ret == |lists.At(Eviction)| - |old(lists).At(Eviction)| && ret <= target
        invariant |trace| == |old(trace)| + tries && tries <= target * 100
        decreases target * 100 - tries
      {
        var fate := ScanTurn();
        if fate == Cold { ret := ret + 1; }
        tries := tries + 1;
      }
      CallFound(dramSize, diskSize, before, trace, s, View(), target);
    }

    /** One cluster of a reclaim: scan inactive pages, then move active ones down if there are
        any still to be. */
    method ReclaimCluster(more: bool) returns (n: nat, ghost c: Cluster)
      requires Valid()
      modifies this
      ensures Valid() && Extends(old(trace), trace, Rescan) && table == old(table)
      ensures c.before == old(View()) && c.after == View() && ClusterRan(c, more)
      ensures Count(trace, IsCool) == Count(old(trace), IsCool) + MovesDown(c, more)
      ensures n == |lists.At(Eviction)| - |old(lists).At(Eviction)| && n <= SWAP_CLUSTER_COUNT
      ensures n == 0 <==> Spared(old(View()), Reach(|old(lists).At(Inactive)|))
      ensures n == 0 ==> Clustered(old(View()), View(), more)
    {
      ghost var s := View();
      ghost var visits;
      n, visits := VisitCluster();
      ghost var mid := View();
      if more {
        MoveClusterDown();
        assert n == 0 ==> ClusterCooled(s, mid, View());
      }
      c := Cluster(s, mid, View(), visits);
    }

    method VisitCluster() returns (n: nat, ghost visits: nat)
      requires Valid()
      modifies this
      ensures Valid() && Extends(old(trace), trace, Rescan) && table == old(table)
      ensures VisitedBy(old(View()), View(), visits) && Count(trace, IsCool) == Count(old(trace), IsCool)
      ensures n == |lists.At(Eviction)| - |old(lists).At(Eviction)| && n <= SWAP_CLUSTER_COUNT
      ensures n == 0 <==> Spared(old(View()), Reach(|old(lists).At(Inactive)|))
      ensures n == 0 ==> Swept(old(View()), View(), Reach(|old(lists).At(Inactive)|))
    {
      ghost var (s, before) := (View(), trace);
      n := ShrinkInactive(SWAP_CLUSTER_COUNT);
      visits := |trace| - |before|;
      ClusterVisited(dramSize, diskSize, before, trace, s, View());
    }

    method MoveClusterDown()
      requires Valid()
      modifies this
      ensures Valid() && Extends(old(trace), trace, Rescan) && table == old(table)
      ensures var c := Min(32, |old(lists).At(Active)|);
        && Cooled(old(View()), View(), c) && MovedDown(old(lists), lists, c)
        && Count(trace, IsCool) == Count(old(trace), IsCool) + c
    {
      var cooled := ShrinkActive(SWAP_CLUSTER_COUNT);
      CountKind(old(trace), trace, IsCool, IsCool, true);
    }

    /** `direct_allocate_page_asynch`: clusters of scans while the inactive pages to be looked at
        last and too few victims are found, overshooting by less than one cluster. */
    method DirectReclaim(nr: int, priority: nat) returns (reclaimed: nat, ghost log: seq<Cluster>)
      requires Valid()
      modifies this
      ensures Valid() && Extends(old(trace), trace, Rescan) && table == old(table)
      ensures reclaimed == |lists.At(Eviction)| - |old(lists).At(Eviction)|
      ensures reclaimed == 0 || reclaimed < nr + SWAP_CLUSTER_COUNT
      ensures ReclaimRan(old(View()), View(), log, nr, priority)
      ensures Count(trace, IsCool)
        == Count(old(trace), IsCool) + MovedInAll(log, ShiftRight(|old(lists).At(Active)|, priority))
      ensures Settled(old(pages), pages) && On(pages, true, None) == On(old(pages), true, None)
      ensures lists.At(DramFree) == old(lists).At(DramFree)
      ensures nr > 0 && priority > 0 && reclaimed == 0 ==> Dud(old(View()), View(), priority)
      ensures priority > 0 && Hopeless(old(View()), priority) ==> reclaimed == 0
    {
      ghost var (before, s) := (trace, View());
      ghost var moved;
      reclaimed, log, moved := RunClusters(nr, priority);
      RescanRescans(dramSize, diskSize, before, trace);
      if priority > 0 {
        ReclaimEnds(dramSize, diskSize, before, s, View(), priority, log, moved, reclaimed, nr);
      }
    }

    /** One more cluster, seen from where the reclaim began. */
    method RunCluster(more: bool, ghost s: State, ghost log: seq<Cluster>, ghost nr: int, ghost p: nat,
                      ghost found: nat, ghost moved: nat)
      returns (n: nat, ghost log': seq<Cluster>)
      requires Valid() && Reclaims(s, View(), log, nr, p, found, moved) && WantsMore(s, log, |log|, nr, p)
      requires more <==> moved < ShiftRight(Actives(s), p)
      modifies this
      ensures Valid() && Extends(old(trace), trace, Rescan) && table == old(table) && |log'| == |log| + 1
      ensures Reclaims(s, View(), log', nr, p, found + n, if more then moved + SWAP_CLUSTER_COUNT else moved)
      ensures var a := ShiftRight(Actives(s), p);
        Count(trace, IsCool) - MovedInAll(log', a) == Count(old(trace), IsCool) - MovedInAll(log, a)
    {
      ghost var mid := View();
      Sound();
      ghost var c;
      n, c := ReclaimCluster(more);
      ReclaimGoesOn(s, mid, View(), log, c, nr, p, found, moved, n);
      MovedMore(log, c, ShiftRight(Actives(s), p));
      log' := log + [c];
    }

    method RunClusters(nr: int, priority: nat) returns (reclaimed: nat, ghost log: seq<Cluster>, ghost moved: nat)
      requires Valid()
      modifies this
      ensures Valid() && Extends(old(trace), trace, Rescan) && table == old(table)
      ensures Reclaims(old(View()), View(), log, nr, priority, reclaimed, moved)
      ensures !WantsMore(old(View()), log, |log|, nr, priority)
      ensures Count(trace, IsCool)
        == Count(old(trace), IsCool) + MovedInAll(log, ShiftRight(|old(lists).At(Active)|, priority))
    {
      ghost var (before, s) := (trace, View());
      reclaimed, log := 0, [];
      var toScanActive := ShiftRight(|lists.At(Active)|, priority);
      var toScanInactive := ShiftRight(|lists.At(Inactive)|, priority);
      var scannedActive: nat, scannedInactive: nat := 0, 0;
      ReclaimStarts(s, nr, priority);
      while scannedInactive < toScanInactive && reclaimed < nr
        invariant Valid() && Extends(before, trace, Rescan) && table == s.table
        invariant Reclaims(s, View(), log, nr, priority, reclaimed, scannedActive)
        invariant scannedInactive == SWAP_CLUSTER_COUNT * |log|
        invariant Count(trace, IsCool) == Count(before, IsCool) + MovedInAll(log, toScanActive)
        decreases toScanInactive - scannedInactive
      {
        var more := scannedActive < toScanActive;
        var n;
        n, log := RunCluster(more, s, log, nr, priority, reclaimed, scannedActive);
        reclaimed := reclaimed + n;
        scannedInactive := scannedInactive + SWAP_CLUSTER_COUNT;
        if more { scannedActive := scannedActive + SWAP_CLUSTER_COUNT; }
      }
      moved := scannedActive;
    }

    method TakeFree() returns (r: Option<Id>)
      requires Valid()
      modifies this
      ensures Valid()
      ensures r.None? <==> old(lists).At(DramFree) == []
      ensures r.None? ==> View() == old(View()) && trace == old(trace)
      ensures r.Some? ==> r.value == old(lists).At(DramFree)[0]
      ensures r.Some? ==> trace == old(trace) + [TakeFrame]
      ensures r.Some? ==> FetchEnds(Frame(r.value), old(trace), old(View()), trace, View())
    {
      ghost var s := View();
      Sound();
      if lists.At(DramFree) != [] { OnList(s, DramFree); }
      r := Dequeue(DramFree);
      if r.Some? {
        TakingHands(s);
        Commit(s, TakeFrame);
      }
    }

    /** The inline eviction of `fetch_free_asynch`. */
    method EvictForFetch() returns (r: EvictResult)
      requires Valid()
      modifies this
      ensures r.Idle? <==> old(lists).At(Eviction) == []
      ensures r.Idle? ==> View() == old(View()) && trace == old(trace)
      ensures r.NoDiskPage? ==> |old(table)| > diskSize / PAGE_SIZE && NoRoomAt(dramSize, diskSize, old(trace))
      ensures r.Freed? ==> FetchEnds(Frame(r.frame), old(trace), old(View()), trace, View())
      ensures r.Freed? ==> Vacates(old(View()), View(), r.frame)
    {
      ghost var s := View();
      r := EvictStep(true);
      if r.Freed? {
        RunInv(dramSize, diskSize, old(trace));
        EvictionHands(s);
        EvictVacates(s);
      }
    }

    /** A turn with no free frame: reclaim if the scanned lists are long, then evict. */
    method ForceFree(priority: nat) returns (r: EvictResult, lowered: bool, ghost mid: State, ghost log: seq<Cluster>)
      requires Valid()
      modifies this
      ensures lowered <==> |old(lists).At(Active)| + |old(lists).At(Inactive)| > dramSize / (PAGE_SIZE * 2)
      ensures r.Idle? ==> Valid() && Extends(old(trace), trace, Rescan) && table == old(table)
      ensures r.Idle? ==> Settled(old(pages), pages) && On(pages, true, None) == On(old(pages), true, None)
      ensures r.Idle? ==> lists.At(DramFree) == old(lists).At(DramFree)
      ensures r.Idle? ==> lists.At(Eviction) == [] && old(lists).At(Eviction) == []
      ensures r.Freed? ==> FetchEnds(Frame(r.frame), old(trace), old(View()), trace, View())
      ensures r.NoDiskPage? ==> |old(table)| > diskSize / PAGE_SIZE && NoRoom(dramSize, diskSize, old(trace))
      ensures r.Idle? && !lowered ==> View() == old(View()) && trace == old(trace)
      ensures r.Idle? && lowered && priority > 0 ==> Dud(old(View()), View(), priority)
      ensures old(lists).At(Eviction) == [] && priority > 0 && (!lowered || Hopeless(old(View()), priority)) ==> r.Idle?
      ensures if lowered then ReclaimRan(old(View()), mid, log, 32, priority) else mid == old(View())
      ensures (r.Idle? ==> View() == mid) && (r.Freed? ==> Vacates(mid, View(), r.frame))
    {
      ghost var (before, s) := (trace, View());
      lowered := |lists.At(Active)| + |lists.At(Inactive)| > dramSize / (PAGE_SIZE * 2);
      log := [];
      if lowered {
        var n;
        n, log := DirectReclaim(SWAP_CLUSTER_COUNT, priority);
      }
      ghost var from := trace;
      mid := View();
      r := EvictForFetch();
      if r.Freed? && lowered { FetchedSince(r.frame, before, s, from, mid, trace, View()); }
    }

    /** One turn of the loop of `fetch_free_asynch`. It neither ends the loop nor lowers the
        priority exactly when no frame can be fetched, and then it changes nothing at all. */
    method FetchTurn(priority: nat)
      returns (r: Option<FetchResult>, lowered: bool, ghost mid: State, ghost log: seq<Cluster>)
      requires Valid() && priority > 0
      modifies this
      ensures r.None? && !lowered <==> !CanFetch(old(View()))
      ensures !CanFetch(old(View())) ==> View() == old(View()) && trace == old(trace)
      ensures r.None? ==> Valid() && EmptyTurn(old(trace), old(View()), trace, View(), priority, lowered)
      ensures Bare(old(View())) && Hopeless(old(View()), priority) ==> r.None?
      ensures r.Some? ==> r.value.Frame? || r.value == Fails(NoSlot)
      ensures r.Some? ==> FetchEnds(r.value, old(trace), old(View()), trace, View())
      ensures old(lists).At(DramFree) != [] ==>
        r == Some(Frame(old(lists).At(DramFree)[0])) && trace == old(trace) + [TakeFrame]
      ensures old(lists).At(DramFree) == [] ==> TurnRan(old(View()), mid, View(), log, priority, lowered, r)
    {
      ghost var s := View();
      Sound();
      StuckIffCannotFetch(s);
      lowered, mid, log := false, s, [];
      var f := TakeFree();
      if f.Some? { return Some(Frame(f.value)), lowered, mid, log; }
      var e;
      e, lowered, mid, log := ForceFree(priority);
      match e
      case Idle => return None, lowered, mid, log;
      case Freed(frame) => return Some(Frame(frame)), lowered, mid, log;
      case NoDiskPage => return Some(Fails(NoSlot)), lowered, mid, log;
    }

    /** The loop of `fetch_free_asynch`, cut off after so many turns. If no frame can be
        fetched it is still going, with nothing changed, after any number of turns; if one
        can, it has ended after twelve. */
    method FetchFor(turns: nat) returns (r: Option<FetchResult>)
      requires Valid()
      modifies this
      ensures turns >= 12 ==> (r.None? <==> !CanFetch(old(View())))
      ensures !CanFetch(old(View())) ==> r.None? && View() == old(View()) && trace == old(trace)
      ensures r.Some? ==> r != Some(Fails(Hang)) && FetchEnds(r.value, old(trace), old(View()), trace, View())
      ensures r.Some? ==> (r.value == Fails(OutOfMemory) <==> Starved(old(View())))
      ensures r.Some? && old(lists).At(DramFree) != [] ==>
        r.value == Frame(old(lists).At(DramFree)[0]) && trace == old(trace) + [TakeFrame]
    {
      ghost var (before, s) := (trace, View());
      var priority; ghost var t;
      r, priority, t := Seek(turns);
      if r.Some? { return; }
      if priority > 0 {
        SearchUnfinished(before, s, trace, View(), priority, t);
        return None;
      }
      SearchGivesUp(before, s, trace, View(), t);
      return Some(Fails(OutOfMemory));
    }

    /** The turns themselves: `r` is what ended them, and the priority what they left. */
    method Seek(turns: nat) returns (r: Option<FetchResult>, priority: nat, ghost t: nat)
      requires Valid()
      modifies this
      ensures r.None? ==> Valid() && Searching(old(trace), old(View()), trace, View(), priority, t)
      ensures r.None? ==> priority == 0 || t == turns
      ensures r.Some? ==> CanFetch(old(View())) && (r.value.Frame? || r.value == Fails(NoSlot))
      ensures r.Some? ==> FetchEnds(r.value, old(trace), old(View()), trace, View()) && !Starved(old(View()))
      ensures r.Some? && old(lists).At(DramFree) != [] ==>
        r.value == Frame(old(lists).At(DramFree)[0]) && trace == old(trace) + [TakeFrame]
    {
      r, priority := None, 12;
      var k: nat := 0;
      t := 0;
      ghost var (before, s) := (trace, View());
      Sound();
      SearchStarts(before, s);
      while priority > 0 && k < turns
        invariant Valid() && Searching(before, s, trace, View(), priority, t) && t == k <= turns
        decreases turns - k
      {
        var lowered;
        r, lowered := SearchTurn(priority, t, before, s);
        if r.Some? { return; }
        if lowered { priority := priority - 1; }
        k, t := k + 1, t + 1;
      }
      return None, priority, t;
    }

    /** A turn, seen from where the loop began. */
    method SearchTurn(priority: nat, ghost t: nat, ghost before: seq<Step>, ghost s: State)
      returns (r: Option<FetchResult>, lowered: bool)
      requires Valid() && Searching(before, s, trace, View(), priority, t) && priority > 0
      modifies this
      ensures r.None? ==>
        Valid() && Searching(before, s, trace, View(), if lowered then priority - 1 else priority, t + 1)
      ensures r.Some? ==> CanFetch(s) && (r.value.Frame? || r.value == Fails(NoSlot))
      ensures r.Some? ==> FetchEnds(r.value, before, s, trace, View()) && !Starved(s)
      ensures r.Some? && s.lists.At(DramFree) != []
        ==> r.value == Frame(s.lists.At(DramFree)[0]) && trace == before + [TakeFrame]
    {
      ghost var (from, mid) := (trace, View());
      Sound();
      ghost var reclaimed, log;
      r, lowered, reclaimed, log := FetchTurn(priority);
      if r.Some? {
        SearchEnds(r.value, before, s, from, mid, trace, View(), priority, t);
      } else {
        SearchGoesOn(before, s, from, mid, trace, View(), priority, t, lowered);
      }
    }

    /** `fetch_free_asynch`: a frame off every list, in DRAM, unmapped and unreserved. The twelve
        turns decide it: a loop that has not ended then never ends, as `FetchFor` says. */
    method FetchFree() returns (r: FetchResult)
      requires Valid()
      modifies this
      ensures FetchEnds(r, old(trace), old(View()), trace, View())
      ensures r == Fails(Hang) <==> !CanFetch(old(View()))
      ensures r == Fails(OutOfMemory) <==> Starved(old(View()))
      ensures old(lists).At(DramFree) != [] ==>
        r == Frame(old(lists).At(DramFree)[0]) && trace == old(trace) + [TakeFrame]
    {
      var o := FetchFor(12);
      return if o.Some? then o.value else Fails(Hang);
    }

    method Guard(f: Id)
      requires Valid() && Held(View(), f)
      modifies this
      ensures Valid() && trace == old(trace) + [Protect(f)] && table == old(table) && lists == old(lists)
      ensures pages == old(pages)[f := old(pages)[f].(migrating := true)]
    {
      ghost var s := View();
      pages := pages[f := pages[f].(migrating := true)];
      Commit(s, Protect(f));
    }

    /** `lrudisk_pagefault`: a free frame, protected from being paged out. No mapped byte and
        no descriptor held or claimed by a handler changes. */
    method Pagefault() returns (r: FetchResult)
      requires Valid()
      modifies this
      ensures r.Frame? ==> Valid() && Extends(old(trace), trace, Silent) && table == old(table)
      ensures r.Frame? ==> NewlyHeld(old(pages), pages, r.frame) && Settled(old(pages), pages)
      ensures r.Frame? ==> pages[r.frame].migrating
      ensures r.Fails? ==> FetchEnds(r, old(trace), old(View()), trace, View())
      ensures r == Fails(Hang) <==> !CanFetch(old(View()))
      ensures r == Fails(OutOfMemory) <==> Starved(old(View()))
    {
      ghost var (before, s) := (trace, View());
      r := FetchFree();
      if r.Frame? {
        FetchingSettles(dramSize, diskSize, before, trace, s, View());
        MarkHeld(s.pages, pages, r.frame);
        Guard(r.frame);
      }
    }

    // ----------------------------------------------------------------- faults

    /** `extmem_migrate_updisk`: read the page from the store and map it. */
    method MigrateUp(id: Id, dramOffset: nat, bits: Bits)
      requires id < |pages| && !pages[id].inDram && pages[id].offset in store
      requires pages[id].offset < diskSize && dramOffset < dramSize
      modifies this`pages, this`ram, this`accessed, this`dirty
      ensures var d := old(pages)[id];
        && pages == old(pages)[id := d.(offset := dramOffset, inDram := true)]
        && ram == old(ram)[d.va := store[d.offset]]
        && accessed == (if bits.accessed then old(accessed) + {d.va} else old(accessed) - {d.va})
        && dirty == (if bits.dirty then old(dirty) + {d.va} else old(dirty) - {d.va})
    {
      assert !pages[id].inDram;
      assert pages[id].offset < diskSize && dramOffset < dramSize;
      var (va, buffer) := (pages[id].va, store[pages[id].offset]);
      ram := ram[va := buffer];
      accessed := if bits.accessed then accessed + {va} else accessed - {va};
      dirty := if bits.dirty then dirty + {va} else dirty - {va};
      pages := pages[id := pages[id].(offset := dramOffset, inDram := true)];
    }

    /** The end of a swap-in: the frame takes the page's slot and becomes its reserve, and
        the page goes on the inactive list and is released. */
    method KeepReserve(p: Id, f: Id, diskOffset: nat)
      requires p < |pages| && f < |pages| && p != f && pages[p].list == None && pages[f].list == None
      modifies this`pages, this`lists
      ensures pages == old(pages)[f := old(pages)[f].(offset := diskOffset, inDram := false, swappedOut := true,
                                                      migrating := false, hasReserve := true, reserve := Some(p),
                                                      list := Some(DiskReserve))]
                                 [p := old(pages)[p].(swappedOut := false, migrating := false, hasReserve := true,
                                                      reserve := Some(f), list := Some(Inactive))]
      ensures lists == Join(Join(old(lists), f, Some(DiskReserve)), p, Some(Inactive))
    {
      pages := pages[f := pages[f].(offset := diskOffset, inDram := false, swappedOut := true, migrating := false,
                                    hasReserve := true, reserve := Some(p))];
      pages := pages[p := pages[p].(hasReserve := true, reserve := Some(f))];
      Enqueue(DiskReserve, f);
      Enqueue(Inactive, p);
      pages := pages[p := pages[p].(swappedOut := false, migrating := false)];
    }

    method Splice(p: Id, f: Id, bits: Bits)
      requires Inv(View()) && Detached(View(), p) && Held(View(), f) && pages[p].offset in store
      modifies this`pages, this`lists, this`ram, this`accessed, this`dirty
      ensures View() == SlotMapped(old(View()), p, f, bits)
    {
      ghost var s := View();
      SwapInReady(s, p, f);
      assert pages[f].inDram;
      var diskOffset := pages[p].offset;
      MigrateUp(p, pages[f].offset, bits);
      KeepReserve(p, f, diskOffset);
      assert pages == JoinedPages(s.pages, p, f);
    }

    method BringIn(p: Id, f: Id, bits: Bits)
      requires Valid() && Detached(View(), p) && Held(View(), f)
      modifies this
      ensures Valid() && trace == old(trace) + [SwapIn(p, f, bits)]
      ensures pages == JoinedPages(old(pages), p, f)
      ensures store == old(store) && table == old(table) && ram.Keys == old(ram).Keys + {pages[p].va}
      ensures PagedIn(old(View()), View(), p, f)
    {
      ghost var s := View();
      Sound();
      SwapInReady(s, p, f);
      SwapInFlow(s, p, f, bits);
      Splice(p, f, bits);
      SwapInIs(s, p, f, bits);
      Commit(s, SwapIn(p, f, bits));
    }

    /** The check and claim under `handler_lock`: true if this handler will migrate the page. */
    method TryClaim(va: nat) returns (claimed: bool)
      requires Valid() && va in table && table[va] < |pages|
      modifies this
      ensures Valid() && table == old(table) && |pages| == |old(pages)|
      ensures claimed <==> !old(pages)[table[va]].migrating && old(pages)[table[va]].swappedOut
      ensures claimed ==> trace == old(trace) + [Claim(va)] && View() == Next(old(View()), Claim(va))
      ensures claimed ==> pages == old(pages)[table[va] := old(pages)[table[va]].(migrating := true)]
      ensures On(pages, true, None) == On(old(pages), true, None)
      ensures claimed ==> pages[table[va]].list == Some(DiskActive) && pages[table[va]].va == va
      ensures !claimed ==> View() == old(View()) && trace == old(trace)
    {
      ghost var s := View();
      Sound();
      var p := table[va];
      assert RoleOk(s.pages[p]);
      if pages[p].migrating || !pages[p].swappedOut { return false; }
      pages := pages[p := pages[p].(migrating := true)];
      Commit(s, Claim(va));
      return true;
    }

    /** `lrudisk_detach_page`. */
    method DetachPage(p: Id)
      requires Valid() && p < |pages| && pages[p].list == Some(DiskActive) && pages[p].migrating
      modifies this
      ensures Valid() && trace == old(trace) + [Detach(p)] && table == old(table)
      ensures View() == Next(old(View()), Detach(p)) && pages == old(pages)[p := old(pages)[p].(list := None)]
    {
      ghost var s := View();
      var list := pages[p].list;
      assert list == Some(DiskActive);
      var ok := TryRemove(list, p);
      assert ok;
      Commit(s, Detach(p));
    }

    /** Detach a claimed page and bring it into a frame. */
    method Attach(p: Id, f: Id, bits: Bits)
      requires Valid() && p < |pages| && pages[p].list == Some(DiskActive) && pages[p].migrating
      requires Held(View(), f) && RoleOk(pages[p]) && !pages[p].inDram
      modifies this
      ensures Valid() && Extends(old(trace), trace, Silent) && table == old(table)
      ensures p < |pages| && pages[p].va == old(pages)[p].va && pages[p].va in ram
      ensures pages[p].inDram && !pages[p].migrating && !pages[p].swappedOut
      ensures ComeIn(View(), p, old(pages)[p].offset) && On(pages, true, None) == On(old(pages), true, None) - {f}
    {
      ghost var before := trace;
      assert On(pages[p := pages[p].(list := None)], true, None) == On(pages, true, None);
      DetachPage(p);
      ghost var mid := View();
      BringIn(p, f, bits);
      PagedInComesIn(mid, View(), p, f);
      assert trace == before + [Detach(p), SwapIn(p, f, bits)];
    }

    /** `lrudisk_swapin_external` on a claimed page: fetch a frame, detach the page, bring it in. */
    method SwapInExternal(p: Id, bits: Bits) returns (r: FaultResult)
      requires Valid() && p < |pages| && pages[p].list == Some(DiskActive) && pages[p].migrating
      modifies this
      ensures !r.Waits?
      ensures r.Handled? ==> Valid() && Extends(old(trace), trace, Silent) && table == old(table)
      ensures r.Handled? ==> p < |pages| && pages[p].va == old(pages)[p].va && pages[p].va in ram
      ensures r.Handled? ==> ComeIn(View(), p, old(pages)[p].offset)
      ensures r.Handled? ==> On(pages, true, None) <= On(old(pages), true, None)
      ensures r.Halted? ==> FetchEnds(Fails(r.why), old(trace), old(View()), trace, View())
      ensures r == Halted(Hang) <==> !CanFetch(old(View()))
      ensures r == Halted(OutOfMemory) <==> Starved(old(View()))
    {
      ghost var (before, s) := (trace, View());
      assert RoleOk(pages[p]) by { Sound(); }
      var fetched := FetchFree();
      if fetched.Fails? { return Halted(fetched.why); }
      FetchingSettles(dramSize, diskSize, before, trace, s, View());
      assert Still(s.pages[p]);
      Attach(p, fetched.frame, bits);
      return Handled;
    }

    /** `handle_missing_fault`: claim the page or leave it to whoever has it. It needs a frame
        only if it claims the page. */
    method HandleMissingFault(va: nat, bits: Bits) returns (r: FaultResult)
      requires Valid() && va in table && table[va] < |pages|
      modifies this
      ensures r.Waits? <==> old(pages)[old(table)[va]].migrating || !old(pages)[old(table)[va]].swappedOut
      ensures r.Waits? ==> View() == old(View()) && trace == old(trace)
      ensures r.Handled? ==> Valid() && Extends(old(trace), trace, Silent) && table == old(table)
      ensures r.Handled? ==> Resident(View(), va) && ComeIn(View(), table[va], old(pages)[old(table)[va]].offset)
      ensures r.Handled? ==> On(pages, true, None) <= On(old(pages), true, None)
      ensures r.Halted? ==> Halts(r.why, old(trace), old(View()), trace, View())
      ensures r == Halted(Hang) <==> !r.Waits? && !CanFetch(old(View()))
      ensures r == Halted(OutOfMemory) <==> !r.Waits? && Starved(old(View()))
    {
      ghost var (before, s) := (trace, View());
      var p := table[va];
      var claimed := TryClaim(va);
      if !claimed { return Waits; }
      AlikeFetch(s, View());
      ghost var (from, mid) := (trace, View());
      r := SwapInExternal(p, bits);
      if r.Halted? { HaltedSince(r.why, before, s, from, mid, trace, View()); }
    }

    /** `handle_first_fault`: map a zero page, unless another handler mapped it meanwhile. */
    method HandleFirstFault(va: nat, bits: Bits) returns (r: FaultResult)
      requires Valid() && va != 0 && va % PAGE_SIZE == 0
      modifies this
      ensures !r.Halted? ==> Valid() && table.Keys == old(table).Keys + {va}
      ensures r.Handled? ==> va !in old(table) && Bytes(View(), va) == Some(ZeroPage())
      ensures r.Waits? ==> va in old(table) && Extends(old(trace), trace, Silent)
      ensures r.Handled? ==> Extends(old(trace), trace[..|trace| - 1], Silent)
      ensures r.Handled? ==> exists f :: trace[|trace| - 1] == FirstTouch(f, va, bits)
      ensures r.Handled? ==> lists.At(Inactive) != [] && table[va] == lists.At(Inactive)[|lists.At(Inactive)| - 1]
      ensures !r.Halted? ==> On(pages, true, None) <= On(old(pages), true, None)
      ensures r.Halted? ==> FetchEnds(Fails(r.why), old(trace), old(View()), trace, View())
      ensures r == Halted(Hang) <==> !CanFetch(old(View()))
      ensures r == Halted(OutOfMemory) <==> Starved(old(View()))
    {
      var fetched := Pagefault();
      if fetched.Fails? { return Halted(fetched.why); }
      var f := fetched.frame;
      if va in table {
        PutBack(f);
        return Waits;
      }
      MapZero(f, va, bits);
      return Handled;
    }

    /** `lrudisk_put_page_free`. */
    method PutBack(f: Id)
      requires Valid() && Held(View(), f)
      modifies this
      ensures Valid() && trace == old(trace) + [PutFrame(f)] && table == old(table)
      ensures PutAside(old(View()), View(), f)
    {
      ghost var s := View();
      assert pages[f].list == None && pages[f].va == 0;
      assert PutAside(s, Next(s, PutFrame(f)), f) by {
        Sound();
        PutFlow(s, f);
      }
      Enqueue(DramFree, f);
      Commit(s, PutFrame(f));
    }

    method CopyZero(f: Id, va: nat, bits: Bits)
      requires Inv(View()) && Held(View(), f)
      modifies this`pages, this`lists, this`table, this`ram, this`accessed, this`dirty
      ensures View() == ZeroMapped(old(View()), f, va, bits)
    {
      ghost var s := View();
      assert pages[f].va == 0;
      pages := pages[f := pages[f].(va := va, migrating := true, swappedOut := false)];
      table := table[va := f];
      assert pages[f].inDram by { assert RoleOk(s.pages[f]); }
      ram := ram[va := ZeroPage()];
      accessed := if bits.accessed then accessed + {va} else accessed - {va};
      dirty := if bits.dirty then dirty + {va} else dirty - {va};
      pages := pages[f := pages[f].(migrating := false, swappedOut := false)];
      Enqueue(Inactive, f);
      assert pages == MappedPages(s.pages, f, va);
    }

    method MapZero(f: Id, va: nat, bits: Bits)
      requires Valid() && Held(View(), f) && va != 0 && va % PAGE_SIZE == 0 && va !in table
      modifies this
      ensures Valid() && trace == old(trace) + [FirstTouch(f, va, bits)]
      ensures table == old(table)[va := f] && Bytes(View(), va) == Some(ZeroPage())
      ensures PutToUse(old(View()), View(), f)
    {
      ghost var s := View();
      Sound();
      TouchFlow(s, f, va, bits);
      CopyZero(f, va, bits);
      FirstTouchIs(s, f, va, bits);
      Commit(s, FirstTouch(f, va, bits));
    }

    // --------------------------------------------------------------- prefetch

    /** Claim a swapped-out page and take it off the disk list. */
    method ClaimAndDetach(va: nat) returns (r: Option<Id>)
      requires Valid()
      modifies this
      ensures Valid() && table == old(table) && |pages| == |old(pages)|
      ensures r.None? <==> !Enabled(old(View()), Claim(va))
      ensures r.None? ==> View() == old(View()) && trace == old(trace)
      ensures r.Some? ==> trace == old(trace) + [Claim(va), Detach(r.value)]
      ensures r.Some? ==> Claimed(old(View()), View(), r.value, va) && FetchAlike(old(View()), View())
    {
      ghost var s := View();
      if va !in table { return None; }
      assert table[va] < |pages| by { Sound(); }
      var p := table[va];
      var claimed := TryClaim(va);
      if !claimed { return None; }
      DetachPage(p);
      assert trace == old(trace) + [Claim(va), Detach(p)];
      RunInv(dramSize, diskSize, old(trace));
      Withdrawn(s, va);
      return Some(p);
    }

    /** One page of the first loop of `core_try_prefetch`. */
    method PrefetchOne(va: nat, ghost js: seq<Job>) returns (r: PrefetchResult)
      requires Valid() && JobsOk(pages, js, 0)
      modifies this
      ensures r.Skip? <==> !Enabled(old(View()), Claim(va))
      ensures r.Skip? ==> View() == old(View()) && trace == old(trace)
      ensures r.Got? ==> Valid() && Extends(old(trace), trace, Silent) && table == old(table)
      ensures r.Got? ==> JobsOk(pages, js + [r.job], 0) && Vas(pages, js + [r.job]) == Vas(old(pages), js) + [va]
      ensures r.Got? ==> InHand(View()) <= InHand(old(View())) + {r.job.frame}
      ensures r.Got? ==> forall u :: u != va && Enabled(old(View()), Claim(u)) ==> Enabled(View(), Claim(u))
      ensures r == Dead(NoSlot) ==> |old(table)| > diskSize / PAGE_SIZE && Blocked(dramSize, diskSize, old(trace))
      ensures r.Dead? && r.why != NoSlot ==> Valid() && Extends(old(trace), trace, Silent) && table == old(table)
      ensures r.Dead? && r.why != NoSlot ==> Bare(View()) && RanDry(r.why, dramSize, diskSize, old(trace), trace, va)
    {
      ghost var (before, s) := (trace, View());
      var p := ClaimAndDetach(va);
      if p.None? { return Skip; }
      r := FrameFor(p.value, va, js, s, before);
    }

    /** Fetch the frame for a page claimed and detached. */
    method FrameFor(p: Id, ghost va: nat, ghost js: seq<Job>, ghost s: State, ghost before: seq<Step>)
      returns (r: PrefetchResult)
      requires Valid() && Run(dramSize, diskSize, before) == Some(s) && JobsOk(s.pages, js, 0)
      requires trace == before + [Claim(va), Detach(p)] && table == s.table && Claimed(s, View(), p, va)
      requires InHand(View()) == InHand(s)
      modifies this
      ensures !r.Skip?
      ensures r.Got? ==> Valid() && Extends(before, trace, Silent) && table == s.table
      ensures r.Got? ==> JobsOk(pages, js + [r.job], 0) && Vas(pages, js + [r.job]) == Vas(s.pages, js) + [va]
      ensures r.Got? ==> InHand(View()) <= InHand(s) + {r.job.frame}
      ensures r.Got? ==> forall u :: u != va && Enabled(s, Claim(u)) ==> Enabled(View(), Claim(u))
      ensures r == Dead(NoSlot) ==> |s.table| > diskSize / PAGE_SIZE && Blocked(dramSize, diskSize, before)
      ensures r.Dead? && r.why != NoSlot ==> Valid() && Extends(before, trace, Silent) && table == s.table
      ensures r.Dead? && r.why != NoSlot ==> Bare(View()) && RanDry(r.why, dramSize, diskSize, before, trace, va)
    {
      ghost var (from, mid) := (trace, View());
      var f := Pagefault();
      if f.Fails? {
        if f.why != NoSlot {
          DriedUp(f.why, before, from, mid, trace, View(), p, va);
        } else {
          ClaimExtends(before, from, from, p, va);
          NoRoomBlocks(dramSize, diskSize, from);
          BlockedSince(dramSize, diskSize, before, from);
        }
        return Dead(f.why);
      }
      r := Got(Job(p, f.frame));
      ClaimExtends(before, from, trace, p, va);
      RunInv(dramSize, diskSize, before);
      PairedJob(s, mid, View(), p, f.frame, va, js);
    }

    /** One turn of that loop, seen from where it began. */
    method GatherOne(base: nat, va: nat, jobs: seq<Job>, ghost before: seq<Step>, ghost s: State)
      returns (r: PrefetchResult)
      requires Valid() && Run(dramSize, diskSize, before) == Some(s) && Extends(before, trace, Silent)
      requires Gathered(s, View(), base, jobs) && va == Following(base, |jobs|)
      modifies this
      ensures r.Skip? ==> View() == old(View()) && trace == old(trace) && !Enabled(s, Claim(va))
      ensures r.Got? ==> Valid() && Extends(before, trace, Silent) && Gathered(s, View(), base, jobs + [r.job])
      ensures r == Dead(NoSlot) ==> |s.table| > diskSize / PAGE_SIZE && Blocked(dramSize, diskSize, before)
      ensures r.Dead? && r.why != NoSlot ==> Valid() && Extends(before, trace, Silent) && table == s.table
      ensures r.Dead? && r.why != NoSlot ==> Bare(View()) && RanDry(r.why, dramSize, diskSize, before, trace, va)
    {
      ghost var (from, mid) := (trace, View());
      r := PrefetchOne(va, jobs);
      match r
      case Skip =>
      case Got(job) => GatherMore(s, mid, View(), base, jobs, job);
      case Dead(why) =>
        if why != NoSlot {
          RanDryLater(why, dramSize, diskSize, before, from, trace, va);
        } else {
          BlockedSince(dramSize, diskSize, before, from);
        }
    }

    /** The first loop of `core_try_prefetch`: claim and detach following pages, a frame for each. */
    method Gather(base: nat) returns (jobs: seq<Job>, dead: Option<Failure>)
      requires Valid()
      modifies this
      ensures |jobs| <= CORE_PREFETCH_RATE
      ensures dead.None? ==> Valid() && Extends(old(trace), trace, Silent) && Gathered(old(View()), View(), base, jobs)
      ensures dead.None? && |jobs| < CORE_PREFETCH_RATE ==> !Enabled(old(View()), Claim(Following(base, |jobs|)))
      ensures dead == Some(NoSlot) ==> |old(table)| > diskSize / PAGE_SIZE && Blocked(dramSize, diskSize, old(trace))
      ensures dead.Some? && dead != Some(NoSlot)
        ==> Valid() && Extends(old(trace), trace, Silent) && table == old(table)
      ensures dead.Some? && dead != Some(NoSlot)
        ==> Bare(View()) && RanDry(dead.value, dramSize, diskSize, old(trace), trace, Following(base, |jobs|))
    {
      ghost var (before, s) := (trace, View());
      jobs, dead := [], None;
      var va := base;
      var more := true;
      GatherStarts(s, base);
      while |jobs| < CORE_PREFETCH_RATE && more
        invariant Valid() && Extends(before, trace, Silent) && Gathered(s, View(), base, jobs)
        invariant |jobs| <= CORE_PREFETCH_RATE && (more ==> va == base + |jobs| * PAGE_SIZE)
        invariant !more && |jobs| < CORE_PREFETCH_RATE ==> !Enabled(s, Claim(Following(base, |jobs|)))
        decreases CORE_PREFETCH_RATE - |jobs|, more
      {
        va := va + PAGE_SIZE;
        FollowsOn(base, |jobs|);
        var r := GatherOne(base, va, jobs, before, s);
        match r
        case Dead(why) => return jobs, Some(why);
        case Skip => more := false;
        case Got(job) => jobs := jobs + [job];
      }
    }

    /** `core_try_prefetch`, synchronous branch: claim and detach following pages while they
        are swapped out, then map each over its frame. Every page of the run that could be
        claimed at the start is resident at the end, and it stops short of the window only at
        a page that could not. */
    method TryPrefetch(base: nat, bits: Bits) returns (n: nat, dead: Option<Failure>)
      requires Valid()
      modifies this
      ensures dead.None? ==> Valid() && Extends(old(trace), trace, Silent) && table == old(table)
      ensures dead.None? ==> forall k :: 0 <= k < n ==> Resident(View(), Following(base, k))
      ensures dead.None? ==> On(pages, true, None) <= On(old(pages), true, None)
      ensures dead.None? ==> ClaimableRun(old(View()), base, 0) <= n <= 32
      ensures dead.None? && n < 32 ==> !Enabled(old(View()), Claim(Following(base, n)))
      ensures dead == Some(NoSlot) ==> |old(table)| > diskSize / PAGE_SIZE && Blocked(dramSize, diskSize, old(trace))
      ensures dead.Some? && dead != Some(NoSlot)
        ==> Valid() && Extends(old(trace), trace, Silent) && table == old(table)
      ensures dead.Some? && dead != Some(NoSlot)
        ==> Bare(View()) && RanDry(dead.value, dramSize, diskSize, old(trace), trace, Following(base, n))
    {
      ghost var s := View();
      var jobs;
      jobs, dead := Gather(base);
      n := |jobs|;
      if dead.Some? { return; }
      RunStops(s, base, 0, n);
      ghost var vas := Vas(pages, jobs);
      MapJobs(jobs, bits);
      forall k | 0 <= k < n ensures Resident(View(), Following(base, k)) {
        assert vas[k] == Following(base, k);
      }
    }

    method MapJob(p: Id, f: Id, bits: Bits)
      requires Valid() && Detached(View(), p) && Held(View(), f)
      modifies this
      ensures Valid() && trace == old(trace) + [SwapIn(p, f, bits)] && table == old(table)
      ensures pages == JoinedPages(old(pages), p, f) && ram.Keys == old(ram).Keys + {pages[p].va}
      ensures InHand(View()) == InHand(old(View())) - {f}
    {
      BringIn(p, f, bits);
    }

    /** The acknowledge loop: each page takes its frame and leaves its slot as reserve. */
    method MapJobs(jobs: seq<Job>, bits: Bits)
      requires Valid() && JobsOk(pages, jobs, 0)
      modifies this
      ensures Valid() && Extends(old(trace), trace, Silent) && table == old(table)
      ensures forall k :: 0 <= k < |jobs| ==> Resident(View(), Vas(old(pages), jobs)[k])
      ensures InHand(View()) == InHand(old(View())) - Frames(jobs)
    {
      ghost var (vas, hands) := (Vas(pages, jobs), InHand(View()));
      assert jobs[..0] == [];
      for i := 0 to |jobs|
        invariant Valid() && Extends(old(trace), trace, Silent) && table == old(table)
        invariant JobsOk(pages, jobs, i) && JobsDone(pages, ram.Keys, jobs, vas, i)
        invariant InHand(View()) == hands - Frames(jobs[..i])
      {
        ghost var (before, there) := (pages, ram.Keys);
        MapJob(jobs[i].page, jobs[i].frame, bits);
        DropJob(before, pages, there, jobs, vas, i);
        FramesPrefix(hands, jobs, i);
      }
      assert jobs[..|jobs|] == jobs;
      Sound();
      AllResident(View(), jobs, vas);
    }

    // ------------------------------------------------------------------ unmap

    /** Give up the reserve of a page being freed. */
    method DropReserve(p: Id)
      requires p < |pages| && pages[p].hasReserve && pages[p].reserve.Some?
      requires pages[p].reserve.value < |pages| && pages[p].reserve.value != p
      requires pages[pages[p].reserve.value].reserve == Some(p)
        && pages[pages[p].reserve.value].list == Some(DiskReserve)
      modifies this`pages, this`lists
      ensures var r := old(pages)[p].reserve.value;
        && pages == old(pages)[r := Unreserved(old(pages)[r])]
                              [p := old(pages)[p].(hasReserve := false, reserve := None)]
        && lists == Move(old(lists), r, Some(DiskReserve), Some(DiskFree))
    {
      var r := pages[p].reserve.value;
      assert pages[r].reserve == Some(p);
      assert pages[r].list == Some(DiskReserve);
      var ok := TryRemove(pages[r].list, r);
      assert ok;
      pages := pages[r := pages[r].(hasReserve := false, reserve := None, present := false)];
      Enqueue(DiskFree, r);
      pages := pages[p := pages[p].(hasReserve := false, reserve := None)];
    }

    /** Put a page that is off every list on the free list of its side. */
    method ReleasePage(p: Id)
      requires p < |pages| && pages[p].list == None && (pages[p].hasReserve ==> pages[p].reserve.Some?)
      requires !pages[p].inDram ==> pages[p].swappedOut
      requires pages[p].inDram && pages[p].hasReserve ==>
        var r := pages[p].reserve.value;
        r < |pages| && r != p && pages[r].reserve == Some(p) && pages[r].list == Some(DiskReserve)
      requires !pages[p].hasReserve ==> pages[p].reserve == None
      modifies this`pages, this`lists
      ensures var (d, reserved) := (old(pages)[p], old(pages)[p].inDram && old(pages)[p].hasReserve);
        && pages == (if reserved then old(pages)[d.reserve.value := Unreserved(old(pages)[d.reserve.value])]
                     else old(pages))[p := Unmapped(d).(va := d.va, present := d.present, migrating := d.migrating)]
        && lists == Join(if reserved then Move(old(lists), d.reserve.value, Some(DiskReserve), Some(DiskFree))
                         else old(lists), p, if d.inDram then Some(DramFree) else Some(DiskFree))
    {
      if pages[p].inDram {
        if pages[p].hasReserve {
          DropReserve(p);
        }
        Enqueue(DramFree, p);
      } else {
        assert pages[p].swappedOut;
        pages := pages[p := pages[p].(hasReserve := false, reserve := None)];
        Enqueue(DiskFree, p);
      }
    }

    /** Take the page's descriptor off its list and free it, with its reserve. */
    method FreeDescriptor(p: Id, ghost s: State, ghost va: nat)
      requires Removable(s, va) && p == s.table[va] && pages == s.pages && lists == s.lists
      modifies this`pages, this`lists
      ensures pages == UnmapOne(s, va).pages && lists == UnmapOne(s, va).lists
    {
      ghost var home := pages[p].list.value;
      var ok := TryRemove(pages[p].list, p);
      assert ok;
      pages := pages[p := pages[p].(migrating := true, present := false, va := 0)];
      ReleasePage(p);
      pages := pages[p := pages[p].(migrating := false)];
      assert pages == (if s.pages[p].hasReserve
                       then s.pages[s.pages[p].reserve.value := Unreserved(s.pages[s.pages[p].reserve.value])]
                       else s.pages)[p := Unmapped(s.pages[p])];
      UnmapLists(s.lists, p, home, s.pages[p]);
      UnmapFields(s, va);
    }

    /** `lrudisk_remove_page` after `remove_page`. */
    method RemovePage(va: nat, ghost s: State)
      requires View() == s && Removable(s, va)
      modifies this`pages, this`lists, this`table, this`ram, this`accessed, this`dirty
      ensures View() == UnmapOne(s, va)
    {
      var p := table[va];
      table := table - {va};
      FreeDescriptor(p, s, va);
      ram, accessed, dirty := ram - {va}, accessed - {va}, dirty - {va};
    }

    method UnmapPage(va: nat)
      requires Valid() && va in table && !Migrating(View(), va)
      modifies this
      ensures Valid() && trace == old(trace) + [Unmap(va)] && table == old(table) - {va}
      ensures SetFree(old(View()), View(), old(table)[va])
      ensures forall u :: u in table ==>
        Bytes(View(), u) == Bytes(old(View()), u) && Migrating(View(), u) == Migrating(old(View()), u)
    {
      ghost var s := View();
      Sound();
      UnmapReady(s, va);
      UnmapFlow(s, va);
      RemovePage(va, s);
      UnmapEffect(s, va);
      Commit(s, Unmap(va));
    }

    /** `extmem_munmap`: every page of the range is freed, with its reserve, and no other page
        is touched. It waits at the first page of the range that is being migrated, if there
        is one, with the pages before it freed. */
    method Munmap(addr: nat, length: nat) returns (waits: Option<nat>)
      requires Valid()
      modifies this
      ensures Valid() && (waits.None? <==> Quiet(old(View()), addr, addr + length))
      ensures waits.None? ==> Cleared(old(View()), View(), addr, addr + length)
      ensures waits.Some? ==> InUnmapRange(waits.value, addr, addr + length) && Migrating(View(), waits.value)
      ensures waits.Some? ==> Cleared(old(View()), View(), addr, waits.value) && Quiet(old(View()), addr, waits.value)
    {
      var b := addr;
      ghost var (s0, end) := (View(), addr + length);
      while b < addr + length
        invariant Valid() && Unmapping(s0, View(), addr, b) && b < end + PAGE_SIZE
        decreases addr + length - b
      {
        ghost var s := View();
        var ok := UnmapIfMapped(b);
        if !ok {
          UnmapWaits(s0, s, addr, b, end);
          return Some(b);
        }
        UnmapMore(s0, s, View(), addr, b);
        b := b + PAGE_SIZE;
      }
      UnmapDone(s0, View(), addr, b, end);
      return None;
    }

    method UnmapIfMapped(va: nat) returns (ok: bool)
      requires Valid()
      modifies this
      ensures Valid() && (ok <==> !Migrating(old(View()), va)) && (!ok ==> View() == old(View()))
      ensures InHand(View()) == InHand(old(View()))
      ensures ok ==> forall u :: u in table <==> u in old(table) && u != va
      ensures ok ==> forall u :: u in table ==>
        Bytes(View(), u) == Bytes(old(View()), u) && Migrating(View(), u) == Migrating(old(View()), u)
    {
      if va !in table { return true; }
      assert table[va] < |pages| by { Sound(); }
      if pages[table[va]].migrating { return false; }
      UnmapPage(va);
      return true;
    }
  }
}
