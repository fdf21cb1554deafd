/** The pager with the remote page store as its swap device: an eviction that writes back is
    a write of the store, and a swap-in maps what a read of the store brings back. */
module RemoteSwap {
  import opened Common
  import opened Queues
  import opened Pager
  import opened PagerInvariant
  import opened FlatMemory
  import Allocator
  import Conservation
  import Relocation
  import RemoteStore

  type Device = seq<RemoteStore.Step>

  /** The pager and the requests it has made of the device. */
  datatype Joint = Joint(pager: State, device: Device)

  /** Every swap slot is an offset of the device, and the device has an entry for each. */
  predicate Fits(diskSize: nat) {
    diskSize <= Relocation.LOCAL_HEAP_BASE && diskSize / PAGE_SIZE <= RemoteStore.REGIONS
  }

  predicate Sound(memory: seq<Byte>, clock: seq<nat>) {
    |memory| == Allocator.SIZE && forall i :: 0 <= i < |clock| ==> clock[i] < WORD - 1
  }

  /** The store after these requests, which found it empty in an arena of its own. */
  ghost function Served(memory: seq<Byte>, device: Device): Option<(RemoteStore.Store, seq<RemoteStore.Put>)> {
    RemoteStore.Exec(Allocator.Fresh(), memory, device)
  }

  /** What a read of the device at this offset maps. */
  ghost function Brought(memory: seq<Byte>, device: Device, off: nat): Option<Page> {
    match Served(memory, device)
    case None => None
    case Some(r) =>
      match RemoteStore.Fetch(r.0, off)
      case None => None
      case Some(page) => Some(RemoteStore.Unpacked(page))
  }

  // --------------------------------------------------------------------- steps

  /** The slot that a step writes, with the page. */
  function Written(s: State, step: Step): Option<(nat, Page)>
    requires Enabled(s, step)
  {
    if !step.Evict? then None
    else
      var v := s.lists.At(Eviction)[0];
      if WriteBack(s, v) then Some((s.pages[Target(s, v).value].offset, s.ram[s.pages[v].va])) else None
  }

  function Requests(s: State, step: Step, now: nat): Device
    requires Enabled(s, step)
  {
    var w := Written(s, step);
    if w.Some? && w.value.0 + PAGE_SIZE <= Relocation.LOCAL_HEAP_BASE then
      [RemoteStore.Writing(w.value.0, RemoteStore.Packed(w.value.1), now)]
    else if step.SwapIn? && s.pages[step.page].offset + PAGE_SIZE <= Relocation.LOCAL_HEAP_BASE then
      [RemoteStore.Reading(s.pages[step.page].offset, now)]
    else []
  }

  /** The pager's part of a step, with `bytes` for a page swapped in. */
  function Mapped(s: State, step: Step, bytes: Page): State
    requires Enabled(s, step)
  {
    if step.SwapIn? then SwapInTo(s, step.page, step.frame, step.bits, bytes) else Next(s, step)
  }

  ghost function JointNext(memory: seq<Byte>, j: Joint, step: Step, now: nat): Option<Joint> {
    if !Enabled(j.pager, step) then None
    else
      var device := j.device + Requests(j.pager, step, now);
      if !step.SwapIn? then Some(Joint(Next(j.pager, step), device))
      else
        match Brought(memory, j.device, j.pager.pages[step.page].offset)
        case None => None
        case Some(bytes) => Some(Joint(Mapped(j.pager, step, bytes), device))
  }

  /** A run over the remote store from start-up. */
  ghost function JointRun(dramSize: nat, diskSize: nat, memory: seq<Byte>, steps: seq<Step>,
                          clock: seq<nat>): Option<Joint>
    requires |clock| >= |steps|
  {
    if steps == [] then Some(Joint(Init(dramSize, diskSize), []))
    else
      match JointRun(dramSize, diskSize, memory, steps[..|steps| - 1], clock)
      case None => None
      case Some(j) => JointNext(memory, j, steps[|steps| - 1], clock[|steps| - 1])
  }

  // ----------------------------------------------------------------- agreement

  /** The last page written for each slot is the page of the slot, packed. */
  ghost predicate Holds(store: map<nat, Page>, log: seq<RemoteStore.Put>) {
    var last := RemoteStore.LastWrites(log);
    last.Keys == store.Keys && forall off :: off in store ==> last[off] == RemoteStore.Packed(store[off])
  }

  ghost predicate Agreed(memory: seq<Byte>, store: map<nat, Page>, device: Device) {
    && Served(memory, device).Some? && Holds(store, Served(memory, device).value.1)
    && (forall i :: 0 <= i < |device| ==> RemoteStore.OwnStep(device[i]))
  }

  ghost predicate Agrees(memory: seq<Byte>, j: Joint) { Agreed(memory, j.pager.store, j.device) }

  /** Only swap slots are ever written. */
  ghost predicate InSlots(diskSize: nat, store: map<nat, Page>) {
    forall off :: off in store ==> off % PAGE_SIZE == 0 && off + PAGE_SIZE <= diskSize
  }

  lemma StoreNext(s: State, step: Step)
    requires Enabled(s, step)
    ensures var w := Written(s, step);
      Next(s, step).store == if w.Some? then s.store[w.value.0 := w.value.1] else s.store
  {
  }

  lemma WrittenInRange(s: State, step: Step)
    requires Inv(s) && Enabled(s, step) && Written(s, step).Some?
    ensures var off := Written(s, step).value.0; off % PAGE_SIZE == 0 && off + PAGE_SIZE <= s.diskSize
  {
    EvictPair(s, step.keep);
    assert InRange(s.dramSize, s.diskSize, s.pages[Target(s, s.lists.At(Eviction)[0]).value]);
  }

  lemma SwappedInRange(s: State, step: Step)
    requires Inv(s) && Enabled(s, step) && step.SwapIn?
    ensures s.pages[step.page].offset in s.store && s.pages[step.page].offset + PAGE_SIZE <= s.diskSize
  {
    assert RoleOk(s.pages[step.page]) && InRange(s.dramSize, s.diskSize, s.pages[step.page]);
  }

  lemma SameSizes(s: State, step: Step)
    requires Enabled(s, step)
    ensures Next(s, step).dramSize == s.dramSize && Next(s, step).diskSize == s.diskSize
  {
  }

  lemma {:induction false} RunInSlots(dramSize: nat, diskSize: nat, steps: seq<Step>)
    requires Run(dramSize, diskSize, steps).Some?
    ensures var s := Run(dramSize, diskSize, steps).value; s.diskSize == diskSize && InSlots(diskSize, s.store)
  {
    if steps != [] {
      var (front, step) := (steps[..|steps| - 1], steps[|steps| - 1]);
      RunInSlots(dramSize, diskSize, front);
      RunInv(dramSize, diskSize, front);
      var s := Run(dramSize, diskSize, front).value;
      StoreNext(s, step);
      SameSizes(s, step);
      if Written(s, step).Some? { WrittenInRange(s, step); }
    }
  }

  /** There are no more slots than entries. */
  lemma SlotsFit(diskSize: nat, store: map<nat, Page>)
    requires InSlots(diskSize, store) && Fits(diskSize)
    ensures |store| <= RemoteStore.REGIONS
  {
    var n := diskSize / PAGE_SIZE;
    var slots := set i | 0 <= i < n :: i * PAGE_SIZE;
    SlotCount(n);
    forall off | off in store ensures off in slots { assert off == off / PAGE_SIZE * PAGE_SIZE; }
    Conservation.SubsetCard(store.Keys, slots);
  }

  lemma {:induction false} SlotCount(n: nat)
    ensures |set i | 0 <= i < n :: i * PAGE_SIZE| <= n
  {
    if n > 0 {
      SlotCount(n - 1);
      var (less, all) := (set i | 0 <= i < n - 1 :: i * PAGE_SIZE, set i | 0 <= i < n :: i * PAGE_SIZE);
      assert all <= less + {(n - 1) * PAGE_SIZE};
      Conservation.SubsetCard(all, less + {(n - 1) * PAGE_SIZE});
    }
  }

  /** A write to a store with the arena to itself succeeds. */
  lemma WriteServed(memory: seq<Byte>, device: Device, off: RemoteStore.Offset, page: Page, now: nat)
    requires Served(memory, device).Some? && now < WORD - 1
    requires forall i :: 0 <= i < |device| ==> RemoteStore.OwnStep(device[i])
    ensures var r := Served(memory, device + [RemoteStore.Writing(off, page, now)]);
      && r.Some?
      && RemoteStore.LastWrites(r.value.1) == RemoteStore.LastWrites(Served(memory, device).value.1)[off := page]
  {
    RemoteStore.AloneNeverRefuses(memory, device, off);
    RemoteStore.WriteRuns(Allocator.Fresh(), memory, device, off, page, now);
    var (s, log) := Served(memory, device).value;
    var put := RemoteStore.PutBy(s, off, page);
    assert (log + [put])[..|log|] == log;
  }

  lemma ReadServed(memory: seq<Byte>, device: Device, off: RemoteStore.Offset, now: nat)
    requires Served(memory, device).Some? && now < WORD - 1
    ensures var r := Served(memory, device + [RemoteStore.Reading(off, now)]);
      r.Some? && r.value.1 == Served(memory, device).value.1
  {
    RemoteStore.ExecGrows(Allocator.Fresh(), memory, device, RemoteStore.Reading(off, now));
  }

  /** A read brings back the page of the slot, packed and unpacked. */
  lemma ReadBringsBack(memory: seq<Byte>, j: Joint, off: nat)
    requires Agrees(memory, j) && InSlots(j.pager.diskSize, j.pager.store) && Fits(j.pager.diskSize)
      && off in j.pager.store
    ensures Brought(memory, j.device, off) == Some(RemoteStore.Unpacked(RemoteStore.Packed(j.pager.store[off])))
  {
    SlotsFit(j.pager.diskSize, j.pager.store);
    var last := RemoteStore.LastWrites(Served(memory, j.device).value.1);
    assert |last| == |last.Keys| == |j.pager.store.Keys| == |j.pager.store|;
    RemoteStore.NothingMissed(Allocator.Fresh(), memory, j.device, off);
  }

  lemma WriteAgrees(memory: seq<Byte>, store: map<nat, Page>, device: Device, off: RemoteStore.Offset, page: Page,
                    now: nat)
    requires Agreed(memory, store, device) && now < WORD - 1
    ensures Agreed(memory, store[off := page], device + [RemoteStore.Writing(off, RemoteStore.Packed(page), now)])
  {
    var t := RemoteStore.Writing(off, RemoteStore.Packed(page), now);
    WriteServed(memory, device, off, RemoteStore.Packed(page), now);
    HoldsWrite(store, Served(memory, device).value.1, Served(memory, device + [t]).value.1, off, page);
  }

  lemma HoldsWrite(store: map<nat, Page>, log: seq<RemoteStore.Put>, log': seq<RemoteStore.Put>, off: nat, page: Page)
    requires Holds(store, log)
      && RemoteStore.LastWrites(log') == RemoteStore.LastWrites(log)[off := RemoteStore.Packed(page)]
    ensures Holds(store[off := page], log')
  {
  }

  lemma ReadAgrees(memory: seq<Byte>, store: map<nat, Page>, device: Device, off: RemoteStore.Offset, now: nat)
    requires Agreed(memory, store, device) && now < WORD - 1
    ensures Agreed(memory, store, device + [RemoteStore.Reading(off, now)])
  {
    ReadServed(memory, device, off, now);
  }

  /** One step keeps pager and device in agreement. */
  lemma StepAgrees(memory: seq<Byte>, j: Joint, step: Step, now: nat)
    requires Inv(j.pager) && Enabled(j.pager, step) && Agrees(memory, j) && now < WORD - 1 && Fits(j.pager.diskSize)
    ensures Agrees(memory, Joint(Next(j.pager, step), j.device + Requests(j.pager, step, now)))
  {
    StoreNext(j.pager, step);
    RequestsAgree(memory, j.pager, j.device, step, now);
  }

  lemma RequestsAgree(memory: seq<Byte>, s: State, device: Device, step: Step, now: nat)
    requires Inv(s) && Enabled(s, step) && Agreed(memory, s.store, device) && now < WORD - 1 && Fits(s.diskSize)
    ensures var w := Written(s, step);
      Agreed(memory, if w.Some? then s.store[w.value.0 := w.value.1] else s.store, device + Requests(s, step, now))
  {
    var w := Written(s, step);
    if w.Some? {
      WrittenInRange(s, step);
      WriteAgrees(memory, s.store, device, w.value.0, w.value.1, now);
    } else if step.SwapIn? {
      SwappedInRange(s, step);
      ReadAgrees(memory, s.store, device, s.pages[step.page].offset, now);
    } else {
      assert device + [] == device;
    }
  }

  // ---------------------------------------------------------------- main results

  predicate Neutral(page: Page) {
    !Relocation.InLocalHeap(Relocation.Tail(page)) && !Relocation.InRemoteHeap(Relocation.Tail(page))
  }

  /** The page that a step of a run swaps in has its last word in neither heap window. */
  ghost predicate GentleAt(dramSize: nat, diskSize: nat, steps: seq<Step>, k: nat)
    requires k < |steps|
  {
    var r := Run(dramSize, diskSize, steps[..k]);
    steps[k].SwapIn? && r.Some? && Enabled(r.value, steps[k]) ==>
      Neutral(r.value.store[r.value.pages[steps[k].page].offset])
  }

  ghost predicate Gentle(dramSize: nat, diskSize: nat, steps: seq<Step>) {
    forall k :: 0 <= k < |steps| ==> GentleAt(dramSize, diskSize, steps, k)
  }

  /** The run over the remote store is the pager's run. */
  ghost predicate Faithful(dramSize: nat, diskSize: nat, memory: seq<Byte>, steps: seq<Step>, clock: seq<nat>)
    requires |clock| >= |steps|
  {
    var (r, s) := (JointRun(dramSize, diskSize, memory, steps, clock), Run(dramSize, diskSize, steps));
    r.Some? && s.Some? && r.value.pager == s.value
  }

  /** A swap-in over the remote store is the pager's own exactly if the page is neutral. */
  lemma SwapInFaithful(s: State, step: Step, bytes: Page)
    requires Enabled(s, step) && step.SwapIn?
      && bytes == RemoteStore.Unpacked(RemoteStore.Packed(s.store[s.pages[step.page].offset]))
    ensures Mapped(s, step, bytes) == Next(s, step) <==> Neutral(s.store[s.pages[step.page].offset])
  {
    var page := s.store[s.pages[step.page].offset];
    RemoteStore.ReadBackIffNeutral(page);
    assert Mapped(s, step, bytes).ram[s.pages[step.page].va] == bytes
      && Next(s, step).ram[s.pages[step.page].va] == page;
  }

  lemma FaithfulNext(dramSize: nat, diskSize: nat, memory: seq<Byte>, steps: seq<Step>, clock: seq<nat>)
    requires Fits(diskSize) && |clock| >= |steps| > 0 && Sound(memory, clock) && Run(dramSize, diskSize, steps).Some?
    requires var front := steps[..|steps| - 1];
      Faithful(dramSize, diskSize, memory, front, clock)
        && Agrees(memory, JointRun(dramSize, diskSize, memory, front, clock).value)
    ensures Faithful(dramSize, diskSize, memory, steps, clock) <==> GentleAt(dramSize, diskSize, steps, |steps| - 1)
    ensures Faithful(dramSize, diskSize, memory, steps, clock)
      ==> Agrees(memory, JointRun(dramSize, diskSize, memory, steps, clock).value)
  {
    var n := |steps| - 1;
    var j := JointRun(dramSize, diskSize, memory, steps[..n], clock).value;
    RunInv(dramSize, diskSize, steps[..n]);
    RunInSlots(dramSize, diskSize, steps[..n]);
    JointStep(memory, j, steps[n], clock[n]);
  }

  lemma JointStep(memory: seq<Byte>, j: Joint, step: Step, now: nat)
    requires Inv(j.pager) && Enabled(j.pager, step) && Agrees(memory, j) && now < WORD - 1
    requires Fits(j.pager.diskSize) && InSlots(j.pager.diskSize, j.pager.store)
    ensures var r := JointNext(memory, j, step, now);
      && r.Some?
      && (r.value.pager == Next(j.pager, step)
        <==> (step.SwapIn? ==> Neutral(j.pager.store[j.pager.pages[step.page].offset])))
      && (r.value.pager == Next(j.pager, step) ==> Agrees(memory, r.value))
  {
    StepAgrees(memory, j, step, now);
    if step.SwapIn? {
      var off := j.pager.pages[step.page].offset;
      SwappedInRange(j.pager, step);
      ReadBringsBack(memory, j, off);
      SwapInFaithful(j.pager, step, Brought(memory, j.device, off).value);
    }
  }

  lemma StartAgrees(dramSize: nat, diskSize: nat, memory: seq<Byte>, clock: seq<nat>)
    requires |memory| == Allocator.SIZE
    ensures Faithful(dramSize, diskSize, memory, [], clock)
    ensures Agrees(memory, JointRun(dramSize, diskSize, memory, [], clock).value)
  {
    Allocator.HistoryIsTiled([]);
  }

  lemma GentlePrefix(dramSize: nat, diskSize: nat, steps: seq<Step>)
    requires steps != []
    ensures var n := |steps| - 1;
      Gentle(dramSize, diskSize, steps) <==>
      Gentle(dramSize, diskSize, steps[..n]) && GentleAt(dramSize, diskSize, steps, n)
  {
    var n := |steps| - 1;
    forall k | 0 <= k < n
      ensures GentleAt(dramSize, diskSize, steps, k) == GentleAt(dramSize, diskSize, steps[..n], k)
    {
      assert steps[..n][..k] == steps[..k] && steps[..n][k] == steps[k];
    }
  }

  /** The run over the remote store is the pager's run up to every point. */
  ghost predicate AllFaithful(dramSize: nat, diskSize: nat, memory: seq<Byte>, steps: seq<Step>, clock: seq<nat>)
    requires |clock| >= |steps|
  {
    forall k :: 0 <= k <= |steps| ==> Faithful(dramSize, diskSize, memory, steps[..k], clock)
  }

  lemma FaithfulPrefix(dramSize: nat, diskSize: nat, memory: seq<Byte>, steps: seq<Step>, clock: seq<nat>)
    requires |clock| >= |steps| > 0
    ensures AllFaithful(dramSize, diskSize, memory, steps, clock)
       <==> (AllFaithful(dramSize, diskSize, memory, steps[..|steps| - 1], clock)
             && Faithful(dramSize, diskSize, memory, steps, clock))
  {
    var n := |steps| - 1;
    assert steps[..n + 1] == steps;
    forall k | 0 <= k <= n ensures steps[..n][..k] == steps[..k] {}
    if AllFaithful(dramSize, diskSize, memory, steps[..n], clock)
      && Faithful(dramSize, diskSize, memory, steps, clock)
    {
      forall k | 0 <= k <= n + 1 ensures Faithful(dramSize, diskSize, memory, steps[..k], clock) {
        if k <= n { assert Faithful(dramSize, diskSize, memory, steps[..n][..k], clock); }
      }
    }
    if AllFaithful(dramSize, diskSize, memory, steps, clock) {
      forall k | 0 <= k <= n ensures Faithful(dramSize, diskSize, memory, steps[..n][..k], clock) {
        assert Faithful(dramSize, diskSize, memory, steps[..k], clock);
      }
    }
  }

  /** Over the remote store, with at most 65536 swap slots, the pager runs as it does over
      its own store, up to every point, exactly if every page swapped in is neutral. */
  lemma {:induction false} RemoteRunIsFaithful(dramSize: nat, diskSize: nat, memory: seq<Byte>, steps: seq<Step>,
                                               clock: seq<nat>)
    requires Fits(diskSize) && |clock| >= |steps| && Sound(memory, clock) && Run(dramSize, diskSize, steps).Some?
    ensures AllFaithful(dramSize, diskSize, memory, steps, clock) <==> Gentle(dramSize, diskSize, steps)
    ensures Gentle(dramSize, diskSize, steps) ==> Faithful(dramSize, diskSize, memory, steps, clock)
    ensures Gentle(dramSize, diskSize, steps)
      ==> Agrees(memory, JointRun(dramSize, diskSize, memory, steps, clock).value)
  {
    if steps == [] {
      StartAgrees(dramSize, diskSize, memory, clock);
      assert steps[..0] == [];
    } else {
      RemoteRunIsFaithful(dramSize, diskSize, memory, steps[..|steps| - 1], clock);
      GentlePrefix(dramSize, diskSize, steps);
      FaithfulPrefix(dramSize, diskSize, memory, steps, clock);
      if Gentle(dramSize, diskSize, steps[..|steps| - 1]) { FaithfulNext(dramSize, diskSize, memory, steps, clock); }
    }
  }

  /** So then the remote store, too, gives a flat memory. */
  lemma RemoteMemoryIsFlat(dramSize: nat, diskSize: nat, memory: seq<Byte>, steps: seq<Step>, clock: seq<nat>,
                           addr: nat)
    requires Fits(diskSize) && |clock| >= |steps| && Sound(memory, clock)
    requires Run(dramSize, diskSize, steps).Some? && Gentle(dramSize, diskSize, steps)
    ensures JointRun(dramSize, diskSize, memory, steps, clock).Some?
    ensures Read(JointRun(dramSize, diskSize, memory, steps, clock).value.pager, addr) == LastByte(steps, addr)
  {
    RemoteRunIsFaithful(dramSize, diskSize, memory, steps, clock);
    PagedMemoryIsFlat(dramSize, diskSize, steps, addr);
  }
}
