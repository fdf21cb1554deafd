/** The page descriptors of the disk policy, the steps that move them, and the
    invariant every step keeps. The handlers and workers of `SwapManager` are sequences
    of steps, and a run is any interleaving of steps. A step is not divided further:
    an eviction and a swap-in are one step each here, and `ClaimProtocol` has the steps
    inside them, for one page. */
module Pager {
  import opened Common
  import opened Queues

  /** One `struct user_page`. `list` is the list it is on. */
  datatype Desc = Desc(
    va: nat, offset: nat,
    inDram: bool, swappedOut: bool, migrating: bool, present: bool,
    hasReserve: bool, reserve: Option<Id>,
    naccesses: nat, list: Option<ListName>)

  /** `ram` is what the page tables map, with the accessed and dirty bits beside it;
      `store` is the swap device by byte offset. */
  datatype State = State(
    dramSize: nat, diskSize: nat,
    pages: seq<Desc>, lists: Lists, table: map<nat, Id>,
    ram: map<nat, Page>, accessed: set<nat>, dirty: set<nat>,
    store: map<nat, Page>)

  datatype Step =
    | Load(va: nat)
    | Store(addr: nat, byte: Byte)
    | Cool
    | Scan
    | Evict(keep: bool)
    | TakeFrame
    | Protect(frame: Id)
    | PutFrame(frame: Id)
    | FirstTouch(frame: Id, va: nat, bits: Bits)
    | Claim(va: nat)
    | Detach(page: Id)
    | SwapIn(page: Id, frame: Id, bits: Bits)
    | Unmap(va: nat)

  /** The bits the kernel leaves on a page it has just copied in. */
  datatype Bits = Bits(accessed: bool, dirty: bool)

  function Poke(p: Page, i: nat, b: Byte): Page
    requires i < PAGE_SIZE
  {
    p[i := b]
  }

  function PageOf(addr: nat): nat { addr - addr % PAGE_SIZE }

  // ---------------------------------------------------------------- invariant

  function Homes(pages: seq<Desc>): (r: seq<Option<ListName>>)
    ensures |r| == |pages|
    ensures forall i :: 0 <= i < |pages| ==> r[i] == pages[i].list
  {
    seq(|pages|, i requires 0 <= i < |pages| => pages[i].list)
  }

  /** The physical place a descriptor stands for. */
  function Slot(d: Desc): (bool, nat) { (d.inDram, d.offset) }

  ghost predicate InRange(dramSize: nat, diskSize: nat, d: Desc) {
    d.offset % PAGE_SIZE == 0 && d.offset + PAGE_SIZE <= if d.inDram then dramSize else diskSize
  }

  ghost predicate SlotsOk(dramSize: nat, diskSize: nat, pages: seq<Desc>) {
    && |pages| == dramSize / PAGE_SIZE + diskSize / PAGE_SIZE
    && (forall i :: 0 <= i < |pages| ==> InRange(dramSize, diskSize, pages[i]))
    && (forall i, j :: 0 <= i < j < |pages| ==> Slot(pages[i]) != Slot(pages[j]))
  }

  /** The list a descriptor is on fits its flags and its address. Off every list it is
      either a frame held by a handler or a swapped-out page that one has claimed and detached. */
  predicate RoleOk(d: Desc) {
    && !d.present
    && (d.hasReserve <==> d.reserve.Some?)
    && (!d.inDram ==> d.swappedOut)
    && match d.list
       case None =>
         if d.va == 0 then d.inDram && !d.hasReserve else !d.inDram && d.migrating && !d.hasReserve
       case Some(DiskActive) => d.va != 0 && !d.inDram && !d.hasReserve
       case Some(DramFree) => d.va == 0 && d.inDram && !d.hasReserve
       case Some(DiskFree) => d.va == 0 && !d.inDram && !d.hasReserve
       case Some(DiskReserve) => d.va == 0 && !d.inDram && d.hasReserve
       case Some(_) => d.va != 0 && d.inDram && !d.swappedOut && !d.migrating
  }

  ghost predicate RolesOk(pages: seq<Desc>) {
    forall i :: 0 <= i < |pages| ==> RoleOk(pages[i])
  }

  /** Reserve links are mutual and join a resident page to a slot on disk. */
  ghost predicate Linked(pages: seq<Desc>, i: Id)
    requires i < |pages|
  {
    pages[i].reserve.Some? ==>
      var r := pages[i].reserve.value;
      && r < |pages|
      && pages[r].reserve == Some(i)
      && pages[r].inDram != pages[i].inDram
  }

  ghost predicate ReservesOk(pages: seq<Desc>) {
    forall i :: 0 <= i < |pages| ==> Linked(pages, i)
  }

  ghost predicate TableOk(pages: seq<Desc>, table: map<nat, Id>) {
    && (forall i :: 0 <= i < |pages| && pages[i].va != 0 ==>
          pages[i].va in table && table[pages[i].va] == i && pages[i].va % PAGE_SIZE == 0)
    && (forall va :: va in table ==>
          va != 0 && table[va] < |pages| && pages[table[va]].va == va)
  }

  /** Where the bytes are. The last conjunct is what makes skipping a write-back sound. */
  ghost predicate Backed(pages: seq<Desc>, ram: map<nat, Page>, dirty: set<nat>, store: map<nat, Page>, i: Id)
    requires i < |pages|
  {
    var d := pages[i];
    && (d.va != 0 && d.inDram ==> d.va in ram)
    && (!d.inDram && (d.va != 0 || d.reserve.Some?) ==> d.offset in store)
    && (d.va != 0 && d.inDram && d.reserve.Some? && d.va !in dirty ==>
          && d.va in ram && d.reserve.value < |pages|
          && pages[d.reserve.value].offset in store
          && ram[d.va] == store[pages[d.reserve.value].offset])
  }

  ghost predicate MemoryOk(pages: seq<Desc>, ram: map<nat, Page>, dirty: set<nat>, store: map<nat, Page>) {
    forall i :: 0 <= i < |pages| ==> Backed(pages, ram, dirty, store, i)
  }

  ghost predicate Inv(s: State) {
    && SlotsOk(s.dramSize, s.diskSize, s.pages)
    && Filed(s.lists, Homes(s.pages))
    && RolesOk(s.pages)
    && ReservesOk(s.pages)
    && TableOk(s.pages, s.table)
    && MemoryOk(s.pages, s.ram, s.dirty, s.store)
  }

  // -------------------------------------------------------------------- steps

  predicate Held(s: State, f: Id) {
    f < |s.pages| && s.pages[f].list == None && s.pages[f].va == 0
  }

  predicate Detached(s: State, p: Id) {
    p < |s.pages| && s.pages[p].list == None && s.pages[p].va != 0
  }

  predicate Resident(s: State, va: nat) {
    va in s.table && s.table[va] < |s.pages| && s.pages[s.table[va]].inDram && va in s.ram
  }

  /** The slot an eviction of descriptor `v` goes to: its reserve, or the next free one. */
  function Target(s: State, v: Id): (r: Option<Id>)
  {
    if v >= |s.pages| then None
    else if s.pages[v].hasReserve then s.pages[v].reserve
    else if s.lists.At(DiskFree) == [] then None
    else Some(s.lists.At(DiskFree)[0])
  }

  /** When a step can be taken. `Evict` is disabled with no victim, and where the worker
      asserts that a disk page was found. */
  predicate Enabled(s: State, step: Step) {
    match step
    case Load(va) => Resident(s, va)
    case Store(addr, _) => Resident(s, PageOf(addr))
    case Cool => s.lists.At(Active) != [] && s.lists.At(Active)[0] < |s.pages|
    case Scan => s.lists.At(Inactive) != [] && s.lists.At(Inactive)[0] < |s.pages|
    case Evict(_) =>
      && s.lists.At(Eviction) != [] && s.lists.At(Eviction)[0] < |s.pages|
      && var v := s.lists.At(Eviction)[0];
      && s.pages[v].va in s.ram
      && Target(s, v).Some? && Target(s, v).value < |s.pages|
    case TakeFrame => s.lists.At(DramFree) != [] && s.lists.At(DramFree)[0] < |s.pages|
    case Protect(f) => Held(s, f)
    case PutFrame(f) => Held(s, f)
    case FirstTouch(f, va, _) => Held(s, f) && va != 0 && va % PAGE_SIZE == 0 && va !in s.table
    case Claim(va) =>
      && va in s.table && s.table[va] < |s.pages|
      && !s.pages[s.table[va]].migrating && s.pages[s.table[va]].swappedOut
    case Detach(p) => p < |s.pages| && s.pages[p].list == Some(DiskActive) && s.pages[p].migrating
    case SwapIn(p, f, _) => Detached(s, p) && Held(s, f) && s.pages[p].offset in s.store
    case Unmap(va) =>
      && va in s.table && s.table[va] < |s.pages| && !s.pages[s.table[va]].migrating
      && (s.pages[s.table[va]].hasReserve ==>
            s.pages[s.table[va]].reserve.Some? && s.pages[s.table[va]].reserve.value < |s.pages|)
  }

  /** Give descriptor `id` the record `d`, moving it to the list `d` names. */
  function Refile(s: State, id: Id, d: Desc): State
    requires id < |s.pages|
  {
    s.(pages := s.pages[id := d], lists := Move(s.lists, id, s.pages[id].list, d.list))
  }

  /** Set the `migrating` flag; the descriptor stays where it is. */
  function Mark(s: State, id: Id): State
    requires id < |s.pages|
  {
    s.(pages := s.pages[id := s.pages[id].(migrating := true)])
  }

  function SetBits(s: State, va: nat, bits: Bits): State {
    s.(accessed := if bits.accessed then s.accessed + {va} else s.accessed - {va},
       dirty := if bits.dirty then s.dirty + {va} else s.dirty - {va})
  }

  function Zap(s: State, va: nat): State {
    s.(ram := s.ram - {va}, accessed := s.accessed - {va}, dirty := s.dirty - {va})
  }

  /** What a scan decides about the page it visits. */
  datatype Fate = Cold | Promoted | Kept

  function FateOf(s: State, id: Id): Fate
    requires id < |s.pages|
  {
    if s.pages[id].va !in s.accessed then Cold
    else if s.pages[id].naccesses + 1 > 1 then Promoted
    else Kept
  }

  function Destination(fate: Fate): ListName {
    match fate
    case Cold => Eviction
    case Promoted => Active
    case Kept => Inactive
  }

  function Scanned(d: Desc, fate: Fate): Desc {
    d.(naccesses := if fate == Kept then d.naccesses + 1 else 0, list := Some(Destination(fate)))
  }

  /** The accessed bit is cleared; the dirty bit is not touched. */
  function ScanOne(s: State, id: Id): State
    requires id < |s.pages|
  {
    Refile(s.(accessed := s.accessed - {s.pages[id].va}), id, Scanned(s.pages[id], FateOf(s, id)))
  }

  // The records that an eviction and a swap-in leave, each pair trading places.

  function Evicted(d: Desc, e: Desc): Desc {
    d.(offset := e.offset, inDram := false, swappedOut := true, migrating := false,
       hasReserve := false, reserve := None, list := Some(DiskActive))
  }

  function Vacated(e: Desc, d: Desc, keep: bool): Desc {
    e.(offset := d.offset, inDram := true, present := false, hasReserve := false, reserve := None,
       list := if keep then None else Some(DramFree))
  }

  function BroughtIn(d: Desc, e: Desc, f: Id): Desc {
    d.(offset := e.offset, inDram := true, swappedOut := false, migrating := false,
       hasReserve := true, reserve := Some(f), list := Some(Inactive))
  }

  function Reserving(e: Desc, d: Desc, p: Id): Desc {
    e.(offset := d.offset, inDram := false, swappedOut := true, migrating := false,
       hasReserve := true, reserve := Some(p), list := Some(DiskReserve))
  }

  /** Move victim `v` to the disk place of `t`, and `t` to the frame it leaves. */
  function EvictTo(s: State, v: Id, t: Id, keep: bool, writeBack: bool): State
    requires v < |s.pages| && t < |s.pages| && s.pages[v].va in s.ram
  {
    var (d, e) := (s.pages[v], s.pages[t]);
    var s1 := if writeBack then s.(store := s.store[e.offset := s.ram[d.va]]) else s;
    Refile(Refile(Zap(s1, d.va), v, Evicted(d, e)), t, Vacated(e, d, keep))
  }

  /** A page is written back when it is dirty or has no reserve. */
  predicate WriteBack(s: State, v: Id)
    requires v < |s.pages|
  {
    s.pages[v].va in s.dirty || !s.pages[v].hasReserve
  }

  function SwapInTo(s: State, p: Id, f: Id, bits: Bits, bytes: Page): State
    requires p < |s.pages| && f < |s.pages|
  {
    var (d, e) := (s.pages[p], s.pages[f]);
    var s1 := SetBits(s.(ram := s.ram[d.va := bytes]), d.va, bits);
    Refile(Refile(s1, f, Reserving(e, d, p)), p, BroughtIn(d, e, f))
  }

  function Unreserved(e: Desc): Desc {
    e.(hasReserve := false, reserve := None, present := false, list := Some(DiskFree))
  }

  function Unmapped(d: Desc): Desc {
    d.(va := 0, present := false, migrating := false, hasReserve := false, reserve := None,
       list := if d.inDram then Some(DramFree) else Some(DiskFree))
  }

  /** Drop the reserve of a page about to be freed. */
  function FreeReserve(s: State, p: Id): State
    requires p < |s.pages|
    requires s.pages[p].hasReserve ==> s.pages[p].reserve.Some? && s.pages[p].reserve.value < |s.pages|
  {
    if !s.pages[p].hasReserve then s
    else
      var r := s.pages[p].reserve.value;
      Refile(s, r, Unreserved(s.pages[r]))
  }

  function UnmapOne(s: State, va: nat): State
    requires Enabled(s, Unmap(va))
  {
    var p := s.table[va];
    var s1 := Zap(s.(table := s.table - {va}), va);
    var s2 := FreeReserve(s1, p);
    Refile(s2, p, Unmapped(s.pages[p]))
  }

  function Next(s: State, step: Step): State
    requires Enabled(s, step)
  {
    match step
    case Load(va) => s.(accessed := s.accessed + {va})
    case Store(addr, b) =>
      var va := PageOf(addr);
      s.(ram := s.ram[va := Poke(s.ram[va], addr % PAGE_SIZE, b)],
         accessed := s.accessed + {va}, dirty := s.dirty + {va})
    case Cool =>
      var id := s.lists.At(Active)[0];
      Refile(s, id, s.pages[id].(naccesses := 0, list := Some(Inactive)))
    case Scan => ScanOne(s, s.lists.At(Inactive)[0])
    case Evict(keep) =>
      var v := s.lists.At(Eviction)[0];
      EvictTo(s, v, Target(s, v).value, keep, WriteBack(s, v))
    case TakeFrame =>
      var f := s.lists.At(DramFree)[0];
      Refile(s, f, s.pages[f].(list := None))
    case Protect(f) => Mark(s, f)
    case PutFrame(f) => Refile(s, f, s.pages[f].(list := Some(DramFree)))
    case FirstTouch(f, va, bits) =>
      var s1 := SetBits(s.(table := s.table[va := f], ram := s.ram[va := ZeroPage()]), va, bits);
      Refile(s1, f, s.pages[f].(va := va, swappedOut := false, migrating := false, list := Some(Inactive)))
    case Claim(va) => Mark(s, s.table[va])
    case Detach(p) => Refile(s, p, s.pages[p].(list := None))
    case SwapIn(p, f, bits) => SwapInTo(s, p, f, bits, s.store[s.pages[p].offset])
    case Unmap(va) => UnmapOne(s, va)
  }
}
