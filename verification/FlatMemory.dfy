/** Paged memory refines flat memory: over every run, a mapped address reads as the
    last byte stored there, or zero if none was. */
module FlatMemory {
  import opened Common
  import opened Queues
  import opened Pager
  import opened PagerInvariant

  /** The bytes behind a mapped page, wherever they are. */
  function BytesAt(pages: seq<Desc>, table: map<nat, Id>, ram: map<nat, Page>, store: map<nat, Page>, va: nat)
    : Option<Page>
  {
    if va !in table || table[va] >= |pages| then None
    else
      var d := pages[table[va]];
      if d.inDram then (if va in ram then Some(ram[va]) else None)
      else if d.offset in store then Some(store[d.offset])
      else None
  }

  function Bytes(s: State, va: nat): Option<Page> {
    BytesAt(s.pages, s.table, s.ram, s.store, va)
  }

  function ByteOf(page: Option<Page>, addr: nat): Option<Byte> {
    match page
    case None => None
    case Some(p) => Some(p[addr % PAGE_SIZE])
  }

  function Read(s: State, addr: nat): Option<Byte> { ByteOf(Bytes(s, PageOf(addr)), addr) }

  /** Flat memory: what a step does to the byte at `addr`. Only first touch, a store and
      an unmap of that address can change it. */
  function Effect(step: Step, addr: nat, old_: Option<Byte>): Option<Byte> {
    match step
    case FirstTouch(_, va, _) => if va == PageOf(addr) then Some(0) else old_
    case Store(a, b) => if a == addr then Some(b) else old_
    case Unmap(va) => if va == PageOf(addr) then None else old_
    case _ => old_
  }

  /** The last byte a run stored at `addr`: zero if none since it was mapped. */
  function LastByte(steps: seq<Step>, addr: nat): Option<Byte> {
    if steps == [] then None
    else Effect(steps[|steps| - 1], addr, LastByte(steps[..|steps| - 1], addr))
  }

  // ---------------------------------------------------------------------- runs

  function FreshDram(i: nat): Desc {
    Desc(0, i * PAGE_SIZE, true, false, false, false, false, None, 0, Some(DramFree))
  }

  function FreshDisk(i: nat): Desc {
    Desc(0, i * PAGE_SIZE, false, true, false, false, false, None, 0, Some(DiskFree))
  }

  function DramPages(n: nat): (r: seq<Desc>)
    ensures |r| == n && forall i :: 0 <= i < n ==> r[i] == FreshDram(i)
  {
    seq(n, i requires 0 <= i < n => FreshDram(i))
  }

  function DiskPages(n: nat): (r: seq<Desc>)
    ensures |r| == n && forall i :: 0 <= i < n ==> r[i] == FreshDisk(i)
  {
    seq(n, i requires 0 <= i < n => FreshDisk(i))
  }

  function Ids(from: nat, n: nat): (r: seq<Id>)
    ensures |r| == n && forall i :: 0 <= i < n ==> r[i] == from + i
  {
    seq(n, i requires 0 <= i < n => from + i)
  }

  function Init(dramSize: nat, diskSize: nat): State {
    var (nd, nk) := (dramSize / PAGE_SIZE, diskSize / PAGE_SIZE);
    State(dramSize, diskSize,
          DramPages(nd) + DiskPages(nk),
          Lists(map[DramFree := Ids(0, nd), DiskFree := Ids(nd, nk)]),
          map[], map[], {}, {}, map[])
  }

  lemma InitFiled(nd: nat, nk: nat)
    ensures Filed(Lists(map[DramFree := Ids(0, nd), DiskFree := Ids(nd, nk)]), Homes(DramPages(nd) + DiskPages(nk)))
  {
    var lists := Lists(map[DramFree := Ids(0, nd), DiskFree := Ids(nd, nk)]);
    var pages := DramPages(nd) + DiskPages(nk);
    forall id: Id | id < |pages| ensures id in lists.At(pages[id].list.value) {
      if id < nd {
        assert pages[id] == FreshDram(id) && Ids(0, nd)[id] == id;
      } else {
        assert pages[id] == FreshDisk(id - nd) && Ids(nd, nk)[id - nd] == id;
      }
    }
  }

  lemma InitSlots(dramSize: nat, diskSize: nat)
    ensures SlotsOk(dramSize, diskSize, DramPages(dramSize / PAGE_SIZE) + DiskPages(diskSize / PAGE_SIZE))
  {
  }

  lemma InitInv(dramSize: nat, diskSize: nat)
    ensures Inv(Init(dramSize, diskSize))
  {
    var (nd, nk) := (dramSize / PAGE_SIZE, diskSize / PAGE_SIZE);
    InitFiled(nd, nk);
    InitSlots(dramSize, diskSize);
    var pages := DramPages(nd) + DiskPages(nk);
    forall i | 0 <= i < |pages|
      ensures RoleOk(pages[i]) && Linked(pages, i) && Backed(pages, map[], {}, map[], i) && pages[i].va == 0
    {
      assert pages[i] == if i < nd then FreshDram(i) else FreshDisk(i - nd);
    }
    var s := Init(dramSize, diskSize);
    assert s.pages == pages && RolesOk(pages) && ReservesOk(pages) && MemoryOk(pages, map[], {}, map[]);
  }

  /** Run the steps in order; `None` if one of them was not enabled. */
  function Exec(s: State, steps: seq<Step>): Option<State> {
    if steps == [] then Some(s)
    else
      match Exec(s, steps[..|steps| - 1])
      case None => None
      case Some(mid) =>
        var step := steps[|steps| - 1];
        if Enabled(mid, step) then Some(Next(mid, step)) else None
  }

  lemma {:induction false} ExecInv(s: State, steps: seq<Step>)
    requires Inv(s) && Exec(s, steps).Some?
    ensures Inv(Exec(s, steps).value)
  {
    if steps != [] {
      ExecInv(s, steps[..|steps| - 1]);
      StepInv(Exec(s, steps[..|steps| - 1]).value, steps[|steps| - 1]);
    }
  }

  lemma {:induction false} ExecAppend(s: State, a: seq<Step>, b: seq<Step>)
    requires Exec(s, a).Some?
    ensures Exec(s, a + b) == Exec(Exec(s, a).value, b)
  {
    if b == [] {
      assert a + b == a;
    } else {
      assert (a + b)[..|a + b| - 1] == a + b[..|b| - 1];
      ExecAppend(s, a, b[..|b| - 1]);
    }
  }

  // ---------------------------------------------------------------- refinement

  lemma StoreBytes(s: State, addr: nat, b: Byte, va: nat)
    requires Inv(s) && Enabled(s, Store(addr, b))
    ensures var s' := Next(s, Store(addr, b));
      if va == PageOf(addr)
      then Bytes(s, va).Some? && Bytes(s', va) == Some(Poke(Bytes(s, va).value, addr % PAGE_SIZE, b))
      else Bytes(s', va) == Bytes(s, va)
  {
  }

  lemma EvictBytes(s: State, keep: bool, va: nat)
    requires Inv(s) && Enabled(s, Evict(keep))
    ensures Bytes(Next(s, Evict(keep)), va) == Bytes(s, va)
  {
    EvictPair(s, keep);
    var v := s.lists.At(Eviction)[0];
    EvictToBytes(s, v, Target(s, v).value, keep, WriteBack(s, v), va);
  }

  lemma EvictToBytes(s: State, v: Id, t: Id, keep: bool, writeBack: bool, va: nat)
    requires Inv(s) && v < |s.pages| && t < |s.pages| && v != t
    requires s.pages[v].va != 0 && s.pages[v].inDram && s.pages[v].va in s.ram
    requires s.pages[t].va == 0 && !s.pages[t].inDram
    requires s.pages[v].reserve == Some(t) || s.pages[v].reserve == None
    requires WriteBack(s, v) ==> writeBack
    ensures Bytes(EvictTo(s, v, t, keep, writeBack), va) == Bytes(s, va)
  {
    EvictParts(s, v, t, keep, writeBack);
    if va in s.table {
      if s.table[va] == v {
        EvictedBytes(s, v, t, keep, writeBack);
      } else {
        SparedBytes(s, v, t, keep, writeBack, va);
      }
    }
  }

  lemma EvictParts(s: State, v: Id, t: Id, keep: bool, writeBack: bool)
    requires v < |s.pages| && t < |s.pages| && v != t && s.pages[v].va in s.ram
    ensures var (s', d, e) := (EvictTo(s, v, t, keep, writeBack), s.pages[v], s.pages[t]);
      && s'.pages == s.pages[v := Evicted(d, e)][t := Vacated(e, d, keep)]
      && s'.table == s.table && s'.ram == s.ram - {d.va}
      && s'.store == if writeBack then s.store[e.offset := s.ram[d.va]] else s.store
  {
  }

  /** The victim's bytes are those of its new place. */
  lemma EvictedBytes(s: State, v: Id, t: Id, keep: bool, writeBack: bool)
    requires Inv(s) && v < |s.pages| && t < |s.pages| && v != t
    requires s.pages[v].va in s.table && s.table[s.pages[v].va] == v && s.pages[v].inDram && s.pages[v].va in s.ram
    requires !s.pages[t].inDram && (s.pages[v].reserve == Some(t) || s.pages[v].reserve == None)
    requires WriteBack(s, v) ==> writeBack
    ensures Bytes(EvictTo(s, v, t, keep, writeBack), s.pages[v].va) == Bytes(s, s.pages[v].va)
  {
    EvictParts(s, v, t, keep, writeBack);
    assert Backed(s.pages, s.ram, s.dirty, s.store, v) && RoleOk(s.pages[v]);
    assert EvictTo(s, v, t, keep, writeBack).pages[v] == Evicted(s.pages[v], s.pages[t]);
  }

  lemma SparedBytes(s: State, v: Id, t: Id, keep: bool, writeBack: bool, va: nat)
    requires Inv(s) && v < |s.pages| && t < |s.pages| && v != t && va in s.table && s.table[va] != v
    requires s.pages[v].va in s.ram && s.pages[t].va == 0 && !s.pages[t].inDram
    ensures Bytes(EvictTo(s, v, t, keep, writeBack), va) == Bytes(s, va)
  {
    EvictParts(s, v, t, keep, writeBack);
    var i := s.table[va];
    assert EvictTo(s, v, t, keep, writeBack).pages[i] == s.pages[i];
    assert Slot(s.pages[i]) != Slot(s.pages[t]);
  }

  lemma SwapInBytes(s: State, p: Id, f: Id, bits: Bits, va: nat)
    requires Inv(s) && Enabled(s, SwapIn(p, f, bits))
    ensures Bytes(Next(s, SwapIn(p, f, bits)), va) == Bytes(s, va)
  {
  }

  lemma UnmapBytes(s: State, gone: nat, va: nat)
    requires Inv(s) && Enabled(s, Unmap(gone))
    ensures Bytes(Next(s, Unmap(gone)), va) == if va == gone then None else Bytes(s, va)
  {
    var p := s.table[gone];
    assert RoleOk(s.pages[p]) && Linked(s.pages, p);
    UnmapFiled(s, gone);
    UnmappedBytes(s.pages, s.table, s.ram, s.store, p, va);
  }

  lemma UnmappedBytes(pages: seq<Desc>, table: map<nat, Id>, ram: map<nat, Page>, store: map<nat, Page>, p: Id, va: nat)
    requires p < |pages| && RolesOk(pages) && RoleOk(pages[p]) && Linked(pages, p) && pages[p].va != 0
      && TableOk(pages, table)
    ensures var gone := pages[p].va;
      BytesAt(UnmappedPages(pages, p), table - {gone}, ram - {gone}, store, va)
      == if va == gone then None else BytesAt(pages, table, ram, store, va)
  {
    if va in table && va != pages[p].va { assert RoleOk(pages[table[va]]); }
  }

  lemma LocalBytes(s: State, id: Id, d: Desc, va: nat)
    requires id < |s.pages| && Slot(d) == Slot(s.pages[id])
    ensures Bytes(Refile(s, id, d), va) == Bytes(s, va)
  {
  }

  lemma ScanBytes(s: State, id: Id, va: nat)
    requires id < |s.pages|
    ensures Bytes(ScanOne(s, id), va) == Bytes(s, va)
  {
  }

  lemma FirstTouchBytes(s: State, f: Id, first: nat, bits: Bits, va: nat)
    requires Inv(s) && Enabled(s, FirstTouch(f, first, bits))
    ensures Bytes(Next(s, FirstTouch(f, first, bits)), va)
         == if va == first then Some(ZeroPage()) else Bytes(s, va)
  {
  }

  lemma QuietBytes(s: State, step: Step, va: nat)
    requires Inv(s) && Enabled(s, step)
    requires step.Load? || step.Cool? || step.TakeFrame? || step.Protect? || step.PutFrame? || step.Claim?
      || step.Detach?
    ensures Bytes(Next(s, step), va) == Bytes(s, va)
  {
    match step
    case Load(_) =>
    case Cool =>
      var id := s.lists.At(Active)[0];
      LocalBytes(s, id, s.pages[id].(naccesses := 0, list := Some(Inactive)), va);
    case TakeFrame =>
      var id := s.lists.At(DramFree)[0];
      LocalBytes(s, id, s.pages[id].(list := None), va);
    case Protect(f) => MarkBytes(s, f, va);
    case PutFrame(f) => LocalBytes(s, f, s.pages[f].(list := Some(DramFree)), va);
    case Claim(c) => MarkBytes(s, s.table[c], va);
    case Detach(p) => LocalBytes(s, p, s.pages[p].(list := None), va);
  }

  lemma MarkBytes(s: State, id: Id, va: nat)
    requires id < |s.pages|
    ensures Bytes(Mark(s, id), va) == Bytes(s, va)
  {
  }

  /** Steps that flat memory does not see. */
  predicate Silent(step: Step) { !step.Store? && !step.FirstTouch? && !step.Unmap? }

  lemma SilentStep(s: State, step: Step, va: nat)
    requires Inv(s) && Enabled(s, step) && Silent(step)
    ensures Bytes(Next(s, step), va) == Bytes(s, va)
  {
    match step
    case Evict(keep) => EvictBytes(s, keep, va);
    case SwapIn(p, f, bits) => SwapInBytes(s, p, f, bits, va);
    case Scan => ScanBytes(s, s.lists.At(Inactive)[0], va);
    case _ => QuietBytes(s, step, va);
  }

  /** What a step does to the page at `va`. */
  function PageEffect(step: Step, va: nat, old_: Option<Page>): Option<Page> {
    match step
    case FirstTouch(_, first, _) => if first == va then Some(ZeroPage()) else old_
    case Store(a, b) =>
      if PageOf(a) == va && old_.Some? then Some(Poke(old_.value, a % PAGE_SIZE, b)) else old_
    case Unmap(gone) => if gone == va then None else old_
    case _ => old_
  }

  lemma PageStep(s: State, step: Step, va: nat)
    requires Inv(s) && Enabled(s, step)
    ensures Bytes(Next(s, step), va) == PageEffect(step, va, Bytes(s, va))
  {
    if step.Store? {
      StoreBytes(s, step.addr, step.byte, va);
    } else if step.FirstTouch? {
      FirstTouchBytes(s, step.frame, step.va, step.bits, va);
    } else if step.Unmap? {
      UnmapBytes(s, step.va, va);
    } else {
      SilentStep(s, step, va);
    }
  }

  lemma ByteEffect(step: Step, addr: nat, old_: Option<Page>)
    requires step.Store? && PageOf(step.addr) == PageOf(addr) ==> old_.Some?
    ensures ByteOf(PageEffect(step, PageOf(addr), old_), addr) == Effect(step, addr, ByteOf(old_, addr))
  {
  }

  lemma StoredIsMapped(s: State, addr: nat, b: Byte)
    requires Inv(s) && Enabled(s, Store(addr, b))
    ensures Bytes(s, PageOf(addr)).Some?
  {
  }

  /** One step of the pager is one step of flat memory. */
  lemma ReadStep(s: State, step: Step, addr: nat)
    requires Inv(s) && Enabled(s, step)
    ensures Read(Next(s, step), addr) == Effect(step, addr, Read(s, addr))
  {
    PageStep(s, step, PageOf(addr));
    if step.Store? { StoredIsMapped(s, step.addr, step.byte); }
    ByteEffect(step, addr, Bytes(s, PageOf(addr)));
  }

  /** A run from start-up. */
  function Run(dramSize: nat, diskSize: nat, steps: seq<Step>): Option<State> {
    Exec(Init(dramSize, diskSize), steps)
  }

  /** How many steps of a run are of this kind. */
  function Count(steps: seq<Step>, kind: Step -> bool): nat {
    if steps == [] then 0
    else Count(steps[..|steps| - 1], kind) + if kind(steps[|steps| - 1]) then 1 else 0
  }

  /** Every reachable state satisfies the invariant. */
  lemma RunInv(dramSize: nat, diskSize: nat, steps: seq<Step>)
    requires Run(dramSize, diskSize, steps).Some?
    ensures Inv(Run(dramSize, diskSize, steps).value)
  {
    InitInv(dramSize, diskSize);
    ExecInv(Init(dramSize, diskSize), steps);
  }

  /** The main theorem. */
  lemma {:induction false} PagedMemoryIsFlat(dramSize: nat, diskSize: nat, steps: seq<Step>, addr: nat)
    requires Run(dramSize, diskSize, steps).Some?
    ensures Read(Run(dramSize, diskSize, steps).value, addr) == LastByte(steps, addr)
  {
    if steps != [] {
      var front := steps[..|steps| - 1];
      PagedMemoryIsFlat(dramSize, diskSize, front, addr);
      RunInv(dramSize, diskSize, front);
      ReadStep(Run(dramSize, diskSize, front).value, steps[|steps| - 1], addr);
    }
  }

  /** Skipping the write-back of a clean reserved page is the same as doing it: the
      policy's eviction equals one that always writes. */
  lemma ElisionIsSound(s: State, keep: bool)
    requires Inv(s) && Enabled(s, Evict(keep))
    ensures var v := s.lists.At(Eviction)[0];
      Next(s, Evict(keep)) == EvictTo(s, v, Target(s, v).value, keep, true)
  {
    EvictPair(s, keep);
    var v := s.lists.At(Eviction)[0];
    assert Backed(s.pages, s.ram, s.dirty, s.store, v);
    var e := s.pages[Target(s, v).value];
    if !WriteBack(s, v) {
      assert s.store[e.offset := s.ram[s.pages[v].va]] == s.store;
    }
  }
}
