/** The remote page store: a table from disk offset to a block of remote memory, with
    least-recently-used replacement, over the allocator, the request ring and the tail-word
    codec. Requests are page-sized and one at a time; the clock is a parameter. */
module RemoteStore {
  import opened Common
  import opened Allocator
  import opened Relocation
  import Ring

  const REGIONS := 65536

  datatype Entry = Entry(offset: nat, remote: nat, size: nat, inUse: bool, lastAccess: nat, dirty: bool)

  /** Disk offsets lie below the local heap window. */
  type Offset = o: nat | o + PAGE_SIZE <= LOCAL_HEAP_BASE

  // ------------------------------------------------------- reference: a map

  /** A write, with the offset that replacement would give up for it. */
  datatype Put = Put(offset: Offset, page: Page, victim: nat)

  ghost function After(pages: map<nat, Page>, w: Put): map<nat, Page> {
    (if w.offset in pages || |pages| < REGIONS then pages else pages - {w.victim})[w.offset := w.page]
  }

  ghost function Replay(log: seq<Put>): map<nat, Page> {
    if log == [] then map[] else After(Replay(log[..|log| - 1]), log[|log| - 1])
  }

  /** The last page written at each offset. */
  ghost function LastWrites(log: seq<Put>): map<nat, Page> {
    if log == [] then map[] else LastWrites(log[..|log| - 1])[log[|log| - 1].offset := log[|log| - 1].page]
  }

  /** Whatever the replacement, what the store holds for an offset is the last page written there. */
  lemma {:induction false} HeldIsLastWritten(log: seq<Put>, o: nat)
    requires o in Replay(log)
    ensures o in LastWrites(log) && Replay(log)[o] == LastWrites(log)[o]
  {
    if log != [] && o != log[|log| - 1].offset { HeldIsLastWritten(log[..|log| - 1], o); }
  }

  /** While at most 65536 offsets are in use, nothing written is ever missed. */
  lemma {:induction false} NothingLostWithinCapacity(log: seq<Put>)
    requires |LastWrites(log)| <= REGIONS
    ensures Replay(log) == LastWrites(log)
  {
    if log != [] {
      var (front, w) := (log[..|log| - 1], log[|log| - 1]);
      assert LastWrites(log).Keys == LastWrites(front).Keys + {w.offset};
      if w.offset in LastWrites(front) {
        assert LastWrites(log).Keys == LastWrites(front).Keys;
      }
      NothingLostWithinCapacity(front);
    }
  }

  // ------------------------------------------------------------- tail words

  /** No region can be reached from either heap window. */
  ghost predicate Foreign(rs: seq<Region>) {
    forall i :: 0 <= i < |rs| ==> ForeignRegion(rs[i])
  }

  predicate ForeignRegion(r: Region) {
    r.localEnd <= LOCAL_HEAP_BASE && REMOTE_HEAP_END <= r.remoteBase && r.remoteBase + r.size < WORD
  }

  lemma {:induction false} NoRegionMatches(rs: seq<Region>, w: Address)
    requires Foreign(rs) && w != 0
    ensures InLocalHeap(w) ==> ToRemote(rs, w).None?
    ensures InRemoteHeap(w) ==> ToLocal(rs, w).None?
  {
    if rs != [] {
      assert ForeignRegion(rs[0]);
      forall i | 0 <= i < |rs[1..]| ensures ForeignRegion(rs[1..][i]) { assert rs[1..][i] == rs[i + 1]; }
      NoRegionMatches(rs[1..], w);
    }
  }

  /** With such regions, encoding only nulls a tail word in the local heap ... */
  function Packed(page: Page): Page {
    if InLocalHeap(Tail(page)) then WithTail(page, 0) else page
  }

  /** ... and decoding only nulls one in the remote heap. */
  function Unpacked(page: Page): Page {
    if InRemoteHeap(Tail(page)) then WithTail(page, 0) else page
  }

  lemma EncodePacks(rs: seq<Region>, page: Page)
    requires Foreign(rs)
    ensures Encode(rs, page) == Packed(page)
  {
    var w := Tail(page);
    if w != 0 { NoRegionMatches(rs, w); }
    TailFacts(page, w);
  }

  lemma DecodeUnpacks(rs: seq<Region>, page: Page)
    requires Foreign(rs)
    ensures Decode(rs, page) == Unpacked(page)
  {
    var w := Tail(page);
    if w != 0 { NoRegionMatches(rs, w); }
    TailFacts(page, w);
  }

  /** A page written and read back keeps its body; it is unchanged exactly when its tail
      word is in neither heap, and has a null tail otherwise. */
  lemma ReadBackIffNeutral(page: Page)
    ensures var neutral := !InLocalHeap(Tail(page)) && !InRemoteHeap(Tail(page));
      && (Unpacked(Packed(page)) == page <==> neutral)
      && (!neutral ==> Unpacked(Packed(page)) == WithTail(page, 0))
  {
    TailFacts(page, 0);
  }

  // -------------------------------------------------------------- invariants

  /** The entries in use list each stored offset once. */
  ghost predicate UsedOk(used: seq<Entry>, keys: set<nat>) {
    && |used| == |keys| <= REGIONS
    && (forall i ::
          0 <= i < |used| ==> used[i].offset in keys && used[i].size == PAGE_SIZE && used[i].lastAccess < WORD - 1)
    && (forall i :: 0 <= i < |used| ==> used[i].inUse && used[i].dirty)
    && (forall i, j :: 0 <= i < j < |used| ==> used[i].offset != used[j].offset)
    && (forall o :: o in keys ==> Listed(used, o))
  }

  ghost predicate Listed(used: seq<Entry>, o: nat) {
    exists i :: 0 <= i < |used| && used[i].offset == o
  }

  /** Every entry owns a live block of its own. */
  ghost predicate BlocksOk(used: seq<Entry>, blocks: seq<Block>) {
    Wf(blocks) && Owned(used, Live(blocks), -1)
  }

  /** The entries other than `k` own distinct allocations. */
  ghost predicate Owned(used: seq<Entry>, live: set<(nat, nat)>, k: int) {
    && (forall i :: 0 <= i < |used| && i != k ==> (used[i].remote, PAGE_SIZE) in live)
    && (forall i, j :: 0 <= i < j < |used| && i != k && j != k ==> used[i].remote != used[j].remote)
  }

  predicate Inside(remote: nat) { BASE <= remote && remote + PAGE_SIZE <= END }

  function At(memory: seq<Byte>, remote: nat): (p: Page)
    requires |memory| == SIZE && Inside(remote)
  {
    memory[remote - BASE..remote - BASE + PAGE_SIZE]
  }

  /** Each entry but `k` has its page in its block; no exception if `k` is out of range. */
  ghost predicate BytesOk(used: seq<Entry>, memory: seq<Byte>, pages: map<nat, Page>, k: int) {
    && |memory| == SIZE
    && (forall i :: 0 <= i < |used| && i != k ==> Kept(used[i], memory, pages))
  }

  ghost predicate Kept(e: Entry, memory: seq<Byte>, pages: map<nat, Page>)
    requires |memory| == SIZE
  {
    e.offset in pages && Inside(e.remote) && At(memory, e.remote) == pages[e.offset]
  }

  function Entered(used: seq<Entry>, k: nat, e: Entry): seq<Entry>
    requires k <= |used|
  {
    if k == |used| then used + [e] else used[k := e]
  }

  /** An entry just put in use can be changed in place. */
  lemma EnteredAgain(used: seq<Entry>, k: nat, e: Entry, e': Entry)
    requires k <= |used|
    ensures k < |Entered(used, k, e)| && Entered(used, k, e)[k] == e
      && Entered(used, k, e)[k := e'] == Entered(used, k, e')
  {
  }

  /** The first of the entries accessed longest ago. */
  function Oldest(used: seq<Entry>, n: nat): (k: nat)
    requires 0 < n <= |used|
    ensures k < n && (forall j :: 0 <= j < n ==> used[k].lastAccess <= used[j].lastAccess)
    ensures forall j :: 0 <= j < k ==> used[k].lastAccess < used[j].lastAccess
  {
    if n == 1 then 0
    else
      var k := Oldest(used, n - 1);
      if used[n - 1].lastAccess < used[k].lastAccess then n - 1 else k
  }

  // ------------------------------------------------------------ preservation

  lemma BlockInside(used: seq<Entry>, blocks: seq<Block>, k: nat)
    requires BlocksOk(used, blocks) && k < |used|
    ensures Inside(used[k].remote)
  {
    LiveDisjoint(blocks, (used[k].remote, PAGE_SIZE), (used[k].remote, PAGE_SIZE));
  }

  /** Allocations lie in the arena and apart from one another. */
  ghost predicate Spread(live: set<(nat, nat)>) {
    forall p, q :: p in live && q in live ==> BASE <= p.0 && p.0 + p.1 <= END && (p == q || Apart(p.0, q.0, p.1, q.1))
  }

  lemma LiveSpread(blocks: seq<Block>)
    requires Tiles(blocks)
    ensures Spread(Live(blocks))
  {
    forall p, q | p in Live(blocks) && q in Live(blocks)
      ensures BASE <= p.0 && p.0 + p.1 <= END && (p == q || Apart(p.0, q.0, p.1, q.1))
    {
      LiveDisjoint(blocks, p, q);
    }
  }

  /** Writing a page into the block of its entry leaves every other page alone. */
  lemma PageWritten(used: seq<Entry>, live: set<(nat, nat)>, memory: seq<Byte>, pages: map<nat, Page>, k: nat,
                    page: Page)
    requires Owned(used, live, -1) && Spread(live) && BytesOk(used, memory, pages, k) && k < |used|
      && Inside(used[k].remote)
    requires used[k].offset in pages && pages[used[k].offset] == page
    ensures BytesOk(used, Ring.Patch(memory, used[k].remote - BASE, page), pages, -1)
  {
  }

  /** A new entry takes a block that was not in use. */
  lemma BlockTaken(used: seq<Entry>, blocks: seq<Block>, e: Entry)
    requires BlocksOk(used, blocks) && Alloc(blocks, PAGE_SIZE).1 == Got(e.remote)
    ensures BlocksOk(used + [e], Alloc(blocks, PAGE_SIZE).0)
  {
    AllocAdds(blocks);
  }

  lemma OwnerLeaves(used: seq<Entry>, live: set<(nat, nat)>, k: nat)
    requires Owned(used, live, -1) && k < |used|
    ensures Owned(used, live - {(used[k].remote, PAGE_SIZE)}, k)
  {
  }

  lemma OwnerEnters(used: seq<Entry>, live: set<(nat, nat)>, k: nat, e: Entry)
    requires Owned(used, live, k) && k < |used| && (e.remote, PAGE_SIZE) !in live
    ensures Owned(used[k := e], live + {(e.remote, PAGE_SIZE)}, -1)
  {
  }

  /** A replaced entry gives its block back and takes another. */
  lemma BlockExchanged(used: seq<Entry>, blocks: seq<Block>, k: nat, e: Entry)
    requires BlocksOk(used, blocks) && k < |used|
    requires Alloc(Dealloc(blocks, used[k].remote).0, PAGE_SIZE).1 == Got(e.remote)
    ensures BlocksOk(used[k := e], Alloc(Dealloc(blocks, used[k].remote).0, PAGE_SIZE).0)
  {
    var freed := Dealloc(blocks, used[k].remote).0;
    DeallocTakes(blocks, (used[k].remote, PAGE_SIZE));
    OwnerLeaves(used, Live(blocks), k);
    AllocAdds(freed);
    OwnerEnters(used, Live(freed), k, e);
  }

  lemma EntryAdded(used: seq<Entry>, keys: set<nat>, e: Entry)
    requires UsedOk(used, keys) && |used| < REGIONS && e.offset !in keys
    requires e.size == PAGE_SIZE && e.lastAccess < WORD - 1 && e.inUse && e.dirty
    ensures UsedOk(used + [e], keys + {e.offset})
  {
    var used' := used + [e];
    forall o | o in keys ensures Listed(used', o) { StillListed(used, used', o); }
    assert used'[|used|].offset == e.offset;
  }

  lemma EntryReplaced(used: seq<Entry>, keys: set<nat>, k: nat, e: Entry)
    requires UsedOk(used, keys) && k < |used| && (e.offset !in keys || e.offset == used[k].offset)
    requires e.size == PAGE_SIZE && e.lastAccess < WORD - 1 && e.inUse && e.dirty
    ensures UsedOk(used[k := e], keys - {used[k].offset} + {e.offset})
  {
    var used' := used[k := e];
    KeysReplaced(keys, used[k].offset, e.offset);
    forall o | o in keys && o != used[k].offset ensures Listed(used', o) { ListedBeside(used, k, e, o); }
    assert used'[k].offset == e.offset;
  }

  lemma KeysReplaced(keys: set<nat>, a: nat, b: nat)
    requires a in keys && (b !in keys || b == a)
    ensures |keys - {a} + {b}| == |keys|
  {
  }

  lemma ListedBeside(used: seq<Entry>, k: nat, e: Entry, o: nat)
    requires Listed(used, o) && k < |used| && o != used[k].offset
    ensures Listed(used[k := e], o)
  {
    var i :| 0 <= i < |used| && used[i].offset == o;
    assert used[k := e][i].offset == o;
  }

  lemma StillListed(used: seq<Entry>, used': seq<Entry>, o: nat)
    requires Listed(used, o) && |used| <= |used'| && forall i :: 0 <= i < |used| ==> used'[i].offset == used[i].offset
    ensures Listed(used', o)
  {
  }

  lemma RegisterForeign(rs: seq<Region>, r: Region)
    requires Foreign(rs) && ForeignRegion(r)
    ensures Foreign(Register(rs, r))
  {
  }

  /** The entry `k` may take for the write `w`: its own, a new one, or the victim's. */
  ghost predicate Seat(used: seq<Entry>, pages: map<nat, Page>, k: nat, w: Put) {
    k <= |used| &&
    if w.offset in pages then k < |used| && used[k].offset == w.offset
    else if |used| < REGIONS then k == |used|
    else k < |used| && used[k].offset == w.victim
  }

  /** With the entry seated, all that is missing is the page itself. */
  lemma SeatTaken(used: seq<Entry>, pages: map<nat, Page>, memory: seq<Byte>, k: nat, e: Entry, w: Put)
    requires UsedOk(used, pages.Keys) && BytesOk(used, memory, pages, -1) && Seat(used, pages, k, w)
    requires e.offset == w.offset && e.size == PAGE_SIZE && e.lastAccess < WORD - 1 && e.inUse && e.dirty
    ensures UsedOk(Entered(used, k, e), After(pages, w).Keys)
      && BytesOk(Entered(used, k, e), memory, After(pages, w), k)
  {
    SeatListed(used, pages, k, e, w);
    OthersKept(used, pages, memory, k, e, w);
  }

  lemma SeatListed(used: seq<Entry>, pages: map<nat, Page>, k: nat, e: Entry, w: Put)
    requires UsedOk(used, pages.Keys) && Seat(used, pages, k, w)
    requires e.offset == w.offset && e.size == PAGE_SIZE && e.lastAccess < WORD - 1 && e.inUse && e.dirty
    ensures UsedOk(Entered(used, k, e), After(pages, w).Keys)
  {
    AfterKeys(pages, w);
    if k < |used| {
      EntryReplaced(used, pages.Keys, k, e);
      assert w.offset in pages ==> pages.Keys - {used[k].offset} + {w.offset} == pages.Keys + {w.offset};
    } else {
      EntryAdded(used, pages.Keys, e);
    }
  }

  lemma AfterKeys(pages: map<nat, Page>, w: Put)
    ensures After(pages, w).Keys
         == (if w.offset in pages || |pages| < REGIONS then pages.Keys else pages.Keys - {w.victim}) + {w.offset}
  {
  }

  lemma OthersKept(used: seq<Entry>, pages: map<nat, Page>, memory: seq<Byte>, k: nat, e: Entry, w: Put)
    requires UsedOk(used, pages.Keys) && BytesOk(used, memory, pages, -1) && Seat(used, pages, k, w)
    ensures BytesOk(Entered(used, k, e), memory, After(pages, w), k)
  {
  }

  /** The blocks once the entry at `k`, if there is one, has given up its own. */
  function Vacated(used: seq<Entry>, blocks: seq<Block>, k: nat): seq<Block> {
    if k < |used| then Dealloc(blocks, used[k].remote).0 else blocks
  }

  lemma VacatedFits(used: seq<Entry>, blocks: seq<Block>, k: nat)
    requires BlocksOk(used, blocks) && k < |used|
    ensures Alloc(Vacated(used, blocks, k), PAGE_SIZE).1.Got?
  {
    FreedMakesRoom(blocks, (used[k].remote, PAGE_SIZE));
  }

  lemma RegionTaken(used: seq<Entry>, blocks: seq<Block>, k: nat, e: Entry)
    requires BlocksOk(used, blocks) && k <= |used| && Alloc(Vacated(used, blocks, k), PAGE_SIZE).1 == Got(e.remote)
    ensures var blocks' := Alloc(Vacated(used, blocks, k), PAGE_SIZE).0;
      && BlocksOk(Entered(used, k, e), blocks')
      && LiveSize(blocks') == LiveSize(blocks) + PAGE_SIZE * (|Entered(used, k, e)| - |used|)
  {
    if k < |used| {
      BlockExchanged(used, blocks, k, e);
      DeallocTakes(blocks, (used[k].remote, PAGE_SIZE));
    } else {
      BlockTaken(used, blocks, e);
    }
    AllocAdds(Vacated(used, blocks, k));
  }

  // ------------------------------------------------------------------- runs

  datatype Store = Store(used: seq<Entry>, blocks: seq<Block>, memory: seq<Byte>)

  /** A write and a read of the store, and what other clients of the arena do meanwhile. */
  datatype Step =
    | Writing(offset: Offset, page: Page, now: nat)
    | Reading(offset: Offset, now: nat)
    | OtherAlloc(size: nat)
    | OtherFree(addr: nat)
    | OtherWrite(addr: nat, bytes: seq<Byte>)

  function FindEntry(used: seq<Entry>, off: nat, i: nat): (k: nat)
    requires i <= |used|
    ensures i <= k <= |used| && (k < |used| ==> used[k].offset == off)
    ensures forall j :: i <= j < k ==> used[j].offset != off
    decreases |used| - i
  {
    if i == |used| || used[i].offset == off then i else FindEntry(used, off, i + 1)
  }

  predicate Hit(used: seq<Entry>, off: nat) { FindEntry(used, off, 0) < |used| }

  /** The entry a write takes: its own, else a free one, else the least recently used. */
  function Choice(used: seq<Entry>, off: nat): (k: nat)
    ensures k <= |used|
  {
    var k := FindEntry(used, off, 0);
    if k < |used| || |used| < REGIONS then k else Oldest(used, |used|)
  }

  /** The blocks after the request for a block, and its outcome; an entry found keeps its own. */
  function Provide(used: seq<Entry>, blocks: seq<Block>, off: nat): (seq<Block>, AllocResult) {
    var k := Choice(used, off);
    if Hit(used, off) then (blocks, Got(used[k].remote)) else Alloc(Vacated(used, blocks, k), PAGE_SIZE)
  }

  function Stored(memory: seq<Byte>, remote: nat, page: Page): seq<Byte> {
    if |memory| == SIZE && Inside(remote) then Ring.Patch(memory, remote - BASE, page) else memory
  }

  function WriteTo(s: Store, off: Offset, page: Page, now: nat): Store {
    var (blocks, r) := Provide(s.used, s.blocks, off);
    if r.Got? then
      Store(Entered(s.used, Choice(s.used, off), Entry(off, r.addr, PAGE_SIZE, true, now, true)),
            blocks, Stored(s.memory, r.addr, page))
    else s.(blocks := blocks)
  }

  function Touch(used: seq<Entry>, off: nat, now: nat): seq<Entry> {
    var k := FindEntry(used, off, 0);
    if k < |used| then used[k := used[k].(lastAccess := now)] else used
  }

  /** No entry's block overlaps these bytes. */
  predicate Clear(used: seq<Entry>, addr: nat, n: nat) {
    forall i :: 0 <= i < |used| ==> Apart(used[i].remote, addr, PAGE_SIZE, n)
  }

  predicate Enabled(s: Store, t: Step) {
    match t
    case Writing(_, _, now) => now < WORD - 1
    case Reading(_, now) => now < WORD - 1
    case OtherAlloc(size) => size == 0 || RoundUp(size) > 0
    case OtherFree(addr) => forall i :: 0 <= i < |s.used| ==> s.used[i].remote != addr
    case OtherWrite(addr, bytes) =>
      |s.memory| == SIZE && BASE <= addr && addr + |bytes| <= END && Clear(s.used, addr, |bytes|)
  }

  function Next(s: Store, t: Step): Store
    requires Enabled(s, t)
  {
    match t
    case Writing(off, page, now) => WriteTo(s, off, page, now)
    case Reading(off, now) => s.(used := Touch(s.used, off, now))
    case OtherAlloc(size) => s.(blocks := Alloc(s.blocks, size).0)
    case OtherFree(addr) => s.(blocks := Dealloc(s.blocks, addr).0)
    case OtherWrite(addr, bytes) => s.(memory := Ring.Patch(s.memory, addr - BASE, bytes))
  }

  /** The reference: a map that successful writes update. */
  ghost function PutBy(s: Store, off: Offset, page: Page): Put {
    var k := Choice(s.used, off);
    Put(off, page, if k < |s.used| then s.used[k].offset else 0)
  }

  ghost function Logged(s: Store, t: Step): seq<Put> {
    if t.Writing? && Provide(s.used, s.blocks, t.offset).1.Got? then [PutBy(s, t.offset, t.page)] else []
  }

  /** The store after a run from an empty table over a sound arena, with the log of its successful writes. */
  ghost function Exec(blocks: seq<Block>, memory: seq<Byte>, trace: seq<Step>): Option<(Store, seq<Put>)> {
    if trace == [] then (if Wf(blocks) && |memory| == SIZE then Some((Store([], blocks, memory), [])) else None)
    else
      var (r, t) := (Exec(blocks, memory, trace[..|trace| - 1]), trace[|trace| - 1]);
      if r.None? || !Enabled(r.value.0, t) then None
      else Some((Next(r.value.0, t), r.value.1 + Logged(r.value.0, t)))
  }

  ghost predicate Inv(s: Store, pages: map<nat, Page>) {
    UsedOk(s.used, pages.Keys) && BlocksOk(s.used, s.blocks) && BytesOk(s.used, s.memory, pages, -1)
  }

  lemma HitIffStored(used: seq<Entry>, pages: map<nat, Page>, off: nat)
    requires UsedOk(used, pages.Keys)
    ensures Hit(used, off) <==> off in pages
  {
  }

  lemma ChoiceIsSeat(s: Store, pages: map<nat, Page>, off: Offset, page: Page)
    requires UsedOk(s.used, pages.Keys)
    ensures Seat(s.used, pages, Choice(s.used, off), PutBy(s, off, page))
  {
  }

  lemma ProvideOk(used: seq<Entry>, blocks: seq<Block>, off: nat, e: Entry)
    requires BlocksOk(used, blocks) && Provide(used, blocks, off).1 == Got(e.remote)
    ensures var (k, blocks') := (Choice(used, off), Provide(used, blocks, off).0);
      && BlocksOk(Entered(used, k, e), blocks')
      && LiveSize(blocks') - LiveSize(blocks) == PAGE_SIZE * (|Entered(used, k, e)| - |used|)
  {
    if !Hit(used, off) { RegionTaken(used, blocks, Choice(used, off), e); }
  }

  /** A write is refused only while there is a free entry and no room in the arena. */
  lemma RefusedOk(used: seq<Entry>, blocks: seq<Block>, off: nat)
    requires BlocksOk(used, blocks) && !Provide(used, blocks, off).1.Got?
    ensures !Hit(used, off) && |used| < REGIONS && Provide(used, blocks, off).0 == blocks
    ensures Alloc(blocks, PAGE_SIZE).1.NoMemory? && LiveSize(blocks) >= SIZE
  {
    var k := Choice(used, off);
    if k < |used| { VacatedFits(used, blocks, k); }
    if LiveSize(blocks) < SIZE { RoomForPage(blocks); }
  }

  lemma WriteInv(s: Store, pages: map<nat, Page>, off: Offset, page: Page, now: nat)
    requires Inv(s, pages) && now < WORD - 1
    ensures var got := Provide(s.used, s.blocks, off).1.Got?;
      Inv(WriteTo(s, off, page, now), if got then After(pages, PutBy(s, off, page)) else pages)
    ensures var r := Provide(s.used, s.blocks, off).1; r.Got? ==> Inside(r.addr)
  {
    var (blocks, r) := Provide(s.used, s.blocks, off);
    if r.Got? {
      var k := Choice(s.used, off);
      var e := Entry(off, r.addr, PAGE_SIZE, true, now, true);
      var w := PutBy(s, off, page);
      ProvideOk(s.used, s.blocks, off, e);
      ChoiceIsSeat(s, pages, off, page);
      SeatTaken(s.used, pages, s.memory, k, e, w);
      assert Entered(s.used, k, e)[k] == e;
      PageSent(Entered(s.used, k, e), blocks, s.memory, After(pages, w), k);
    } else {
      RefusedOk(s.used, s.blocks, off);
    }
  }

  /** Once the page is in the block of its entry, nothing is missing. */
  lemma PageSent(used: seq<Entry>, blocks: seq<Block>, memory: seq<Byte>, pages: map<nat, Page>, k: nat)
    requires BlocksOk(used, blocks) && BytesOk(used, memory, pages, k) && k < |used| && used[k].offset in pages
    ensures Inside(used[k].remote)
    ensures BytesOk(used, Stored(memory, used[k].remote, pages[used[k].offset]), pages, -1)
  {
    BlockInside(used, blocks, k);
    LiveSpread(blocks);
    PageWritten(used, Live(blocks), memory, pages, k, pages[used[k].offset]);
  }

  lemma TouchListed(used: seq<Entry>, keys: set<nat>, off: nat, now: nat)
    requires UsedOk(used, keys) && now < WORD - 1
    ensures UsedOk(Touch(used, off, now), keys)
  {
    var used' := Touch(used, off, now);
    forall o | o in keys ensures Listed(used', o) { StillListed(used, used', o); }
  }

  lemma SameBlocks(used: seq<Entry>, used': seq<Entry>, live: set<(nat, nat)>, memory: seq<Byte>, pages: map<nat, Page>)
    requires |used'| == |used| && Owned(used, live, -1) && BytesOk(used, memory, pages, -1)
    requires forall i :: 0 <= i < |used| ==> used'[i].remote == used[i].remote && used'[i].offset == used[i].offset
    ensures Owned(used', live, -1) && BytesOk(used', memory, pages, -1)
  {
  }

  lemma ReadInv(s: Store, pages: map<nat, Page>, off: nat, now: nat)
    requires Inv(s, pages) && now < WORD - 1
    ensures Inv(s.(used := Touch(s.used, off, now)), pages)
  {
    TouchListed(s.used, pages.Keys, off, now);
    SameBlocks(s.used, Touch(s.used, off, now), Live(s.blocks), s.memory, pages);
  }

  lemma OtherAllocInv(used: seq<Entry>, blocks: seq<Block>, size: nat)
    requires BlocksOk(used, blocks) && (size == 0 || RoundUp(size) > 0)
    ensures BlocksOk(used, Alloc(blocks, size).0)
  {
    AllocKeepsLive(blocks, size);
  }

  lemma OtherFreeInv(used: seq<Entry>, blocks: seq<Block>, addr: nat)
    requires BlocksOk(used, blocks) && forall i :: 0 <= i < |used| ==> used[i].remote != addr
    ensures BlocksOk(used, Dealloc(blocks, addr).0)
  {
    DeallocKeepsLive(blocks, addr);
  }

  lemma ReplayGrows(log: seq<Put>, w: Put)
    ensures Replay(log + [w]) == After(Replay(log), w)
  {
  }

  lemma WriteStepInv(s: Store, log: seq<Put>, t: Step)
    requires Inv(s, Replay(log)) && t.Writing? && t.now < WORD - 1
    ensures Inv(Next(s, t), Replay(log + Logged(s, t)))
  {
    WriteInv(s, Replay(log), t.offset, t.page, t.now);
    ReplayGrows(log, PutBy(s, t.offset, t.page));
    assert log + [] == log;
  }

  lemma ArenaStepInv(s: Store, pages: map<nat, Page>, t: Step)
    requires Inv(s, pages) && (t.OtherAlloc? || t.OtherFree?) && Enabled(s, t)
    ensures Inv(Next(s, t), pages)
  {
    if t.OtherAlloc? { OtherAllocInv(s.used, s.blocks, t.size); } else { OtherFreeInv(s.used, s.blocks, t.addr); }
  }

  lemma ForeignWriteInv(s: Store, pages: map<nat, Page>, t: Step)
    requires BytesOk(s.used, s.memory, pages, -1) && t.OtherWrite? && Enabled(s, t)
    ensures Next(s, t).used == s.used && Next(s, t).blocks == s.blocks
    ensures BytesOk(s.used, Next(s, t).memory, pages, -1)
  {
  }

  lemma OtherStepInv(s: Store, pages: map<nat, Page>, t: Step)
    requires Inv(s, pages) && !t.Writing? && Enabled(s, t)
    ensures Inv(Next(s, t), pages)
  {
    if t.Reading? {
      ReadInv(s, pages, t.offset, t.now);
    } else if t.OtherWrite? {
      ForeignWriteInv(s, pages, t);
    } else {
      ArenaStepInv(s, pages, t);
    }
  }

  lemma NextInv(s: Store, log: seq<Put>, t: Step)
    requires Inv(s, Replay(log)) && Enabled(s, t)
    ensures Inv(Next(s, t), Replay(log + Logged(s, t)))
  {
    if t.Writing? {
      WriteStepInv(s, log, t);
    } else {
      OtherStepInv(s, Replay(log), t);
      assert log + [] == log;
    }
  }

  lemma {:induction false} ExecInv(blocks: seq<Block>, memory: seq<Byte>, trace: seq<Step>)
    requires Exec(blocks, memory, trace).Some?
    ensures var (s, log) := Exec(blocks, memory, trace).value; Inv(s, Replay(log))
  {
    if trace != [] {
      ExecInv(blocks, memory, trace[..|trace| - 1]);
      var (s, log) := Exec(blocks, memory, trace[..|trace| - 1]).value;
      NextInv(s, log, trace[|trace| - 1]);
    }
  }

  /** What a read finds for an offset. */
  function Fetch(s: Store, off: nat): Option<Page> {
    var k := FindEntry(s.used, off, 0);
    if k < |s.used| && |s.memory| == SIZE && Inside(s.used[k].remote) then Some(At(s.memory, s.used[k].remote))
    else None
  }

  /** In every run, with other clients that keep off the store's blocks, a read finds an offset exactly
      when the map of the successful writes does, and brings back the page in it. */
  lemma StoreIsMap(blocks: seq<Block>, memory: seq<Byte>, trace: seq<Step>, off: nat)
    requires Exec(blocks, memory, trace).Some?
    ensures var (s, log) := Exec(blocks, memory, trace).value;
      Fetch(s, off) == if off in Replay(log) then Some(Replay(log)[off]) else None
  {
    ExecInv(blocks, memory, trace);
    var (s, log) := Exec(blocks, memory, trace).value;
    HitIffStored(s.used, Replay(log), off);
    var k := FindEntry(s.used, off, 0);
    if k < |s.used| { assert Kept(s.used[k], s.memory, Replay(log)); }
  }

  /** While at most 65536 offsets have been written, a read of any of them finds the last page written. */
  lemma NothingMissed(blocks: seq<Block>, memory: seq<Byte>, trace: seq<Step>, off: nat)
    requires Exec(blocks, memory, trace).Some?
    requires var log := Exec(blocks, memory, trace).value.1; |LastWrites(log)| <= REGIONS && off in LastWrites(log)
    ensures var (s, log) := Exec(blocks, memory, trace).value; Fetch(s, off) == Some(LastWrites(log)[off])
  {
    NothingLostWithinCapacity(Exec(blocks, memory, trace).value.1);
    StoreIsMap(blocks, memory, trace, off);
  }

  predicate OwnStep(t: Step) { t.Writing? || t.Reading? }

  lemma {:induction false} AloneUses(memory: seq<Byte>, trace: seq<Step>)
    requires Exec(Fresh(), memory, trace).Some? && forall i :: 0 <= i < |trace| ==> OwnStep(trace[i])
    ensures var (s, log) := Exec(Fresh(), memory, trace).value; LiveSize(s.blocks) == PAGE_SIZE * |s.used|
  {
    if trace == [] {
      LiveSizeOne(Block(BASE, SIZE, true));
    } else {
      var (front, t) := (trace[..|trace| - 1], trace[|trace| - 1]);
      AloneUses(memory, front);
      ExecInv(Fresh(), memory, front);
      var (s, _) := Exec(Fresh(), memory, front).value;
      AloneStep(s, t);
    }
  }

  lemma AloneStep(s: Store, t: Step)
    requires BlocksOk(s.used, s.blocks) && Enabled(s, t) && OwnStep(t) && LiveSize(s.blocks) == PAGE_SIZE * |s.used|
    ensures LiveSize(Next(s, t).blocks) == PAGE_SIZE * |Next(s, t).used|
  {
    if t.Writing? {
      var r := Provide(s.used, s.blocks, t.offset).1;
      if r.Got? {
        ProvideOk(s.used, s.blocks, t.offset, Entry(t.offset, r.addr, PAGE_SIZE, true, t.now, true));
      } else {
        RefusedOk(s.used, s.blocks, t.offset);
      }
    }
  }

  /** A store that has the arena to itself never refuses a write. */
  lemma AloneNeverRefuses(memory: seq<Byte>, trace: seq<Step>, off: Offset)
    requires Exec(Fresh(), memory, trace).Some? && forall i :: 0 <= i < |trace| ==> OwnStep(trace[i])
    ensures var (s, log) := Exec(Fresh(), memory, trace).value; Provide(s.used, s.blocks, off).1.Got?
  {
    AloneUses(memory, trace);
    ExecInv(Fresh(), memory, trace);
    var (s, _) := Exec(Fresh(), memory, trace).value;
    NoRefusal(s.used, s.blocks, off);
  }

  lemma NoRefusal(used: seq<Entry>, blocks: seq<Block>, off: nat)
    requires BlocksOk(used, blocks) && LiveSize(blocks) == PAGE_SIZE * |used|
    ensures Provide(used, blocks, off).1.Got?
  {
    if !Provide(used, blocks, off).1.Got? { RefusedOk(used, blocks, off); }
  }

  // ------------------------------------------------------------------ victims

  predicate Uses(t: Step, off: nat) { OwnStep(t) && t.offset == off }

  /** When an offset was last written or read, going by the run alone. */
  function LastUse(trace: seq<Step>, off: nat): nat {
    if trace == [] then 0
    else
      var t := trace[|trace| - 1];
      if Uses(t, off) then t.now else LastUse(trace[..|trace| - 1], off)
  }

  lemma StampStep(s: Store, keys: set<nat>, t: Step, i: nat)
    requires UsedOk(s.used, keys) && Enabled(s, t) && i < |Next(s, t).used|
    ensures var e := Next(s, t).used[i];
      if Uses(t, e.offset) then e.lastAccess == t.now
      else i < |s.used| && e.offset == s.used[i].offset && e.lastAccess == s.used[i].lastAccess
  {
  }

  lemma {:induction false} StampIsLastUse(blocks: seq<Block>, memory: seq<Byte>, trace: seq<Step>)
    requires Exec(blocks, memory, trace).Some?
    ensures var used := Exec(blocks, memory, trace).value.0.used;
      forall i :: 0 <= i < |used| ==> used[i].lastAccess == LastUse(trace, used[i].offset)
  {
    if trace != [] {
      var (front, t) := (trace[..|trace| - 1], trace[|trace| - 1]);
      StampIsLastUse(blocks, memory, front);
      ExecInv(blocks, memory, front);
      var (s, log) := Exec(blocks, memory, front).value;
      forall i | 0 <= i < |Next(s, t).used|
        ensures Next(s, t).used[i].lastAccess == LastUse(trace, Next(s, t).used[i].offset)
      {
        StampStep(s, Replay(log).Keys, t, i);
      }
    }
  }

  /** In every run, a write of a new offset to a full table drops the stored offset whose
      last write or read is the longest ago, and no other. */
  lemma VictimIsLeastRecent(blocks: seq<Block>, memory: seq<Byte>, trace: seq<Step>, off: Offset, page: Page)
    requires Exec(blocks, memory, trace).Some?
    requires var (s, log) := Exec(blocks, memory, trace).value; |s.used| >= REGIONS && off !in Replay(log)
    ensures var (s, log) := Exec(blocks, memory, trace).value;
      var w := PutBy(s, off, page);
      && w.victim in Replay(log) && After(Replay(log), w) == (Replay(log) - {w.victim})[off := page]
      && (forall o :: o in Replay(log) ==> LastUse(trace, w.victim) <= LastUse(trace, o))
  {
    ExecInv(blocks, memory, trace);
    StampIsLastUse(blocks, memory, trace);
    var (s, log) := Exec(blocks, memory, trace).value;
    HitIffStored(s.used, Replay(log), off);
    var k := Choice(s.used, off);
    forall o | o in Replay(log) ensures LastUse(trace, s.used[k].offset) <= LastUse(trace, o) {
      assert Listed(s.used, o);
    }
  }

  // ---------------------------------------------------------------- the store

  ghost predicate Stamped(used: seq<Entry>) {
    forall i :: 0 <= i < |used| ==> used[i].size == PAGE_SIZE && used[i].lastAccess < WORD - 1
  }

  /** What the methods of the store need from its history. */
  lemma RunFacts(blocks: seq<Block>, memory: seq<Byte>, trace: seq<Step>, off: Offset)
    requires Exec(blocks, memory, trace).Some?
    ensures var (s, log) := Exec(blocks, memory, trace).value;
      && Stamped(s.used) && |s.used| <= REGIONS
      && (Provide(s.used, s.blocks, off).1.Got? ==> Inside(Provide(s.used, s.blocks, off).1.addr))
  {
    ExecInv(blocks, memory, trace);
    var (s, log) := Exec(blocks, memory, trace).value;
    WriteInv(s, Replay(log), off, ZeroPage(), 0);
  }

  lemma WriteRuns(blocks: seq<Block>, memory: seq<Byte>, trace: seq<Step>, off: Offset, page: Page, now: nat)
    requires Exec(blocks, memory, trace).Some? && now < WORD - 1
    ensures var (s, log) := Exec(blocks, memory, trace).value;
      Exec(blocks, memory, trace + [Writing(off, page, now)])
      == Some((WriteTo(s, off, page, now),
               log + if Provide(s.used, s.blocks, off).1.Got? then [PutBy(s, off, page)] else []))
  {
  }

  lemma ReadRuns(blocks: seq<Block>, memory: seq<Byte>, trace: seq<Step>, off: Offset, now: nat)
    requires Exec(blocks, memory, trace).Some? && now < WORD - 1
    ensures var (s, log) := Exec(blocks, memory, trace).value;
      Exec(blocks, memory, trace + [Reading(off, now)]) == Some((s.(used := Touch(s.used, off, now)), log))
  {
    ExecGrows(blocks, memory, trace, Reading(off, now));
    var log := Exec(blocks, memory, trace).value.1;
    assert log + [] == log;
  }

  lemma HitInside(blocks: seq<Block>, memory: seq<Byte>, trace: seq<Step>, off: Offset)
    requires Exec(blocks, memory, trace).Some?
    ensures var (s, _) := Exec(blocks, memory, trace).value;
      Hit(s.used, off) ==> Inside(s.used[FindEntry(s.used, off, 0)].remote)
  {
    ExecInv(blocks, memory, trace);
    var (s, _) := Exec(blocks, memory, trace).value;
    if Hit(s.used, off) { BlockInside(s.used, s.blocks, FindEntry(s.used, off, 0)); }
  }

  lemma ExecGrows(blocks: seq<Block>, memory: seq<Byte>, trace: seq<Step>, t: Step)
    requires Exec(blocks, memory, trace).Some? && Enabled(Exec(blocks, memory, trace).value.0, t)
    ensures var (s, log) := Exec(blocks, memory, trace).value;
      Exec(blocks, memory, trace + [t]) == Some((Next(s, t), log + Logged(s, t)))
  {
  }

  /** The offset is registered with the block that was had for it. */
  predicate Registered(rs: seq<Region>, off: Offset, r: AllocResult) {
    r.Got? && r.addr < WORD && Lookup(rs, off) == Some(NewRegion(off, PAGE_SIZE, r.addr))
  }

  /** The entry for a write is in place, or there was no block for it. */
  predicate Placed(s: Store, s': Store, off: Offset, now: nat, k: nat, ok: bool) {
    && s'.memory == s.memory && k == Choice(s.used, off) && (ok ==> k < |s'.used|)
    && (s'.blocks, if ok then Got(s'.used[k].remote) else NoMemory) == Provide(s.used, s.blocks, off)
    && s'.used == if ok then Entered(s.used, k, Entry(off, s'.used[k].remote, PAGE_SIZE, true, now, true)) else s.used
  }

  /** With the page stored that is the write. */
  lemma PlacedWrites(s: Store, s': Store, off: Offset, now: nat, k: nat, ok: bool, page: Page)
    requires Placed(s, s', off, now, k, ok)
    ensures ok <==> Provide(s.used, s.blocks, off).1.Got?
    ensures ok ==> Provide(s.used, s.blocks, off).1 == Got(s'.used[k].remote)
    ensures WriteTo(s, off, page, now) == if ok then s'.(memory := Stored(s.memory, s'.used[k].remote, page)) else s'
  {
  }

  /** Any client address but null. */
  const CLIENT := 1

  class PageStore {
    const table: array<Entry>
    const chan: Ring.Channel
    const translator: Translator
    var high: nat
    ghost var origin: (seq<Block>, seq<Byte>)
    ghost var trace: seq<Step>
    ghost var log: seq<Put>

    ghost function Repr(): set<object> { {this, table, translator} + chan.Repr() }

    /** Exactly the first `high` entries are in use. */
    ghost predicate Dense()
      reads this, table
    {
      table.Length == REGIONS && high <= REGIONS && forall i :: 0 <= i < REGIONS ==> (table[i].inUse <==> i < high)
    }

    ghost function Used(): seq<Entry>
      reads this, table
      requires Dense()
    {
      table[..high]
    }

    ghost predicate Idle()
      reads chan, chan.slots, chan.buffer, chan.memory, chan.heap
    {
      chan.Valid() && chan.count == 0
    }

    ghost function View(): Store
      reads this, table, chan.memory, chan.heap
      requires Dense()
    {
      Store(Used(), chan.heap.blocks, chan.memory[..])
    }

    /** Between requests. */
    ghost predicate Ready()
      reads this, table, translator, chan, chan.slots, chan.buffer, chan.memory, chan.heap
    {
      Dense() && Idle() && translator.Valid() && Foreign(translator.regions)
    }

    ghost predicate Valid()
      reads this, table, translator, chan, chan.slots, chan.buffer, chan.memory, chan.heap
    {
      Ready() && Exec(origin.0, origin.1, trace) == Some((View(), log))
    }

    /** A store over a ring and a translator that may already have other clients. */
    constructor (chan: Ring.Channel, translator: Translator)
      requires chan.Valid() && chan.count == 0 && Wf(chan.heap.blocks)
      requires translator.Valid() && Foreign(translator.regions)
      ensures Valid() && trace == [] && log == [] && fresh({this, table})
      ensures this.chan == chan && this.translator == translator
    {
      table := new Entry[REGIONS](_ => Entry(0, 0, 0, false, 0, false));
      this.chan, this.translator := chan, translator;
      high := 0;
      origin, trace, log := (chan.heap.blocks, chan.memory[..]), [], [];
    }

    /** `find_remote_region`: the index of the entry for an offset, `high` if there is none. */
    method FindRegion(off: nat) returns (k: nat)
      requires Dense()
      ensures k == FindEntry(Used(), off, 0)
    {
      k := 0;
      while k < high && !(table[k].inUse && table[k].offset == off)
        invariant k <= high && forall j :: 0 <= j < k ==> Used()[j].offset != off
      {
        k := k + 1;
      }
      assert k < high ==> Used()[k].offset == off;
    }

    method FreeIndex() returns (k: nat)
      requires Dense()
      ensures k == high
    {
      k := 0;
      while k < REGIONS && table[k].inUse
        invariant k <= high
      {
        k := k + 1;
      }
    }

    method OldestIndex() returns (k: nat)
      requires Dense() && Stamped(Used()) && high > 0
      ensures k == Oldest(Used(), high)
    {
      k := REGIONS;
      var oldest := WORD - 1;
      for i := 0 to high
        invariant if i == 0 then k == REGIONS && oldest == WORD - 1
                  else k == Oldest(Used(), i) && oldest == Used()[k].lastAccess
      {
        assert Used()[i].lastAccess < WORD - 1;
        if table[i].inUse && table[i].lastAccess < oldest { oldest, k := table[i].lastAccess, i; }
      }
    }

    /** Ask the server for a block; null if the arena has no room. */
    method NewBlock() returns (a: Option<nat>)
      requires Idle()
      modifies chan.Repr()
      ensures Idle() && chan.memory[..] == old(chan.memory[..])
      ensures (chan.heap.blocks, if a.Some? then Got(a.value) else NoMemory) == Alloc(old(chan.heap.blocks), PAGE_SIZE)
    {
      Ring.ExchangeAllocate(chan.steps, PAGE_SIZE);
      var id := chan.ExchangeRequest(Ring.Allocate, 0, 0, PAGE_SIZE, null);
      var p := chan.PollRequest(id);
      var addr := chan.AddressOf(id);
      a := if p.Done? then Some(addr) else None;
      assert chan.View().slots == chan.slots[..];
    }

    /** Put an entry in use at an index. */
    method Enter(k: nat, e: Entry)
      requires Dense() && Idle() && e.inUse && k <= high && k < REGIONS
      modifies `high, table
      ensures Dense() && Idle() && Used() == Entered(old(Used()), k, e) && k < high && table[k] == e
    {
      table[k] := e;
      if k >= high { high := k + 1; }
    }

    /** Choose the index for a new entry; if all are in use, the oldest one gives up its block. */
    method Choose(ghost off: nat) returns (k: nat)
      requires Dense() && Idle() && Stamped(Used()) && !Hit(Used(), off)
      modifies chan.heap, chan`steps, chan`history
      ensures Idle() && k == Choice(Used(), off) && k < REGIONS
      ensures chan.heap.blocks == Vacated(Used(), old(chan.heap.blocks), k)
    {
      k := FreeIndex();
      if k == REGIONS {
        k := OldestIndex();
        assert Used()[k] == table[k];
        var _ := chan.FreeBlock(table[k].remote);
      }
    }

    /** `allocate_remote_region`: the index of the new entry, and whether there was a block for it. */
    method AllocateRegion(off: Offset, now: nat) returns (k: nat, ok: bool)
      requires Dense() && Idle() && Stamped(Used()) && !Hit(Used(), off)
      modifies `high, table, chan.Repr()
      ensures Dense() && Idle() && chan.memory[..] == old(chan.memory[..]) && k == Choice(old(Used()), off)
      ensures (chan.heap.blocks, if ok then Got(table[k].remote) else NoMemory)
        == Provide(old(Used()), old(chan.heap.blocks), off)
      ensures if ok
        then k < high && Used() == Entered(old(Used()), k, Entry(off, table[k].remote, PAGE_SIZE, true, now, false))
        else Used() == old(Used())
    {
      var a;
      k, a := Reserve(off);
      ok := a.Some?;
      if ok { Enter(k, Entry(off, a.value, PAGE_SIZE, true, now, false)); }
    }

    /** An index for a new entry, and a block for it if there is one. */
    method Reserve(ghost off: nat) returns (k: nat, a: Option<nat>)
      requires Dense() && Idle() && Stamped(Used()) && !Hit(Used(), off)
      modifies chan.Repr()
      ensures Dense() && Idle() && chan.memory[..] == old(chan.memory[..]) && Used() == old(Used())
      ensures k == Choice(Used(), off) && k <= high && k < REGIONS
      ensures (chan.heap.blocks, if a.Some? then Got(a.value) else NoMemory)
        == Provide(Used(), old(chan.heap.blocks), off)
    {
      k := Choose(off);
      a := NewBlock();
    }

    method Stamp(k: nat, now: nat, dirty: bool)
      requires Dense() && Idle() && k < high
      modifies table
      ensures Dense() && Idle()
      ensures var e := old(Used())[k]; Used() == old(Used())[k := e.(lastAccess := now, dirty := e.dirty || dirty)]
      ensures table[k] == Used()[k]
    {
      table[k] := table[k].(lastAccess := now, dirty := table[k].dirty || dirty);
    }

    method Admit(off: Offset, now: nat) returns (k: nat, ok: bool)
      requires Dense() && Idle() && Stamped(Used()) && !Hit(Used(), off)
      modifies `high, table, chan.Repr()
      ensures Dense() && Idle() && chan.memory[..] == old(chan.memory[..]) && k == Choice(old(Used()), off)
      ensures (chan.heap.blocks, if ok then Got(table[k].remote) else NoMemory)
        == Provide(old(Used()), old(chan.heap.blocks), off)
      ensures if ok
        then k < high && Used() == Entered(old(Used()), k, Entry(off, table[k].remote, PAGE_SIZE, true, now, true))
        else Used() == old(Used())
    {
      ghost var used := Used();
      k, ok := AllocateRegion(off, now);
      if ok {
        ghost var e := Entry(off, table[k].remote, PAGE_SIZE, true, now, false);
        EnteredAgain(used, k, e, e.(dirty := true));
        Stamp(k, now, true);
      }
    }

    /** Find or make the entry for an offset, and stamp it. */
    method Place(off: Offset, now: nat) returns (k: nat, ok: bool)
      requires Dense() && Idle() && Stamped(Used())
      modifies `high, table, chan.Repr()
      ensures Dense() && Idle() && Placed(old(View()), View(), off, now, k, ok)
    {
      k := FindRegion(off);
      if k < high {
        assert Used()[k] == table[k];
        ok := true;
        Stamp(k, now, true);
      } else {
        k, ok := Admit(off, now);
      }
    }

    /** A copy of the page, encoded for the block it goes to. */
    method EncodedCopy(off: Offset, remote: nat, src: array<Byte>) returns (copy: array<Byte>)
      requires translator.Valid() && Foreign(translator.regions) && Inside(remote) && src.Length == PAGE_SIZE
      modifies translator
      ensures translator.Valid() && Foreign(translator.regions)
      ensures fresh(copy) && copy.Length == PAGE_SIZE && copy[..] == Packed(src[..])
      ensures Registered(translator.regions, off, Got(remote))
    {
      copy := new Byte[PAGE_SIZE];
      Ring.CopyBytes(copy, 0, src, 0, PAGE_SIZE);
      assert copy[..] == src[..];
      RegisterForeign(translator.regions, NewRegion(off, PAGE_SIZE, remote));
      RegisterUpdates(translator.regions, NewRegion(off, PAGE_SIZE, remote), off);
      translator.RegisterRegion(off, PAGE_SIZE, remote);
      EncodePacks(translator.regions, src[..]);
      var _ := translator.EncodePage(copy);
    }

    method SendPage(remote: nat, src: array<Byte>) returns (ok: bool)
      requires Idle() && Inside(remote) && src.Length == PAGE_SIZE && src != chan.buffer && src != chan.memory
      modifies chan.Repr()
      ensures Idle() && ok && chan.heap.blocks == old(chan.heap.blocks)
      ensures chan.memory[..] == Ring.Patch(old(chan.memory[..]), remote - BASE, old(src[..]))
    {
      Ring.ExchangeWrite(chan.steps, CLIENT, remote, src[..]);
      var id := chan.ExchangeRequest(Ring.Write, CLIENT, remote, PAGE_SIZE, src);
      var p := chan.PollRequest(id);
      ok := p.Done?;
    }

    method Deliver(off: Offset, remote: nat, src: array<Byte>) returns (ok: bool)
      requires Dense() && Idle() && translator.Valid() && Foreign(translator.regions) && Inside(remote)
      requires src.Length == PAGE_SIZE && src != chan.buffer && src != chan.memory
      modifies translator, chan.Repr()
      ensures Dense() && Idle() && translator.Valid() && Foreign(translator.regions) && ok
      ensures Registered(translator.regions, off, Got(remote))
      ensures View() == old(View()).(memory := Stored(old(chan.memory[..]), remote, Packed(old(src[..]))))
    {
      var copy := EncodedCopy(off, remote, src);
      ok := SendPage(remote, copy);
    }

    /** Place the entry and send the page. */
    method Transfer(off: Offset, src: array<Byte>, now: nat, ghost s: Store, ghost page: Page) returns (ok: bool)
      requires Ready() && View() == s && Stamped(s.used)
      requires Provide(s.used, s.blocks, off).1.Got? ==> Inside(Provide(s.used, s.blocks, off).1.addr)
      requires src.Length == PAGE_SIZE && src != chan.buffer && src != chan.memory && page == Packed(src[..])
      modifies `high, table, translator, chan.Repr()
      ensures Ready() && View() == WriteTo(s, off, page, now)
      ensures ok <==> Provide(s.used, s.blocks, off).1.Got?
      ensures ok ==> Registered(translator.regions, off, Provide(s.used, s.blocks, off).1)
    {
      var k;
      k, ok := Place(off, now);
      PlacedWrites(s, View(), off, now, k, ok, page);
      if ok {
        assert Used()[k] == table[k];
        ok := Deliver(off, table[k].remote, src);
      }
    }

    ghost method Record(t: Step, puts: seq<Put>)
      requires Ready() && Exec(origin.0, origin.1, trace + [t]) == Some((View(), log + puts))
      modifies `trace, `log
      ensures Valid() && trace == old(trace) + [t] && log == old(log) + puts
    {
      trace, log := trace + [t], log + puts;
    }

    /** Transfer the page and enter the write in the run. */
    method Commit(off: Offset, src: array<Byte>, now: nat, ghost page: Page, ghost puts: seq<Put>) returns (ok: bool)
      requires Dense() && Idle() && translator.Valid() && Foreign(translator.regions) && Stamped(Used())
      requires Provide(Used(), chan.heap.blocks, off).1.Got? ==> Inside(Provide(Used(), chan.heap.blocks, off).1.addr)
      requires src.Length == PAGE_SIZE && src != chan.buffer && src != chan.memory && page == Packed(src[..])
      requires Exec(origin.0, origin.1, trace + [Writing(off, page, now)])
        == Some((WriteTo(View(), off, page, now), log + puts))
      modifies Repr()
      ensures Valid() && trace == old(trace) + [Writing(off, page, now)] && log == old(log) + puts
      ensures ok <==> old(Provide(Used(), chan.heap.blocks, off).1.Got?)
      ensures ok ==> Registered(translator.regions, off, old(Provide(Used(), chan.heap.blocks, off).1))
    {
      ok := Transfer(off, src, now, View(), page);
      Record(Writing(off, page, now), puts);
    }

    /** `rdma_write_page` */
    method WritePage(off: Offset, src: array<Byte>, now: nat) returns (ok: bool)
      requires Valid() && now < WORD - 1
      requires src.Length == PAGE_SIZE && src != chan.buffer && src != chan.memory
      modifies Repr()
      ensures Valid() && trace == old(trace) + [Writing(off, Packed(old(src[..])), now)]
      ensures ok <==> old(Provide(Used(), chan.heap.blocks, off).1.Got?)
      ensures log == if ok then old(log) + [PutBy(old(View()), off, Packed(old(src[..])))] else old(log)
      ensures ok ==> Registered(translator.regions, off, old(Provide(Used(), chan.heap.blocks, off).1))
    {
      ghost var (s, page) := (View(), Packed(src[..]));
      RunFacts(origin.0, origin.1, trace, off);
      WriteRuns(origin.0, origin.1, trace, off, page, now);
      ok := Commit(off, src, now, page, if Provide(s.used, s.blocks, off).1.Got? then [PutBy(s, off, page)] else []);
    }

    /** Bring the bytes of a block into the shared buffer. */
    method FetchBytes(remote: nat) returns (ok: bool)
      requires Idle() && Inside(remote)
      modifies chan.Repr()
      ensures Idle() && ok && chan.heap.blocks == old(chan.heap.blocks) && chan.memory[..] == old(chan.memory[..])
      ensures |chan.memory[..]| == SIZE && chan.buffer.Length == PAGE_SIZE
        && chan.buffer[..] == At(chan.memory[..], remote)
    {
      Ring.ExchangeRead(chan.steps, CLIENT, remote, PAGE_SIZE);
      var id := chan.ExchangeRequest(Ring.Read, CLIENT, remote, PAGE_SIZE, null);
      var p := chan.PollRequest(id);
      ok := p.Done?;
      assert chan.View().buffer == chan.buffer[..];
    }

    method TakeBuffer(dest: array<Byte>)
      requires Idle() && dest.Length == PAGE_SIZE == chan.buffer.Length && dest != chan.buffer && dest != chan.memory
      modifies dest
      ensures Idle() && dest[..] == chan.buffer[..]
    {
      Ring.CopyBytes(dest, 0, chan.buffer, 0, PAGE_SIZE);
      assert chan.buffer[0..PAGE_SIZE] == chan.buffer[..];
    }

    method ReceivePage(remote: nat, dest: array<Byte>) returns (ok: bool)
      requires Idle() && Inside(remote) && dest.Length == PAGE_SIZE && dest != chan.buffer && dest != chan.memory
      modifies dest, chan.Repr()
      ensures Idle() && ok && chan.heap.blocks == old(chan.heap.blocks) && chan.memory[..] == old(chan.memory[..])
      ensures |chan.memory[..]| == SIZE && dest[..] == At(chan.memory[..], remote)
    {
      ok := FetchBytes(remote);
      if ok { TakeBuffer(dest); }
    }

    /** Stamp the entry and fetch the page, if there is one. */
    method Retrieve(off: Offset, dest: array<Byte>, now: nat) returns (ok: bool)
      requires Dense() && Idle() && (Hit(Used(), off) ==> Inside(Used()[FindEntry(Used(), off, 0)].remote))
      requires dest.Length == PAGE_SIZE && dest != chan.buffer && dest != chan.memory
      modifies table, dest, chan.Repr()
      ensures Dense() && Idle() && View() == old(View()).(used := Touch(old(Used()), off, now))
      ensures if ok
        then Fetch(old(View()), off) == Some(dest[..])
        else Fetch(old(View()), off).None? && dest[..] == old(dest[..])
    {
      var k := FindRegion(off);
      if k == high { return false; }
      assert Used()[k] == table[k];
      Stamp(k, now, false);
      ok := ReceivePage(table[k].remote, dest);
    }

    method Unpack(dest: array<Byte>)
      requires Dense() && Idle() && translator.Valid() && Foreign(translator.regions)
      requires dest.Length == PAGE_SIZE && dest != chan.buffer && dest != chan.memory
      modifies dest
      ensures Dense() && Idle() && View() == old(View()) && dest[..] == Unpacked(old(dest[..]))
    {
      DecodeUnpacks(translator.regions, dest[..]);
      var _ := translator.DecodePage(dest);
    }

    /** `rdma_read_page`: a hit exactly for the offsets the map of the successful writes holds. */
    method ReadPage(off: Offset, dest: array<Byte>, now: nat) returns (ok: bool)
      requires Valid() && now < WORD - 1
      requires dest.Length == PAGE_SIZE && dest != chan.buffer && dest != chan.memory
      modifies Repr(), dest
      ensures Valid() && trace == old(trace) + [Reading(off, now)] && log == old(log)
      ensures ok <==> off in Replay(log)
      ensures dest[..] == if ok then Unpacked(Replay(log)[off]) else old(dest[..])
    {
      HitInside(origin.0, origin.1, trace, off);
      ReadRuns(origin.0, origin.1, trace, off, now);
      StoreIsMap(origin.0, origin.1, trace, off);
      assert log + [] == log;
      ok := CommitRead(off, dest, now, View());
    }

    /** Fetch the page and enter the read in the run. */
    method CommitRead(off: Offset, dest: array<Byte>, now: nat, ghost s: Store) returns (ok: bool)
      requires Ready() && View() == s && (Hit(s.used, off) ==> Inside(s.used[FindEntry(s.used, off, 0)].remote))
      requires dest.Length == PAGE_SIZE && dest != chan.buffer && dest != chan.memory
      requires Exec(origin.0, origin.1, trace + [Reading(off, now)])
        == Some((s.(used := Touch(s.used, off, now)), log + []))
      modifies Repr(), dest
      ensures Valid() && trace == old(trace) + [Reading(off, now)] && log == old(log) + []
      ensures ok <==> Fetch(s, off).Some?
      ensures dest[..] == if ok then Unpacked(Fetch(s, off).value) else old(dest[..])
    {
      ok := RetrieveUnpacked(off, dest, now);
      Record(Reading(off, now), []);
    }

    method RetrieveUnpacked(off: Offset, dest: array<Byte>, now: nat) returns (ok: bool)
      requires Ready() && (Hit(Used(), off) ==> Inside(Used()[FindEntry(Used(), off, 0)].remote))
      requires dest.Length == PAGE_SIZE && dest != chan.buffer && dest != chan.memory
      modifies table, dest, chan.Repr()
      ensures Ready() && View() == old(View()).(used := Touch(old(Used()), off, now))
      ensures ok <==> Fetch(old(View()), off).Some?
      ensures dest[..] == if ok then Unpacked(Fetch(old(View()), off).value) else old(dest[..])
    {
      ok := Retrieve(off, dest, now);
      if ok { Unpack(dest); }
    }
  }
}
