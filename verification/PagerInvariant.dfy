/** Every step keeps the invariant. */
module PagerInvariant {
  import opened Common
  import opened Queues
  import opened Pager

  lemma RefileFiled(s: State, id: Id, d: Desc)
    requires id < |s.pages| && Filed(s.lists, Homes(s.pages))
    ensures var s' := Refile(s, id, d); Filed(s'.lists, Homes(s'.pages))
  {
    MoveFiled(s.lists, Homes(s.pages), id, d.list);
    assert Homes(s.pages[id := d]) == Homes(s.pages)[id := d.list];
  }

  lemma OnList(s: State, w: ListName)
    requires Filed(s.lists, Homes(s.pages)) && s.lists.At(w) != []
    ensures s.lists.At(w)[0] < |s.pages| && s.pages[s.lists.At(w)[0]].list == Some(w)
  {
    assert s.lists.At(w)[0] in s.lists.At(w);
  }

  /** Descriptors `a` and `b` exchange places; the others stand still. */
  ghost predicate Exchanged(pages: seq<Desc>, pages': seq<Desc>, a: Id, b: Id) {
    && |pages'| == |pages| && a < |pages| && b < |pages|
    && Slot(pages'[a]) == Slot(pages[b]) && Slot(pages'[b]) == Slot(pages[a])
    && (forall i :: 0 <= i < |pages| && i != a && i != b ==> pages'[i] == pages[i])
  }

  lemma ExchangeSlots(dramSize: nat, diskSize: nat, pages: seq<Desc>, pages': seq<Desc>, a: Id, b: Id)
    requires SlotsOk(dramSize, diskSize, pages) && Exchanged(pages, pages', a, b)
    ensures SlotsOk(dramSize, diskSize, pages')
  {
  }

  /** A change to one descriptor that leaves its place, reserve and mapping alone. */
  lemma LocalInv(s: State, id: Id, d: Desc, s': State)
    requires Inv(s) && id < |s.pages| && RoleOk(d)
    requires var e := s.pages[id];
      Slot(d) == Slot(e) && d.va == e.va && d.reserve == e.reserve
    requires s' == Refile(s, id, d).(accessed := s'.accessed)
    ensures Inv(s')
  {
    RefileFiled(s, id, d);
    ExchangeSlots(s.dramSize, s.diskSize, s.pages, s'.pages, id, id);
    LocalParts(s.pages, s.table, s.ram, s.dirty, s.store, id, d);
  }

  lemma MarkInv(s: State, id: Id)
    requires Inv(s) && id < |s.pages| && RoleOk(s.pages[id].(migrating := true))
    ensures Inv(Mark(s, id))
  {
    var d := s.pages[id].(migrating := true);
    assert Homes(s.pages[id := d]) == Homes(s.pages);
    ExchangeSlots(s.dramSize, s.diskSize, s.pages, s.pages[id := d], id, id);
    LocalParts(s.pages, s.table, s.ram, s.dirty, s.store, id, d);
  }

  lemma LocalParts(pages: seq<Desc>, table: map<nat, Id>, ram: map<nat, Page>, dirty: set<nat>, store: map<nat, Page>,
                   id: Id, d: Desc)
    requires id < |pages| && RoleOk(d)
    requires var e := pages[id];
      Slot(d) == Slot(e) && d.va == e.va && d.reserve == e.reserve
    requires RolesOk(pages) && ReservesOk(pages) && TableOk(pages, table) && MemoryOk(pages, ram, dirty, store)
    ensures var pages' := pages[id := d];
      RolesOk(pages') && ReservesOk(pages') && TableOk(pages', table) && MemoryOk(pages', ram, dirty, store)
  {
    var pages' := pages[id := d];
    forall i | 0 <= i < |pages| ensures Linked(pages', i) && Backed(pages', ram, dirty, store, i) {
      assert Linked(pages, i) && Backed(pages, ram, dirty, store, i);
    }
  }

  lemma StoreInv(s: State, addr: nat, b: Byte)
    requires Inv(s) && Enabled(s, Store(addr, b))
    ensures Inv(Next(s, Store(addr, b)))
  {
    var s' := Next(s, Store(addr, b));
    forall i | 0 <= i < |s.pages| ensures Backed(s'.pages, s'.ram, s'.dirty, s'.store, i) {
      assert Backed(s.pages, s.ram, s.dirty, s.store, i);
    }
  }

  /** What an eviction finds: a resident victim and an unmapped slot on disk, joined to
      each other or to nothing. */
  lemma EvictPair(s: State, keep: bool)
    requires Inv(s) && Enabled(s, Evict(keep))
    ensures var v := s.lists.At(Eviction)[0];
      var t := Target(s, v).value;
      var (d, e) := (s.pages[v], s.pages[t]);
      && v != t && d.list == Some(Eviction) && d.va != 0 && d.inDram && !d.swappedOut
      && e.va == 0 && !e.inDram && !e.present
      && (d.hasReserve ==> d.reserve == Some(t) && e.reserve == Some(v) && e.list == Some(DiskReserve))
      && (!d.hasReserve ==> d.reserve == None && e.reserve == None && e.list == Some(DiskFree))
  {
    var v := s.lists.At(Eviction)[0];
    var t := Target(s, v).value;
    OnList(s, Eviction);
    assert RoleOk(s.pages[v]) && RoleOk(s.pages[t]) && Linked(s.pages, v);
    if !s.pages[v].hasReserve { OnList(s, DiskFree); }
  }

  lemma EvictLinks(pages: seq<Desc>, v: Id, t: Id, keep: bool)
    requires v < |pages| && t < |pages| && v != t
    requires RolesOk(pages) && ReservesOk(pages)
    requires pages[v].va != 0 && pages[t].va == 0
    requires pages[v].reserve == Some(t) || (pages[v].reserve == None && pages[t].reserve == None)
    ensures RolesOk(TradedPages(pages, v, t, keep)) && ReservesOk(TradedPages(pages, v, t, keep))
  {
    var pages' := TradedPages(pages, v, t, keep);
    forall i | 0 <= i < |pages| ensures RoleOk(pages'[i]) && Linked(pages', i) {
      assert RoleOk(pages[i]) && Linked(pages, i) && Linked(pages, v) && Linked(pages, t);
      assert RoleOk(pages[v]) && RoleOk(pages[t]);
    }
  }

  ghost function TradedPages(pages: seq<Desc>, v: Id, t: Id, keep: bool): seq<Desc>
    requires v < |pages| && t < |pages|
  {
    pages[v := Evicted(pages[v], pages[t])][t := Vacated(pages[t], pages[v], keep)]
  }

  /** The victim's bytes are on the store, and no other page's bytes are touched. */
  lemma EvictMemory(pages: seq<Desc>, table: map<nat, Id>, ram: map<nat, Page>, dirty: set<nat>, store: map<nat, Page>,
                    v: Id, t: Id, keep: bool, store': map<nat, Page>)
    requires ReservesOk(pages) && TableOk(pages, table) && MemoryOk(pages, ram, dirty, store)
    requires forall i, j :: 0 <= i < j < |pages| ==> Slot(pages[i]) != Slot(pages[j])
    requires v < |pages| && t < |pages| && v != t
    requires pages[v].va != 0 && pages[v].inDram && pages[v].va in ram && pages[t].va == 0 && !pages[t].inDram
    requires pages[v].reserve == Some(t) || (pages[v].reserve == None && pages[t].reserve == None)
    requires store' == store[pages[t].offset := ram[pages[v].va]] || (store' == store && pages[v].reserve == Some(t))
    ensures var va := pages[v].va;
      MemoryOk(TradedPages(pages, v, t, keep), ram - {va}, dirty - {va}, store')
  {
    var va := pages[v].va;
    var pages' := TradedPages(pages, v, t, keep);
    forall i | 0 <= i < |pages| ensures Backed(pages', ram - {va}, dirty - {va}, store', i) {
      assert Backed(pages, ram, dirty, store, i) && Backed(pages, ram, dirty, store, t);
      assert Linked(pages, i) && Linked(pages, v) && Linked(pages, t);
      if i != v && i != t {
        assert pages'[i] == pages[i];
        assert pages[i].va != 0 ==> pages[i].va != va;
        assert Slot(pages[i]) != Slot(pages[t]);
        if pages[i].reserve.Some? {
          var r := pages[i].reserve.value;
          assert r != v && r != t;
          assert Slot(pages[r]) != Slot(pages[t]);
        }
      }
    }
  }

  lemma EvictInv(s: State, keep: bool)
    requires Inv(s) && Enabled(s, Evict(keep))
    ensures Inv(Next(s, Evict(keep)))
  {
    var v := s.lists.At(Eviction)[0];
    var t := Target(s, v).value;
    EvictPair(s, keep);
    EvictToInv(s, v, t, keep, WriteBack(s, v));
  }

  lemma EvictFiled(s: State, v: Id, t: Id, keep: bool, writeBack: bool)
    requires Filed(s.lists, Homes(s.pages)) && v < |s.pages| && t < |s.pages| && v != t && s.pages[v].va in s.ram
    ensures var s' := EvictTo(s, v, t, keep, writeBack);
      Filed(s'.lists, Homes(s'.pages)) && s'.pages == TradedPages(s.pages, v, t, keep)
  {
    var (d, e) := (s.pages[v], s.pages[t]);
    var s1 := if writeBack then s.(store := s.store[e.offset := s.ram[d.va]]) else s;
    RefileFiled(Zap(s1, d.va), v, Evicted(d, e));
    RefileFiled(Refile(Zap(s1, d.va), v, Evicted(d, e)), t, Vacated(e, d, keep));
  }

  lemma EvictToInv(s: State, v: Id, t: Id, keep: bool, writeBack: bool)
    requires Inv(s) && v < |s.pages| && t < |s.pages| && v != t
    requires s.pages[v].va != 0 && s.pages[v].inDram && s.pages[v].va in s.ram
    requires s.pages[t].va == 0 && !s.pages[t].inDram
    requires s.pages[v].reserve == Some(t) || (s.pages[v].reserve == None && s.pages[t].reserve == None)
    requires WriteBack(s, v) ==> writeBack
    ensures Inv(EvictTo(s, v, t, keep, writeBack))
  {
    var s' := EvictTo(s, v, t, keep, writeBack);
    EvictFiled(s, v, t, keep, writeBack);
    ExchangeSlots(s.dramSize, s.diskSize, s.pages, s'.pages, v, t);
    EvictLinks(s.pages, v, t, keep);
    assert RoleOk(s.pages[v]);
    EvictMemory(s.pages, s.table, s.ram, s.dirty, s.store, v, t, keep, s'.store);
    EvictTable(s.pages, s.table, v, t, keep);
  }

  lemma EvictTable(pages: seq<Desc>, table: map<nat, Id>, v: Id, t: Id, keep: bool)
    requires TableOk(pages, table) && v < |pages| && t < |pages|
    ensures TableOk(TradedPages(pages, v, t, keep), table)
  {
  }

  ghost function JoinedPages(pages: seq<Desc>, p: Id, f: Id): seq<Desc>
    requires p < |pages| && f < |pages|
  {
    pages[f := Reserving(pages[f], pages[p], p)][p := BroughtIn(pages[p], pages[f], f)]
  }

  lemma SwapInFiled(s: State, p: Id, f: Id, bits: Bits, bytes: Page)
    requires Filed(s.lists, Homes(s.pages)) && p < |s.pages| && f < |s.pages| && p != f
    ensures var s' := SwapInTo(s, p, f, bits, bytes);
      Filed(s'.lists, Homes(s'.pages)) && s'.pages == JoinedPages(s.pages, p, f)
  {
    var (d, e) := (s.pages[p], s.pages[f]);
    var s1 := SetBits(s.(ram := s.ram[d.va := bytes]), d.va, bits);
    RefileFiled(s1, f, Reserving(e, d, p));
    RefileFiled(Refile(s1, f, Reserving(e, d, p)), p, BroughtIn(d, e, f));
  }

  lemma SwapInInv(s: State, p: Id, f: Id, bits: Bits)
    requires Inv(s) && Enabled(s, SwapIn(p, f, bits))
    ensures Inv(Next(s, SwapIn(p, f, bits)))
  {
    var s' := Next(s, SwapIn(p, f, bits));
    assert RoleOk(s.pages[p]) && RoleOk(s.pages[f]);
    SwapInFiled(s, p, f, bits, s.store[s.pages[p].offset]);
    ExchangeSlots(s.dramSize, s.diskSize, s.pages, s'.pages, p, f);
    SwapInLinks(s.pages, p, f);
    SwapInMemory(s.pages, s.table, s.ram, s.dirty, s.store, p, f, s'.dirty);
    SwapInTable(s.pages, s.table, p, f);
  }

  lemma SwapInTable(pages: seq<Desc>, table: map<nat, Id>, p: Id, f: Id)
    requires TableOk(pages, table) && p < |pages| && f < |pages|
    ensures TableOk(JoinedPages(pages, p, f), table)
  {
  }

  lemma SwapInLinks(pages: seq<Desc>, p: Id, f: Id)
    requires p < |pages| && f < |pages| && RolesOk(pages) && ReservesOk(pages)
    requires pages[p].list == None && pages[p].va != 0 && pages[f].list == None && pages[f].va == 0
    ensures RolesOk(JoinedPages(pages, p, f)) && ReservesOk(JoinedPages(pages, p, f))
  {
    var pages' := JoinedPages(pages, p, f);
    assert RoleOk(pages[p]) && RoleOk(pages[f]);
    forall i | 0 <= i < |pages| ensures RoleOk(pages'[i]) && Linked(pages', i) {
      assert RoleOk(pages[i]) && Linked(pages, i);
    }
  }

  lemma SwapInMemory(pages: seq<Desc>, table: map<nat, Id>, ram: map<nat, Page>, dirty: set<nat>, store: map<nat, Page>,
                     p: Id, f: Id, dirty': set<nat>)
    requires ReservesOk(pages) && TableOk(pages, table) && MemoryOk(pages, ram, dirty, store)
    requires p < |pages| && f < |pages| && pages[p].va != 0 && pages[f].va == 0 && pages[p].offset in store
    requires pages[f].inDram && pages[p].reserve == None && pages[f].reserve == None
    requires dirty' == dirty + {pages[p].va} || dirty' == dirty - {pages[p].va}
    ensures MemoryOk(JoinedPages(pages, p, f), ram[pages[p].va := store[pages[p].offset]], dirty', store)
  {
    var pages' := JoinedPages(pages, p, f);
    var ram' := ram[pages[p].va := store[pages[p].offset]];
    forall i | 0 <= i < |pages| ensures Backed(pages', ram', dirty', store, i) {
      assert Backed(pages, ram, dirty, store, i) && Linked(pages, i);
      if i != p && i != f {
        assert pages'[i] == pages[i];
        assert pages[i].va != 0 ==> pages[i].va != pages[p].va;
      }
    }
  }

  ghost function MappedPages(pages: seq<Desc>, f: Id, va: nat): seq<Desc>
    requires f < |pages|
  {
    pages[f := pages[f].(va := va, swappedOut := false, migrating := false, list := Some(Inactive))]
  }

  lemma FirstTouchFiled(s: State, f: Id, va: nat, bits: Bits)
    requires Filed(s.lists, Homes(s.pages)) && Enabled(s, FirstTouch(f, va, bits))
    ensures var s' := Next(s, FirstTouch(f, va, bits));
      Filed(s'.lists, Homes(s'.pages)) && s'.pages == MappedPages(s.pages, f, va)
  {
    var s1 := SetBits(s.(table := s.table[va := f], ram := s.ram[va := ZeroPage()]), va, bits);
    RefileFiled(s1, f, MappedPages(s.pages, f, va)[f]);
  }

  lemma FirstTouchLinks(pages: seq<Desc>, f: Id, va: nat)
    requires f < |pages| && RolesOk(pages) && ReservesOk(pages) && pages[f].list == None && pages[f].va == 0 && va != 0
    ensures RolesOk(MappedPages(pages, f, va)) && ReservesOk(MappedPages(pages, f, va))
  {
    assert RoleOk(pages[f]);
    forall i | 0 <= i < |pages| ensures Linked(MappedPages(pages, f, va), i) { assert Linked(pages, i); }
  }

  lemma FirstTouchTable(pages: seq<Desc>, table: map<nat, Id>, f: Id, va: nat)
    requires f < |pages| && TableOk(pages, table) && pages[f].va == 0 && va != 0 && va % PAGE_SIZE == 0 && va !in table
    ensures TableOk(MappedPages(pages, f, va), table[va := f])
  {
  }

  lemma FirstTouchMemory(pages: seq<Desc>, table: map<nat, Id>, ram: map<nat, Page>, dirty: set<nat>,
                         store: map<nat, Page>, f: Id, va: nat, dirty': set<nat>)
    requires f < |pages| && RolesOk(pages) && TableOk(pages, table) && MemoryOk(pages, ram, dirty, store)
    requires pages[f].list == None && pages[f].va == 0 && va !in table && va != 0
    requires dirty' == dirty + {va} || dirty' == dirty - {va}
    ensures MemoryOk(MappedPages(pages, f, va), ram[va := ZeroPage()], dirty', store)
  {
    assert RoleOk(pages[f]);
    var (pages', ram') := (MappedPages(pages, f, va), ram[va := ZeroPage()]);
    forall i | 0 <= i < |pages| ensures Backed(pages', ram', dirty', store, i) {
      assert Backed(pages, ram, dirty, store, i);
    }
  }

  lemma FirstTouchInv(s: State, f: Id, va: nat, bits: Bits)
    requires Inv(s) && Enabled(s, FirstTouch(f, va, bits))
    ensures Inv(Next(s, FirstTouch(f, va, bits)))
  {
    var s' := Next(s, FirstTouch(f, va, bits));
    FirstTouchFiled(s, f, va, bits);
    ExchangeSlots(s.dramSize, s.diskSize, s.pages, s'.pages, f, f);
    FirstTouchLinks(s.pages, f, va);
    FirstTouchTable(s.pages, s.table, f, va);
    FirstTouchMemory(s.pages, s.table, s.ram, s.dirty, s.store, f, va, s'.dirty);
  }

  lemma UnmapFiled(s: State, va: nat)
    requires Inv(s) && Enabled(s, Unmap(va)) && RoleOk(s.pages[s.table[va]]) && Linked(s.pages, s.table[va])
    ensures var s' := Next(s, Unmap(va));
      Filed(s'.lists, Homes(s'.pages)) && s'.pages == UnmappedPages(s.pages, s.table[va])
  {
    var p := s.table[va];
    var s1 := Zap(s.(table := s.table - {va}), va);
    var s2 := FreeReserve(s1, p);
    if s.pages[p].hasReserve { RefileFiled(s1, s.pages[p].reserve.value, s2.pages[s.pages[p].reserve.value]); }
    RefileFiled(s2, p, Unmapped(s.pages[p]));
  }

  lemma UnmapSlots(dramSize: nat, diskSize: nat, pages: seq<Desc>, p: Id)
    requires SlotsOk(dramSize, diskSize, pages) && p < |pages| && RoleOk(pages[p]) && Linked(pages, p)
    ensures SlotsOk(dramSize, diskSize, UnmappedPages(pages, p))
  {
    var pages1 := pages;
    if pages[p].hasReserve {
      var r := pages[p].reserve.value;
      pages1 := pages[r := Unreserved(pages[r])];
      ExchangeSlots(dramSize, diskSize, pages, pages1, r, r);
    }
    ExchangeSlots(dramSize, diskSize, pages1, UnmappedPages(pages, p), p, p);
  }

  /** Freeing a page, or the slot reserved for it, drops its links and its mapping. */
  lemma UnmapInv(s: State, va: nat)
    requires Inv(s) && Enabled(s, Unmap(va))
    ensures Inv(Next(s, Unmap(va)))
  {
    var p := s.table[va];
    assert RoleOk(s.pages[p]) && Linked(s.pages, p);
    UnmapFiled(s, va);
    UnmapSlots(s.dramSize, s.diskSize, s.pages, p);
    UnmapLinks(s.pages, p);
    UnmapTable(s.pages, s.table, p);
    UnmapMemory(s.pages, s.table, p, s.ram, s.dirty, s.store);
  }

  ghost function UnmappedPages(pages: seq<Desc>, p: Id): seq<Desc>
    requires p < |pages| && RoleOk(pages[p]) && Linked(pages, p)
  {
    var pages1 := if pages[p].hasReserve
                  then pages[pages[p].reserve.value := Unreserved(pages[pages[p].reserve.value])] else pages;
    pages1[p := Unmapped(pages[p])]
  }

  lemma UnmapLinks(pages: seq<Desc>, p: Id)
    requires p < |pages| && RolesOk(pages) && ReservesOk(pages) && RoleOk(pages[p]) && Linked(pages, p)
    requires pages[p].va != 0
    ensures RolesOk(UnmappedPages(pages, p)) && ReservesOk(UnmappedPages(pages, p))
  {
    var pages' := UnmappedPages(pages, p);
    forall i | 0 <= i < |pages| ensures RoleOk(pages'[i]) && Linked(pages', i) {
      assert RoleOk(pages[i]) && Linked(pages, i);
    }
  }

  lemma UnmapTable(pages: seq<Desc>, table: map<nat, Id>, p: Id)
    requires p < |pages| && RolesOk(pages) && RoleOk(pages[p]) && Linked(pages, p) && TableOk(pages, table)
    requires pages[p].va != 0
    ensures TableOk(UnmappedPages(pages, p), table - {pages[p].va})
  {
  }

  lemma UnmapMemory(pages: seq<Desc>, table: map<nat, Id>, p: Id,
                    ram: map<nat, Page>, dirty: set<nat>, store: map<nat, Page>)
    requires p < |pages| && RolesOk(pages) && ReservesOk(pages) && RoleOk(pages[p]) && Linked(pages, p)
    requires pages[p].va != 0 && TableOk(pages, table) && MemoryOk(pages, ram, dirty, store)
    ensures var va := pages[p].va;
      MemoryOk(UnmappedPages(pages, p), ram - {va}, dirty - {va}, store)
  {
    var va := pages[p].va;
    var pages' := UnmappedPages(pages, p);
    forall i | 0 <= i < |pages| ensures Backed(pages', ram - {va}, dirty - {va}, store, i) {
      assert RoleOk(pages[i]) && Linked(pages, i) && Backed(pages, ram, dirty, store, i);
      if i != p && pages[p].reserve != Some(i) {
        assert pages'[i] == pages[i] && pages[i].va != va;
      }
    }
  }

  /** The invariant is inductive. */
  lemma StepInv(s: State, step: Step)
    requires Inv(s) && Enabled(s, step)
    ensures Inv(Next(s, step))
  {
    match step
    case Load(va) =>
    case Store(addr, b) => StoreInv(s, addr, b);
    case Cool =>
      OnList(s, Active);
      var id := s.lists.At(Active)[0];
      LocalInv(s, id, s.pages[id].(naccesses := 0, list := Some(Inactive)), Next(s, step));
    case Scan => ScanInv(s);
    case Evict(keep) => EvictInv(s, keep);
    case TakeFrame =>
      OnList(s, DramFree);
      var f := s.lists.At(DramFree)[0];
      LocalInv(s, f, s.pages[f].(list := None), Next(s, step));
    case Protect(f) => MarkInv(s, f);
    case PutFrame(f) => LocalInv(s, f, s.pages[f].(list := Some(DramFree)), Next(s, step));
    case FirstTouch(f, va, bits) => FirstTouchInv(s, f, va, bits);
    case Claim(va) =>
      assert RoleOk(s.pages[s.table[va]]);
      MarkInv(s, s.table[va]);
    case Detach(p) =>
      assert RoleOk(s.pages[p]);
      LocalInv(s, p, s.pages[p].(list := None), Next(s, step));
    case SwapIn(p, f, bits) => SwapInInv(s, p, f, bits);
    case Unmap(va) => UnmapInv(s, va);
  }

  lemma ScanInv(s: State)
    requires Inv(s) && Enabled(s, Scan)
    ensures Inv(Next(s, Scan))
  {
    OnList(s, Inactive);
    var id := s.lists.At(Inactive)[0];
    assert RoleOk(s.pages[id]);
    LocalInv(s, id, Scanned(s.pages[id], FateOf(s, id)), Next(s, Scan));
  }
}
