/** What each step does to the seven lists, to the places and to the frames in handlers'
    hands, stated on the lists themselves. */
module Flow {
  import opened Common
  import opened Queues
  import opened Pager
  import opened PagerInvariant
  import opened FlatMemory
  import opened Conservation

  /** The lists other than these are as they were. */
  ghost predicate OnlyLists(before: Lists, after: Lists, ws: set<ListName>) {
    forall w :: w !in ws ==> after.At(w) == before.At(w)
  }

  /** Frames in the hands of handlers. */
  ghost function InHand(s: State): set<Id> { On(s.pages, true, None) }

  ghost predicate OnlyPages(before: seq<Desc>, after: seq<Desc>, ids: set<Id>) {
    |after| == |before| && forall i :: 0 <= i < |before| && i !in ids ==> after[i] == before[i]
  }

  /** `a` stands where `b` stood, and `b` where `a` did. */
  predicate Swapped(before: seq<Desc>, after: seq<Desc>, a: Id, b: Id) {
    && a < |before| == |after| && b < |before|
    && after[a].offset == before[b].offset && after[a].inDram == before[b].inDram
    && after[b].offset == before[a].offset && after[b].inDram == before[a].inDram
  }

  lemma MoveAt(lists: Lists, id: Id, from: Option<ListName>, to: Option<ListName>, w: ListName)
    ensures Move(lists, id, from, to).At(w)
      == (if from == Some(w) then Drop(lists.At(w), id) else lists.At(w)) + (if to == Some(w) then [id] else [])
  {
  }

  // ------------------------------------------------------------------ evictions

  /** The slot that victim `v` goes to: its reserve, or else the free slot waiting longest. */
  ghost predicate SlotFor(s: State, v: Id, t: Id) {
    && v < |s.pages| && t < |s.pages|
    && (s.pages[v].reserve.Some? ==> t == s.pages[v].reserve.value)
    && (s.pages[v].reserve.None? ==> s.lists.At(DiskFree) != [] && t == s.lists.At(DiskFree)[0])
  }

  /** Victim `v` has left the eviction list for the disk list, and the descriptor `t` of its
      slot is free for the next fetch to take, after all others, or on no list. */
  ghost predicate OutLists(before: Lists, after: Lists, v: Id, t: Id, reserved: bool, keep: bool) {
    && before.At(Eviction) != [] && v == before.At(Eviction)[0]
    && (!reserved ==> before.At(DiskFree) != [] && t == before.At(DiskFree)[0])
    && after.At(Eviction) == before.At(Eviction)[1..]
    && after.At(DiskActive) == before.At(DiskActive) + [v]
    && after.At(DramFree) == (if keep then before.At(DramFree) else before.At(DramFree) + [t])
    && after.At(DiskFree) == (if reserved then before.At(DiskFree) else before.At(DiskFree)[1..])
    && after.At(DiskReserve) == (if reserved then Drop(before.At(DiskReserve), t) else before.At(DiskReserve))
    && after.At(Active) == before.At(Active) && after.At(Inactive) == before.At(Inactive)
  }

  /** The two have traded places, and `t` is in hand if it is on no list. */
  ghost predicate OutPlaces(before: seq<Desc>, after: seq<Desc>, v: Id, t: Id, keep: bool) {
    && Swapped(before, after, v, t) && after[t].inDram && OnlyPages(before, after, {v, t})
    && On(after, true, None) == if keep then On(before, true, None) + {t} else On(before, true, None)
  }

  /** The oldest victim `v` has left for the slot of `t`, and `t` has its frame. */
  ghost predicate PagedOut(s: State, s': State, v: Id, t: Id, keep: bool) {
    && SlotFor(s, v, t) && v != t && OutPlaces(s.pages, s'.pages, v, t, keep)
    && OutLists(s.lists, s'.lists, v, t, s.pages[v].reserve.Some?, keep)
  }

  /** Afterwards the page can be claimed. */
  predicate Claimable(s: State, va: nat) {
    && va in s.table && s.table[va] < |s.pages|
    && s.pages[s.table[va]].swappedOut && !s.pages[s.table[va]].migrating
    && s.pages[s.table[va]].list == Some(DiskActive)
  }

  lemma EvictTrade(s: State, keep: bool)
    requires Inv(s) && Enabled(s, Evict(keep))
    ensures var (s', v) := (Next(s, Evict(keep)), s.lists.At(Eviction)[0]);
      && Target(s, v).value != v && s'.pages == TradedPages(s.pages, v, Target(s, v).value, keep)
      && s'.table == s.table
  {
    EvictPair(s, keep);
    var v := s.lists.At(Eviction)[0];
    EvictFiled(s, v, Target(s, v).value, keep, WriteBack(s, v));
  }

  lemma EvictLists(s: State, keep: bool)
    requires Inv(s) && Enabled(s, Evict(keep))
    ensures var (s', v) := (Next(s, Evict(keep)), s.lists.At(Eviction)[0]);
      var t := Target(s, v).value;
      && s'.lists == Move(Move(s.lists, v, Some(Eviction), Some(DiskActive)), t,
                          if s.pages[v].reserve.Some? then Some(DiskReserve) else Some(DiskFree),
                          if keep then None else Some(DramFree))
      && s'.pages == TradedPages(s.pages, v, t, keep) && SlotFor(s, v, t) && v != t
  {
    EvictPair(s, keep);
    var v := s.lists.At(Eviction)[0];
    EvictFiled(s, v, Target(s, v).value, keep, WriteBack(s, v));
    assert RoleOk(s.pages[v]);
  }

  lemma EvictPlaces(pages: seq<Desc>, v: Id, t: Id, keep: bool)
    requires v < |pages| && t < |pages| && v != t && pages[v].inDram && !pages[t].inDram && pages[v].list.Some?
    ensures OutPlaces(pages, TradedPages(pages, v, t, keep), v, t, keep)
  {
  }

  lemma EvictMoves(lists: Lists, v: Id, t: Id, w: ListName, keep: bool)
    requires lists.At(Eviction) != [] && v == lists.At(Eviction)[0]
    requires w == DiskReserve || (w == DiskFree && lists.At(DiskFree) != [] && t == lists.At(DiskFree)[0])
    ensures var to := if keep then None else Some(DramFree);
      OutLists(lists, Move(Move(lists, v, Some(Eviction), Some(DiskActive)), t, Some(w), to),
               v, t, w == DiskReserve, keep)
  {
    var l1 := Move(lists, v, Some(Eviction), Some(DiskActive));
    MoveHead(lists, Eviction, DiskActive);
    var to := if keep then None else Some(DramFree);
    forall u ensures Move(l1, t, Some(w), to).At(u)
      == (if w == u then Drop(l1.At(u), t) else l1.At(u)) + (if to == Some(u) then [t] else [])
    {
      MoveAt(l1, t, Some(w), to, u);
    }
    if w == DiskFree { DropHead(lists.At(DiskFree)); }
  }

  /** An eviction on the lists. The page it evicts can be claimed at once. */
  lemma EvictFlow(s: State, keep: bool)
    requires Inv(s) && Enabled(s, Evict(keep))
    ensures var (s', v) := (Next(s, Evict(keep)), s.lists.At(Eviction)[0]);
      && PagedOut(s, s', v, Target(s, v).value, keep) && Claimable(s', s.pages[v].va)
  {
    var v := s.lists.At(Eviction)[0];
    var t := Target(s, v).value;
    EvictPair(s, keep);
    EvictLists(s, keep);
    EvictMoves(s.lists, v, t, if s.pages[v].reserve.Some? then DiskReserve else DiskFree, keep);
    EvictPlaces(s.pages, v, t, keep);
    EvictedClaimable(s, keep);
  }

  lemma EvictedClaimable(s: State, keep: bool)
    requires Inv(s) && Enabled(s, Evict(keep))
    ensures Claimable(Next(s, Evict(keep)), s.pages[s.lists.At(Eviction)[0]].va)
  {
    EvictPair(s, keep);
    EvictTrade(s, keep);
    var v := s.lists.At(Eviction)[0];
    assert s.table[s.pages[v].va] == v;
  }

  // --------------------------------------------------------- frames and mappings

  /** Frame `f`, the one free longest, is in a handler's hands. */
  lemma TakeFlow(s: State)
    requires Inv(s) && Enabled(s, TakeFrame)
    ensures var (s', f) := (Next(s, TakeFrame), s.lists.At(DramFree)[0]);
      && s'.lists.At(DramFree) == s.lists.At(DramFree)[1..] && OnlyLists(s.lists, s'.lists, {DramFree})
      && InHand(s') == InHand(s) + {f} && f !in InHand(s) && OnlyPages(s.pages, s'.pages, {f})
  {
    OnList(s, DramFree);
    HeadLeaves(s.lists, DramFree);
    assert RoleOk(s.pages[s.lists.At(DramFree)[0]]);
    assert Next(s, TakeFrame).lists == Move(s.lists, s.lists.At(DramFree)[0], Some(DramFree), None);
  }

  lemma HeadLeaves(lists: Lists, w: ListName)
    requires lists.At(w) != []
    ensures var l := Move(lists, lists.At(w)[0], Some(w), None);
      l.At(w) == lists.At(w)[1..] && OnlyLists(lists, l, {w})
  {
    DropHead(lists.At(w));
  }

  /** Frame `f` is free again, behind all others. */
  ghost predicate PutAside(s: State, s': State, f: Id) {
    && s'.lists.At(DramFree) == s.lists.At(DramFree) + [f] && OnlyLists(s.lists, s'.lists, {DramFree})
    && InHand(s') == InHand(s) - {f} && OnlyPages(s.pages, s'.pages, {f})
  }

  lemma PutFlow(s: State, f: Id)
    requires Inv(s) && Enabled(s, PutFrame(f))
    ensures PutAside(s, Next(s, PutFrame(f)), f) && f in InHand(s)
  {
    assert RoleOk(s.pages[f]);
  }

  /** Frame `f` is a page on the inactive list, behind all others, and in nobody's hands. */
  ghost predicate PutToUse(s: State, s': State, f: Id) {
    && s'.lists.At(Inactive) == s.lists.At(Inactive) + [f] && OnlyLists(s.lists, s'.lists, {Inactive})
    && InHand(s') == InHand(s) - {f} && OnlyPages(s.pages, s'.pages, {f})
  }

  lemma TouchFlow(s: State, f: Id, va: nat, bits: Bits)
    requires Inv(s) && Enabled(s, FirstTouch(f, va, bits))
    ensures var s' := Next(s, FirstTouch(f, va, bits));
      PutToUse(s, s', f) && f in InHand(s) && !s'.pages[f].migrating && !s'.pages[f].swappedOut
  {
    assert RoleOk(s.pages[f]);
    FirstTouchFiled(s, f, va, bits);
  }

  /** Page `p` has the frame of `f` and is on the inactive list; `f` has its slot, is its
      reserve and no longer in hand. Both wait behind all others. */
  ghost predicate PagedIn(s: State, s': State, p: Id, f: Id) {
    && Swapped(s.pages, s'.pages, p, f) && OnlyPages(s.pages, s'.pages, {p, f})
    && s'.pages[p].inDram && !s'.pages[f].inDram
    && s'.lists.At(Inactive) == s.lists.At(Inactive) + [p]
    && s'.lists.At(DiskReserve) == s.lists.At(DiskReserve) + [f]
    && OnlyLists(s.lists, s'.lists, {Inactive, DiskReserve})
    && s'.pages[p].reserve == Some(f) && s'.pages[f].reserve == Some(p)
    && !s'.pages[p].migrating && !s'.pages[p].swappedOut && InHand(s') == InHand(s) - {f}
  }

  /** Page `p` is the newest on the inactive list, and the slot at `off`, which it came from, is
      kept as its reserve. */
  ghost predicate ComeIn(s: State, p: Id, off: nat) {
    && p < |s.pages| && s.pages[p].inDram && !s.pages[p].migrating && !s.pages[p].swappedOut
    && s.lists.At(Inactive) != [] && s.lists.At(Inactive)[|s.lists.At(Inactive)| - 1] == p
    && s.pages[p].reserve.Some? && s.pages[p].reserve.value < |s.pages|
    && var e := s.pages[s.pages[p].reserve.value]; !e.inDram && e.offset == off && e.reserve == Some(p)
  }

  lemma PagedInComesIn(s: State, s': State, p: Id, f: Id)
    requires PagedIn(s, s', p, f)
    ensures ComeIn(s', p, s.pages[p].offset)
  {
  }

  lemma SwapInFlow(s: State, p: Id, f: Id, bits: Bits)
    requires Inv(s) && Enabled(s, SwapIn(p, f, bits))
    ensures PagedIn(s, Next(s, SwapIn(p, f, bits)), p, f) && f in InHand(s)
  {
    assert RoleOk(s.pages[p]) && RoleOk(s.pages[f]);
    SwapInFiled(s, p, f, bits, s.store[s.pages[p].offset]);
    JoinPlaces(s.pages, p, f);
    var s' := Next(s, SwapIn(p, f, bits));
    assert s'.lists == Join(Join(s.lists, f, Some(DiskReserve)), p, Some(Inactive));
  }

  lemma JoinPlaces(pages: seq<Desc>, p: Id, f: Id)
    requires p < |pages| && f < |pages| && p != f && !pages[p].inDram && pages[f].inDram
    ensures var pages' := JoinedPages(pages, p, f);
      && Swapped(pages, pages', p, f) && OnlyPages(pages, pages', {p, f}) && pages'[p].inDram && !pages'[f].inDram
      && On(pages', true, None) == On(pages, true, None) - {f}
  {
  }

  lemma DetachFlow(s: State, p: Id)
    requires Inv(s) && Enabled(s, Detach(p))
    ensures var s' := Next(s, Detach(p));
      && s'.lists.At(DiskActive) == Drop(s.lists.At(DiskActive), p) && OnlyLists(s.lists, s'.lists, {DiskActive})
      && InHand(s') == InHand(s) && OnlyPages(s.pages, s'.pages, {p})
  {
    assert RoleOk(s.pages[p]);
  }

  // -------------------------------------------------------------------- unmapping

  /** A page with the record `d` is off its list and free on its side, behind all others, and
      so is its reserve. */
  ghost predicate FreedLists(before: Lists, after: Lists, p: Id, d: Desc) {
    && d.list.Some? && var home := d.list.value;
    && after.At(home) == Drop(before.At(home), p)
    && after.At(DramFree) == (if d.inDram then before.At(DramFree) + [p] else before.At(DramFree))
    && after.At(DiskFree)
       == (if !d.inDram then before.At(DiskFree) + [p]
           else if d.reserve.Some? then before.At(DiskFree) + [d.reserve.value] else before.At(DiskFree))
    && after.At(DiskReserve)
       == (if d.reserve.Some? then Drop(before.At(DiskReserve), d.reserve.value) else before.At(DiskReserve))
    && OnlyLists(before, after, {home, DramFree, DiskFree, DiskReserve})
  }

  ghost predicate SetFree(s: State, s': State, p: Id) {
    p < |s.pages| && FreedLists(s.lists, s'.lists, p, s.pages[p]) && InHand(s') == InHand(s)
  }

  lemma UnmapReserve(s: State, va: nat)
    requires Inv(s) && Enabled(s, Unmap(va))
    ensures var d := s.pages[s.table[va]];
      && RoleOk(d) && Linked(s.pages, s.table[va]) && d.va == va != 0
      && d.list.Some? && d.list.value !in {DramFree, DiskFree, DiskReserve}
      && (d.reserve.Some? ==> d.inDram && d.reserve.value != s.table[va])
      && (d.reserve.Some? ==> s.pages[d.reserve.value].list == Some(DiskReserve) && !s.pages[d.reserve.value].inDram)
  {
    var p := s.table[va];
    assert RoleOk(s.pages[p]) && Linked(s.pages, p);
    if s.pages[p].hasReserve { assert RoleOk(s.pages[s.pages[p].reserve.value]); }
  }

  lemma UnmapHands(pages: seq<Desc>, p: Id)
    requires p < |pages| && RoleOk(pages[p]) && Linked(pages, p) && pages[p].list.Some?
    requires pages[p].hasReserve ==> !pages[pages[p].reserve.value].inDram
    ensures On(UnmappedPages(pages, p), true, None) == On(pages, true, None)
  {
  }

  lemma UnmapMoves(lists: Lists, p: Id, d: Desc)
    requires d.list.Some? && d.list.value !in {DramFree, DiskFree, DiskReserve} && (d.reserve.Some? ==> d.inDram)
    ensures var l := if d.reserve.Some? then Move(lists, d.reserve.value, Some(DiskReserve), Some(DiskFree)) else lists;
      FreedLists(lists, Move(l, p, d.list, if d.inDram then Some(DramFree) else Some(DiskFree)), p, d)
  {
    var l := if d.reserve.Some? then Move(lists, d.reserve.value, Some(DiskReserve), Some(DiskFree)) else lists;
    if d.reserve.Some? {
      forall w ensures l.At(w) == (if w == DiskReserve then Drop(lists.At(w), d.reserve.value) else lists.At(w))
                                  + (if w == DiskFree then [d.reserve.value] else [])
      {
        MoveAt(lists, d.reserve.value, Some(DiskReserve), Some(DiskFree), w);
      }
    }
    var to := if d.inDram then Some(DramFree) else Some(DiskFree);
    forall w ensures Move(l, p, d.list, to).At(w)
      == (if d.list == Some(w) then Drop(l.At(w), p) else l.At(w)) + (if to == Some(w) then [p] else [])
    {
      MoveAt(l, p, d.list, to, w);
    }
  }

  lemma UnmapIs(s: State, va: nat)
    requires Inv(s) && Enabled(s, Unmap(va))
    ensures var d := s.pages[s.table[va]];
      var l := if d.reserve.Some? then Move(s.lists, d.reserve.value, Some(DiskReserve), Some(DiskFree)) else s.lists;
      Next(s, Unmap(va)).lists == Move(l, s.table[va], d.list, if d.inDram then Some(DramFree) else Some(DiskFree))
  {
    UnmapReserve(s, va);
  }

  lemma UnmapFlow(s: State, va: nat)
    requires Inv(s) && Enabled(s, Unmap(va))
    ensures SetFree(s, Next(s, Unmap(va)), s.table[va])
  {
    var p := s.table[va];
    UnmapReserve(s, va);
    UnmapFiled(s, va);
    UnmapIs(s, va);
    UnmapMoves(s.lists, p, s.pages[p]);
    UnmapHands(s.pages, p);
  }

  // -------------------------------------------------------------------- reclaim

  /** `c` pages have moved from the head of the active list to the end of the inactive one. */
  ghost predicate MovedDown(before: Lists, after: Lists, c: nat) {
    && c <= |before.At(Active)|
    && after.At(Active) == before.At(Active)[c..]
    && after.At(Inactive) == before.At(Inactive) + before.At(Active)[..c]
    && OnlyLists(before, after, {Active, Inactive})
  }

  lemma CoolFlow(s: State)
    requires Inv(s) && Enabled(s, Cool)
    ensures MovedDown(s.lists, Next(s, Cool).lists, 1) && InHand(Next(s, Cool)) == InHand(s)
  {
    OnList(s, Active);
    HeadMovesDown(s.lists);
    assert Next(s, Cool).lists == Move(s.lists, s.lists.At(Active)[0], Some(Active), Some(Inactive));
    assert InHand(Next(s, Cool)) == InHand(s);
  }

  lemma HeadMovesDown(lists: Lists)
    requires lists.At(Active) != []
    ensures MovedDown(lists, Move(lists, lists.At(Active)[0], Some(Active), Some(Inactive)), 1)
  {
    MoveHead(lists, Active, Inactive);
    assert lists.At(Active)[..1] == [lists.At(Active)[0]];
  }

  lemma MoveDownMore(before: Lists, mid: Lists, after: Lists, c: nat)
    requires MovedDown(before, mid, c) && MovedDown(mid, after, 1)
    ensures MovedDown(before, after, c + 1)
  {
    var a := before.At(Active);
    assert mid.At(Active)[..1] == [a[c]];
    assert a[..c + 1] == a[..c] + [a[c]];
    assert a[c..][1..] == a[c + 1..];
  }

  lemma ScanFlow(s: State)
    requires Inv(s) && Enabled(s, Scan)
    ensures InHand(Next(s, Scan)) == InHand(s)
  {
    OnList(s, Inactive);
  }
}
