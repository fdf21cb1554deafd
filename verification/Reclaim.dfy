/** What a series of reclaim scans does to the lists. */
module Reclaim {
  import opened Common
  import opened Queues
  import opened Pager
  import opened PagerInvariant
  import opened FlatMemory
  import opened Conservation

  datatype Visit = Visit(id: Id, fate: Fate)

  /** The next page the scan visits, and its fate. */
  function Look(s: State): Visit
    requires Enabled(s, Scan)
  {
    Visit(s.lists.At(Inactive)[0], FateOf(s, s.lists.At(Inactive)[0]))
  }

  function Scans(k: nat): seq<Step> { seq(k, _ => Scan) }

  /** The visits of `k` scans, in order. */
  ghost function Trail(s: State, k: nat): (r: seq<Visit>)
    requires Exec(s, Scans(k)).Some?
    ensures |r| == k
  {
    if k == 0 then []
    else
      assert Scans(k)[..k - 1] == Scans(k - 1);
      Trail(s, k - 1) + [Look(Exec(s, Scans(k - 1)).value)]
  }

  function Pick(trail: seq<Visit>, fate: Fate): seq<Id> {
    if trail == [] then []
    else
      var last := trail[|trail| - 1];
      Pick(trail[..|trail| - 1], fate) + if last.fate == fate then [last.id] else []
  }

  function Visited(trail: seq<Visit>): (r: seq<Id>)
    ensures |r| == |trail| && forall i :: 0 <= i < |trail| ==> r[i] == trail[i].id
  {
    seq(|trail|, i requires 0 <= i < |trail| => trail[i].id)
  }

  ghost predicate Queued(before: Lists, trail: seq<Visit>, after: Lists) {
    && after.At(Eviction) == before.At(Eviction) + Pick(trail, Cold)
    && after.At(Active) == before.At(Active) + Pick(trail, Promoted)
    && Visited(trail) + after.At(Inactive) == before.At(Inactive) + Pick(trail, Kept)
    && (forall w :: w != Eviction && w != Active && w != Inactive ==> after.At(w) == before.At(w))
  }

  lemma ScanMoves(s: State)
    requires Inv(s) && Enabled(s, Scan)
    ensures Next(s, Scan).lists == Move(s.lists, Look(s).id, Some(Inactive), Some(Destination(Look(s).fate)))
  {
    OnList(s, Inactive);
  }

  lemma PickNext(trail: seq<Visit>, v: Visit, fate: Fate)
    ensures Pick(trail + [v], fate) == if v.fate == fate then Pick(trail, fate) + [v.id] else Pick(trail, fate)
  {
    assert (trail + [v])[..|trail|] == trail;
  }

  lemma VisitedNext(trail: seq<Visit>, v: Visit, q: seq<Id>)
    requires q != [] && v.id == q[0]
    ensures Visited(trail + [v]) + q[1..] == Visited(trail) + q
  {
    assert Visited(trail + [v]) == Visited(trail) + [v.id];
    assert [v.id] + q[1..] == q;
  }

  lemma Appended(a: seq<Id>, b: seq<Id>, c: seq<Id>, id: Id)
    requires a + b == c
    ensures a + (b + [id]) == c + [id]
  {
    assert a + (b + [id]) == (a + b) + [id];
  }

  lemma QueuedStep(before: Lists, trail: seq<Visit>, mid: Lists, fate: Fate)
    requires Queued(before, trail, mid) && mid.At(Inactive) != []
    ensures var id := mid.At(Inactive)[0];
      Queued(before, trail + [Visit(id, fate)], Move(mid, id, Some(Inactive), Some(Destination(fate))))
  {
    var v := Visit(mid.At(Inactive)[0], fate);
    MoveHead(mid, Inactive, Destination(fate));
    PickNext(trail, v, Cold);
    PickNext(trail, v, Promoted);
    InactiveNext(before.At(Inactive), trail, mid.At(Inactive), v);
    assert before.At(Eviction) + (Pick(trail, Cold) + [v.id]) == before.At(Eviction) + Pick(trail, Cold) + [v.id];
    assert before.At(Active) + (Pick(trail, Promoted) + [v.id]) == before.At(Active) + Pick(trail, Promoted) + [v.id];
  }

  lemma InactiveNext(before: seq<Id>, trail: seq<Visit>, q: seq<Id>, v: Visit)
    requires q != [] && v.id == q[0] && Visited(trail) + q == before + Pick(trail, Kept)
    ensures Visited(trail + [v]) + (q[1..] + if v.fate == Kept then [v.id] else []) == before + Pick(trail + [v], Kept)
  {
    PickNext(trail, v, Kept);
    VisitedNext(trail, v, q);
    if v.fate == Kept {
      Appended(Visited(trail + [v]), q[1..], before + Pick(trail, Kept), v.id);
      assert before + (Pick(trail, Kept) + [v.id]) == before + Pick(trail, Kept) + [v.id];
    } else {
      assert q[1..] + [] == q[1..];
    }
  }

  /** Over scans alone the lists stay queues. Cold pages join the eviction list in the
      order they were visited, and pages are visited in the order they joined the
      inactive list, those put back included. */
  lemma {:induction false} ScansKeepOrder(s: State, k: nat)
    requires Inv(s) && Exec(s, Scans(k)).Some?
    ensures Queued(s.lists, Trail(s, k), Exec(s, Scans(k)).value.lists)
  {
    if k > 0 {
      TrailNext(s, k);
      ScansKeepOrder(s, k - 1);
      ExecInv(s, Scans(k - 1));
      var mid := Exec(s, Scans(k - 1)).value;
      ScanMoves(mid);
      QueuedStep(s.lists, Trail(s, k - 1), mid.lists, Look(mid).fate);
    }
  }

  lemma LookIsCold(s: State)
    requires Enabled(s, Scan)
    ensures Look(s).id < |s.pages| && (Look(s).fate == Cold <==> s.pages[Look(s).id].va !in s.accessed)
  {
  }

  lemma TrailNext(s: State, k: nat)
    requires k > 0 && Exec(s, Scans(k)).Some?
    ensures Exec(s, Scans(k - 1)).Some? && Enabled(Exec(s, Scans(k - 1)).value, Scan)
    ensures Trail(s, k) == Trail(s, k - 1) + [Look(Exec(s, Scans(k - 1)).value)]
    ensures Exec(s, Scans(k)) == Some(Next(Exec(s, Scans(k - 1)).value, Scan))
  {
    assert Scans(k)[..k - 1] == Scans(k - 1);
  }

  /** A page leaves for the eviction list only on a visit that found its accessed bit clear. */
  lemma {:induction false} AccessedIsSpared(s: State, k: nat, j: nat)
    requires j < k && Exec(s, Scans(k)).Some?
    ensures Exec(s, Scans(j)).Some?
    ensures var (mid, v) := (Exec(s, Scans(j)).value, Trail(s, k)[j]);
      && v.id < |mid.pages|
      && (v.fate == Cold <==> mid.pages[v.id].va !in mid.accessed)
  {
    TrailNext(s, k);
    if j < k - 1 {
      AccessedIsSpared(s, k - 1, j);
    } else {
      LookIsCold(Exec(s, Scans(k - 1)).value);
    }
  }

  // ------------------------------------------------- what reclaim leaves alone

  /** A descriptor that a handler holds, or that is on the disk list. */
  predicate Still(d: Desc) { d.list == None || d.list == Some(DiskActive) }

  ghost predicate Settled(before: seq<Desc>, after: seq<Desc>) {
    && |after| == |before|
    && (forall i :: 0 <= i < |before| && Still(before[i]) ==> after[i] == before[i])
  }

  /** No mapped byte changes, and no held or swapped-out descriptor. */
  ghost predicate Undisturbed(s: State, s': State) {
    && s'.table == s.table && Settled(s.pages, s'.pages)
    && (forall va :: Bytes(s', va) == Bytes(s, va))
  }

  /** A scan also keeps the free lists and the set of held frames. */
  ghost predicate Rescanned(s: State, s': State) {
    && Undisturbed(s, s')
    && s'.lists.At(DramFree) == s.lists.At(DramFree)
    && On(s'.pages, true, None) == On(s.pages, true, None)
    && |s'.lists.At(Eviction)| >= |s.lists.At(Eviction)|
  }

  lemma RefileUndisturbed(s: State, id: Id, d: Desc, s': State)
    requires id < |s.pages| && Slot(d) == Slot(s.pages[id])
    requires s.pages[id].list != None && s.pages[id].list != Some(DiskActive)
    requires s' == Refile(s, id, d).(accessed := s'.accessed)
    ensures Undisturbed(s, s')
    ensures d.list != None ==> On(s'.pages, true, None) == On(s.pages, true, None)
  {
  }

  lemma CoolRescans(s: State)
    requires Inv(s) && Enabled(s, Cool)
    ensures Rescanned(s, Next(s, Cool))
    ensures Next(s, Cool).lists.At(Eviction) == s.lists.At(Eviction)
  {
    OnList(s, Active);
    var id := s.lists.At(Active)[0];
    var d := s.pages[id].(naccesses := 0, list := Some(Inactive));
    MoveHead(s.lists, Active, Inactive);
    assert Next(s, Cool) == Refile(s, id, d);
    RefileUndisturbed(s, id, d, Refile(s, id, d));
  }

  lemma ScanRescans(s: State)
    requires Inv(s) && Enabled(s, Scan)
    ensures Rescanned(s, Next(s, Scan))
    ensures |Next(s, Scan).lists.At(Eviction)| == |s.lists.At(Eviction)| + if Look(s).fate == Cold then 1 else 0
  {
    OnList(s, Inactive);
    var id := s.lists.At(Inactive)[0];
    MoveHead(s.lists, Inactive, Destination(FateOf(s, id)));
    RefileUndisturbed(s, id, Scanned(s.pages[id], FateOf(s, id)), Next(s, Scan));
  }

  lemma EvictUndisturbed(s: State)
    requires Inv(s) && Enabled(s, Evict(true))
    ensures Undisturbed(s, Next(s, Evict(true)))
    ensures var (f, s') := (Target(s, s.lists.At(Eviction)[0]).value, Next(s, Evict(true)));
      && Held(s', f) && !s.pages[f].inDram && !Still(s.pages[f])
      && On(s'.pages, true, None) <= On(s.pages, true, None) + {f}
  {
    EvictTrades(s);
    forall va ensures Bytes(Next(s, Evict(true)), va) == Bytes(s, va) { EvictBytes(s, true, va); }
  }

  lemma EvictTrades(s: State)
    requires Inv(s) && Enabled(s, Evict(true))
    ensures var (f, s') := (Target(s, s.lists.At(Eviction)[0]).value, Next(s, Evict(true)));
      && s'.table == s.table && Settled(s.pages, s'.pages)
      && Held(s', f) && !s.pages[f].inDram && !Still(s.pages[f])
      && On(s'.pages, true, None) <= On(s.pages, true, None) + {f}
  {
    EvictPair(s, true);
    var v := s.lists.At(Eviction)[0];
    var t := Target(s, v).value;
    EvictFiled(s, v, t, true, WriteBack(s, v));
    TradeHands(s.pages, v, t);
  }

  lemma TradeHands(pages: seq<Desc>, v: Id, t: Id)
    requires v < |pages| && t < |pages| && v != t && !Still(pages[v]) && !Still(pages[t])
    ensures var pages' := TradedPages(pages, v, t, true);
      Settled(pages, pages') && On(pages', true, None) <= On(pages, true, None) + {t}
  {
  }

  lemma TakeUndisturbed(s: State)
    requires Inv(s) && Enabled(s, TakeFrame)
    ensures Undisturbed(s, Next(s, TakeFrame))
    ensures var (f, s') := (s.lists.At(DramFree)[0], Next(s, TakeFrame));
      && Held(s', f) && !Still(s.pages[f])
      && On(s'.pages, true, None) <= On(s.pages, true, None) + {f}
  {
    OnList(s, DramFree);
    var f := s.lists.At(DramFree)[0];
    assert RoleOk(s.pages[f]);
    RefileUndisturbed(s, f, s.pages[f].(list := None), Next(s, TakeFrame));
  }

  predicate Rescan(step: Step) { step.Cool? || step.Scan? }

  /** The steps of a fetch: scans, then at most a frame taken or a page evicted. */
  predicate Fetching(step: Step) { Rescan(step) || step == Evict(true) || step.TakeFrame? }

  ghost predicate Extends(before: seq<Step>, after: seq<Step>, kind: Step -> bool) {
    before <= after && forall j :: |before| <= j < |after| ==> kind(after[j])
  }

  lemma StepUndisturbed(s: State, step: Step)
    requires Inv(s) && Enabled(s, step) && Fetching(step)
    ensures Undisturbed(s, Next(s, step))
    ensures Rescan(step) ==> Rescanned(s, Next(s, step))
  {
    match step
    case Cool => CoolRescans(s);
    case Scan => ScanRescans(s);
    case Evict(_) => EvictUndisturbed(s);
    case TakeFrame => TakeUndisturbed(s);
  }

  /** A run of fetching steps disturbs nothing, however long. */
  lemma {:induction false} FetchingUndisturbed(dramSize: nat, diskSize: nat, before: seq<Step>, after: seq<Step>)
    requires Run(dramSize, diskSize, before).Some? && Run(dramSize, diskSize, after).Some?
    requires Extends(before, after, Fetching)
    ensures Undisturbed(Run(dramSize, diskSize, before).value, Run(dramSize, diskSize, after).value)
    decreases |after|
  {
    if |before| == |after| {
      assert before == after;
    } else {
      var n := |after| - 1;
      FetchingUndisturbed(dramSize, diskSize, before, after[..n]);
      RunInv(dramSize, diskSize, after[..n]);
      StepUndisturbed(Run(dramSize, diskSize, after[..n]).value, after[n]);
    }
  }

  lemma FetchingSettles(dramSize: nat, diskSize: nat, before: seq<Step>, after: seq<Step>, s: State, s': State)
    requires Run(dramSize, diskSize, before) == Some(s) && Run(dramSize, diskSize, after) == Some(s')
    requires Extends(before, after, Fetching)
    ensures Settled(s.pages, s'.pages) && s'.table == s.table && Extends(before, after, Silent)
  {
    FetchingUndisturbed(dramSize, diskSize, before, after);
  }

  lemma {:induction false} RescanRescans(dramSize: nat, diskSize: nat, before: seq<Step>, after: seq<Step>)
    requires Run(dramSize, diskSize, before).Some? && Run(dramSize, diskSize, after).Some?
    requires Extends(before, after, Rescan)
    ensures Rescanned(Run(dramSize, diskSize, before).value, Run(dramSize, diskSize, after).value)
    decreases |after|
  {
    if |before| == |after| {
      assert before == after;
    } else {
      var n := |after| - 1;
      RescanRescans(dramSize, diskSize, before, after[..n]);
      RunInv(dramSize, diskSize, after[..n]);
      StepUndisturbed(Run(dramSize, diskSize, after[..n]).value, after[n]);
    }
  }

  /** The pages a reclaim moves among: the active, the inactive and the eviction list. */
  function Scannable(lists: Lists): multiset<Id> {
    multiset(lists.At(Active)) + multiset(lists.At(Inactive)) + multiset(lists.At(Eviction))
  }

  ghost predicate Permuted(before: Lists, after: Lists) {
    && Scannable(after) == Scannable(before)
    && (forall w :: w != Eviction && w != Active && w != Inactive ==> after.At(w) == before.At(w))
  }

  lemma HeadJoins(x: seq<Id>, y: seq<Id>)
    requires x != []
    ensures multiset(x[1..]) + multiset(y + [x[0]]) == multiset(x) + multiset(y)
    ensures multiset(x[1..] + [x[0]]) == multiset(x)
  {
    assert x == [x[0]] + x[1..];
  }

  /** The head of one of three queues joins another, wherever the third stands. */
  lemma ThreeQueues(x: seq<Id>, y: seq<Id>, z: seq<Id>)
    requires x != []
    ensures multiset(x[1..]) + multiset(y + [x[0]]) + multiset(z) == multiset(x) + multiset(y) + multiset(z)
    ensures multiset(y + [x[0]]) + multiset(x[1..]) + multiset(z) == multiset(y) + multiset(x) + multiset(z)
    ensures multiset(z) + multiset(x[1..]) + multiset(y + [x[0]]) == multiset(z) + multiset(x) + multiset(y)
  {
    HeadJoins(x, y);
    var (a, b, c) := (multiset(x[1..]), multiset(y + [x[0]]), multiset(z));
    assert c + a + b == c + (a + b);
    assert b + a + c == a + b + c;
    assert multiset(z) + multiset(x) + multiset(y) == multiset(z) + (multiset(x) + multiset(y));
  }

  lemma MovePermutes(lists: Lists, from: ListName, to: ListName)
    requires (from == Active && to == Inactive) || (from == Inactive && to in {Active, Inactive, Eviction})
    requires lists.At(from) != []
    ensures Permuted(lists, Move(lists, lists.At(from)[0], Some(from), Some(to)))
  {
    var lists' := Move(lists, lists.At(from)[0], Some(from), Some(to));
    MoveHead(lists, from, to);
    var (a, b, c) := (lists.At(Active), lists.At(Inactive), lists.At(Eviction));
    if from == Active {
      ThreeQueues(a, b, c);
      assert lists'.At(Active) == a[1..] && lists'.At(Inactive) == b + [a[0]] && lists'.At(Eviction) == c;
    } else if to == Active {
      ThreeQueues(b, a, c);
      assert lists'.At(Active) == a + [b[0]] && lists'.At(Inactive) == b[1..] && lists'.At(Eviction) == c;
    } else if to == Eviction {
      ThreeQueues(b, c, a);
      assert lists'.At(Active) == a && lists'.At(Inactive) == b[1..] && lists'.At(Eviction) == c + [b[0]];
    } else {
      HeadJoins(b, b);
      assert lists'.At(Active) == a && lists'.At(Inactive) == b[1..] + [b[0]] && lists'.At(Eviction) == c;
    }
  }

  lemma RescanPermutes(s: State, step: Step)
    requires Inv(s) && Enabled(s, step) && Rescan(step)
    ensures Permuted(s.lists, Next(s, step).lists)
  {
    var from := if step.Cool? then Active else Inactive;
    OnList(s, from);
    MovePermutes(s.lists, from, if step.Cool? then Inactive else Destination(Look(s).fate));
  }

  /** Any run of cooling and scanning permutes the pages of the three lists and leaves every other list. */
  lemma {:induction false} RescansPermute(dramSize: nat, diskSize: nat, before: seq<Step>, after: seq<Step>)
    requires Run(dramSize, diskSize, before).Some? && Run(dramSize, diskSize, after).Some?
    requires Extends(before, after, Rescan)
    ensures Permuted(Run(dramSize, diskSize, before).value.lists, Run(dramSize, diskSize, after).value.lists)
    decreases |after|
  {
    if |before| == |after| {
      assert before == after;
    } else {
      var n := |after| - 1;
      RescansPermute(dramSize, diskSize, before, after[..n]);
      RunInv(dramSize, diskSize, after[..n]);
      RescanPermutes(Run(dramSize, diskSize, after[..n]).value, after[n]);
    }
  }

  predicate IsScan(step: Step) { step.Scan? }

  predicate IsCool(step: Step) { step.Cool? }

  /** So what `k` scans do to the lists is what a trace of `k` scans did. */
  lemma ScansOfTrace(dramSize: nat, diskSize: nat, before: seq<Step>, after: seq<Step>)
    requires Run(dramSize, diskSize, before).Some? && Extends(before, after, IsScan)
    ensures Exec(Run(dramSize, diskSize, before).value, Scans(|after| - |before|)) == Run(dramSize, diskSize, after)
  {
    assert after == before + Scans(|after| - |before|);
    ExecAppend(Init(dramSize, diskSize), before, Scans(|after| - |before|));
  }

  lemma SilentTable(s: State, step: Step)
    requires Enabled(s, step) && Silent(step)
    ensures Next(s, step).table == s.table
  {
  }

  lemma {:induction false} SilentRun(dramSize: nat, diskSize: nat, before: seq<Step>, after: seq<Step>, va: nat)
    requires Run(dramSize, diskSize, before).Some? && Run(dramSize, diskSize, after).Some?
    requires Extends(before, after, Silent)
    ensures var (s, s') := (Run(dramSize, diskSize, before).value, Run(dramSize, diskSize, after).value);
      Bytes(s', va) == Bytes(s, va) && s'.table == s.table
    decreases |after|
  {
    if |before| == |after| {
      assert before == after;
    } else {
      var n := |after| - 1;
      SilentRun(dramSize, diskSize, before, after[..n], va);
      RunInv(dramSize, diskSize, after[..n]);
      SilentStep(Run(dramSize, diskSize, after[..n]).value, after[n], va);
      SilentTable(Run(dramSize, diskSize, after[..n]).value, after[n]);
    }
  }
}
