/** The hash table behind the page table: chained buckets that double, and the list of all
    items in the order they were added. Chains and list are first sequences and then links
    inside the pages; the hash is any function of the key. Table memory can always be had,
    and counters do not overflow. */
module PageTable {
  import opened Common
  import opened Shifts
  import opened Links
  import MergeSort

  const INITIAL_LOG2 := 21
  const CAPACITY := 10

  /** A tracked page: its virtual address, its descriptor, which is also its node, and the
      stored hash value. */
  datatype Item = Item(key: nat, page: nat, hash: nat)

  datatype Bucket = Bucket(chain: seq<Item>, count: nat, mult: nat)

  // ------------------------------------------------------------ bucket numbers

  /** `HASH_TO_BKT` */
  function Slot(hash: nat, log2: nat): nat { And(hash, Pow2(log2) - 1) }

  /** The bucket number is in range. */
  lemma SlotInRange(hash: nat, log2: nat)
    ensures Slot(hash, log2) < Pow2(log2)
  {
    ShiftAndMask(hash, log2);
  }

  /** Doubling the buckets splits bucket `b` between `b` and `b` plus the old number of buckets. */
  lemma {:induction false} DoublingSplits(hash: nat, log2: nat)
    ensures Slot(hash, log2 + 1) == Slot(hash, log2) || Slot(hash, log2 + 1) == Slot(hash, log2) + Pow2(log2)
  {
    MaskUnfolds(hash, log2 + 1);
    if log2 > 0 {
      MaskUnfolds(hash, log2);
      DoublingSplits(hash / 2, log2 - 1);
    }
  }

  /** The shift and mask of `ideal_chain_maxlen` for `2 ^ k` buckets. */
  function IdealLength(items: nat, k: nat): nat {
    ShiftRight(items, k) + if And(items, Pow2(k) - 1) != 0 then 1 else 0
  }

  /** It is the quotient rounded up: the least length at which all the items fit. */
  lemma IdealIsCeiling(items: nat, k: nat, m: nat)
    ensures m * Pow2(k) >= items <==> m >= IdealLength(items, k)
  {
    ShiftAndMask(items, k);
    RoundedUp(items, ShiftRight(items, k), And(items, Pow2(k) - 1), Pow2(k), m);
  }

  lemma RoundedUp(n: nat, q: nat, r: nat, p: nat, m: nat)
    requires n == q * p + r && r < p
    ensures m * p >= n <==> m >= q + if r != 0 then 1 else 0
  {
  }

  // ----------------------------------------------------------------- invariant

  ghost predicate BucketOk(b: Bucket, n: nat, log2: nat, done: set<Item>) {
    && b.count == |b.chain| && NoDup(b.chain)
    && (forall x {:trigger x in b.chain} :: x in b.chain ==> x in done && Slot(x.hash, log2) == n)
  }

  /** The buckets hold exactly the items `done`, each once, in the bucket its hash selects. */
  ghost predicate Hashed(bs: seq<Bucket>, log2: nat, done: set<Item>) {
    && |bs| == Pow2(log2)
    && (forall n {:trigger BucketOk(bs[n], n, log2, done)} :: 0 <= n < |bs| ==> BucketOk(bs[n], n, log2, done))
    && (forall x {:trigger Chained(bs, log2, x)} :: x in done ==> Chained(bs, log2, x))
  }

  ghost predicate Chained(bs: seq<Bucket>, log2: nat, x: Item) {
    Slot(x.hash, log2) < |bs| && x in bs[Slot(x.hash, log2)].chain
  }

  /** By how much the chains exceed the ideal length, in all. */
  function Excess(bs: seq<Bucket>, ideal: nat): nat {
    if bs == [] then 0
    else Excess(bs[..|bs| - 1], ideal) + if bs[|bs| - 1].count > ideal then bs[|bs| - 1].count - ideal else 0
  }

  function Over(b: Bucket, ideal: nat): nat { if b.count > ideal then b.count - ideal else 0 }

  lemma {:induction false} ExcessUpdate(bs: seq<Bucket>, n: nat, b: Bucket, ideal: nat)
    requires n < |bs|
    ensures Excess(bs[n := b], ideal) == Excess(bs, ideal) - Over(bs[n], ideal) + Over(b, ideal)
  {
    var m := |bs| - 1;
    if n < m {
      ExcessUpdate(bs[..m], n, b, ideal);
      assert bs[n := b][..m] == bs[..m][n := b];
    } else {
      assert bs[n := b][..m] == bs[..m];
    }
  }

  lemma {:induction false} EmptyExcess(bs: seq<Bucket>, ideal: nat)
    requires forall n :: 0 <= n < |bs| ==> bs[n].count == 0
    ensures Excess(bs, ideal) == 0
  {
    if bs != [] { EmptyExcess(bs[..|bs| - 1], ideal); }
  }

  /** The chain with an item pushed at its head. */
  function Pushed(b: Bucket, x: Item): Bucket { b.(chain := [x] + b.chain, count := b.count + 1) }

  lemma PushHashed(bs: seq<Bucket>, log2: nat, done: set<Item>, x: Item, mult: nat)
    requires Hashed(bs, log2, done) && x !in done
    ensures Slot(x.hash, log2) < |bs|
    ensures var n := Slot(x.hash, log2); Hashed(bs[n := Pushed(bs[n], x).(mult := mult)], log2, done + {x})
  {
    SlotInRange(x.hash, log2);
    var n := Slot(x.hash, log2);
    var bs' := bs[n := Pushed(bs[n], x).(mult := mult)];
    assert BucketOk(bs[n], n, log2, done);
    assert NoDup([x] + bs[n].chain) by { assert x !in bs[n].chain; }
    forall m | 0 <= m < |bs'| ensures BucketOk(bs'[m], m, log2, done + {x}) { assert BucketOk(bs[m], m, log2, done); }
    forall y | y in done + {x} ensures Chained(bs', log2, y) {
      if y == x { assert bs'[n].chain[0] == x; } else { assert Chained(bs, log2, y); }
    }
  }

  function Without(s: seq<Item>, x: Item): seq<Item> {
    if s == [] then [] else if s[0] == x then s[1..] else [s[0]] + Without(s[1..], x)
  }

  lemma {:induction false} WithoutFacts(s: seq<Item>, x: Item)
    requires NoDup(s)
    ensures NoDup(Without(s, x)) && (x in s ==> |Without(s, x)| == |s| - 1)
    ensures forall y :: y in Without(s, x) <==> y in s && y != x
  {
    if s != [] && s[0] != x {
      WithoutFacts(s[1..], x);
      assert s == [s[0]] + s[1..];
      assert s[0] !in s[1..];
    } else if s != [] {
      assert s == [s[0]] + s[1..];
    }
  }

  /** The chain with an item taken out. */
  function Dropped(b: Bucket, x: Item): Bucket
    requires b.count > 0
  {
    b.(chain := Without(b.chain, x), count := b.count - 1)
  }

  lemma DropHashed(bs: seq<Bucket>, log2: nat, done: set<Item>, x: Item)
    requires Hashed(bs, log2, done) && x in done
    ensures Slot(x.hash, log2) < |bs| && bs[Slot(x.hash, log2)].count > 0
    ensures var n := Slot(x.hash, log2);
      Hashed(bs[n := Dropped(bs[n], x)], log2, done - {x})
  {
    assert Chained(bs, log2, x);
    var n := Slot(x.hash, log2);
    assert BucketOk(bs[n], n, log2, done);
    WithoutFacts(bs[n].chain, x);
    var bs' := bs[n := Dropped(bs[n], x)];
    forall m | 0 <= m < |bs'| ensures BucketOk(bs'[m], m, log2, done - {x}) {
      assert BucketOk(bs[m], m, log2, done);
    }
    forall y | y in done - {x} ensures Chained(bs', log2, y) { assert Chained(bs, log2, y); }
  }

  // ------------------------------------------------------- reference: a map

  ghost function SetOf(s: seq<Item>): set<Item> { set x | x in s }

  /** The page table as a map from address to descriptor. */
  ghost function PagesOf(items: seq<Item>): map<nat, nat> {
    if items == [] then map[] else PagesOf(items[..|items| - 1])[items[|items| - 1].key := items[|items| - 1].page]
  }

  ghost predicate Keyed(items: seq<Item>, hash: nat -> nat) {
    && (forall x :: x in items ==> x.hash == hash(x.key))
    && (forall i, j :: 0 <= i < j < |items| ==> items[i].key != items[j].key)
  }

  lemma {:induction false} PagesOfHas(items: seq<Item>, hash: nat -> nat, x: Item)
    requires Keyed(items, hash) && x in items
    ensures x.key in PagesOf(items) && PagesOf(items)[x.key] == x.page
  {
    var (front, last) := (items[..|items| - 1], items[|items| - 1]);
    assert items == front + [last];
    if x != last { PagesOfHas(front, hash, x); }
  }

  lemma {:induction false} PagesOfOnly(items: seq<Item>, k: nat)
    requires k in PagesOf(items)
    ensures exists x :: x in items && x.key == k
  {
    var (front, last) := (items[..|items| - 1], items[|items| - 1]);
    assert last in items;
    if k != last.key {
      PagesOfOnly(front, k);
      var x :| x in front && x.key == k;
      assert x in items;
    }
  }

  lemma {:induction false} WithoutKeyed(items: seq<Item>, hash: nat -> nat, x: Item)
    requires Keyed(items, hash)
    ensures Keyed(Without(items, x), hash) && forall y :: y in Without(items, x) ==> y in items
  {
    if items != [] && items[0] != x {
      WithoutKeyed(items[1..], hash, x);
      assert items == [items[0]] + items[1..];
      assert forall y :: y in items[1..] ==> y.key != items[0].key;
    }
  }

  lemma KeyedNoDup(items: seq<Item>, hash: nat -> nat)
    requires Keyed(items, hash)
    ensures NoDup(items)
  {
  }

  /** Fewer items, a smaller map. */
  lemma PagesOfLess(items: seq<Item>, less: seq<Item>, hash: nat -> nat, k: nat)
    requires Keyed(items, hash) && Keyed(less, hash) && (forall y :: y in less ==> y in items) && k in PagesOf(less)
    ensures k in PagesOf(items) && PagesOf(items)[k] == PagesOf(less)[k]
    ensures exists y :: y in less && y.key == k
  {
    PagesOfOnly(less, k);
    var y :| y in less && y.key == k;
    PagesOfHas(less, hash, y);
    PagesOfHas(items, hash, y);
  }

  lemma SameKey(items: seq<Item>, hash: nat -> nat, x: Item, y: Item)
    requires Keyed(items, hash) && x in items && y in items
    ensures x.key == y.key ==> x == y
  {
  }

  lemma StaysGone(items: seq<Item>, hash: nat -> nat, x: Item, k: nat)
    requires Keyed(items, hash) && x in items && k in PagesOf(Without(items, x))
    ensures k in PagesOf(items) && k != x.key && PagesOf(items)[k] == PagesOf(Without(items, x))[k]
  {
    WithoutKeyed(items, hash, x);
    PagesOfLess(items, Without(items, x), hash, k);
    var y :| y in Without(items, x) && y.key == k;
    KeyedNoDup(items, hash);
    WithoutFacts(items, x);
    SameKey(items, hash, x, y);
  }

  lemma StaysThere(items: seq<Item>, hash: nat -> nat, x: Item, k: nat)
    requires Keyed(items, hash) && x in items && k in PagesOf(items) && k != x.key
    ensures k in PagesOf(Without(items, x))
  {
    PagesOfOnly(items, k);
    var y :| y in items && y.key == k;
    KeyedNoDup(items, hash);
    WithoutFacts(items, x);
    WithoutKeyed(items, hash, x);
    PagesOfHas(Without(items, x), hash, y);
  }

  /** Removing an item removes its key from the map and nothing else. */
  lemma PagesOfWithout(items: seq<Item>, hash: nat -> nat, x: Item)
    requires Keyed(items, hash) && x in items
    ensures PagesOf(Without(items, x)) == PagesOf(items) - {x.key}
  {
    var (m, m') := (PagesOf(items), PagesOf(Without(items, x)));
    forall k | k in m' ensures k in m && k != x.key && m'[k] == m[k] { StaysGone(items, hash, x, k); }
    forall k | k in m && k != x.key ensures k in m' { StaysThere(items, hash, x, k); }
    LessOne(m, m', x.key);
  }

  lemma LessOne(m: map<nat, nat>, m': map<nat, nat>, gone: nat)
    requires forall k :: k in m' ==> k in m && k != gone && m'[k] == m[k]
    requires forall k :: k in m && k != gone ==> k in m'
    ensures m' == m - {gone}
  {
  }

  /** A key in the table is in the chain that its hash selects. */
  lemma ChainHasKey(bs: seq<Bucket>, log2: nat, items: seq<Item>, hash: nat -> nat, va: nat)
    requires Keyed(items, hash) && Hashed(bs, log2, SetOf(items))
    ensures Slot(hash(va), log2) < |bs|
    ensures va in PagesOf(items)
      ==> exists i :: 0 <= i < |bs[Slot(hash(va), log2)].chain| && bs[Slot(hash(va), log2)].chain[i].key == va
  {
    SlotInRange(hash(va), log2);
    if va in PagesOf(items) {
      PagesOfOnly(items, va);
      var x :| x in items && x.key == va;
      assert x in SetOf(items) && Chained(bs, log2, x);
    }
  }

  lemma AppendKeyed(items: seq<Item>, hash: nat -> nat, x: Item)
    requires Keyed(items, hash) && x.hash == hash(x.key) && x.key !in PagesOf(items)
    ensures Keyed(items + [x], hash) && x !in items && SetOf(items + [x]) == SetOf(items) + {x}
    ensures PagesOf(items + [x]) == PagesOf(items)[x.key := x.page]
  {
    forall y | y in items ensures y.key != x.key { PagesOfHas(items, hash, y); }
    assert (items + [x])[..|items|] == items;
  }

  /** A bucket of the doubled table with an item moved to its head. */
  function Relinked(b: Bucket, x: Item, ideal: nat): Bucket {
    var c := Pushed(b, x);
    if c.count > ideal && c.count > b.mult * ideal then c.(mult := b.mult + 1) else c
  }

  /** What `expand_mult` comes to as a chain of the doubled table grows to this length. */
  function Multiplier(count: nat, ideal: nat): nat {
    if count == 0 then 0
    else
      var m := Multiplier(count - 1, ideal);
      if count > ideal && count > m * ideal then m + 1 else m
  }

  /** It is the number of ideal lengths that hold the chain, though no more than the items past
      the first; and zero for a chain that is not too long. */
  lemma {:induction false} MultiplierIs(count: nat, ideal: nat)
    requires ideal > 0
    ensures var m := Multiplier(count, ideal);
      if count <= ideal then m == 0
      else 1 <= m <= count - ideal && (m - 1) * ideal < count && (m == count - ideal || count <= m * ideal)
  {
    if count > 0 {
      MultiplierIs(count - 1, ideal);
      var m := Multiplier(count - 1, ideal);
      Product(m, ideal);
      if m > 0 { Product(m - 1, ideal); }
    }
  }

  lemma Product(m: nat, ideal: nat)
    ensures (m + 1) * ideal == m * ideal + ideal
  {
  }

  /** The multipliers are what the lengths of the chains call for. */
  ghost predicate Weighed(bs: seq<Bucket>, ideal: nat) {
    forall n :: 0 <= n < |bs| ==> bs[n].mult == Multiplier(bs[n].count, ideal)
  }

  lemma RelinkedWeighed(bs: seq<Bucket>, n: nat, x: Item, ideal: nat)
    requires Weighed(bs, ideal) && n < |bs|
    ensures Weighed(bs[n := Relinked(bs[n], x, ideal)], ideal)
  {
  }

  /** One more page makes the chain ten pages long, or ten for each of its multiples. */
  predicate Crowded(b: Bucket) { b.count + 1 >= 10 * (b.mult + 1) }

  /** Adding a page with this hash doubles the table. */
  predicate Doubles(bs: seq<Bucket>, log2: nat, noexpand: bool, hash: nat) {
    Slot(hash, log2) < |bs| && Crowded(bs[Slot(hash, log2)]) && !noexpand
  }

  /** The items that the first `i` buckets hold. */
  ghost function Below(all: set<Item>, log2: nat, i: nat): set<Item> {
    set x | x in all && Slot(x.hash, log2) < i
  }

  lemma ChainIsSlot(bs: seq<Bucket>, log2: nat, all: set<Item>, i: nat)
    requires Hashed(bs, log2, all) && i < |bs|
    ensures NoDup(bs[i].chain) && (forall x :: x in bs[i].chain ==> x !in Below(all, log2, i))
    ensures Below(all, log2, i) + SetOf(bs[i].chain) == Below(all, log2, i + 1)
  {
    assert BucketOk(bs[i], i, log2, all);
    forall x | x in all && Slot(x.hash, log2) == i ensures x in bs[i].chain { assert Chained(bs, log2, x); }
  }

  lemma NoneBelow(all: set<Item>, log2: nat)
    ensures Below(all, log2, 0) == {}
  {
  }

  lemma AllBelow(all: set<Item>, log2: nat)
    ensures Below(all, log2, Pow2(log2)) == all
  {
    forall x | x in all ensures x in Below(all, log2, Pow2(log2)) { SlotInRange(x.hash, log2); }
  }

  lemma EmptyHashed(bs: seq<Bucket>, log2: nat)
    requires |bs| == Pow2(log2) && forall n :: 0 <= n < |bs| ==> bs[n] == Bucket([], 0, 0)
    ensures Hashed(bs, log2, {})
  {
  }

  // --------------------------------------------------------- chains as links

  /** What a bucket and a page hold besides links. */
  datatype Head = Head(first: int, count: nat, mult: nat)

  datatype Info = Info(key: nat, hash: nat)

  function Nodes(s: seq<Item>): (r: seq<nat>)
    ensures |r| == |s| && forall i :: 0 <= i < |s| ==> r[i] == s[i].page
  {
    seq(|s|, i requires 0 <= i < |s| => s[i].page)
  }

  /** No page is two items. */
  ghost predicate OnePlace(done: set<Item>) {
    forall x, y {:trigger x in done, y in done} :: x in done && y in done && x.page == y.page ==> x == y
  }

  /** The links spell out the chain of a bucket. */
  ghost predicate ChainAt(h: Head, b: Bucket, next: seq<int>, prev: seq<int>) {
    var s := Nodes(b.chain);
    h == Head(First(s), b.count, b.mult) && Linked(next, prev, s, First(s), Last(s))
  }

  ghost predicate Hung(hs: seq<Head>, bs: seq<Bucket>, next: seq<int>, prev: seq<int>) {
    && |hs| == |bs| && |next| == |prev|
    && (forall n {:trigger ChainAt(hs[n], bs[n], next, prev)} :: 0 <= n < |bs| ==> ChainAt(hs[n], bs[n], next, prev))
  }

  lemma NodeOf(s: seq<Item>, a: nat)
    ensures a in Nodes(s) <==> exists x :: x in s && x.page == a
  {
    if a in Nodes(s) {
      var i :| 0 <= i < |s| && Nodes(s)[i] == a;
      assert s[i] in s;
    } else {
      forall x | x in s ensures x.page != a {
        var i :| 0 <= i < |s| && s[i] == x;
        assert Nodes(s)[i] in Nodes(s);
      }
    }
  }

  /** Two chains share no node. */
  lemma ChainsApart(bs: seq<Bucket>, log2: nat, done: set<Item>, n: nat, m: nat, a: nat)
    requires Hashed(bs, log2, done) && OnePlace(done) && n < |bs| && m < |bs| && n != m && a in Nodes(bs[m].chain)
    ensures a !in Nodes(bs[n].chain) && exists y :: y in done && Slot(y.hash, log2) == m && y.page == a
  {
    NodeOf(bs[m].chain, a);
    NodeOf(bs[n].chain, a);
    var y :| y in bs[m].chain && y.page == a;
    assert BucketOk(bs[m], m, log2, done) && BucketOk(bs[n], n, log2, done);
    assert forall z :: z in bs[n].chain ==> z != y && z in done;
  }

  lemma NotChained(bs: seq<Bucket>, log2: nat, done: set<Item>, x: Item, n: nat)
    requires Hashed(bs, log2, done) && OnePlace(done + {x}) && n < |bs| && x !in done
    ensures x.page !in Nodes(bs[n].chain)
  {
    NodeOf(bs[n].chain, x.page);
    assert BucketOk(bs[n], n, log2, done);
  }

  lemma OtherHung(h: Head, bs: seq<Bucket>, next: seq<int>, prev: seq<int>, next': seq<int>, prev': seq<int>,
                  log2: nat, done: set<Item>, all: set<Item>, x: Item, n: nat, m: nat)
    requires m < |bs| && ChainAt(h, bs[m], next, prev) && Hashed(bs, log2, done)
    requires OnePlace(all) && done <= all && x in all
    requires n < |bs| && n != m && (x !in done || Slot(x.hash, log2) == n)
    requires Confined(next, next', [x.page] + Nodes(bs[n].chain))
      && Confined(prev, prev', [x.page] + Nodes(bs[n].chain))
    ensures ChainAt(h, bs[m], next', prev')
  {
    var t := Nodes(bs[m].chain);
    assert OnePlace(done);
    forall a | a in t ensures next'[a] == next[a] && prev'[a] == prev[a] { ChainsApart(bs, log2, done, n, m, a); }
    Spared(next, prev, next', prev', t, First(t), Last(t));
  }

  /** Links written in one chain leave the others as they were. */
  lemma OneRehung(hs: seq<Head>, bs: seq<Bucket>, next: seq<int>, prev: seq<int>, next': seq<int>, prev': seq<int>,
                  log2: nat, done: set<Item>, all: set<Item>, x: Item, n: nat, h: Head, b: Bucket)
    requires Hung(hs, bs, next, prev) && Hashed(bs, log2, done) && OnePlace(all) && done <= all && x in all
    requires n < |bs| && (x !in done || Slot(x.hash, log2) == n) && ChainAt(h, b, next', prev')
    requires Confined(next, next', [x.page] + Nodes(bs[n].chain))
      && Confined(prev, prev', [x.page] + Nodes(bs[n].chain))
    ensures Hung(hs[n := h], bs[n := b], next', prev')
  {
    forall m | 0 <= m < |bs| && m != n ensures ChainAt(hs[m], bs[m], next', prev') {
      OtherHung(hs[m], bs, next, prev, next', prev', log2, done, all, x, n, m);
    }
  }

  /** `HASH_ADD_TO_BKT`: a page linked in at the head of its chain, all other chains as they were. */
  lemma HangPush(hs: seq<Head>, bs: seq<Bucket>, next: seq<int>, prev: seq<int>, log2: nat, done: set<Item>, x: Item,
                 mult: nat)
    requires Hung(hs, bs, next, prev) && Hashed(bs, log2, done) && x !in done && OnePlace(done + {x}) && x.page < |next|
    ensures Slot(x.hash, log2) < |hs|
    ensures var n := Slot(x.hash, log2);
      && NULL <= hs[n].first < |prev|
      && Hung(hs[n := Head(x.page, hs[n].count + 1, mult)], bs[n := Pushed(bs[n], x).(mult := mult)],
              next[x.page := hs[n].first], Fronted(prev, hs[n].first, x.page))
  {
    SlotInRange(x.hash, log2);
    var (n, e) := (Slot(x.hash, log2), x.page);
    var s := Nodes(bs[n].chain);
    assert ChainAt(hs[n], bs[n], next, prev);
    NotChained(bs, log2, done, x, n);
    PushLinks(next, prev, s, e);
    assert Nodes([x] + bs[n].chain) == [e] + s;
    var (next', prev') := (next[e := First(s)], Fronted(prev, First(s), e));
    OneRehung(hs, bs, next, prev, next', prev', log2, done, done + {x}, x, n,
              Head(e, hs[n].count + 1, mult), Pushed(bs[n], x).(mult := mult));
  }

  /** A page pushed at the head of its chain, and what its bucket says. */
  lemma PushedOn(hs: seq<Head>, bs: seq<Bucket>, next: seq<int>, prev: seq<int>, log2: nat, items: seq<Item>, x: Item)
    requires Hung(hs, bs, next, prev) && Hashed(bs, log2, SetOf(items) - {x}) && x in items
    requires OnePlace(SetOf(items)) && x.page < |next|
    ensures Slot(x.hash, log2) < |hs| == |bs|
    ensures var n := Slot(x.hash, log2);
      && hs[n].count == bs[n].count && hs[n].mult == bs[n].mult && NULL <= hs[n].first < |prev|
      && Hung(hs[n := Head(x.page, hs[n].count + 1, hs[n].mult)], bs[n := Pushed(bs[n], x)],
              next[x.page := hs[n].first], Fronted(prev, hs[n].first, x.page))
      && Hashed(bs[n := Pushed(bs[n], x)], log2, SetOf(items))
  {
    SlotInRange(x.hash, log2);
    var n := Slot(x.hash, log2);
    var others := SetOf(items) - {x};
    assert others + {x} == SetOf(items);
    assert ChainAt(hs[n], bs[n], next, prev);
    HangPush(hs, bs, next, prev, log2, others, x, hs[n].mult);
    PushHashed(bs, log2, others, x, hs[n].mult);
    assert Pushed(bs[n], x).(mult := hs[n].mult) == Pushed(bs[n], x);
  }

  /** The head of a bucket of the doubled table once a page is moved there. */
  function HeadWith(h: Head, e: nat, ideal: nat): Head {
    var count := h.count + 1;
    Head(e, count, if count > ideal && count > h.mult * ideal then h.mult + 1 else h.mult)
  }

  /** Buckets, chains and the count of items beyond the ideal length, with these items in. */
  ghost predicate Laid(hs: seq<Head>, bs: seq<Bucket>, next: seq<int>, prev: seq<int>, log2: nat, done: set<Item>,
                       nonideal: nat, ideal: nat) {
    Hung(hs, bs, next, prev) && Hashed(bs, log2, done) && nonideal == Excess(bs, ideal) && Weighed(bs, ideal)
  }

  lemma RehashLaid(hs: seq<Head>, bs: seq<Bucket>, next: seq<int>, prev: seq<int>, log2: nat, done: set<Item>,
                   nonideal: nat, ideal: nat, x: Item)
    requires Laid(hs, bs, next, prev, log2, done, nonideal, ideal) && x !in done && OnePlace(done + {x})
      && x.page < |next|
    ensures Slot(x.hash, log2) < |hs| == |bs|
    ensures var (n, e) := (Slot(x.hash, log2), x.page);
      var h := HeadWith(hs[n], e, ideal);
      && NULL <= hs[n].first < |prev|
      && Laid(hs[n := h], bs[n := Relinked(bs[n], x, ideal)], next[e := hs[n].first], Fronted(prev, hs[n].first, e),
              log2, done + {x}, if h.count > ideal then nonideal + 1 else nonideal, ideal)
  {
    SlotInRange(x.hash, log2);
    var n := Slot(x.hash, log2);
    assert ChainAt(hs[n], bs[n], next, prev);
    var b := Relinked(bs[n], x, ideal);
    SameHead(hs[n], bs[n], x, ideal);
    HangPush(hs, bs, next, prev, log2, done, x, b.mult);
    PushHashed(bs, log2, done, x, b.mult);
    ExcessUpdate(bs, n, b, ideal);
    RelinkedWeighed(bs, n, x, ideal);
  }

  lemma SameHead(h: Head, b: Bucket, x: Item, ideal: nat)
    requires h.count == b.count && h.mult == b.mult
    ensures var b' := Relinked(b, x, ideal);
      && b' == Pushed(b, x).(mult := b'.mult) && HeadWith(h, x.page, ideal) == Head(x.page, h.count + 1, b'.mult)
      && Over(b', ideal) == Over(b, ideal) + if h.count + 1 > ideal then 1 else 0
  {
  }

  lemma {:induction false} WithoutAt(s: seq<Item>, k: nat)
    requires NoDup(s) && k < |s|
    ensures Nodes(Without(s, s[k])) == Removed(Nodes(s), k)
  {
    if k > 0 {
      WithoutAt(s[1..], k - 1);
      assert Without(s, s[k]) == [s[0]] + Without(s[1..], s[k]);
      assert Nodes(Without(s, s[k])) == [s[0].page] + Nodes(Without(s[1..], s[k]));
      assert Nodes(s)[1..] == Nodes(s[1..]);
      assert Removed(Nodes(s), k) == [s[0].page] + Removed(Nodes(s)[1..], k - 1);
    } else {
      assert Removed(Nodes(s), 0) == Nodes(s[1..]);
    }
  }

  /** The bucket's head once a page is unlinked. */
  function HeadWithout(h: Head, e: nat, after: int): Head
    requires h.count > 0
  {
    Head(if h.first == e then after else h.first, h.count - 1, h.mult)
  }

  /** `HASH_DEL_IN_BKT`: a page unlinked from its chain, all other chains as they were. */
  lemma HangDrop(hs: seq<Head>, bs: seq<Bucket>, next: seq<int>, prev: seq<int>, log2: nat, done: set<Item>, x: Item)
    requires Hung(hs, bs, next, prev) && Hashed(bs, log2, done) && x in done && OnePlace(done)
    ensures Slot(x.hash, log2) < |hs| && hs[Slot(x.hash, log2)].count == bs[Slot(x.hash, log2)].count > 0
    ensures Between(next, prev, x.page)
    ensures var n := Slot(x.hash, log2);
      Hung(hs[n := HeadWithout(hs[n], x.page, next[x.page])], bs[n := Dropped(bs[n], x)],
           Bridged(next, prev[x.page], next[x.page]), Bridged(prev, next[x.page], prev[x.page]))
  {
    var n := InChain(hs, bs, next, prev, log2, done, x);
    ChainWithout(hs[n], bs[n], next, prev, x);
    OneRehung(hs, bs, next, prev, Bridged(next, prev[x.page], next[x.page]), Bridged(prev, next[x.page], prev[x.page]),
              log2, done, done, x, n, HeadWithout(hs[n], x.page, next[x.page]), Dropped(bs[n], x));
  }

  lemma InChain(hs: seq<Head>, bs: seq<Bucket>, next: seq<int>, prev: seq<int>, log2: nat, done: set<Item>,
                x: Item) returns (n: nat)
    requires Hung(hs, bs, next, prev) && Hashed(bs, log2, done) && x in done
    ensures n == Slot(x.hash, log2) < |hs| && ChainAt(hs[n], bs[n], next, prev)
    ensures x in bs[n].chain && NoDup(bs[n].chain) && hs[n].count == bs[n].count == |bs[n].chain| > 0
  {
    assert Chained(bs, log2, x);
    n := Slot(x.hash, log2);
    assert ChainAt(hs[n], bs[n], next, prev) && BucketOk(bs[n], n, log2, done);
  }

  lemma ChainWithout(h: Head, b: Bucket, next: seq<int>, prev: seq<int>, x: Item)
    requires ChainAt(h, b, next, prev) && |next| == |prev| && NoDup(b.chain) && b.count == |b.chain| && x in b.chain
    ensures b.count > 0 && Between(next, prev, x.page)
    ensures var (after, before) := (next[x.page], prev[x.page]);
      var (next', prev') := (Bridged(next, before, after), Bridged(prev, after, before));
      && ChainAt(HeadWithout(h, x.page, after), Dropped(b, x), next', prev')
      && Confined(next, next', [x.page] + Nodes(b.chain)) && Confined(prev, prev', [x.page] + Nodes(b.chain))
  {
    var k :| 0 <= k < |b.chain| && b.chain[k] == x;
    var s := Nodes(b.chain);
    UnlinkLinks(next, prev, s, k);
    UnlinkEnds(next, prev, s, k);
    WithoutAt(b.chain, k);
  }

  /** What is left of a chain while its items are moved: its forward links. */
  ghost predicate Trail(next: seq<int>, s: seq<nat>) { Forward(next, s) && Ends(next, s) }

  lemma TrailSpared(next: seq<int>, next': seq<int>, s: seq<nat>)
    requires Trail(next, s) && |next'| == |next| && forall a :: a in s ==> a < |next| && next'[a] == next[a]
    ensures Trail(next', s)
  {
  }

  /** The items of a chain are to join those already moved. */
  ghost predicate Movable(chain: seq<Item>, done: set<Item>) {
    NoDup(chain) && OnePlace(done + SetOf(chain)) && forall x {:trigger x in chain} :: x in chain ==> x !in done
  }

  lemma MoveOn(chain: seq<Item>, done: set<Item>, j: nat)
    requires j < |chain| && Movable(chain, done)
    ensures chain[j] in chain && chain[j] !in done + SetOf(chain[..j])
    ensures done + SetOf(chain[..j]) + {chain[j]} == done + SetOf(chain[..j + 1])
    ensures OnePlace(done + SetOf(chain[..j]) + {chain[j]}) && OnePlace(SetOf(chain))
  {
    assert forall x :: x in chain[..j] ==> x in chain;
  }

  lemma AllMoved(chain: seq<Item>, j: nat)
    requires j <= |chain| && First(Nodes(chain[j..])) == NULL
    ensures chain[..j] == chain
  {
    assert chain[j..] == [];
  }

  /** Moving the first page of what is left of a chain leaves the rest of it. */
  lemma TrailOn(next: seq<int>, next': seq<int>, chain: seq<Item>, j: nat)
    requires j < |chain| && NoDup(chain) && OnePlace(SetOf(chain)) && Trail(next, Nodes(chain[j..]))
      && |next'| == |next|
    requires Confined(next, next', [chain[j].page])
    ensures chain[j].page < |next| && next[chain[j].page] == First(Nodes(chain[j + 1..]))
    ensures Trail(next', Nodes(chain[j + 1..]))
  {
    var (s, t) := (Nodes(chain[j..]), Nodes(chain[j + 1..]));
    assert s[0] == chain[j].page && s[1..] == t;
    forall a | a in t ensures a != chain[j].page && a < |next| {
      var i :| 0 <= i < |t| && t[i] == a;
      assert t[i] == chain[j + 1 + i].page && s[1 + i] == t[i];
      assert chain[j] in SetOf(chain) && chain[j + 1 + i] in SetOf(chain);
    }
    assert Trail(next, t) by { assert forall i :: 0 <= i < |t| ==> t[i] == s[1 + i]; }
    TrailSpared(next, next', t);
  }

  /** The chains from the `i`-th on are still to be moved. */
  ghost predicate ToMove(hs: seq<Head>, bs: seq<Bucket>, next: seq<int>, i: nat) {
    && |hs| == |bs|
    && (forall m :: i <= m < |bs| ==> hs[m].first == First(Nodes(bs[m].chain)) && Trail(next, Nodes(bs[m].chain)))
  }

  lemma AllToMove(hs: seq<Head>, bs: seq<Bucket>, next: seq<int>, prev: seq<int>)
    requires Hung(hs, bs, next, prev)
    ensures ToMove(hs, bs, next, 0)
  {
    forall m | 0 <= m < |bs| ensures hs[m].first == First(Nodes(bs[m].chain)) && Trail(next, Nodes(bs[m].chain)) {
      assert ChainAt(hs[m], bs[m], next, prev);
    }
  }

  /** Moving one chain leaves the later ones. */
  lemma OthersToMove(hs: seq<Head>, bs: seq<Bucket>, next: seq<int>, next': seq<int>, log2: nat, all: set<Item>, i: nat)
    requires ToMove(hs, bs, next, i) && Hashed(bs, log2, all) && OnePlace(all) && i < |bs|
    requires Confined(next, next', Nodes(bs[i].chain))
    ensures ToMove(hs, bs, next', i + 1)
  {
    forall m | i < m < |bs| ensures Trail(next', Nodes(bs[m].chain)) {
      var t := Nodes(bs[m].chain);
      forall a | a in t ensures a < |next| && next'[a] == next[a] { ChainsApart(bs, log2, all, i, m, a); }
      TrailSpared(next, next', t);
    }
  }

  lemma ChainMovable(bs: seq<Bucket>, log2: nat, items: seq<Item>, info: seq<Info>, i: nat)
    requires Hashed(bs, log2, SetOf(items)) && OnePlace(SetOf(items)) && Filed(items, info) && i < |bs|
    ensures Movable(bs[i].chain, Below(SetOf(items), log2, i)) && Filed(bs[i].chain, info)
    ensures Below(SetOf(items), log2, i) + SetOf(bs[i].chain) == Below(SetOf(items), log2, i + 1)
  {
    ChainIsSlot(bs, log2, SetOf(items), i);
    assert BucketOk(bs[i], i, log2, SetOf(items));
    forall x | x in bs[i].chain ensures x in items { assert x in SetOf(items); }
  }

  /** Every item is in its page's handle. */
  ghost predicate Filed(items: seq<Item>, info: seq<Info>) {
    forall x {:trigger x in items} :: x in items ==> x.page < |info| && info[x.page] == Info(x.key, x.hash)
  }

  method NewBuckets(k: nat, ghost ideal: nat, ghost next: seq<int>, ghost prev: seq<int>)
    returns (a: array<Head>, ghost bs: seq<Bucket>)
    requires |next| == |prev|
    ensures fresh(a) && Hashed(bs, k, {}) && Excess(bs, ideal) == 0 && Hung(a[..], bs, next, prev)
    ensures Weighed(bs, ideal) && forall n :: 0 <= n < |bs| ==> bs[n].count == 0
  {
    a := new Head[Pow2(k)](_ => Head(NULL, 0, 0));
    bs := seq(Pow2(k), _ => Bucket([], 0, 0));
    EmptyHashed(bs, k);
    EmptyExcess(bs, ideal);
  }

  // ----------------------------------------------------------------- the table

  lemma AppendPlaced(items: seq<Item>, x: Item)
    requires OnePlace(SetOf(items)) && x.page !in Nodes(items)
    ensures OnePlace(SetOf(items + [x])) && x !in items && Nodes(items + [x]) == Nodes(items) + [x.page]
    ensures SetOf(items + [x]) == SetOf(items) + {x}
  {
    NodeOf(items, x.page);
    assert SetOf(items + [x]) == SetOf(items) + {x};
    assert forall y :: y in SetOf(items) ==> y in items;
  }

  lemma FiledOne(items: seq<Item>, info: seq<Info>, info': seq<Info>, x: Item)
    requires Filed(items, info) && x.page < |info| && x.page !in Nodes(items)
      && info' == info[x.page := Info(x.key, x.hash)]
    ensures Filed(items + [x], info')
  {
    NodeOf(items, x.page);
  }

  lemma LastOut(items: seq<Item>, x: Item)
    requires x !in items
    ensures SetOf(items + [x]) - {x} == SetOf(items)
  {
  }

  /** A page without neighbours is the only one. */
  lemma Alone(next: seq<int>, prev: seq<int>, s: seq<nat>, k: nat)
    requires Linked(next, prev, s, First(s), Last(s)) && k < |s| && |next| == |prev|
    ensures s[k] < |next| && (prev[s[k]] == NULL && next[s[k]] == NULL <==> |s| == 1)
  {
    Neighbours(next, prev, s, k);
  }

  /** What the table needs to know of its items without one of them. */
  ghost predicate WellWithout(items: seq<Item>, hash: nat -> nat, x: Item, k: nat, info: seq<Info>) {
    var rest := Without(items, x);
    && OnePlace(SetOf(rest)) && Keyed(rest, hash) && Filed(rest, info) && k < |items|
    && |rest| == |items| - 1 && SetOf(rest) == SetOf(items) - {x} && Nodes(rest) == Removed(Nodes(items), k)
  }

  lemma WithoutIsWell(items: seq<Item>, hash: nat -> nat, x: Item, k: nat, info: seq<Info>)
    requires OnePlace(SetOf(items)) && Keyed(items, hash) && Filed(items, info) && k < |items| && x == items[k]
    ensures WellWithout(items, hash, x, k, info)
  {
    KeyedNoDup(items, hash);
    WithoutKeyed(items, hash, x);
    WithoutFacts(items, x);
    WithoutAt(items, k);
  }

  // ------------------------------------------------------------ rearrangement

  ghost function ItemOf(items: seq<Item>, a: nat): (x: Item)
    requires a in Nodes(items)
    ensures x in items && x.page == a
  {
    NodeOf(items, a);
    var x :| x in items && x.page == a;
    x
  }

  ghost predicate Rearranges(order: seq<nat>, items: seq<Item>) {
    NoDup(order) && |order| == |items| && (forall a :: a in order <==> a in Nodes(items))
  }

  /** The same items in another order. */
  ghost function Arranged(items: seq<Item>, order: seq<nat>): (r: seq<Item>)
    requires Rearranges(order, items)
    ensures Nodes(r) == order && forall i :: 0 <= i < |r| ==> r[i] in items
  {
    seq(|order|, i requires 0 <= i < |order| => ItemOf(items, order[i]))
  }

  lemma ArrangedSet(items: seq<Item>, order: seq<nat>)
    requires Rearranges(order, items) && OnePlace(SetOf(items))
    ensures forall x :: x in Arranged(items, order) <==> x in items
  {
    var r := Arranged(items, order);
    forall x | x in items ensures x in r {
      NodeOf(items, x.page);
      var i :| 0 <= i < |order| && order[i] == x.page;
      assert Nodes(r)[i] == r[i].page && r[i] in SetOf(items) && x in SetOf(items);
    }
  }

  lemma ArrangedKeyed(items: seq<Item>, order: seq<nat>, hash: nat -> nat)
    requires Rearranges(order, items) && Keyed(items, hash)
    ensures Keyed(Arranged(items, order), hash)
  {
    var r := Arranged(items, order);
    forall i, j | 0 <= i < j < |r| ensures r[i].key != r[j].key {
      assert Nodes(r)[i] != Nodes(r)[j] && r[i] in items && r[j] in items;
      SameKey(items, hash, r[i], r[j]);
    }
  }

  /** The map does not depend on the order of the items. */
  lemma SamePages(items: seq<Item>, r: seq<Item>, hash: nat -> nat)
    requires Keyed(items, hash) && Keyed(r, hash) && forall x :: x in r <==> x in items
    ensures PagesOf(r) == PagesOf(items)
  {
    forall k | k in PagesOf(r) ensures k in PagesOf(items) && PagesOf(items)[k] == PagesOf(r)[k] {
      PagesOfLess(items, r, hash, k);
    }
    forall k | k in PagesOf(items) ensures k in PagesOf(r) { PagesOfLess(r, items, hash, k); }
  }

  lemma ArrangedPages(items: seq<Item>, order: seq<nat>, hash: nat -> nat)
    requires Rearranges(order, items) && Keyed(items, hash) && OnePlace(SetOf(items))
    ensures PagesOf(Arranged(items, order)) == PagesOf(items)
  {
    ArrangedKeyed(items, order, hash);
    ArrangedSet(items, order);
    SamePages(items, Arranged(items, order), hash);
  }

  /** What the table needs to know of its items in another order. */
  ghost predicate WellArranged(items: seq<Item>, order: seq<nat>, hash: nat -> nat, info: seq<Info>) {
    && Rearranges(order, items)
    && var r := Arranged(items, order); Keyed(r, hash) && SetOf(r) == SetOf(items) && Filed(r, info) && |r| == |items|
  }

  lemma ArrangedIsWell(items: seq<Item>, order: seq<nat>, hash: nat -> nat, info: seq<Info>)
    requires Rearranges(order, items) && OnePlace(SetOf(items)) && Keyed(items, hash) && Filed(items, info)
    ensures WellArranged(items, order, hash, info)
  {
    ArrangedKeyed(items, order, hash);
    ArrangedSet(items, order);
  }

  lemma SortRearranges(items: seq<Item>, cmp: MergeSort.Compare)
    requires NoDup(MergeSort.SortFrom(Nodes(items), 1, cmp))
    ensures Rearranges(MergeSort.SortFrom(Nodes(items), 1, cmp), items)
  {
    var (s, r) := (Nodes(items), MergeSort.SortFrom(Nodes(items), 1, cmp));
    MergeSort.SortElements(s, 1, cmp);
    assert |multiset(r)| == |r| && |multiset(s)| == |s|;
    assert forall a :: (a in r <==> a in multiset(r)) && (a in s <==> a in multiset(s));
  }

  class HashTable {
    const hash: nat -> nat
    /** The links of the list and of the chains, and the rest of each page's handle. */
    const next: array<int>
    const prev: array<int>
    const hhNext: array<int>
    const hhPrev: array<int>
    const info: array<Info>
    /** There is no table while `head` is null. */
    var head: int
    var tail: int
    var heads: array<Head>
    var log2: nat
    var numItems: nat
    var ideal: nat
    var nonideal: nat
    var ineffective: nat
    var noexpand: bool
    /** The items in the order of the list, and the chains. */
    ghost var items: seq<Item>
    ghost var bs: seq<Bucket>

    ghost predicate Arrays() {
      && next != prev && next != hhNext && next != hhPrev && prev != hhNext && prev != hhPrev && hhNext != hhPrev
      && next.Length == prev.Length == hhNext.Length == hhPrev.Length == info.Length
    }

    ghost predicate Chains()
      reads `items, `bs, `log2, `heads, heads, hhNext, hhPrev
    {
      Hashed(bs, log2, SetOf(items)) && Hung(heads[..], bs, hhNext[..], hhPrev[..])
    }

    /** Every page is one item, and its handle says so. */
    ghost predicate Named()
      reads `items, info
    {
      Keyed(items, hash) && OnePlace(SetOf(items)) && Filed(items, info[..])
    }

    /** The list is that of the items. */
    ghost predicate Listed()
      reads `items, `head, `tail, next, prev
    {
      head == First(Nodes(items)) && (items != [] ==> Linked(next[..], prev[..], Nodes(items), head, tail))
    }

    ghost predicate Valid()
      reads this, next, prev, hhNext, hhPrev, info, heads
    {
      Arrays() && Named() && Listed() && (items != [] ==> Chains() && numItems == |items|)
    }

    constructor (hash: nat -> nat, pages: nat)
      ensures Valid() && items == [] && this.hash == hash && info.Length == pages
      ensures fresh(heads) && fresh(next) && fresh(prev) && fresh(hhNext) && fresh(hhPrev) && fresh(info)
    {
      this.hash := hash;
      next, prev := new int[pages], new int[pages];
      hhNext, hhPrev, info := new int[pages], new int[pages], new Info[pages](_ => Info(0, 0));
      head, tail, heads := NULL, NULL, new Head[0];
      log2, numItems, ideal, nonideal, ineffective, noexpand := 0, 0, 0, 0, 0, false;
      items, bs := [], [];
    }

    /** `HASH_FIND` */
    method Find(va: nat) returns (r: Option<nat>)
      requires Valid()
      ensures r == if va in PagesOf(items) then Some(PagesOf(items)[va]) else None
    {
      if head == NULL { return None; }
      var h := hash(va);
      SlotInRange(h, log2);
      ghost var b := bs[Slot(h, log2)];
      assert ChainAt(heads[..][Slot(h, log2)], b, hhNext[..], hhPrev[..]);
      var p := heads[Slot(h, log2)].first;
      ghost var i := 0;
      while p != NULL
        invariant 0 <= i <= |b.chain| && p == (if i < |b.chain| then b.chain[i].page else NULL)
        invariant forall j :: 0 <= j < i ==> b.chain[j].key != va
        decreases |b.chain| - i
      {
        Met(b, i);
        if info[p].hash == h && info[p].key == va {
          PagesOfHas(items, hash, b.chain[i]);
          return Some(p);
        }
        Neighbours(hhNext[..], hhPrev[..], Nodes(b.chain), i);
        p, i := hhNext[p], i + 1;
      }
      ChainHasKey(bs, log2, items, hash, va);
      return None;
    }

    /** An item of a chain is an item of the table, and its handle says so. */
    lemma Met(b: Bucket, i: nat)
      requires Valid() && b in bs && i < |b.chain| && items != []
      ensures b.chain[i] in items && b.chain[i].page < info.Length
      ensures info[b.chain[i].page] == Info(b.chain[i].key, b.chain[i].hash) && b.chain[i].hash == hash(b.chain[i].key)
    {
      var n :| 0 <= n < |bs| && bs[n] == b;
      assert BucketOk(bs[n], n, log2, SetOf(items)) && b.chain[i] in b.chain;
    }

    /** Link a page in at the head of a chain. */
    method Hang(to: array<Head>, n: nat, e: nat, count: nat, mult: nat)
      requires Arrays() && n < to.Length && e < hhNext.Length && NULL <= to[n].first < hhPrev.Length
      modifies to, hhNext, hhPrev
      ensures to[..] == old(to[..])[n := Head(e, count, mult)]
      ensures hhNext[..] == old(hhNext[..])[e := old(to[n].first)]
      ensures hhPrev[..] == Fronted(old(hhPrev[..]), old(to[n].first), e)
    {
      hhNext[e] := to[n].first;
      hhPrev[e] := NULL;
      if to[n].first != NULL { hhPrev[to[n].first] := e; }
      to[n] := Head(e, count, mult);
    }

    /** Move one page into its chain among twice as many buckets. */
    method Rehash(e: nat, to: array<Head>, ghost x: Item, ghost was: seq<Bucket>, ghost done: set<Item>)
      returns (ghost now: seq<Bucket>)
      requires Arrays() && e == x.page < info.Length && info[e].hash == x.hash && x !in done && OnePlace(done + {x})
      requires Laid(to[..], was, hhNext[..], hhPrev[..], log2 + 1, done, nonideal, ideal)
      modifies to, hhNext, hhPrev, `nonideal
      ensures Laid(to[..], now, hhNext[..], hhPrev[..], log2 + 1, done + {x}, nonideal, ideal)
      ensures Confined(old(hhNext[..]), hhNext[..], [e])
    {
      var n := Slot(info[e].hash, log2 + 1);
      RehashLaid(to[..], was, hhNext[..], hhPrev[..], log2 + 1, done, nonideal, ideal, x);
      now := was[n := Relinked(was[n], x, ideal)];
      var count, mult := Weigh(to[n], e);
      Hang(to, n, e, count, mult);
    }

    /** Count a page into its new bucket. */
    method Weigh(h: Head, e: nat) returns (count: nat, mult: nat)
      modifies `nonideal
      ensures Head(e, count, mult) == HeadWith(h, e, ideal)
      ensures nonideal == if count > ideal then old(nonideal) + 1 else old(nonideal)
    {
      count, mult := h.count + 1, h.mult;
      if count > ideal {
        nonideal := nonideal + 1;
        if count > mult * ideal { mult := mult + 1; }
      }
    }

    /** Move the page at the head of what is left of a chain. */
    method RehashNext(e: nat, to: array<Head>, ghost chain: seq<Item>, ghost j: nat, ghost was: seq<Bucket>,
                      ghost done: set<Item>)
      returns (after: int, ghost now: seq<Bucket>)
      requires Arrays() && Filed(chain, info[..]) && Movable(chain, done) && j < |chain| && e == chain[j].page
      requires Trail(hhNext[..], Nodes(chain[j..]))
      requires Laid(to[..], was, hhNext[..], hhPrev[..], log2 + 1, done + SetOf(chain[..j]), nonideal, ideal)
      modifies to, hhNext, hhPrev, `nonideal
      ensures after == First(Nodes(chain[j + 1..])) && Trail(hhNext[..], Nodes(chain[j + 1..]))
      ensures Laid(to[..], now, hhNext[..], hhPrev[..], log2 + 1, done + SetOf(chain[..j + 1]), nonideal, ideal)
      ensures Confined(old(hhNext[..]), hhNext[..], [e])
    {
      ghost var before := hhNext[..];
      MoveOn(chain, done, j);
      after := hhNext[e];
      now := Rehash(e, to, chain[j], was, done + SetOf(chain[..j]));
      TrailOn(before, hhNext[..], chain, j);
    }

    /** Move the pages of one chain, following links that moving does not disturb. */
    method RehashChain(first: int, to: array<Head>, ghost chain: seq<Item>, ghost was: seq<Bucket>,
                       ghost done: set<Item>)
      returns (ghost now: seq<Bucket>, ghost moved: set<Item>)
      requires Arrays() && Filed(chain, info[..]) && Movable(chain, done)
      requires first == First(Nodes(chain)) && Trail(hhNext[..], Nodes(chain))
      requires Laid(to[..], was, hhNext[..], hhPrev[..], log2 + 1, done, nonideal, ideal)
      modifies to, hhNext, hhPrev, `nonideal
      ensures moved == done + SetOf(chain) && Confined(old(hhNext[..]), hhNext[..], Nodes(chain))
      ensures Laid(to[..], now, hhNext[..], hhPrev[..], log2 + 1, moved, nonideal, ideal)
    {
      var p := first;
      ghost var j := 0;
      now, moved := was, done;
      assert done + SetOf(chain[..0]) == done && chain[0..] == chain;
      while p != NULL
        modifies to, hhNext, hhPrev, `nonideal
        invariant 0 <= j <= |chain| && p == First(Nodes(chain[j..])) && Trail(hhNext[..], Nodes(chain[j..]))
        invariant moved == done + SetOf(chain[..j])
        invariant Laid(to[..], now, hhNext[..], hhPrev[..], log2 + 1, moved, nonideal, ideal)
        invariant Confined(old(hhNext[..]), hhNext[..], Nodes(chain))
        decreases |chain| - j
      {
        assert Nodes(chain)[j] == p;
        p, now := RehashNext(p, to, chain, j, now, done);
        j := j + 1;
        moved := done + SetOf(chain[..j]);
      }
      AllMoved(chain, j);
    }

    method RehashBucket(i: nat, to: array<Head>, ghost was: seq<Bucket>, ghost done: set<Item>)
      returns (ghost now: seq<Bucket>, ghost moved: set<Item>)
      requires Arrays() && OnePlace(SetOf(items)) && Filed(items, info[..]) && to != heads
      requires Hashed(bs, log2, SetOf(items)) && i < |bs| && ToMove(heads[..], bs, hhNext[..], i)
      requires done == Below(SetOf(items), log2, i)
      requires Laid(to[..], was, hhNext[..], hhPrev[..], log2 + 1, done, nonideal, ideal)
      modifies to, hhNext, hhPrev, `nonideal
      ensures ToMove(heads[..], bs, hhNext[..], i + 1) && moved == Below(SetOf(items), log2, i + 1)
      ensures Laid(to[..], now, hhNext[..], hhPrev[..], log2 + 1, moved, nonideal, ideal)
    {
      ghost var before := hhNext[..];
      ChainMovable(bs, log2, items, info[..], i);
      now, moved := RehashChain(heads[i].first, to, bs[i].chain, was, done);
      OthersToMove(heads[..], bs, before, hhNext[..], log2, SetOf(items), i);
    }

    /** The two loops of `HASH_EXPAND_BUCKETS` move every page. */
    method RehashAll(to: array<Head>, ghost was: seq<Bucket>) returns (ghost now: seq<Bucket>, ghost moved: set<Item>)
      requires Arrays() && OnePlace(SetOf(items)) && Filed(items, info[..]) && to != heads
      requires Hashed(bs, log2, SetOf(items)) && ToMove(heads[..], bs, hhNext[..], 0)
      requires Laid(to[..], was, hhNext[..], hhPrev[..], log2 + 1, {}, nonideal, ideal)
      modifies to, hhNext, hhPrev, `nonideal
      ensures Laid(to[..], now, hhNext[..], hhPrev[..], log2 + 1, moved, nonideal, ideal) && moved == SetOf(items)
    {
      now, moved := was, {};
      NoneBelow(SetOf(items), log2);
      for i := 0 to heads.Length
        modifies to, hhNext, hhPrev, `nonideal
        invariant ToMove(heads[..], bs, hhNext[..], i) && moved == Below(SetOf(items), log2, i)
        invariant Laid(to[..], now, hhNext[..], hhPrev[..], log2 + 1, moved, nonideal, ideal)
      {
        now, moved := RehashBucket(i, to, now, moved);
      }
      AllBelow(SetOf(items), log2);
    }

    /** New buckets, twice as many, with every page in its chain. */
    method Double() returns (to: array<Head>, ghost now: seq<Bucket>)
      requires Arrays() && Chains() && OnePlace(SetOf(items)) && Filed(items, info[..]) && nonideal == 0
      modifies hhNext, hhPrev, `nonideal
      ensures fresh(to) && Laid(to[..], now, hhNext[..], hhPrev[..], log2 + 1, SetOf(items), nonideal, ideal)
    {
      AllToMove(heads[..], bs, hhNext[..], hhPrev[..]);
      to, now := NewBuckets(log2 + 1, ideal, hhNext[..], hhPrev[..]);
      ghost var moved;
      now, moved := RehashAll(to, now);
    }

    /** The doubled table replaces the old one. */
    method Replace()
      requires Arrays() && Chains() && OnePlace(SetOf(items)) && Filed(items, info[..]) && nonideal == 0
      modifies `heads, `log2, `bs, `nonideal, hhNext, hhPrev
      ensures log2 == old(log2) + 1 && fresh(heads) && Chains() && nonideal == Excess(bs, ideal) && Weighed(bs, ideal)
    {
      heads, bs := Double();
      log2 := log2 + 1;
    }

    method Aim()
      modifies `ideal, `nonideal
      ensures ideal == IdealLength(numItems, log2 + 1) && nonideal == 0
    {
      ideal := IdealLength(numItems, log2 + 1);
      nonideal := 0;
    }

    /** `HASH_EXPAND_BUCKETS` */
    method Expand()
      requires Arrays() && Chains() && OnePlace(SetOf(items)) && Filed(items, info[..])
      modifies `heads, `log2, `bs, `ideal, `nonideal, `ineffective, `noexpand, hhNext, hhPrev
      ensures log2 == old(log2) + 1 && fresh(heads) && Chains()
      ensures ideal == IdealLength(numItems, log2) && nonideal == Excess(bs, ideal) && Weighed(bs, ideal)
      ensures ineffective == (if nonideal > numItems / 2 then old(ineffective) + 1 else 0)
      ensures noexpand == (old(noexpand) || ineffective > 1)
    {
      Aim();
      Replace();
      Judge();
    }

    /** Two ineffective doublings in a row are the last. */
    method Judge()
      modifies `ineffective, `noexpand
      ensures ineffective == (if nonideal > numItems / 2 then old(ineffective) + 1 else 0)
      ensures noexpand == (old(noexpand) || ineffective > 1)
    {
      ineffective := if nonideal > numItems / 2 then ineffective + 1 else 0;
      if ineffective > 1 { noexpand := true; }
    }

    /** `HASH_MAKE_TABLE` */
    method MakeTable(e: nat, k: nat)
      requires Arrays()
      modifies `heads, `log2, `bs, `numItems, `ideal, `nonideal, `ineffective, `noexpand, `tail
      ensures tail == e && numItems == 0 && !noexpand && fresh(heads) && log2 == k
      ensures forall n :: 0 <= n < |bs| ==> bs[n].count == 0
      ensures Hashed(bs, k, {}) && Hung(heads[..], bs, hhNext[..], hhPrev[..])
    {
      numItems, ideal, nonideal, ineffective, noexpand, tail, log2 := 0, 0, 0, 0, false, e, k;
      var to; ghost var now;
      to, now := NewBuckets(k, 0, hhNext[..], hhPrev[..]);
      heads, bs := to, now;
    }

    /** `HASH_ADD_TO_BKT`: the chain grows at its head, and may trigger a doubling. */
    method Chain(e: nat, ghost x: Item)
      requires Arrays() && OnePlace(SetOf(items)) && Filed(items, info[..]) && x in items && x.page == e
      requires Hashed(bs, log2, SetOf(items) - {x}) && Hung(heads[..], bs, hhNext[..], hhPrev[..])
      modifies `heads, `log2, `bs, `numItems, `ideal, `nonideal, `ineffective, `noexpand, heads, hhNext, hhPrev
      ensures numItems == old(numItems) + 1 && (heads == old(heads) || fresh(heads)) && Chains()
      ensures log2 == old(log2) + if Doubles(old(bs), old(log2), old(noexpand), x.hash) then 1 else 0
    {
      numItems := numItems + 1;
      var long := Push(e, x);
      if long && !noexpand { Expand(); }
    }

    /** The page at the head of its chain; whether the chain is now too long. */
    method Push(e: nat, ghost x: Item) returns (long: bool)
      requires Arrays() && OnePlace(SetOf(items)) && Filed(items, info[..]) && x in items && x.page == e
      requires Hashed(bs, log2, SetOf(items) - {x}) && Hung(heads[..], bs, hhNext[..], hhPrev[..])
      modifies `bs, heads, hhNext, hhPrev
      ensures Chains() && (long <==> Doubles(old(bs), log2, false, x.hash))
    {
      PushedOn(heads[..], bs, hhNext[..], hhPrev[..], log2, items, x);
      var n := Slot(info[e].hash, log2);
      var h := heads[n];
      bs := bs[n := Pushed(bs[n], x)];
      Hang(heads, n, e, h.count + 1, h.mult);
      long := h.count + 1 >= (h.mult + 1) * CAPACITY;
    }

    /** `HASH_APPEND_LIST` */
    method Append(e: nat, ghost s: seq<nat>)
      requires Arrays() && Linked(next[..], prev[..], s, head, tail) && s != [] && e < next.Length && e !in s
      modifies next, prev, `tail
      ensures Linked(next[..], prev[..], s + [e], head, tail)
    {
      AppendLinks(next[..], prev[..], s, e);
      next[e] := NULL;
      prev[e] := tail;
      next[tail] := e;
      tail := e;
    }

    /** The list of one page. */
    method Begin(e: nat)
      requires Arrays() && e < next.Length
      modifies next, prev, `head
      ensures head == e && Linked(next[..], prev[..], [e], e, e)
    {
      next[e], prev[e] := NULL, NULL;
      head := e;
    }

    /** The first page and the table with it. */
    method Found(e: nat)
      requires Arrays() && e < next.Length && items == []
      modifies `heads, `log2, `bs, `numItems, `ideal, `nonideal, `ineffective, `noexpand, `head, `tail, next, prev
      ensures Linked(next[..], prev[..], [e], head, tail) && Chains() && numItems == 0 && fresh(heads)
      ensures log2 == 21 && forall n :: 0 <= n < |bs| ==> bs[n].count == 0
    {
      Begin(e);
      MakeTable(e, INITIAL_LOG2);
      assert SetOf(items) == {};
    }

    /** A page joins the list; with the first one comes the table. */
    method Enlist(e: nat)
      requires Valid() && e < next.Length && e !in Nodes(items)
      modifies `heads, `log2, `bs, `numItems, `ideal, `nonideal, `ineffective, `noexpand, `head, `tail, next, prev
      ensures Linked(next[..], prev[..], Nodes(items) + [e], head, tail) && (heads == old(heads) || fresh(heads))
      ensures Chains() && numItems == |items|
      ensures old(items) != [] ==> bs == old(bs) && log2 == old(log2) && noexpand == old(noexpand)
      ensures old(items) == [] ==> log2 == 21 && forall n :: 0 <= n < |bs| ==> bs[n].count == 0
    {
      if head == NULL {
        Found(e);
      } else {
        Append(e, Nodes(items));
      }
    }

    /** The handle is filled in, and the page joins the list. */
    method Enter(va: nat, page: nat)
      requires Valid() && page < info.Length && page !in Nodes(items)
      modifies `heads, `log2, `bs, `numItems, `ideal, `nonideal, `ineffective, `noexpand, `head, `tail, next, prev, info
      ensures Linked(next[..], prev[..], Nodes(items) + [page], head, tail) && (heads == old(heads) || fresh(heads))
      ensures Chains() && numItems == |items| && Filed(items + [Item(va, page, hash(va))], info[..])
      ensures old(items) != [] ==> bs == old(bs) && log2 == old(log2) && noexpand == old(noexpand)
      ensures old(items) == [] ==> log2 == 21 && forall n :: 0 <= n < |bs| ==> bs[n].count == 0
    {
      ghost var (x, before) := (Item(va, page, hash(va)), info[..]);
      Enlist(page);
      info[page] := Info(va, hash(va));
      FiledOne(items, before, info[..], x);
    }

    /** `add_page`: a page whose address is not yet in the table, nor is the page. */
    method Add(va: nat, page: nat)
      requires Valid() && va !in PagesOf(items) && page < info.Length && page !in Nodes(items)
      modifies this, next, prev, hhNext, hhPrev, info, heads
      ensures Valid() && items == old(items) + [Item(va, page, hash(va))] && (heads == old(heads) || fresh(heads))
      ensures PagesOf(items) == old(PagesOf(items))[va := page]
      ensures old(items) == [] ==> log2 == 21
      ensures old(items) != [] ==>
        log2 == old(log2) + if Doubles(old(bs), old(log2), old(noexpand), hash(va)) then 1 else 0
    {
      ghost var x := Item(va, page, hash(va));
      AppendKeyed(items, hash, x);
      Register(va, page, x);
      Attach(page, x);
    }

    /** The page is named and listed. */
    method Register(va: nat, page: nat, ghost x: Item)
      requires Valid() && page < info.Length && page !in Nodes(items) && x == Item(va, page, hash(va))
      requires Keyed(items + [x], hash)
      modifies `heads, `log2, `bs, `numItems, `ideal, `nonideal, `ineffective, `noexpand, `head, `tail, `items
      modifies next, prev, info
      ensures items == old(items) + [x] && Named() && Listed() && numItems + 1 == |items|
      ensures Hashed(bs, log2, SetOf(items) - {x}) && Hung(heads[..], bs, hhNext[..], hhPrev[..])
      ensures heads == old(heads) || fresh(heads)
      ensures old(items) != [] ==> bs == old(bs) && log2 == old(log2) && noexpand == old(noexpand)
      ensures old(items) == [] ==> log2 == 21 && forall n :: 0 <= n < |bs| ==> bs[n].count == 0
    {
      AppendPlaced(items, x);
      Enter(va, page);
      LastOut(items, x);
      items := items + [x];
    }

    /** A page that is named and listed joins its chain. */
    method Attach(e: nat, ghost x: Item)
      requires Arrays() && Named() && Listed() && x in items && x.page == e && numItems + 1 == |items|
      requires Hashed(bs, log2, SetOf(items) - {x}) && Hung(heads[..], bs, hhNext[..], hhPrev[..])
      modifies `heads, `log2, `bs, `numItems, `ideal, `nonideal, `ineffective, `noexpand, heads, hhNext, hhPrev
      ensures Valid() && (heads == old(heads) || fresh(heads))
      ensures log2 == old(log2) + if Doubles(old(bs), old(log2), old(noexpand), x.hash) then 1 else 0
    {
      Chain(e, x);
    }

    /** `HASH_DELETE_HH` on the list. */
    method Unlink(e: nat, ghost s: seq<nat>, ghost k: nat)
      requires Arrays() && Linked(next[..], prev[..], s, head, tail) && k < |s| && s[k] == e
      modifies next, prev, `head, `tail
      ensures Linked(next[..], prev[..], Removed(s, k), head, tail)
    {
      UnlinkLinks(next[..], prev[..], s, k);
      UnlinkEnds(next[..], prev[..], s, k);
      var before, after := prev[e], next[e];
      if e == tail { tail := before; }
      if before != NULL { next[before] := after; } else { head := after; }
      if after != NULL { prev[after] := before; }
    }

    /** `HASH_DEL_IN_BKT` */
    method Unhang(n: nat, e: nat)
      requires Arrays() && n < heads.Length && heads[n].count > 0 && Between(hhNext[..], hhPrev[..], e)
      modifies heads, hhNext, hhPrev
      ensures heads[..] == old(heads[..])[n := HeadWithout(old(heads[n]), e, old(hhNext[e]))]
      ensures hhNext[..] == Bridged(old(hhNext[..]), old(hhPrev[e]), old(hhNext[e]))
      ensures hhPrev[..] == Bridged(old(hhPrev[..]), old(hhNext[e]), old(hhPrev[e]))
    {
      var before, after := hhPrev[e], hhNext[e];
      heads[n] := Head(if heads[n].first == e then after else heads[n].first, heads[n].count - 1, heads[n].mult);
      if before != NULL { hhNext[before] := after; }
      if after != NULL { hhPrev[after] := before; }
    }

    /** A page leaves its chain. */
    method Unchain(e: nat, ghost x: Item)
      requires Arrays() && Chains() && OnePlace(SetOf(items)) && Filed(items, info[..]) && x in items && x.page == e
      modifies `bs, heads, hhNext, hhPrev
      ensures Hashed(bs, log2, SetOf(items) - {x}) && Hung(heads[..], bs, hhNext[..], hhPrev[..])
    {
      assert x in SetOf(items);
      DropHashed(bs, log2, SetOf(items), x);
      HangDrop(heads[..], bs, hhNext[..], hhPrev[..], log2, SetOf(items), x);
      var n := Slot(info[e].hash, log2);
      bs := bs[n := Dropped(bs[n], x)];
      Unhang(n, e);
    }

    /** A page leaves the list and its chain. */
    method Detach(e: nat, ghost x: Item, ghost k: nat)
      requires Valid() && k < |items| && items[k] == x && x.page == e
      modifies `bs, `head, `tail, `numItems, next, prev, hhNext, hhPrev, heads
      ensures Linked(next[..], prev[..], Removed(Nodes(items), k), head, tail) && numItems == |items| - 1
      ensures Hashed(bs, log2, SetOf(items) - {x}) && Hung(heads[..], bs, hhNext[..], hhPrev[..])
    {
      Unlink(e, Nodes(items), k);
      numItems := numItems - 1;
      Unchain(e, x);
    }

    /** What is left is a table without the page. */
    method Drop(e: nat, ghost x: Item, ghost k: nat)
      requires Valid() && k < |items| && items[k] == x && x.page == e && |items| > 1
      requires WellWithout(items, hash, x, k, info[..])
      modifies `bs, `head, `tail, `numItems, `items, next, prev, hhNext, hhPrev, heads
      ensures Valid() && items == Without(old(items), x)
    {
      Detach(e, x, k);
      items := Without(items, x);
    }

    /** `HASH_DELETE_HH` */
    method Delete(e: nat, ghost x: Item)
      requires Valid() && x in items && x.page == e
      modifies `bs, `head, `tail, `numItems, `items, next, prev, hhNext, hhPrev, heads
      ensures Valid() && items == Without(old(items), x)
    {
      ghost var k :| 0 <= k < |items| && items[k] == x;
      WithoutIsWell(items, hash, x, k, info[..]);
      Alone(next[..], prev[..], Nodes(items), k);
      if prev[e] == NULL && next[e] == NULL {
        head, items := NULL, [];
      } else {
        Drop(e, x, k);
      }
    }

    /** `remove_page`: a page of the table; with the last one the table goes too. */
    method Remove(e: nat, ghost x: Item)
      requires Valid() && x in items && x.page == e
      modifies `bs, `head, `tail, `numItems, `items, next, prev, hhNext, hhPrev, heads
      ensures Valid() && items == Without(old(items), x)
      ensures PagesOf(items) == old(PagesOf(items)) - {x.key}
    {
      PagesOfWithout(items, hash, x);
      Delete(e, x);
    }

    method SortList(cmp: MergeSort.Compare)
      requires Arrays() && Linked(next[..], prev[..], Nodes(items), head, tail)
      modifies `head, `tail, next, prev
      ensures Linked(next[..], prev[..], MergeSort.SortFrom(Nodes(items), 1, cmp), head, tail)
    {
      var list := new MergeSort.ItemList(cmp, next, prev, head, tail);
      list.Sort(Nodes(items));
      head, tail := list.head, list.tail;
    }

    /** The items follow the list. */
    method Arrange(ghost order: seq<nat>)
      requires Arrays() && OnePlace(SetOf(items)) && items != [] && Chains() && numItems == |items|
      requires Linked(next[..], prev[..], order, head, tail) && WellArranged(items, order, hash, info[..])
      modifies `items
      ensures Valid() && items == Arranged(old(items), order)
    {
      items := Arranged(items, order);
    }

    /** The list is sorted, and the items with it. */
    method SortItems(cmp: MergeSort.Compare)
      requires Valid() && items != []
      modifies `head, `tail, `items, next, prev
      ensures Valid()
      ensures var order := MergeSort.SortFrom(old(Nodes(items)), 1, cmp);
        Rearranges(order, old(items)) && items == Arranged(old(items), order)
    {
      ghost var order := MergeSort.SortFrom(Nodes(items), 1, cmp);
      SortList(cmp);
      SortRearranges(items, cmp);
      ArrangedIsWell(items, order, hash, info[..]);
      Arrange(order);
    }

    /** `HASH_SRT`: the list is sorted, and every lookup is what it was. */
    method Sort(cmp: MergeSort.Compare)
      requires Valid()
      modifies `head, `tail, `items, next, prev
      ensures Valid() && Nodes(items) == MergeSort.SortFrom(old(Nodes(items)), 1, cmp)
      ensures PagesOf(items) == old(PagesOf(items))
    {
      if head == NULL { return; }
      ghost var (was, order) := (items, MergeSort.SortFrom(Nodes(items), 1, cmp));
      SortItems(cmp);
      ArrangedPages(was, order, hash);
    }
  }
}
