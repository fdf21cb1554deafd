/** The in-place sort of the hash table's list: a bottom-up merge sort over intrusive links.
    The functional form comes first, with its correctness; the linked form then refines it.
    Items are numbered nodes and the comparison is any function of two of them. */
module MergeSort {
  import opened Links

  type Compare = (nat, nat) -> int

  // -------------------------------------------------------- functional form

  function Merge(x: seq<nat>, y: seq<nat>, cmp: Compare): seq<nat>
    decreases |x| + |y|
  {
    if x == [] then y
    else if y == [] then x
    else if cmp(x[0], y[0]) <= 0 then [x[0]] + Merge(x[1..], y, cmp)
    else [y[0]] + Merge(x, y[1..], cmp)
  }

  function Take(s: seq<nat>, n: nat): (r: seq<nat>)
    ensures r <= s && |r| <= n
  {
    if n < |s| then s[..n] else s
  }

  function Skip(s: seq<nat>, n: nat): (r: seq<nat>)
    ensures Take(s, n) + r == s
  {
    if n < |s| then s[n..] else []
  }

  /** One pass merges the runs of length `w` two by two. */
  function Pass(s: seq<nat>, w: nat, cmp: Compare): (r: seq<nat>)
    requires w > 0
    decreases |s|
  {
    if s == [] then []
    else
      var rest := Skip(s, w);
      Merge(Take(s, w), Take(rest, w), cmp) + Pass(Skip(rest, w), w, cmp)
  }

  lemma {:induction false} MergeElements(x: seq<nat>, y: seq<nat>, cmp: Compare)
    ensures multiset(Merge(x, y, cmp)) == multiset(x) + multiset(y)
    decreases |x| + |y|
  {
    if x != [] && y != [] {
      if cmp(x[0], y[0]) <= 0 {
        MergeElements(x[1..], y, cmp);
        FirstOut(x, multiset(y), Merge(x[1..], y, cmp));
      } else {
        MergeElements(x, y[1..], cmp);
        FirstOut(y, multiset(x), Merge(x, y[1..], cmp));
      }
    }
  }

  lemma FirstOut(x: seq<nat>, others: multiset<nat>, rest: seq<nat>)
    requires x != [] && multiset(rest) == multiset(x[1..]) + others
    ensures multiset([x[0]] + rest) == multiset(x) + others
  {
    assert x == [x[0]] + x[1..];
    Elements(x[0], x[1..]);
    Elements(x[0], rest);
  }

  lemma Elements(a: nat, s: seq<nat>)
    ensures multiset([a] + s) == multiset{a} + multiset(s)
  {
  }

  lemma {:induction false} PassElements(s: seq<nat>, w: nat, cmp: Compare)
    requires w > 0
    ensures multiset(Pass(s, w, cmp)) == multiset(s) && |Pass(s, w, cmp)| == |s|
    decreases |s|
  {
    if s != [] {
      var rest := Skip(s, w);
      MergeElements(Take(s, w), Take(rest, w), cmp);
      PassElements(Skip(rest, w), w, cmp);
      assert s == Take(s, w) + (Take(rest, w) + Skip(rest, w));
    }
    assert |multiset(Pass(s, w, cmp))| == |Pass(s, w, cmp)| && |multiset(s)| == |s|;
  }

  /** Passes with doubling runs, until one pass makes a single merge. */
  function SortFrom(s: seq<nat>, w: nat, cmp: Compare): seq<nat>
    requires w > 0
    decreases if w < |s| then |s| - w else 0
  {
    PassElements(s, w, cmp);
    var r := Pass(s, w, cmp);
    if |s| <= 2 * w then r else SortFrom(r, 2 * w, cmp)
  }

  /** Whatever the comparison says, the sort returns the same elements. */
  lemma {:induction false} SortElements(s: seq<nat>, w: nat, cmp: Compare)
    requires w > 0
    ensures multiset(SortFrom(s, w, cmp)) == multiset(s)
    decreases if w < |s| then |s| - w else 0
  {
    PassElements(s, w, cmp);
    if |s| > 2 * w { SortElements(Pass(s, w, cmp), 2 * w, cmp); }
  }

  // ------------------------------------------------------------ stable order

  ghost predicate TotalPreorder(cmp: Compare) {
    && (forall a, b :: cmp(a, b) <= 0 || cmp(b, a) <= 0)
    && (forall a, b, c :: cmp(a, b) <= 0 && cmp(b, c) <= 0 ==> cmp(a, c) <= 0)
  }

  /** `a` goes before `b`: it is smaller, or as small and came first. */
  ghost predicate Before(a: nat, b: nat, cmp: Compare, rank: nat -> int) {
    cmp(a, b) <= 0 && (cmp(b, a) <= 0 ==> rank(a) < rank(b))
  }

  ghost predicate Stable(s: seq<nat>, cmp: Compare, rank: nat -> int) {
    forall i, j :: 0 <= i < j < |s| ==> Before(s[i], s[j], cmp, rank)
  }

  /** Everything in `x` came before everything in `y`. */
  ghost predicate Ahead(x: seq<nat>, y: seq<nat>, rank: nat -> int) {
    forall a, b :: a in x && b in y ==> rank(a) < rank(b)
  }

  lemma PrependStable(e: nat, s: seq<nat>, cmp: Compare, rank: nat -> int)
    requires Stable(s, cmp, rank) && forall b :: b in s ==> Before(e, b, cmp, rank)
    ensures Stable([e] + s, cmp, rank)
  {
  }

  /** Merging two stable runs, the first of which came first, gives a stable run. */
  lemma {:induction false} MergeStable(x: seq<nat>, y: seq<nat>, cmp: Compare, rank: nat -> int)
    requires TotalPreorder(cmp) && Stable(x, cmp, rank) && Stable(y, cmp, rank) && Ahead(x, y, rank)
    ensures Stable(Merge(x, y, cmp), cmp, rank)
    decreases |x| + |y|
  {
    if x != [] && y != [] {
      if cmp(x[0], y[0]) <= 0 {
        MergeStable(x[1..], y, cmp, rank);
        MergeHead(x[0], x[1..], y, cmp, rank, y[0]);
        PrependStable(x[0], Merge(x[1..], y, cmp), cmp, rank);
      } else {
        MergeStable(x, y[1..], cmp, rank);
        MergeHead(y[0], x, y[1..], cmp, rank, x[0]);
        PrependStable(y[0], Merge(x, y[1..], cmp), cmp, rank);
      }
    }
  }

  /** An element before the other head is before all that is left. */
  lemma MergeHead(e: nat, x: seq<nat>, y: seq<nat>, cmp: Compare, rank: nat -> int, other: nat)
    requires TotalPreorder(cmp) && Before(e, other, cmp, rank)
    requires forall b :: b in x ==> b == other || Before(e, b, cmp, rank) || Before(other, b, cmp, rank)
    requires forall b :: b in y ==> b == other || Before(e, b, cmp, rank) || Before(other, b, cmp, rank)
    ensures forall b :: b in Merge(x, y, cmp) ==> Before(e, b, cmp, rank)
  {
  }

  // ------------------------------------------------------------------- passes

  /** Stable runs of length `w`, each of which came before those after it. */
  ghost predicate Runs(s: seq<nat>, w: nat, cmp: Compare, rank: nat -> int)
    requires w > 0
    decreases |s|
  {
    s == []
    || (Stable(Take(s, w), cmp, rank) && Ahead(Take(s, w), Skip(s, w), rank) && Runs(Skip(s, w), w, cmp, rank))
  }

  lemma SplitAt(a: seq<nat>, b: seq<nat>, n: nat)
    requires |a| == n || (|a| <= n && b == [])
    ensures Take(a + b, n) == a && Skip(a + b, n) == b
  {
  }

  /** A pass doubles the length of the runs. */
  lemma {:induction false} PassDoubles(s: seq<nat>, w: nat, cmp: Compare, rank: nat -> int)
    requires w > 0 && TotalPreorder(cmp) && Runs(s, w, cmp, rank)
    ensures Runs(Pass(s, w, cmp), 2 * w, cmp, rank)
    decreases |s|
  {
    if s != [] {
      var (a, rest) := (Take(s, w), Skip(s, w));
      var (b, c) := (Take(rest, w), Skip(rest, w));
      var (m, r) := (Merge(a, b, cmp), Pass(c, w, cmp));
      assert Stable(b, cmp, rank) && Ahead(b, c, rank) && Runs(c, w, cmp, rank);
      MergeStable(a, b, cmp, rank);
      PassDoubles(c, w, cmp, rank);
      MergeElements(a, b, cmp);
      PassElements(c, w, cmp);
      assert |m| == |multiset(m)| == |a| + |b|;
      SplitAt(m, r, 2 * w);
      RunAhead(a, b, c, m, r, rank);
    }
  }

  lemma RunAhead(a: seq<nat>, b: seq<nat>, c: seq<nat>, m: seq<nat>, r: seq<nat>, rank: nat -> int)
    requires multiset(m) == multiset(a) + multiset(b) && multiset(r) == multiset(c)
    requires Ahead(a, b + c, rank) && Ahead(b, c, rank)
    ensures Ahead(m, r, rank)
  {
    forall x, y | x in m && y in r ensures rank(x) < rank(y) {
      assert x in multiset(m) && y in multiset(r);
      assert (x in a || x in b) && y in c && y in b + c;
    }
  }

  lemma {:induction false} SortFromStable(s: seq<nat>, w: nat, cmp: Compare, rank: nat -> int)
    requires w > 0 && TotalPreorder(cmp) && Runs(s, w, cmp, rank)
    ensures Stable(SortFrom(s, w, cmp), cmp, rank) && multiset(SortFrom(s, w, cmp)) == multiset(s)
    decreases if w < |s| then |s| - w else 0
  {
    PassDoubles(s, w, cmp, rank);
    PassElements(s, w, cmp);
    if |s| > 2 * w { SortFromStable(Pass(s, w, cmp), 2 * w, cmp, rank); }
  }

  ghost predicate Increasing(s: seq<nat>, rank: nat -> int) {
    forall i, j :: 0 <= i < j < |s| ==> rank(s[i]) < rank(s[j])
  }

  lemma {:induction false} SingleRuns(s: seq<nat>, cmp: Compare, rank: nat -> int)
    requires Increasing(s, rank)
    ensures Runs(s, 1, cmp, rank)
    decreases |s|
  {
    if s != [] { SingleRuns(Skip(s, 1), cmp, rank); }
  }

  /** The sort returns the same elements, in order, equal ones in the order they came in. */
  lemma SortIsStable(s: seq<nat>, cmp: Compare, rank: nat -> int)
    requires TotalPreorder(cmp) && Increasing(s, rank)
    ensures Stable(SortFrom(s, 1, cmp), cmp, rank) && multiset(SortFrom(s, 1, cmp)) == multiset(s)
  {
    SingleRuns(s, cmp, rank);
    SortFromStable(s, 1, cmp, rank);
  }

  /** There is only one such arrangement. */
  lemma {:induction false} StableIsUnique(a: seq<nat>, b: seq<nat>, cmp: Compare, rank: nat -> int)
    requires Stable(a, cmp, rank) && Stable(b, cmp, rank) && multiset(a) == multiset(b)
    ensures a == b
    decreases |a|
  {
    assert |a| == |multiset(a)| == |multiset(b)| == |b|;
    if a != [] {
      SameFirst(a, b, cmp, rank);
      SameRest(a, b);
      StableIsUnique(a[1..], b[1..], cmp, rank);
      assert a == [a[0]] + a[1..] && b == [b[0]] + b[1..];
    }
  }

  lemma SameFirst(a: seq<nat>, b: seq<nat>, cmp: Compare, rank: nat -> int)
    requires Stable(a, cmp, rank) && Stable(b, cmp, rank) && multiset(a) == multiset(b) && a != [] && b != []
    ensures a[0] == b[0]
  {
    assert a[0] in multiset(a) && b[0] in multiset(b);
    assert a[0] in b && b[0] in a;
  }

  lemma SameRest(a: seq<nat>, b: seq<nat>)
    requires multiset(a) == multiset(b) && a != [] && b != [] && a[0] == b[0]
    ensures multiset(a[1..]) == multiset(b[1..])
  {
    assert a == [a[0]] + a[1..] && b == [b[0]] + b[1..];
    assert multiset(a[1..]) == multiset(a) - multiset{a[0]} == multiset(b[1..]);
  }

  // -------------------------------------------------------------- linked form

  ghost predicate Disjoint(s: seq<nat>, t: seq<nat>) {
    forall a :: a in s ==> a !in t
  }

  /** No node is in two places. */
  ghost predicate Distinct(out: seq<nat>, x: seq<nat>, z: seq<nat>) {
    NoDup(out) && NoDup(x) && NoDup(z) && Disjoint(x, out) && Disjoint(z, out) && Disjoint(x, z)
  }

  /** In a pass: the nodes put out so far, what is left of the first run, and the rest of the input. */
  ghost predicate Sections(next: seq<int>, prev: seq<int>, out: seq<nat>, x: seq<nat>, z: seq<nat>) {
    && |next| == |prev| && Forward(next, out) && Backward(prev, out)
    && Forward(next, x) && Forward(next, z) && Ends(next, z)
    && Distinct(out, x, z)
  }

  /** Only the link out of the last node put out and the back link of `e` are written. */
  ghost predicate Written(next: seq<int>, prev: seq<int>, next': seq<int>, prev': seq<int>, out: seq<nat>, e: nat) {
    && |next'| == |next| && |prev'| == |prev|
    && (out != [] && Last(out) < |next| ==> next' == next[Last(out) := e])
    && (out == [] ==> next' == next)
    && (e < |prev| ==> prev' == prev[e := Last(out)])
  }

  lemma EmitLinks(next: seq<int>, prev: seq<int>, next': seq<int>, prev': seq<int>, out: seq<nat>, e: nat)
    requires Forward(next, out) && Backward(prev, out) && e < |next| == |prev| && e !in out && NoDup(out)
    requires Written(next, prev, next', prev', out, e)
    ensures Forward(next', out + [e]) && Backward(prev', out + [e])
  {
  }

  /** Links of nodes other than the last one put out are as before. */
  lemma KeptLinks(next: seq<int>, prev: seq<int>, next': seq<int>, prev': seq<int>, out: seq<nat>, e: nat, s: seq<nat>)
    requires Forward(next, s) && Written(next, prev, next', prev', out, e) && (out != [] ==> Last(out) < |next|)
    requires Disjoint(s, out)
    ensures Forward(next', s) && (Ends(next, s) ==> Ends(next', s))
  {
    forall i | 0 <= i < |s| ensures next'[s[i]] == next[s[i]] {
      assert s[i] in s;
      assert out != [] ==> out[|out| - 1] in out;
    }
  }

  lemma FirstDistinct(out: seq<nat>, x: seq<nat>, z: seq<nat>)
    requires Distinct(out, x, z) && x != []
    ensures x[0] !in out && Distinct(out + [x[0]], x[1..], z)
  {
  }

  lemma RestDistinct(out: seq<nat>, x: seq<nat>, z: seq<nat>)
    requires Distinct(out, x, z) && z != []
    ensures z[0] !in out && Distinct(out + [z[0]], x, z[1..])
  {
  }

  /** Putting out the head of the first run, or of the rest. */
  lemma EmitFirst(next: seq<int>, prev: seq<int>, next': seq<int>, prev': seq<int>, out: seq<nat>, x: seq<nat>,
                  z: seq<nat>)
    requires Sections(next, prev, out, x, z) && x != [] && Written(next, prev, next', prev', out, x[0])
    ensures Sections(next', prev', out + [x[0]], x[1..], z)
    ensures |x| > 1 ==> x[0] < |next| && next[x[0]] == First(x[1..])
  {
    FirstDistinct(out, x, z);
    EmitLinks(next, prev, next', prev', out, x[0]);
    KeptLinks(next, prev, next', prev', out, x[0], x);
    KeptLinks(next, prev, next', prev', out, x[0], z);
    TailForward(next', x);
  }

  lemma EmitRest(next: seq<int>, prev: seq<int>, next': seq<int>, prev': seq<int>, out: seq<nat>, x: seq<nat>,
                 z: seq<nat>)
    requires Sections(next, prev, out, x, z) && z != [] && Written(next, prev, next', prev', out, z[0])
    ensures Sections(next', prev', out + [z[0]], x, z[1..])
    ensures z[0] < |next| && next[z[0]] == First(z[1..])
  {
    RestDistinct(out, x, z);
    EmitLinks(next, prev, next', prev', out, z[0]);
    KeptLinks(next, prev, next', prev', out, z[0], x);
    KeptLinks(next, prev, next', prev', out, z[0], z);
    TailForward(next', z);
  }

  lemma TailForward(next: seq<int>, s: seq<nat>)
    requires s != [] && Forward(next, s)
    ensures Forward(next, s[1..]) && (Ends(next, s) ==> Ends(next, s[1..]))
  {
  }

  /** A merge under way, with the pointers into its three parts. */
  ghost predicate Merging(next: seq<int>, prev: seq<int>, out: seq<nat>, x: seq<nat>, z: seq<nat>,
                          p: int, q: int, list: int, last: int) {
    && Sections(next, prev, out, x, z) && (x != [] ==> p == x[0]) && q == First(z)
    && list == First(out) && last == Last(out)
  }

  lemma TakeHead(z: seq<nat>, n: nat)
    requires z != [] && n > 0
    ensures Take(z, n) == [z[0]] + Take(z[1..], n - 1) && Skip(z, n) == Skip(z[1..], n - 1)
  {
  }

  /** What the merge puts out in the end. */
  ghost function Left(out: seq<nat>, x: seq<nat>, z: seq<nat>, n: nat, cmp: Compare): seq<nat> {
    out + Merge(x, Take(z, n), cmp)
  }

  lemma LeftNothing(out: seq<nat>, z: seq<nat>, n: nat, cmp: Compare)
    ensures n == 0 || z == [] ==> Left(out, [], z, n, cmp) == out && Skip(z, n) == z
  {
  }

  lemma SplitForward(next: seq<int>, x: seq<nat>, y: seq<nat>)
    requires Forward(next, x + y) && Ends(next, x + y)
    ensures Forward(next, x) && Forward(next, y) && Ends(next, y)
  {
    var z := x + y;
    assert forall i :: 0 <= i < |x| ==> x[i] == z[i];
    assert forall i :: 0 <= i < |y| ==> y[i] == z[|x| + i];
  }

  lemma SplitDistinct(out: seq<nat>, x: seq<nat>, y: seq<nat>)
    requires Distinct(out, [], x + y)
    ensures Distinct(out, x, y)
  {
    var z := x + y;
    assert forall i :: 0 <= i < |x| ==> x[i] == z[i];
    assert forall i :: 0 <= i < |y| ==> y[i] == z[|x| + i];
  }

  /** The input splits into the run at its head and the rest. */
  lemma SplitSections(next: seq<int>, prev: seq<int>, out: seq<nat>, z: seq<nat>, w: nat)
    requires Sections(next, prev, out, [], z)
    ensures Sections(next, prev, out, Take(z, w), Skip(z, w))
  {
    SplitForward(next, Take(z, w), Skip(z, w));
    SplitDistinct(out, Take(z, w), Skip(z, w));
  }

  lemma LeftFirst(out: seq<nat>, x: seq<nat>, z: seq<nat>, n: nat, cmp: Compare)
    requires x != [] && (n == 0 || z == [] || cmp(x[0], z[0]) <= 0)
    ensures Left(out + [x[0]], x[1..], z, n, cmp) == Left(out, x, z, n, cmp)
  {
  }

  lemma LeftRest(out: seq<nat>, x: seq<nat>, z: seq<nat>, n: nat, cmp: Compare)
    requires n > 0 && z != [] && (x == [] || cmp(x[0], z[0]) > 0)
    ensures Left(out + [z[0]], x, z[1..], n - 1, cmp) == Left(out, x, z, n, cmp)
    ensures Skip(z[1..], n - 1) == Skip(z, n)
  {
    TakeHead(z, n);
    var y := Take(z, n);
    assert y[0] == z[0] && y[1..] == Take(z[1..], n - 1);
    RestFirst(x, y, cmp);
    Associative(out, [z[0]], Merge(x, y[1..], cmp));
  }

  lemma RestFirst(x: seq<nat>, y: seq<nat>, cmp: Compare)
    requires y != [] && (x == [] || cmp(x[0], y[0]) > 0)
    ensures Merge(x, y, cmp) == [y[0]] + Merge(x, y[1..], cmp)
  {
    assert y == [y[0]] + y[1..];
  }

  /** How many merges a pass has made, by what is left of its input. */
  ghost predicate MergesSoFar(s: seq<nat>, z: seq<nat>, w: nat, merges: nat) {
    && (merges == 0 ==> z == s) && (merges == 1 ==> s != [] && |z| == if |s| > 2 * w then |s| - 2 * w else 0)
    && (merges > 1 ==> |s| > 2 * w)
  }

  lemma MergeCounted(s: seq<nat>, z: seq<nat>, w: nat, merges: nat)
    requires merges > 0 && z != [] && MergesSoFar(s, z, w, merges - 1)
    ensures MergesSoFar(s, Skip(Skip(z, w), w), w, merges)
  {
  }

  /** The last link, stale until now, is cut. */
  lemma CutOff(next: seq<int>, next': seq<int>, prev: seq<int>, out: seq<nat>)
    requires Forward(next, out) && Backward(prev, out) && NoDup(out)
    requires if out == [] then next' == next else Last(out) < |next| && next' == next[Last(out) := NULL]
    ensures Linked(next', prev, out, First(out), Last(out))
  {
  }

  ghost function PassLeft(out: seq<nat>, z: seq<nat>, w: nat, cmp: Compare): seq<nat>
    requires w > 0
  {
    out + Pass(z, w, cmp)
  }

  lemma PassNothing(out: seq<nat>, s: seq<nat>, w: nat, cmp: Compare)
    requires w > 0
    ensures PassLeft(out, [], w, cmp) == out && PassLeft([], s, w, cmp) == Pass(s, w, cmp)
  {
  }

  ghost predicate SortedSoFar(s: seq<nat>, t: seq<nat>, w: nat, looping: bool, cmp: Compare)
    requires w > 0
  {
    SortFrom(s, 1, cmp) == if looping then SortFrom(t, w, cmp) else t
  }

  lemma SortUnfolds(s: seq<nat>, t: seq<nat>, w: nat, cmp: Compare)
    requires w > 0 && SortedSoFar(s, t, w, true, cmp)
    ensures |Pass(t, w, cmp)| == |t| && SortedSoFar(s, Pass(t, w, cmp), 2 * w, |t| > 2 * w, cmp)
  {
    PassElements(t, w, cmp);
  }

  lemma PassUnfolds(out: seq<nat>, z: seq<nat>, w: nat, cmp: Compare)
    requires w > 0 && z != []
    ensures var rest := Skip(z, w);
      PassLeft(Left(out, Take(z, w), rest, w, cmp), Skip(rest, w), w, cmp) == PassLeft(out, z, w, cmp)
  {
    var rest := Skip(z, w);
    var (m, p) := (Merge(Take(z, w), Take(rest, w), cmp), Pass(Skip(rest, w), w, cmp));
    assert Pass(z, w, cmp) == m + p;
    Associative(out, m, p);
  }

  lemma Associative(a: seq<nat>, b: seq<nat>, c: seq<nat>)
    ensures a + b + c == a + (b + c)
  {
  }

  class ItemList {
    const cmp: Compare
    const next: array<int>
    const prev: array<int>
    var head: int
    var tail: int

    constructor (cmp: Compare, next: array<int>, prev: array<int>, head: int, tail: int)
      ensures this.cmp == cmp && this.next == next && this.prev == prev && this.head == head && this.tail == tail
    {
      this.cmp, this.next, this.prev, this.head, this.tail := cmp, next, prev, head, tail;
    }

    /** The list is the sequence of nodes `s`. */
    ghost predicate Holds(s: seq<nat>)
      reads this, next, prev
    {
      next != prev && next.Length == prev.Length && Linked(next[..], prev[..], s, head, tail)
    }

    /** Link node `e` behind the last one put out. */
    method Emit(list: int, last: int, e: nat, ghost out: seq<nat>) returns (list': int)
      requires next != prev && next.Length == prev.Length && e < next.Length
      requires Forward(next[..], out) && list == First(out) && last == Last(out)
      modifies next, prev
      ensures list' == First(out + [e])
      ensures Written(old(next[..]), old(prev[..]), next[..], prev[..], out, e)
    {
      list' := list;
      if last != NULL { next[last] := e; } else { list' := e; }
      prev[e] := last;
    }

    method PutFirst(p: int, q: int, list: int, last: int, ghost out: seq<nat>, ghost x: seq<nat>, ghost z: seq<nat>)
      returns (p': int, list': int)
      requires next != prev && Merging(next[..], prev[..], out, x, z, p, q, list, last) && x != []
      modifies next, prev
      ensures Merging(next[..], prev[..], out + [x[0]], x[1..], z, p', q, list', p)
    {
      p' := next[p];
      list' := Emit(list, last, p, out);
      EmitFirst(old(next[..]), old(prev[..]), next[..], prev[..], out, x, z);
    }

    method PutRest(p: int, q: int, list: int, last: int, ghost out: seq<nat>, ghost x: seq<nat>, ghost z: seq<nat>)
      returns (q': int, list': int)
      requires next != prev && Merging(next[..], prev[..], out, x, z, p, q, list, last) && z != []
      modifies next, prev
      ensures Merging(next[..], prev[..], out + [z[0]], x, z[1..], p, q', list', q)
    {
      q' := next[q];
      list' := Emit(list, last, q, out);
      EmitRest(old(next[..]), old(prev[..]), next[..], prev[..], out, x, z);
    }

    /** Put out the smaller of the two heads; the first run wins a tie. */
    method PutNext(p0: int, q0: int, psize0: nat, qsize0: nat, list0: int, last0: int,
                   ghost out0: seq<nat>, ghost x0: seq<nat>, ghost z0: seq<nat>)
      returns (p: int, q: int, psize: nat, qsize: nat, list: int, last: int,
               ghost out: seq<nat>, ghost x: seq<nat>, ghost z: seq<nat>)
      requires next != prev && Merging(next[..], prev[..], out0, x0, z0, p0, q0, list0, last0) && |x0| == psize0
      requires psize0 != 0 || (qsize0 != 0 && q0 != NULL)
      modifies next, prev
      ensures Merging(next[..], prev[..], out, x, z, p, q, list, last) && |x| == psize && |x| + |z| < |x0| + |z0|
      ensures Left(out, x, z, qsize, cmp) == Left(out0, x0, z0, qsize0, cmp) && Skip(z, qsize) == Skip(z0, qsize0)
    {
      p, q, psize, qsize, out, x, z := p0, q0, psize0, qsize0, out0, x0, z0;
      if psize != 0 && (qsize == 0 || q == NULL || cmp(p, q) <= 0) {
        LeftFirst(out, x, z, qsize, cmp);
        p, list := PutFirst(p, q, list0, last0, out, x, z);
        last, psize := p0, psize - 1;
        out, x := out + [x[0]], x[1..];
      } else {
        LeftRest(out, x, z, qsize, cmp);
        q, list := PutRest(p, q, list0, last0, out, x, z);
        last, qsize := q0, qsize - 1;
        out, z := out + [z[0]], z[1..];
      }
    }

    /** Merge the run at `p` with the run at `q`, of length at most `w`, behind the nodes put out. */
    method MergeRuns(p0: int, q0: int, psize0: nat, w: nat, list0: int, last0: int,
                     ghost out0: seq<nat>, ghost x0: seq<nat>, ghost z0: seq<nat>)
      returns (p: int, q: int, list: int, last: int)
      requires next != prev && Merging(next[..], prev[..], out0, x0, z0, p0, q0, list0, last0) && |x0| == psize0
      modifies next, prev
      ensures Merging(next[..], prev[..], Left(out0, x0, z0, w, cmp), [], Skip(z0, w), p, q, list, last)
    {
      var psize: nat, qsize: nat := psize0, w;
      p, q, list, last := p0, q0, list0, last0;
      ghost var out: seq<nat>, x: seq<nat>, z: seq<nat> := out0, x0, z0;
      while psize != 0 || (qsize != 0 && q != NULL)
        invariant Merging(next[..], prev[..], out, x, z, p, q, list, last) && psize == |x|
        invariant Left(out, x, z, qsize, cmp) == Left(out0, x0, z0, w, cmp) && Skip(z, qsize) == Skip(z0, w)
        decreases |x| + |z|
      {
        p, q, psize, qsize, list, last, out, x, z := PutNext(p, q, psize, qsize, list, last, out, x, z);
      }
      LeftNothing(out, z, qsize, cmp);
    }

    /** Step over a run of at most `w` nodes. */
    method StepOver(p: int, w: nat, ghost s: seq<nat>) returns (q: int, psize: nat)
      requires w > 0 && s != [] && p == s[0] && Forward(next[..], s) && Ends(next[..], s)
      ensures psize == |Take(s, w)| && q == First(Skip(s, w))
    {
      q, psize := p, 0;
      for i := 0 to w
        invariant psize == i < |s| && q == s[i]
      {
        psize := psize + 1;
        q := next[q];
        assert psize < |s| ==> next[..][s[psize - 1]] == s[psize];
        if q == NULL { return; }
      }
    }

    /** Merge the next two runs of the input `z0`. */
    method MergeNext(p0: int, w: nat, list0: int, last0: int, ghost out0: seq<nat>, ghost z0: seq<nat>)
      returns (p: int, list: int, last: int, ghost out: seq<nat>, ghost z: seq<nat>)
      requires next != prev && w > 0 && z0 != [] && Merging(next[..], prev[..], out0, [], z0, NULL, p0, list0, last0)
      modifies next, prev
      ensures Merging(next[..], prev[..], out, [], z, NULL, p, list, last) && z == Skip(Skip(z0, w), w)
      ensures PassLeft(out, z, w, cmp) == PassLeft(out0, z0, w, cmp)
    {
      var q, psize := StepOver(p0, w, z0);
      ghost var (x, rest) := (Take(z0, w), Skip(z0, w));
      SplitSections(next[..], prev[..], out0, z0, w);
      PassUnfolds(out0, z0, w, cmp);
      var _, p1, list1, last1 := MergeRuns(p0, q, psize, w, list0, last0, out0, x, rest);
      return p1, list1, last1, Left(out0, x, rest, w, cmp), Skip(rest, w);
    }

    method Cut(last: int, ghost out: seq<nat>)
      requires next != prev && last == Last(out) && Forward(next[..], out) && Backward(prev[..], out) && NoDup(out)
      modifies next
      ensures Linked(next[..], prev[..], out, First(out), last)
    {
      if last != NULL { next[last] := NULL; }
      CutOff(old(next[..]), next[..], prev[..], out);
    }

    /** The loop of a pass over the list at `p0`; the links of the old list are consumed as the new one grows. */
    method MergePairs(p0: int, w: nat, ghost s: seq<nat>)
      returns (list: int, last: int, merges: nat, ghost out: seq<nat>)
      requires next != prev && w > 0 && Merging(next[..], prev[..], [], [], s, NULL, p0, NULL, NULL)
      modifies next, prev
      ensures Merging(next[..], prev[..], out, [], [], NULL, NULL, list, last)
      ensures PassLeft(out, [], w, cmp) == PassLeft([], s, w, cmp) && MergesSoFar(s, [], w, merges)
    {
      var p := p0;
      list, last, merges, out := NULL, NULL, 0, [];
      ghost var z := s;
      while p != NULL
        invariant Merging(next[..], prev[..], out, [], z, NULL, p, list, last)
        invariant PassLeft(out, z, w, cmp) == PassLeft([], s, w, cmp)
        invariant MergesSoFar(s, z, w, merges)
        decreases |z|
      {
        merges := merges + 1;
        MergeCounted(s, z, w, merges);
        p, list, last, out, z := MergeNext(p, w, list, last, out, z);
      }
      assert z == [];
    }

    /** One pass. */
    method RunPass(p0: int, last0: int, w: nat, ghost s: seq<nat>) returns (list: int, last: int, merges: nat)
      requires next != prev && w > 0 && Linked(next[..], prev[..], s, p0, last0) && next.Length == prev.Length
      modifies next, prev
      ensures Linked(next[..], prev[..], Pass(s, w, cmp), list, last)
      ensures merges <= 1 <==> |s| <= 2 * w
    {
      ghost var out;
      list, last, merges, out := MergePairs(p0, w, s);
      PassNothing(out, s, w, cmp);
      Cut(last, out);
    }

    /** Passes with doubling runs until one of them makes a single merge. */
    method Passes(list0: int, last0: int, ghost s: seq<nat>) returns (list: int, last: int)
      requires next != prev && next.Length == prev.Length && Linked(next[..], prev[..], s, list0, last0)
      modifies next, prev
      ensures Linked(next[..], prev[..], SortFrom(s, 1, cmp), list, last)
    {
      list, last := list0, last0;
      var w: nat, looping := 1, true;
      ghost var t := s;
      while looping
        invariant w > 0 && Linked(next[..], prev[..], t, list, last) && SortedSoFar(s, t, w, looping, cmp)
        decreases looping, if w < |t| then |t| - w else 0
      {
        SortUnfolds(s, t, w, cmp);
        var merges;
        list, last, merges := RunPass(list, last, w, t);
        if merges <= 1 { looping := false; }
        assert looping == (|t| > 2 * w);
        assert SortedSoFar(s, Pass(t, w, cmp), 2 * w, looping, cmp);
        t, w := Pass(t, w, cmp), 2 * w;
      }
    }

    /** `HASH_SRT` */
    method Sort(ghost s: seq<nat>)
      requires Holds(s)
      modifies this, next, prev
      ensures Holds(SortFrom(s, 1, cmp))
    {
      if head != NULL {
        var list, last := Passes(head, tail, s);
        tail, head := last, list;
      }
    }
  }
}
