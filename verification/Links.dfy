/** Doubly linked lists over numbered nodes: two arrays of links, and the sequence of nodes
    that they spell out. */
module Links {

  const NULL := -1

  function First(s: seq<nat>): int { if s == [] then NULL else s[0] }

  function Last(s: seq<nat>): int { if s == [] then NULL else s[|s| - 1] }

  /** Each node of `s` but the last links to the next one. */
  ghost predicate Forward(next: seq<int>, s: seq<nat>) {
    && (forall i :: 0 <= i < |s| ==> s[i] < |next|)
    && (forall i {:trigger next[s[i]]} :: 0 <= i < |s| - 1 ==> next[s[i]] == s[i + 1])
  }

  ghost predicate Backward(prev: seq<int>, s: seq<nat>) {
    && (forall i :: 0 <= i < |s| ==> s[i] < |prev|)
    && (forall i {:trigger prev[s[i]]} :: 0 <= i < |s| ==> prev[s[i]] == if i == 0 then NULL else s[i - 1])
  }

  ghost predicate Ends(next: seq<int>, s: seq<nat>) {
    s != [] ==> Last(s) < |next| && next[Last(s)] == NULL
  }

  ghost predicate NoDup<T>(s: seq<T>) {
    forall i, j :: 0 <= i < j < |s| ==> s[i] != s[j]
  }

  /** A list: both chains of links, and its ends. */
  ghost predicate Linked(next: seq<int>, prev: seq<int>, s: seq<nat>, head: int, tail: int) {
    && Forward(next, s) && Ends(next, s) && Backward(prev, s) && NoDup(s)
    && head == First(s) && tail == Last(s)
  }

  /** Links of other nodes do not matter to a list. */
  lemma Spared(next: seq<int>, prev: seq<int>, next': seq<int>, prev': seq<int>, s: seq<nat>, head: int, tail: int)
    requires Linked(next, prev, s, head, tail) && |next'| == |next| && |prev'| == |prev|
    requires forall a :: a in s ==> next'[a] == next[a] && prev'[a] == prev[a]
    ensures Linked(next', prev', s, head, tail)
  {
  }

  /** The back links once `e` is put in front of the node `first`. */
  function Fronted(prev: seq<int>, first: int, e: nat): seq<int>
    requires e < |prev| && NULL <= first < |prev|
  {
    if first == NULL then prev[e := NULL] else prev[e := NULL][first := e]
  }

  lemma PushLinks(next: seq<int>, prev: seq<int>, s: seq<nat>, e: nat)
    requires Linked(next, prev, s, First(s), Last(s)) && e < |next| == |prev| && e !in s
    ensures Linked(next[e := First(s)], Fronted(prev, First(s), e), [e] + s, e, Last([e] + s))
  {
  }

  lemma AppendLinks(next: seq<int>, prev: seq<int>, s: seq<nat>, e: nat)
    requires Linked(next, prev, s, First(s), Last(s)) && e < |next| == |prev| && e !in s
    ensures var next' := if s == [] then next[e := NULL] else next[e := NULL][Last(s) := e];
      Linked(next', prev[e := Last(s)], s + [e], First(s + [e]), e)
  {
  }

  /** The links once the node between `before` and `after` is taken out. */
  function Bridged(links: seq<int>, at: int, to: int): seq<int>
    requires NULL <= at < |links|
  {
    if at == NULL then links else links[at := to]
  }

  function Removed(s: seq<nat>, k: nat): seq<nat>
    requires k < |s|
  {
    s[..k] + s[k + 1..]
  }

  /** The neighbours of a node are what its links say. */
  lemma Neighbours(next: seq<int>, prev: seq<int>, s: seq<nat>, k: nat)
    requires Linked(next, prev, s, First(s), Last(s)) && k < |s|
    ensures next[s[k]] == (if k + 1 < |s| then s[k + 1] else NULL) && prev[s[k]] == (if k > 0 then s[k - 1] else NULL)
  {
  }

  /** Only links of these nodes were written. */
  ghost predicate Confined(links: seq<int>, links': seq<int>, s: seq<nat>) {
    |links'| == |links| && forall a: nat :: a < |links| && a !in s ==> links'[a] == links[a]
  }

  ghost predicate Between(next: seq<int>, prev: seq<int>, e: nat) {
    e < |next| && e < |prev| && NULL <= next[e] < |prev| && NULL <= prev[e] < |next|
  }

  lemma UnlinkForward(next: seq<int>, s: seq<nat>, k: nat)
    requires Forward(next, s) && Ends(next, s) && NoDup(s) && k < |s|
    ensures var s' := Removed(s, k);
      var next' := if k == 0 then next else next[s[k - 1] := next[s[k]]];
      Forward(next', s') && Ends(next', s') && NoDup(s')
  {
    var s' := Removed(s, k);
    assert forall i :: 0 <= i < |s'| ==> s'[i] == s[if i < k then i else i + 1];
  }

  lemma UnlinkBackward(prev: seq<int>, s: seq<nat>, k: nat)
    requires Backward(prev, s) && NoDup(s) && k < |s|
    ensures var s' := Removed(s, k);
      Backward(if k + 1 == |s| then prev else prev[s[k + 1] := prev[s[k]]], s')
  {
    var s' := Removed(s, k);
    assert forall i :: 0 <= i < |s'| ==> s'[i] == s[if i < k then i else i + 1];
  }

  /** A node is taken out by its own links. */
  lemma UnlinkLinks(next: seq<int>, prev: seq<int>, s: seq<nat>, k: nat)
    requires Linked(next, prev, s, First(s), Last(s)) && k < |s| && |next| == |prev|
    ensures Between(next, prev, s[k])
    ensures var (after, before, s') := (next[s[k]], prev[s[k]], Removed(s, k));
      Linked(Bridged(next, before, after), Bridged(prev, after, before), s', First(s'), Last(s'))
  {
    Neighbours(next, prev, s, k);
    UnlinkForward(next, s, k);
    UnlinkBackward(prev, s, k);
  }

  lemma UnlinkEnds(next: seq<int>, prev: seq<int>, s: seq<nat>, k: nat)
    requires Linked(next, prev, s, First(s), Last(s)) && k < |s| && |next| == |prev| && Between(next, prev, s[k])
    ensures var (after, before, s') := (next[s[k]], prev[s[k]], Removed(s, k));
      && (before == NULL <==> s[k] == First(s)) && (after == NULL <==> s[k] == Last(s))
      && First(s') == (if before == NULL then after else First(s))
      && Last(s') == (if after == NULL then before else Last(s))
      && Confined(next, Bridged(next, before, after), s) && Confined(prev, Bridged(prev, after, before), s)
  {
    Neighbours(next, prev, s, k);
    assert k > 0 ==> s[k - 1] in s;
    assert k + 1 < |s| ==> s[k + 1] in s;
  }
}
