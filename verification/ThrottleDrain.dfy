/**
 Queueing, rescheduling and blk_throtl_drain() over the hierarchy of ThrottleTree.
 */
module ThrottleDrain {
  import opened Basics
  import opened Lists
  import opened ThrottleTree

  // ----- what dispatching never does to the bios

  /** b is held somewhere in direction d. */
  ghost predicate Somewhere(s: State, d: bool, b: Bio)
  {
    exists n, x :: 0 <= n < |s.nodes| && b in Bios(s, n, d, x)
  }

  /** No bio is held twice. */
  ghost predicate Unique(s: State)
  {
    && (forall n, d, x :: 0 <= n < |s.nodes| ==> NoDup(Bios(s, n, d, x)))
    && (forall n, d, x, m, e, y, b :: 0 <= n < |s.nodes| && 0 <= m < |s.nodes| && b in Bios(s, n, d, x) && b in Bios(s, m, e, y) ==>
          n == m && d == e && x == y)
  }

  /** From s to t every bio is still there, still once, and behind whatever it was behind on its way up. */
  ghost predicate Preserved(s: State, t: State)
  {
    && Shape(s) && Shape(t) && t.parent == s.parent
    && (forall n, d, x :: 0 <= n < |s.nodes| ==> Within(Flow(s, n, d, x), Flow(t, n, d, x)))
    && (forall d, b :: Somewhere(s, d, b) <==> Somewhere(t, d, b))
    && (Unique(s) ==> Unique(t))
  }

  lemma PreservedSelf(s: State)
    requires Shape(s)
    ensures Preserved(s, s)
  {
    forall n, d, x | 0 <= n < |s.nodes|
      ensures Within(Flow(s, n, d, x), Flow(s, n, d, x))
    {
      WithinSelf(Flow(s, n, d, x));
    }
  }

  lemma PreservedTrans(s: State, t: State, u: State)
    requires Preserved(s, t) && Preserved(t, u)
    ensures Preserved(s, u)
  {
    hide Unique, Somewhere, Within, Flow;
    forall n, d, x | 0 <= n < |s.nodes|
      ensures Within(Flow(s, n, d, x), Flow(u, n, d, x))
    {
      WithinTrans(Flow(s, n, d, x), Flow(t, n, d, x), Flow(u, n, d, x));
    }
  }

  /** Where a bio of t was in s. */
  lemma MovedFrom(s: State, t: State, g: Tg, rw: bool, src: Source, n: nat, d: bool, x: Source, b: Bio)
    requires Shape(s) && 0 < g < |s.nodes| && Moved(s, t, g, rw, src) && n < |t.nodes| && b in Bios(t, n, d, x)
    ensures b in Bios(s, n, d, x) || (n == s.parent[g] && d == rw && x == Child(g) && b == Bios(s, g, rw, src)[0])
  {
  }

  lemma MovedSomewhere(s: State, t: State, g: Tg, rw: bool, src: Source, d: bool, b: Bio)
    requires Shape(s) && 0 < g < |s.nodes| && Moved(s, t, g, rw, src)
    ensures Somewhere(s, d, b) <==> Somewhere(t, d, b)
  {
    if Somewhere(t, d, b) {
      var n, x :| 0 <= n < |t.nodes| && b in Bios(t, n, d, x);
      MovedFrom(s, t, g, rw, src, n, d, x, b);
      if b !in Bios(s, n, d, x) {
        assert b in Bios(s, g, rw, src);
      }
    }
    if Somewhere(s, d, b) {
      var n, x :| 0 <= n < |s.nodes| && b in Bios(s, n, d, x);
      if n == g && d == rw && x == src {
        var l := Bios(s, g, rw, src);
        assert l == [l[0]] + l[1..];
        assert b in Bios(t, g, rw, src) || b in Bios(t, s.parent[g], rw, Child(g));
      } else {
        assert b in Bios(t, n, d, x);
      }
    }
  }

  lemma MovedNoDup(s: State, t: State, g: Tg, rw: bool, src: Source, n: nat, d: bool, x: Source)
    requires Shape(s) && 0 < g < |s.nodes| && Moved(s, t, g, rw, src) && Unique(s) && n < |t.nodes|
    ensures NoDup(Bios(t, n, d, x))
  {
    var p := s.parent[g];
    if n == p && d == rw && x == Child(g) {
      var b := Bios(s, g, rw, src)[0];
      assert b in Bios(s, g, rw, src);
      assert b !in Bios(s, p, rw, Child(g));
      AppendMembers(Bios(s, p, rw, Child(g)), b);
    } else if n == g && d == rw && x == src {
      assert NoDup(Bios(s, g, rw, src));
    } else {
      assert Bios(t, n, d, x) == Bios(s, n, d, x);
    }
  }

  lemma MovedUnique(s: State, t: State, g: Tg, rw: bool, src: Source)
    requires Shape(s) && 0 < g < |s.nodes| && Moved(s, t, g, rw, src) && Unique(s)
    ensures Unique(t)
  {
    forall n, d, x | 0 <= n < |t.nodes|
      ensures NoDup(Bios(t, n, d, x))
    {
      MovedNoDup(s, t, g, rw, src, n, d, x);
    }
    forall n, d, x, m, e, y, b | 0 <= n < |t.nodes| && 0 <= m < |t.nodes| && b in Bios(t, n, d, x) && b in Bios(t, m, e, y)
      ensures n == m && d == e && x == y
    {
      MovedOnce(s, t, g, rw, src, n, d, x, b);
      MovedOnce(s, t, g, rw, src, m, e, y, b);
    }
  }

  /** In t the moved bio is on the parent's list only; every other bio is where it was. */
  lemma MovedOnce(s: State, t: State, g: Tg, rw: bool, src: Source, n: nat, d: bool, x: Source, b: Bio)
    requires Shape(s) && 0 < g < |s.nodes| && Moved(s, t, g, rw, src) && Unique(s) && n < |t.nodes| && b in Bios(t, n, d, x)
    ensures if b == Bios(s, g, rw, src)[0] then n == s.parent[g] && d == rw && x == Child(g) else b in Bios(s, n, d, x)
  {
    var l := Bios(s, g, rw, src);
    MovedFrom(s, t, g, rw, src, n, d, x, b);
    assert l[0] in l && NoDup(l);
    assert l[0] !in l[1..];
  }

  lemma MovedPreserves(s: State, t: State, g: Tg, rw: bool, src: Source)
    requires Shape(s) && 0 < g < |s.nodes| && Moved(s, t, g, rw, src)
    ensures Preserved(s, t)
  {
    hide Unique, Somewhere, Moved;
    MovedShape(s, t, g, rw, src);
    forall n, d, x | 0 <= n < |s.nodes|
      ensures Within(Flow(s, n, d, x), Flow(t, n, d, x))
    {
      FlowMoves(s, t, g, rw, src, n, d, x);
    }
    forall d, b
      ensures Somewhere(s, d, b) <==> Somewhere(t, d, b)
    {
      MovedSomewhere(s, t, g, rw, src, d, b);
    }
    if Unique(s) {
      MovedUnique(s, t, g, rw, src);
    }
  }

  lemma MovedShape(s: State, t: State, g: Tg, rw: bool, src: Source)
    requires Shape(s) && 0 < g < |s.nodes| && Moved(s, t, g, rw, src)
    ensures Shape(t) && t.parent == s.parent
  {
  }

  /** States with the same queues hold the same bios in the same places. */
  lemma {:induction false} SameFlow(s: State, t: State, n: nat, d: bool, x: Source)
    requires Shape(s) && SameQueues(s, t) && n < |s.nodes|
    ensures Flow(t, n, d, x) == Flow(s, n, d, x)
    decreases n
  {
    BiosFrame(s, t);
    if n > 0 {
      SameFlow(s, t, s.parent[n], d, Child(n));
    }
  }

  lemma SamePreserved(s: State, t: State)
    requires Shape(s) && SameQueues(s, t)
    ensures Preserved(s, t)
  {
    BiosFrame(s, t);
    forall n, d, x | 0 <= n < |s.nodes|
      ensures Within(Flow(s, n, d, x), Flow(t, n, d, x))
    {
      SameFlow(s, t, n, d, x);
      WithinSelf(Flow(s, n, d, x));
    }
    forall d, b
      ensures Somewhere(s, d, b) <==> Somewhere(t, d, b)
    {
      if Somewhere(s, d, b) {
        var n, x :| 0 <= n < |s.nodes| && b in Bios(s, n, d, x);
        assert b in Bios(t, n, d, x);
      }
      if Somewhere(t, d, b) {
        var n, x :| 0 <= n < |t.nodes| && b in Bios(t, n, d, x);
        assert b in Bios(s, n, d, x);
      }
    }
  }

  // ----- throtl_rb_first() and the drain loops

  /** throtl_rb_first(): the cached or recomputed earliest child, remembered in the cache. */
  method RbFirst(s: State, p: nat) returns (t: State, g: Option<Tg>)
    requires Inv(s, {}) && p < |s.nodes|
    ensures g.None? <==> s.nodes[p].nrPending == 0
    ensures g.Some? ==>
              && g.value in s.nodes[p].pending && 0 < g.value < |s.nodes| && s.parent[g.value] == p && s.nodes[g.value].onTree
              && forall c :: c in s.nodes[p].pending ==> Key(s.nodes, g.value) <= Key(s.nodes, c)
    ensures Inv(t, {}) && SameQueues(s, t) && Preserved(s, t)
    ensures t.nodes[p].nrPending == s.nodes[p].nrPending
    ensures forall x :: 0 <= x < |s.nodes| ==> t.nodes[x].onTree == s.nodes[x].onTree && t.nodes[x].disptime == s.nodes[x].disptime
  {
    hide Preserved, QueuesOk;
    assert NodeTreeOk(s.nodes, s.parent, p);
    if s.nodes[p].nrPending == 0 {
      SamePreserved(s, s);
      return s, None;
    }
    var first := s.nodes[p].pending[0];
    t := if s.nodes[p].first == None then s.(nodes := s.nodes[p := s.nodes[p].(first := Some(first))]) else s;
    g := t.nodes[p].first;
    assert first in s.nodes[p].pending;
    CacheKeeps(s, t, p);
    SamePreserved(s, t);
    QueuesFrame(s, t);
  }

  lemma CacheKeeps(s: State, t: State, p: nat)
    requires Shape(s) && TreesOk(s) && p < |s.nodes| && s.nodes[p].pending != []
    requires t == s || t == s.(nodes := s.nodes[p := s.nodes[p].(first := Some(s.nodes[p].pending[0]))])
    ensures Shape(t) && TreesOk(t) && SameQueues(s, t)
  {
    hide NodeTreeOk;
    forall x | 0 <= x < |t.nodes|
      ensures NodeTreeOk(t.nodes, t.parent, x)
    {
      if x == p {
        CacheNodeOk(s.nodes, t.nodes, s.parent, p);
      } else {
        TreeFrame(s.nodes, t.nodes, s.parent, x);
      }
    }
  }

  lemma CacheNodeOk(nodes: seq<Node>, nodes': seq<Node>, parent: seq<nat>, p: nat)
    requires |nodes| == |parent| == |nodes'| && p < |nodes| && NodeTreeOk(nodes, parent, p) && nodes[p].pending != []
    requires nodes' == nodes || nodes' == nodes[p := nodes[p].(first := Some(nodes[p].pending[0]))]
    ensures NodeTreeOk(nodes', parent, p)
  {
    SortedFrame(nodes, nodes', nodes[p].pending);
  }

  /** The two inner loops of tg_drain_bios(): empty g, which is off its tree, into its parent. */
  method DrainGroup(s: State, g: Tg) returns (t: State)
    requires Inv(s, {g}) && 0 < g < |s.nodes|
    ensures Inv(t, {}) && Preserved(s, t) && !Holds(t.nodes[g])
    ensures t.nodes[s.parent[g]].nrPending == s.nodes[s.parent[g]].nrPending
    ensures forall x :: 0 <= x < |s.nodes| && x != g && x != s.parent[g] ==> SameQueue(t.nodes[x], s.nodes[x])
  {
    hide Preserved, DispatchOne, QueuesOk, TreesOk;
    t := s;
    PreservedSelf(s);
    var rw := false;
    while true
      invariant Inv(t, {g}) && Preserved(s, t) && t.parent == s.parent && |t.nodes| == |s.nodes|
      invariant t.nodes[s.parent[g]].nrPending == s.nodes[s.parent[g]].nrPending
      invariant forall x :: 0 <= x < |s.nodes| && x != g && x != s.parent[g] ==> SameQueue(t.nodes[x], s.nodes[x])
      invariant rw ==> t.nodes[g].nrReads == 0
      decreases t.nodes[g].nrReads + t.nodes[g].nrWrites, !rw
    {
      if t.nodes[g].Queue(rw).order == [] {
        EmptyNode(t, g, rw);
        if rw {
          break;
        }
        rw := true;
      } else {
        DispatchOneKeeps(t, g, rw);
        DispatchOneMoves(t, g, rw);
        var u := DispatchOne(t, g, rw);
        MovedPreserves(t, u, g, rw, t.nodes[g].Queue(rw).order[0]);
        PreservedTrans(s, t, u);
        t := u;
      }
    }
  }

  lemma EmptyNode(s: State, g: Tg, rw: bool)
    requires Shape(s) && QueuesOk(s) && 0 < g < |s.nodes|
    ensures s.nodes[g].Queue(rw).order == [] <==> s.nodes[g].Nr(rw) == 0
    ensures s.nodes[g].Nr(rw) == 0 ==> forall x :: Bios(s, g, rw, x) == []
  {
    assert NodeQueueOk(s, g, rw);
    EmptyQueue(s.nodes[g].Queue(rw));
  }

  predicate ChildrenEmpty(s: State, p: nat)
    requires Shape(s)
  {
    forall c :: 0 < c < |s.nodes| && s.parent[c] == p ==> !Holds(s.nodes[c])
  }

  /** tg_drain_bios(): all bios of all children of p end up on p. */
  method DrainBios(s: State, p: nat) returns (t: State)
    requires Inv(s, {}) && p < |s.nodes|
    ensures Inv(t, {}) && Preserved(s, t) && ChildrenEmpty(t, p)
    ensures forall x :: 0 <= x < |s.nodes| && x != p && !(x > 0 && s.parent[x] == p) ==> SameQueue(t.nodes[x], s.nodes[x])
  {
    hide Preserved, QueuesOk, NodeTreeOk, Dequeue;
    t := s;
    PreservedSelf(s);
    while true
      invariant Inv(t, {}) && Preserved(s, t) && t.parent == s.parent && |t.nodes| == |s.nodes|
      invariant forall x :: 0 <= x < |s.nodes| && x != p && !(x > 0 && s.parent[x] == p) ==> SameQueue(t.nodes[x], s.nodes[x])
      decreases t.nodes[p].nrPending
    {
      var u, first := RbFirst(t, p);
      PreservedTrans(s, t, u);
      if first.None? {
        NonePending(t, p);
        break;
      }
      var g := first.value;
      MembersOf(u, p);
      DequeueBusy(u, g);
      var v := Dequeue(u, g);
      SamePreserved(u, v);
      PreservedTrans(s, u, v);
      var w := DrainGroup(v, g);
      PreservedTrans(s, v, w);
      PreservedShape(v, w);
      SameQueueChain(s, t, u, v, w, p, g);
      t := w;
    }
  }

  lemma PreservedShape(s: State, t: State)
    requires Preserved(s, t)
    ensures Shape(t) && t.parent == s.parent && |t.nodes| == |s.nodes|
  {
  }

  lemma SameQueueChain(s: State, t: State, u: State, v: State, w: State, p: nat, g: Tg)
    requires |s.nodes| == |t.nodes| == |u.nodes| == |v.nodes| == |w.nodes| == |s.parent|
    requires |v.parent| == |v.nodes|
    requires SameQueues(t, u) && SameQueues(u, v) && 0 < g < |s.nodes| && s.parent[g] == p == v.parent[g]
    requires forall x :: 0 <= x < |s.nodes| && x != p && !(x > 0 && s.parent[x] == p) ==> SameQueue(t.nodes[x], s.nodes[x])
    requires forall x :: 0 <= x < |v.nodes| && x != g && x != v.parent[g] ==> SameQueue(w.nodes[x], v.nodes[x])
    ensures forall x :: 0 <= x < |s.nodes| && x != p && !(x > 0 && s.parent[x] == p) ==> SameQueue(w.nodes[x], s.nodes[x])
  {
    forall x | 0 <= x < |s.nodes| && x != p && !(x > 0 && s.parent[x] == p)
      ensures SameQueue(w.nodes[x], s.nodes[x])
    {
      assert SameQueue(t.nodes[x], u.nodes[x]) && SameQueue(u.nodes[x], v.nodes[x]);
    }
  }

  lemma NonePending(s: State, p: nat)
    requires Inv(s, {}) && p < |s.nodes| && s.nodes[p].nrPending == 0
    ensures ChildrenEmpty(s, p)
  {
    hide NodeTreeOk, QueuesOk;
    MembersOf(s, p);
  }

  /** Taking a pending group off its tree to dispatch from it. */
  lemma DequeueBusy(s: State, g: Tg)
    requires Inv(s, {}) && 0 < g < |s.nodes| && s.nodes[g].onTree
    ensures s.nodes[s.parent[g]].nrPending > 0
    ensures var t := Dequeue(s, g);
            Inv(t, {g}) && SameQueues(s, t) && t.nodes[s.parent[g]].nrPending == s.nodes[s.parent[g]].nrPending - 1
  {
    hide NodeTreeOk, QueuesOk, Dequeue;
    DequeueKeeps(s, g);
    var t := Dequeue(s, g);
    QueuesFrame(s, t);
    forall x | 0 < x < |t.nodes|
      ensures if x in {g} then !t.nodes[x].onTree else (t.nodes[x].onTree <==> Holds(t.nodes[x]))
    {
      assert SameQueue(s.nodes[x], t.nodes[x]);
    }
  }

  /** A walk of all groups that meets every child before its parent, as blkg_for_each_descendant_post() does. */
  ghost predicate PostOrder(s: State, walk: seq<Tg>)
    requires Shape(s)
  {
    && (forall i :: 0 <= i < |walk| ==> 0 < walk[i] < |s.nodes|)
    && (forall g :: 0 < g < |s.nodes| ==> g in walk)
    && (forall i, j :: 0 <= i < |walk| && 0 <= j < |walk| && s.parent[walk[j]] == walk[i] ==> j < i)
  }

  /** The topmost group above n. */
  function Top(s: State, n: nat): nat
    requires Shape(s) && 0 < n < |s.nodes|
    decreases n
  {
    if s.parent[n] == 0 then n else Top(s, s.parent[n])
  }

  lemma {:induction false} FlowWhenEmpty(s: State, n: nat, d: bool, x: Source)
    requires Shape(s) && 0 < n < |s.nodes|
    requires forall m, e, y :: 0 < m < |s.nodes| ==> Bios(s, m, e, y) == []
    ensures Flow(s, n, d, x) == Bios(s, 0, d, Child(Top(s, n)))
    decreases n
  {
    if s.parent[n] != 0 {
      FlowWhenEmpty(s, s.parent[n], d, Child(n));
    }
  }

  lemma {:induction false} SumNrZero(nodes: seq<Node>, rw: bool, k: nat)
    requires k <= |nodes| && forall n :: 0 < n < |nodes| ==> nodes[n].Nr(rw) == 0
    ensures SumNr(nodes, rw, k) == 0
  {
    if k > 1 {
      SumNrZero(nodes, rw, k - 1);
    }
  }

  /** blk_throtl_drain() up to the issue loop: every group is empty, nothing is counted as queued any more, every
      bio is still there once, and each bio list is found in order on the list of its topmost group. */
  method Drain(s: State, walk: seq<Tg>) returns (t: State)
    requires Inv(s, {}) && PostOrder(s, walk)
    ensures Inv(t, {}) && Preserved(s, t) && t.parent == s.parent && |t.nodes| == |s.nodes|
    ensures forall g :: 0 < g < |t.nodes| ==> !Holds(t.nodes[g]) && !t.nodes[g].onTree && t.nodes[g].pending == []
    ensures t.tdReads == 0 && t.tdWrites == 0
    ensures forall n, d, x :: 0 < n < |t.nodes| ==> Bios(t, n, d, x) == []
    ensures forall n, d, x :: 0 < n < |s.nodes| ==> Within(Flow(s, n, d, x), Bios(t, 0, d, Child(Top(s, n))))
  {
    hide Preserved, QueuesOk, NodeTreeOk;
    t := s;
    PreservedSelf(s);
    for i := 0 to |walk|
      invariant Inv(t, {}) && Preserved(s, t) && t.parent == s.parent && |t.nodes| == |s.nodes|
      invariant forall k :: 0 <= k < i ==> ChildrenEmpty(t, walk[k])
    {
      var u := DrainBios(t, walk[i]);
      PreservedTrans(s, t, u);
      PreservedShape(t, u);
      forall k | 0 <= k < i
        ensures ChildrenEmpty(u, walk[k])
      {
        DrainedStays(t, u, walk, i, k);
      }
      t := u;
    }
    var u := DrainBios(t, 0);
    PreservedTrans(s, t, u);
    PreservedShape(t, u);
    AllDrained(t, u, walk);
    t := u;
    DrainedOrder(s, t);
  }

  lemma DrainedStays(t: State, u: State, walk: seq<Tg>, i: nat, k: nat)
    requires Shape(t) && Shape(u) && u.parent == t.parent && PostOrder(t, walk) && k < i < |walk|
    requires ChildrenEmpty(t, walk[k]) && ChildrenEmpty(u, walk[i])
    requires forall x :: 0 <= x < |t.nodes| && x != walk[i] && !(x > 0 && t.parent[x] == walk[i]) ==> SameQueue(u.nodes[x], t.nodes[x])
    ensures ChildrenEmpty(u, walk[k])
  {
    assert t.parent[walk[i]] != walk[k];
    forall c | 0 < c < |u.nodes| && u.parent[c] == walk[k]
      ensures !Holds(u.nodes[c])
    {
      assert c != walk[i];
    }
  }

  lemma AllDrained(t: State, u: State, walk: seq<Tg>)
    requires Shape(t) && Inv(u, {}) && u.parent == t.parent && PostOrder(t, walk)
    requires (forall k :: 0 <= k < |walk| ==> ChildrenEmpty(t, walk[k])) && ChildrenEmpty(u, 0)
    requires forall x :: 0 <= x < |t.nodes| && x != 0 && !(x > 0 && t.parent[x] == 0) ==> SameQueue(u.nodes[x], t.nodes[x])
    ensures forall g :: 0 < g < |u.nodes| ==> !Holds(u.nodes[g]) && !u.nodes[g].onTree && u.nodes[g].pending == []
    ensures u.tdReads == 0 && u.tdWrites == 0
    ensures forall n, d, x :: 0 < n < |u.nodes| ==> Bios(u, n, d, x) == []
  {
    hide QueuesOk, NodeTreeOk;
    forall g | 0 < g < |u.nodes|
      ensures !Holds(u.nodes[g]) && !u.nodes[g].onTree
    {
      var p := u.parent[g];
      if p > 0 {
        assert p in walk;
        assert ChildrenEmpty(t, p);
      }
    }
    SumNrZero(u.nodes, false, |u.nodes|);
    SumNrZero(u.nodes, true, |u.nodes|);
    forall g | 0 < g < |u.nodes|
      ensures u.nodes[g].pending == []
    {
      MembersOf(u, g);
      HeadIsMember(u.nodes[g].pending);
    }
    forall n, d, x | 0 < n < |u.nodes|
      ensures Bios(u, n, d, x) == []
    {
      EmptyNode(u, n, d);
    }
  }

  lemma DrainedOrder(s: State, t: State)
    requires Preserved(s, t)
    requires forall n, d, x :: 0 < n < |t.nodes| ==> Bios(t, n, d, x) == []
    ensures Shape(s) && Shape(t) && t.parent == s.parent
    ensures forall n, d, x :: 0 < n < |s.nodes| ==> Within(Flow(s, n, d, x), Bios(t, 0, d, Child(Top(s, n))))
  {
    forall n, d, x | 0 < n < |s.nodes|
      ensures Within(Flow(s, n, d, x), Bios(t, 0, d, Child(Top(s, n))))
    {
      FlowWhenEmpty(t, n, d, x);
      TopSame(s, t, n);
    }
  }

  lemma {:induction false} TopSame(s: State, t: State, n: nat)
    requires Shape(s) && Shape(t) && t.parent == s.parent && 0 < n < |s.nodes|
    ensures Top(t, n) == Top(s, n)
    decreases n
  {
    if s.parent[n] != 0 {
      TopSame(s, t, s.parent[n]);
    }
  }

  // ----- queueing and dispatch rounds

  /** The queueing tail of blk_throtl_bio(): src is Self, or the last group the bio passed on its climb. */
  function QueueBio(s: State, g: Tg, src: Source, rw: bool, b: Bio): State
    requires Shape(s) && 0 < g < |s.nodes|
  {
    Enqueue(Put(s.SetQueued(rw, s.Queued(rw) + 1), g, src, rw, b), g)
  }

  /** A bio handed to the group g, on the list of src. */
  datatype Entry = Entry(g: Tg, d: bool, src: Source, b: Bio)

  /** t is s with b behind the bios of src on g. */
  ghost predicate Added(s: State, t: State, e: Entry)
  {
    && Shape(s) && Shape(t) && t.parent == s.parent && 0 < e.g < |s.nodes|
    && Bios(t, e.g, e.d, e.src) == Bios(s, e.g, e.d, e.src) + [e.b]
    && forall n, d, x :: 0 <= n < |s.nodes| && !(n == e.g && d == e.d && x == e.src) ==> Bios(t, n, d, x) == Bios(s, n, d, x)
  }

  lemma AddedSomewhere(s: State, t: State, e: Entry, d: bool, b: Bio)
    requires Added(s, t, e)
    ensures Somewhere(t, d, b) <==> Somewhere(s, d, b) || (d == e.d && b == e.b)
  {
    if Somewhere(s, d, b) {
      var n, x :| 0 <= n < |s.nodes| && b in Bios(s, n, d, x);
      assert b in Bios(t, n, d, x);
    }
    if d == e.d && b == e.b {
      assert b in Bios(t, e.g, d, e.src);
    }
    if Somewhere(t, d, b) && !(d == e.d && b == e.b) {
      var n, x :| 0 <= n < |t.nodes| && b in Bios(t, n, d, x);
      assert b in Bios(s, n, d, x);
    }
  }

  /** A bio that is nowhere yet is held once afterwards. */
  lemma AddedUnique(s: State, t: State, e: Entry)
    requires Added(s, t, e) && Unique(s) && forall d :: !Somewhere(s, d, e.b)
    ensures Unique(t)
  {
    forall n, d, x | 0 <= n < |t.nodes|
      ensures NoDup(Bios(t, n, d, x))
    {
      assert NoDup(Bios(s, n, d, x));
      if n == e.g && d == e.d && x == e.src {
        assert !Somewhere(s, d, e.b);
        AppendMembers(Bios(s, n, d, x), e.b);
      }
    }
    forall n, d, x, b | 0 <= n < |t.nodes| && b in Bios(t, n, d, x)
      ensures if b == e.b then n == e.g && d == e.d && x == e.src else b in Bios(s, n, d, x)
    {
      assert !Somewhere(s, d, e.b);
    }
  }

  lemma QueueBioKeeps(s: State, g: Tg, src: Source, rw: bool, b: Bio)
    requires Inv(s, {}) && 0 < g < |s.nodes| && SourceOk(s, g, src)
    ensures Inv(QueueBio(s, g, src, rw, b), {}) && Added(s, QueueBio(s, g, src, rw, b), Entry(g, rw, src, b))
    ensures forall d, x :: Somewhere(QueueBio(s, g, src, rw, b), d, x) <==> Somewhere(s, d, x) || (d == rw && x == b)
    ensures Unique(s) && (forall d :: !Somewhere(s, d, b)) ==> Unique(QueueBio(s, g, src, rw, b))
  {
    hide QueuesOk, TreesOk, CountsOk, PendingOk, QueueBio, Somewhere, Unique;
    QueueBioAdds(s, g, src, rw, b);
    var t, e := QueueBio(s, g, src, rw, b), Entry(g, rw, src, b);
    QueueShape(s, e);
    forall d, x
      ensures Somewhere(t, d, x) <==> Somewhere(s, d, x) || (d == rw && x == b)
    {
      AddedSomewhere(s, t, e, d, x);
    }
    if Unique(s) && forall d :: !Somewhere(s, d, b) {
      AddedUnique(s, t, e);
    }
  }

  lemma QueueShape(s: State, e: Entry)
    requires Inv(s, {}) && 0 < e.g < |s.nodes|
    ensures QueueBio(s, e.g, e.src, e.d, e.b).parent == s.parent
  {
    hide AddBio, NodeTreeOk;
  }

  lemma QueueBioAdds(s: State, g: Tg, src: Source, rw: bool, b: Bio)
    requires Inv(s, {}) && 0 < g < |s.nodes| && SourceOk(s, g, src)
    ensures Inv(QueueBio(s, g, src, rw, b), {})
    ensures Bios(QueueBio(s, g, src, rw, b), g, rw, src) == Bios(s, g, rw, src) + [b]
    ensures forall n, d, x :: 0 <= n < |s.nodes| && !(n == g && d == rw && x == src) ==>
              Bios(QueueBio(s, g, src, rw, b), n, d, x) == Bios(s, n, d, x)
  {
    hide QueuesOk, CountsOk, TreesOk, AddBio, Enqueue, Put;
    QueuePut(s, g, src, rw, b);
    var s1 := Put(s.SetQueued(rw, s.Queued(rw) + 1), g, src, rw, b);
    EnqueueKeeps(s1, g);
    var t := Enqueue(s1, g);
    QueuesFrame(s1, t);
    CountsFrame(s1, t);
    BiosFrame(s1, t);
    forall x | 0 < x < |t.nodes|
      ensures t.nodes[x].onTree <==> Holds(t.nodes[x])
    {
      assert SameQueue(s1.nodes[x], t.nodes[x]);
    }
  }

  lemma CountsFrame(s: State, t: State)
    requires Shape(s) && SameQueues(s, t) && CountsOk(s)
    ensures CountsOk(t)
  {
    QueuesFrame(s, t);
  }

  /** The bio is on the group, which may still have to be put on its tree. */
  lemma QueuePut(s: State, g: Tg, src: Source, rw: bool, b: Bio)
    requires Inv(s, {}) && 0 < g < |s.nodes| && SourceOk(s, g, src)
    ensures var t := Put(s.SetQueued(rw, s.Queued(rw) + 1), g, src, rw, b);
            && Shape(t) && QueuesOk(t) && CountsOk(t) && TreesOk(t) && |t.nodes| == |s.nodes| && Holds(t.nodes[g])
            && (forall x :: 0 < x < |s.nodes| && x != g ==> t.nodes[x] == s.nodes[x])
            && Bios(t, g, rw, src) == Bios(s, g, rw, src) + [b]
            && forall n, d, x :: 0 <= n < |s.nodes| && !(n == g && d == rw && x == src) ==> Bios(t, n, d, x) == Bios(s, n, d, x)
  {
    hide QueuesOk, NodeTreeOk, AddBio;
    var s0 := s.SetQueued(rw, s.Queued(rw) + 1);
    QueuesTotal(s, s0);
    TreesIgnoreQueues(s, s0);
    PutKeeps(s0, g, src, rw, b);
    AddBioGets(s0.nodes[g].Queue(rw), src, b);
    TreesIgnoreQueues(s0, Put(s0, g, src, rw, b));
  }

  /** The end of tg_update_disptime(): re-enter the tree with a new dispatch time. */
  function Reschedule(s: State, g: Tg, disptime: int): State
    requires Shape(s) && 0 < g < |s.nodes|
  {
    Enqueue(s.(nodes := s.nodes[g := s.nodes[g].(disptime := disptime)]), g)
  }

  lemma RescheduleKeeps(s: State, g: Tg, disptime: int)
    requires Inv(s, {g}) && 0 < g < |s.nodes| && Holds(s.nodes[g])
    ensures Inv(Reschedule(s, g, disptime), {}) && SameQueues(s, Reschedule(s, g, disptime))
    ensures Reschedule(s, g, disptime).nodes[g].disptime == disptime
  {
    hide QueuesOk, NodeTreeOk, Enqueue;
    var s1 := s.(nodes := s.nodes[g := s.nodes[g].(disptime := disptime)]);
    forall p | 0 <= p < |s1.nodes|
      ensures NodeTreeOk(s1.nodes, s1.parent, p)
    {
      MembersOf(s, p);
      OffTreeKeyFree(s.nodes, s1.nodes, s.parent, p, g);
    }
    assert SameQueues(s, s1);
    QueuesFrame(s, s1);
    EnqueueKeeps(s1, g);
    var t := Enqueue(s1, g);
    QueuesFrame(s1, t);
    forall x | 0 <= x < |t.nodes|
      ensures SameQueue(s.nodes[x], t.nodes[x])
    {
      assert SameQueue(s1.nodes[x], t.nodes[x]);
    }
  }

  /** A group off its tree may change its dispatch time freely. */
  lemma OffTreeKeyFree(nodes: seq<Node>, nodes': seq<Node>, parent: seq<nat>, p: nat, g: Tg)
    requires |nodes| == |parent| && g < |nodes| && p < |nodes| && NodeTreeOk(nodes, parent, p) && !nodes[g].onTree
    requires |nodes'| == |nodes| && nodes'[g] == nodes[g].(disptime := nodes'[g].disptime)
    requires forall x :: 0 <= x < |nodes| && x != g ==> nodes'[x] == nodes[x]
    ensures NodeTreeOk(nodes', parent, p)
  {
    var l := nodes[p].pending;
    assert g !in l;
    forall i, j | 0 <= i < j < |l|
      ensures Key(nodes', l[i]) <= Key(nodes', l[j])
    {
      assert l[i] in l && l[j] in l;
    }
  }
}
