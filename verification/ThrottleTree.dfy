/**
 The hierarchy of kernel/block/blk-throttle.c: service queues, qnodes, pending trees and the drain.

 Node 0 is throtl_data, every other node a throtl_grp with a lower-numbered parent. Each node holds, for each
 direction, one bio list per source: its own bios, or what a child dispatched into it (the child's
 qnode_on_parent). When a group's bio may go is decided elsewhere; here any number of dispatches is allowed.
 */
module ThrottleTree {
  import opened Basics
  import opened Lists

  type Tg = nat
  type Bio = nat

  datatype Source = Self | Child(tg: Tg)

  /** sq->queued[rw] and the bio lists of the qnodes. */
  datatype DirQueue = DirQueue(order: seq<Source>, bios: map<Source, seq<Bio>>)
  {
    function Get(s: Source): seq<Bio> { if s in bios then bios[s] else [] }
  }

  /** A throtl_grp with its service queue (or the one of throtl_data). */
  datatype Node = Node(
    reads_: DirQueue, writes: DirQueue, nrReads: nat, nrWrites: nat,
    pending: seq<Tg>, first: Option<Tg>, nrPending: nat,   // the children waiting to dispatch into this node
    onTree: bool, disptime: int)                           // this node on its parent's tree
  {
    function Queue(rw: bool): DirQueue { if rw then writes else reads_ }

    function Nr(rw: bool): nat { if rw then nrWrites else nrReads }

    function SetQueue(rw: bool, q: DirQueue): Node { if rw then this.(writes := q) else this.(reads_ := q) }

    function SetNr(rw: bool, k: nat): Node { if rw then this.(nrWrites := k) else this.(nrReads := k) }
  }

  datatype State = State(nodes: seq<Node>, parent: seq<nat>, tdReads: nat, tdWrites: nat)
  {
    function Queued(rw: bool): nat { if rw then tdWrites else tdReads }

    function SetQueued(rw: bool, k: nat): State { if rw then this.(tdWrites := k) else this.(tdReads := k) }
  }

  predicate Shape(s: State) { |s.nodes| == |s.parent| && IsTree(s.parent) }

  function Bios(s: State, n: nat, rw: bool, src: Source): seq<Bio>
    requires n < |s.nodes|
  {
    s.nodes[n].Queue(rw).Get(src)
  }

  // ----- qnodes

  /** throtl_qnode_add_bio(). */
  function AddBio(q: DirQueue, src: Source, b: Bio): DirQueue
  {
    DirQueue(if src in q.order then q.order else q.order + [src], q.bios[src := q.Get(src) + [b]])
  }

  /** throtl_pop_queued(): take from the first qnode, then drop it if empty or move it to the tail. */
  function Pop(q: DirQueue): DirQueue
    requires q.order != [] && q.Get(q.order[0]) != []
  {
    var src := q.order[0];
    var rest := q.Get(src)[1..];
    DirQueue(q.order[1..] + if rest == [] then [] else [src], q.bios[src := rest])
  }

  ghost predicate QueueOk(q: DirQueue)
  {
    NoDup(q.order) && forall src :: src in q.order <==> q.Get(src) != []
  }

  /** Bios held on the listed qnodes. */
  function Held(order: seq<Source>, q: DirQueue): nat
  {
    if order == [] then 0 else |q.Get(order[0])| + Held(order[1..], q)
  }

  lemma {:induction false} HeldConcat(a: seq<Source>, b: seq<Source>, q: DirQueue)
    ensures Held(a + b, q) == Held(a, q) + Held(b, q)
  {
    if a == [] {
      assert a + b == b;
    } else {
      HeldConcat(a[1..], b, q);
      assert (a + b)[1..] == a[1..] + b;
    }
  }

  lemma {:induction false} HeldFrame(order: seq<Source>, q: DirQueue, q': DirQueue)
    requires forall src :: src in order ==> q.Get(src) == q'.Get(src)
    ensures Held(order, q) == Held(order, q')
  {
    if order != [] {
      HeldFrame(order[1..], q, q');
    }
  }

  lemma {:induction false} HeldSplit(order: seq<Source>, q: DirQueue, src: Source)
    requires NoDup(order) && src in order
    ensures Held(order, q) == |q.Get(src)| + Held(Remove(order, src), q)
  {
    if order[0] != src {
      HeldSplit(order[1..], q, src);
      assert [order[0]] + Remove(order[1..], src) == Remove(order, src);
      assert Remove(order, src)[1..] == Remove(order[1..], src);
    }
  }

  lemma AddBioKeeps(q: DirQueue, src: Source, b: Bio)
    requires QueueOk(q)
    ensures QueueOk(AddBio(q, src, b))
    ensures Held(AddBio(q, src, b).order, AddBio(q, src, b)) == Held(q.order, q) + 1
    ensures forall x :: AddBio(q, src, b).Get(x) == if x == src then q.Get(src) + [b] else q.Get(x)
  {
    var t := AddBio(q, src, b);
    if src in q.order {
      HeldSplit(q.order, q, src);
      HeldSplit(q.order, t, src);
      RemoveMembers(q.order, src);
      HeldFrame(Remove(q.order, src), q, t);
    } else {
      AppendMembers(q.order, src);
      HeldConcat(q.order, [src], t);
      HeldFrame(q.order, q, t);
    }
  }

  lemma PopKeeps(q: DirQueue)
    requires QueueOk(q) && q.order != []
    ensures q.Get(q.order[0]) != []
    ensures QueueOk(Pop(q))
    ensures Held(q.order, q) == Held(Pop(q).order, Pop(q)) + 1
    ensures forall x :: Pop(q).Get(x) == if x == q.order[0] then q.Get(x)[1..] else q.Get(x)
  {
    var src := q.order[0];
    assert src in q.order;
    var t := Pop(q);
    var tail := q.order[1..];
    assert q.order == [src] + tail;
    TailMembers(q.order);
    hide NoDup;
    HeldFrame(tail, q, t);
    if t.Get(src) == [] {
      assert t.order == tail;
    } else {
      AppendMembers(tail, src);
      HeldConcat(tail, [src], t);
    }
  }

  lemma EmptyQueue(q: DirQueue)
    requires QueueOk(q)
    ensures q.order == [] <==> Held(q.order, q) == 0
    ensures q.order == [] <==> forall src :: q.Get(src) == []
  {
    if q.order != [] {
      assert q.order[0] in q.order;
    }
  }

  // ----- the pending tree: children ordered by dispatch time

  function Key(nodes: seq<Node>, g: Tg): int { if g < |nodes| then nodes[g].disptime else 0 }

  /** Where tg_service_queue_add() links a key: after every child not later than it. */
  function Position(nodes: seq<Node>, l: seq<Tg>, key: int): (at: nat)
    ensures at <= |l|
  {
    if l == [] || key < Key(nodes, l[0]) then 0 else 1 + Position(nodes, l[1..], key)
  }

  ghost predicate Sorted(nodes: seq<Node>, l: seq<Tg>)
  {
    forall i, j :: 0 <= i < j < |l| ==> Key(nodes, l[i]) <= Key(nodes, l[j])
  }

  lemma {:induction false} PositionSplits(nodes: seq<Node>, l: seq<Tg>, key: int)
    requires Sorted(nodes, l)
    ensures forall i :: 0 <= i < Position(nodes, l, key) ==> Key(nodes, l[i]) <= key
    ensures forall i :: Position(nodes, l, key) <= i < |l| ==> key < Key(nodes, l[i])
  {
    if l != [] && Key(nodes, l[0]) <= key {
      PositionSplits(nodes, l[1..], key);
      var k := Position(nodes, l[1..], key);
      forall i | 0 <= i < |l|
        ensures i < 1 + k ==> Key(nodes, l[i]) <= key
        ensures i >= 1 + k ==> key < Key(nodes, l[i])
      {
        if i > 0 {
          assert l[i] == l[1..][i - 1];
        }
      }
    }
  }

  /** throtl_enqueue_tg(). */
  function Enqueue(s: State, g: Tg): State
    requires Shape(s) && 0 < g < |s.nodes|
  {
    if s.nodes[g].onTree then s
    else
      var p := s.parent[g];
      var l := s.nodes[p].pending;
      var at := Position(s.nodes, l, s.nodes[g].disptime);
      var up := s.nodes[p].(pending := l[..at] + [g] + l[at..],
                            first := if at == 0 then Some(g) else s.nodes[p].first,
                            nrPending := s.nodes[p].nrPending + 1);
      s.(nodes := s.nodes[p := up][g := s.nodes[g].(onTree := true)])
  }

  /** throtl_dequeue_tg(). */
  function Dequeue(s: State, g: Tg): State
    requires Shape(s) && 0 < g < |s.nodes|
    requires s.nodes[g].onTree ==> s.nodes[s.parent[g]].nrPending > 0
  {
    if !s.nodes[g].onTree then s
    else
      var p := s.parent[g];
      var n := s.nodes[p];
      var up := n.(pending := Remove(n.pending, g),
                   first := if n.first == Some(g) then None else n.first,
                   nrPending := n.nrPending - 1);
      s.(nodes := s.nodes[p := up][g := s.nodes[g].(onTree := false)])
  }

  // ----- the invariant

  predicate SourceOk(s: State, n: nat, src: Source)
    requires Shape(s)
  {
    match src
    case Self => n > 0
    case Child(c) => 0 < c < |s.parent| && s.parent[c] == n
  }

  /** Queues are well formed and, for groups, their counts are the bios held. */
  ghost predicate QueuesOk(s: State)
    requires Shape(s)
  {
    forall n, rw :: 0 <= n < |s.nodes| ==> NodeQueueOk(s, n, rw)
  }

  ghost predicate NodeQueueOk(s: State, n: nat, rw: bool)
    requires Shape(s) && n < |s.nodes|
  {
    var q := s.nodes[n].Queue(rw);
    && QueueOk(q)
    && (n > 0 ==> s.nodes[n].Nr(rw) == Held(q.order, q))
    && forall src :: src in q.order ==> SourceOk(s, n, src)
  }

  function SumNr(nodes: seq<Node>, rw: bool, k: nat): nat
    requires k <= |nodes|
  {
    if k <= 1 then 0 else SumNr(nodes, rw, k - 1) + nodes[k - 1].Nr(rw)
  }

  predicate CountsOk(s: State)
  {
    s.tdReads == SumNr(s.nodes, false, |s.nodes|) && s.tdWrites == SumNr(s.nodes, true, |s.nodes|)
  }

  /** The pending tree of p holds exactly its children marked pending, by dispatch time, with a sound cache. */
  ghost predicate NodeTreeOk(nodes: seq<Node>, parent: seq<nat>, p: nat)
    requires |nodes| == |parent| && p < |nodes|
  {
    var l := nodes[p].pending;
    && NoDup(l)
    && (forall g :: g in l ==> 0 < g < |nodes| && parent[g] == p && nodes[g].onTree)
    && (forall g :: 0 < g < |nodes| && parent[g] == p && nodes[g].onTree ==> g in l)
    && Sorted(nodes, l)
    && nodes[p].nrPending == |l|
    && (nodes[p].first == None || (l != [] && nodes[p].first == Some(l[0])))
  }

  ghost predicate TreesOk(s: State)
    requires Shape(s)
  {
    forall p :: 0 <= p < |s.nodes| ==> NodeTreeOk(s.nodes, s.parent, p)
  }

  predicate Holds(n: Node) { n.nrReads + n.nrWrites > 0 }

  /** A group is pending iff it holds bios; `busy` is a group taken off its tree to be dispatched. */
  ghost predicate PendingOk(s: State, busy: set<Tg>)
  {
    forall g :: 0 < g < |s.nodes| ==>
      if g in busy then !s.nodes[g].onTree else (s.nodes[g].onTree <==> Holds(s.nodes[g]))
  }

  ghost predicate Inv(s: State, busy: set<Tg>)
  {
    Shape(s) && QueuesOk(s) && CountsOk(s) && TreesOk(s) && PendingOk(s, busy)
  }

  // ----- pending tree steps

  lemma InsertAt<T>(l: seq<T>, at: nat, x: T)
    requires at <= |l| && NoDup(l) && x !in l
    ensures NoDup(l[..at] + [x] + l[at..])
    ensures forall y :: y in l[..at] + [x] + l[at..] <==> y in l || y == x
  {
    var r := l[..at] + [x] + l[at..];
    forall y | y in l
      ensures y in r
    {
      var i :| 0 <= i < |l| && l[i] == y;
      assert r[if i < at then i else i + 1] == y;
    }
  }

  lemma EnqueueTree(nodes: seq<Node>, parent: seq<nat>, p: nat, g: Tg, nodes': seq<Node>, at: nat)
    requires |nodes| == |parent| == |nodes'| && p < |nodes| && 0 < g < |nodes| && parent[g] == p && p != g
    requires NodeTreeOk(nodes, parent, p) && !nodes[g].onTree
    requires at == Position(nodes, nodes[p].pending, nodes[g].disptime)
    requires nodes'[p] == nodes[p].(pending := nodes[p].pending[..at] + [g] + nodes[p].pending[at..],
                                    first := if at == 0 then Some(g) else nodes[p].first,
                                    nrPending := nodes[p].nrPending + 1)
    requires nodes'[g] == nodes[g].(onTree := true)
    requires forall x :: 0 <= x < |nodes| && x != p && x != g ==> nodes'[x] == nodes[x]
    ensures NodeTreeOk(nodes', parent, p)
  {
    var l := nodes[p].pending;
    var l' := nodes'[p].pending;
    assert g !in l;
    InsertAt(l, at, g);
    InsertSorted(nodes, l, g, at);
    SortedFrame(nodes, nodes', l');
  }

  lemma InsertSorted(nodes: seq<Node>, l: seq<Tg>, g: Tg, at: nat)
    requires Sorted(nodes, l) && at == Position(nodes, l, Key(nodes, g))
    ensures Sorted(nodes, l[..at] + [g] + l[at..])
  {
    PositionSplits(nodes, l, Key(nodes, g));
    var l' := l[..at] + [g] + l[at..];
    forall i, j | 0 <= i < j < |l'|
      ensures Key(nodes, l'[i]) <= Key(nodes, l'[j])
    {
      assert l'[i] == if i < at then l[i] else if i == at then g else l[i - 1];
      assert l'[j] == if j < at then l[j] else if j == at then g else l[j - 1];
    }
  }

  lemma SortedFrame(nodes: seq<Node>, nodes': seq<Node>, l: seq<Tg>)
    requires forall x :: Key(nodes', x) == Key(nodes, x)
    requires Sorted(nodes, l)
    ensures Sorted(nodes', l)
  {
  }

  lemma RemoveSorted(nodes: seq<Node>, l: seq<Tg>, g: Tg)
    requires Sorted(nodes, l) && NoDup(l) && g in l
    ensures Sorted(nodes, Remove(l, g))
    ensures l[0] != g ==> Remove(l, g) != [] && Remove(l, g)[0] == l[0]
  {
    hide NoDup, Key;
    var r := Remove(l, g);
    forall i, j | 0 <= i < j < |r|
      ensures Key(nodes, r[i]) <= Key(nodes, r[j])
    {
      var i', j' := RemoveIndices(l, g, i, j);
    }
  }

  lemma DequeueTree(nodes: seq<Node>, parent: seq<nat>, p: nat, g: Tg, nodes': seq<Node>)
    requires |nodes| == |parent| == |nodes'| && p < |nodes| && 0 < g < |nodes| && parent[g] == p && p != g
    requires NodeTreeOk(nodes, parent, p) && nodes[g].onTree && nodes[p].nrPending > 0
    requires nodes'[p] == nodes[p].(pending := Remove(nodes[p].pending, g),
                                    first := if nodes[p].first == Some(g) then None else nodes[p].first,
                                    nrPending := nodes[p].nrPending - 1)
    requires nodes'[g] == nodes[g].(onTree := false)
    requires forall x :: 0 <= x < |nodes| && x != p && x != g ==> nodes'[x] == nodes[x]
    ensures NodeTreeOk(nodes', parent, p)
  {
    var l := nodes[p].pending;
    assert g in l;
    RemoveMembers(l, g);
    RemoveSorted(nodes, l, g);
    SortedFrame(nodes, nodes', Remove(l, g));
  }

  /** Nodes whose tree and dispatch data are untouched. */
  lemma TreeFrame(nodes: seq<Node>, nodes': seq<Node>, parent: seq<nat>, p: nat)
    requires |nodes| == |parent| == |nodes'| && p < |nodes|
    requires NodeTreeOk(nodes, parent, p)
    requires nodes'[p].pending == nodes[p].pending && nodes'[p].first == nodes[p].first && nodes'[p].nrPending == nodes[p].nrPending
    requires forall x :: 0 <= x < |nodes| && (parent[x] == p || x in nodes[p].pending) ==>
               nodes'[x].onTree == nodes[x].onTree && nodes'[x].disptime == nodes[x].disptime
    ensures NodeTreeOk(nodes', parent, p)
  {
    var l := nodes[p].pending;
    forall i, j | 0 <= i < j < |l|
      ensures Key(nodes', l[i]) <= Key(nodes', l[j])
    {
      assert l[i] in l && l[j] in l;
    }
  }

  /** Enqueueing a group keeps every pending tree, and touches nothing else. */
  lemma EnqueueKeeps(s: State, g: Tg)
    requires Shape(s) && TreesOk(s) && 0 < g < |s.nodes|
    ensures var t := Enqueue(s, g);
            && Shape(t) && TreesOk(t) && t.nodes[g].onTree
            && SameQueues(s, t)
            && (forall x :: 0 <= x < |s.nodes| && x != g ==> t.nodes[x].onTree == s.nodes[x].onTree)
            && (forall x :: 0 <= x < |s.nodes| ==> t.nodes[x].disptime == s.nodes[x].disptime)
  {
    hide NodeTreeOk;
    var t := Enqueue(s, g);
    if !s.nodes[g].onTree {
      var p := s.parent[g];
      EnqueueTree(s.nodes, s.parent, p, g, t.nodes, Position(s.nodes, s.nodes[p].pending, s.nodes[g].disptime));
      forall x | 0 <= x < |s.nodes| && x != p
        ensures NodeTreeOk(t.nodes, t.parent, x)
      {
        MembersOf(s, x);
        TreeFrame(s.nodes, t.nodes, s.parent, x);
      }
    }
  }

  lemma MembersOf(s: State, p: nat)
    requires Shape(s) && p < |s.nodes| && NodeTreeOk(s.nodes, s.parent, p)
    ensures forall c :: c in s.nodes[p].pending ==> 0 < c < |s.nodes| && s.parent[c] == p && s.nodes[c].onTree
    ensures forall c :: 0 < c < |s.nodes| && s.parent[c] == p && s.nodes[c].onTree ==> c in s.nodes[p].pending
    ensures s.nodes[p].nrPending == |s.nodes[p].pending|
  {
  }

  predicate SameQueue(n: Node, m: Node)
  {
    n.reads_ == m.reads_ && n.writes == m.writes && n.nrReads == m.nrReads && n.nrWrites == m.nrWrites
  }

  ghost predicate SameQueues(s: State, t: State)
  {
    && |t.nodes| == |s.nodes| && t.parent == s.parent && t.tdReads == s.tdReads && t.tdWrites == s.tdWrites
    && forall n :: 0 <= n < |s.nodes| ==> SameQueue(s.nodes[n], t.nodes[n])
  }

  lemma DequeueKeeps(s: State, g: Tg)
    requires Shape(s) && TreesOk(s) && 0 < g < |s.nodes|
    ensures s.nodes[g].onTree ==> s.nodes[s.parent[g]].nrPending > 0
    ensures var t := Dequeue(s, g);
            && Shape(t) && TreesOk(t) && !t.nodes[g].onTree
            && SameQueues(s, t)
            && (forall x :: 0 <= x < |s.nodes| && x != g ==> t.nodes[x].onTree == s.nodes[x].onTree)
            && (forall x :: 0 <= x < |s.nodes| ==> t.nodes[x].disptime == s.nodes[x].disptime)
            && (s.nodes[g].onTree ==> t.nodes[s.parent[g]].nrPending == s.nodes[s.parent[g]].nrPending - 1)
  {
    hide NodeTreeOk;
    var p := s.parent[g];
    MembersOf(s, p);
    if s.nodes[g].onTree {
      assert g in s.nodes[p].pending;
      var t := Dequeue(s, g);
      DequeueTree(s.nodes, s.parent, p, g, t.nodes);
      forall x | 0 <= x < |s.nodes| && x != p
        ensures NodeTreeOk(t.nodes, t.parent, x)
      {
        MembersOf(s, x);
        TreeFrame(s.nodes, t.nodes, s.parent, x);
      }
    }
  }

  // ----- moving bios

  function Take(s: State, g: Tg, rw: bool): State
    requires g < |s.nodes| && s.nodes[g].Queue(rw).order != []
    requires s.nodes[g].Queue(rw).Get(s.nodes[g].Queue(rw).order[0]) != [] && s.nodes[g].Nr(rw) > 0
  {
    s.(nodes := s.nodes[g := s.nodes[g].SetQueue(rw, Pop(s.nodes[g].Queue(rw))).SetNr(rw, s.nodes[g].Nr(rw) - 1)])
  }

  /** A bio lands on a node: on a group it is counted, on throtl_data it is ready to be issued. */
  function Put(s: State, n: nat, src: Source, rw: bool, b: Bio): State
    requires n < |s.nodes|
  {
    var m := s.nodes[n].SetQueue(rw, AddBio(s.nodes[n].Queue(rw), src, b));
    s.(nodes := s.nodes[n := if n > 0 then m.SetNr(rw, m.Nr(rw) + 1) else m])
  }

  function HeadBio(q: DirQueue): Bio
    requires q.order != [] && q.Get(q.order[0]) != []
  {
    q.Get(q.order[0])[0]
  }

  /** tg_dispatch_one_bio(). */
  function DispatchOne(s: State, g: Tg, rw: bool): State
    requires Inv(s, {g}) && 0 < g < |s.nodes| && s.nodes[g].Queue(rw).order != []
  {
    DispatchReady(s, g, rw);
    var b := HeadBio(s.nodes[g].Queue(rw));
    var p := s.parent[g];
    var t := Put(Take(s, g, rw), p, Child(g), rw, b);
    if p > 0 then Enqueue(t, p)
    else t.SetQueued(rw, t.Queued(rw) - 1)
  }

  lemma {:induction false} SumNrAtLeast(nodes: seq<Node>, rw: bool, k: nat, n: nat)
    requires 1 <= n < k <= |nodes|
    ensures SumNr(nodes, rw, k) >= nodes[n].Nr(rw)
  {
    if n < k - 1 {
      SumNrAtLeast(nodes, rw, k - 1, n);
    }
  }

  /** The queue to dispatch from really has a bio, and the totals count it. */
  lemma DispatchReady(s: State, g: Tg, rw: bool)
    requires Shape(s) && QueuesOk(s) && CountsOk(s) && 0 < g < |s.nodes| && s.nodes[g].Queue(rw).order != []
    ensures s.nodes[g].Queue(rw).Get(s.nodes[g].Queue(rw).order[0]) != []
    ensures s.nodes[g].Nr(rw) > 0 && s.Queued(rw) > 0                     // BUG_ON(td->nr_queued[rw] <= 0)
  {
    assert NodeQueueOk(s, g, rw);
    PopKeeps(s.nodes[g].Queue(rw));
    SumNrAtLeast(s.nodes, rw, |s.nodes|, g);
  }

  lemma {:induction false} SumNrUpdate(nodes: seq<Node>, nodes': seq<Node>, rw: bool, k: nat, n: nat)
    requires |nodes| == |nodes'| && k <= |nodes| && n < |nodes|
    requires forall x :: 0 <= x < |nodes| && x != n ==> nodes'[x].Nr(rw) == nodes[x].Nr(rw)
    ensures SumNr(nodes', rw, k) == SumNr(nodes, rw, k) + if 1 <= n < k then nodes'[n].Nr(rw) - nodes[n].Nr(rw) else 0
  {
    if k > 1 {
      SumNrUpdate(nodes, nodes', rw, k - 1, n);
    }
  }

  lemma {:induction false} SumNrFrame(nodes: seq<Node>, nodes': seq<Node>, rw: bool, k: nat)
    requires |nodes| == |nodes'| && k <= |nodes|
    requires forall x :: 0 <= x < |nodes| ==> nodes'[x].Nr(rw) == nodes[x].Nr(rw)
    ensures SumNr(nodes', rw, k) == SumNr(nodes, rw, k)
  {
    if k > 1 {
      SumNrFrame(nodes, nodes', rw, k - 1);
    }
  }

  /** Trees do not depend on the queues. */
  lemma TreesIgnoreQueues(s: State, t: State)
    requires Shape(s) && TreesOk(s) && |t.nodes| == |s.nodes| && t.parent == s.parent
    requires forall x :: 0 <= x < |s.nodes| ==>
               t.nodes[x].pending == s.nodes[x].pending && t.nodes[x].first == s.nodes[x].first &&
               t.nodes[x].nrPending == s.nodes[x].nrPending && t.nodes[x].onTree == s.nodes[x].onTree &&
               t.nodes[x].disptime == s.nodes[x].disptime
    ensures TreesOk(t)
  {
    hide NodeTreeOk;
    forall p | 0 <= p < |t.nodes|
      ensures NodeTreeOk(t.nodes, t.parent, p)
    {
      MembersOf(s, p);
      TreeFrame(s.nodes, t.nodes, s.parent, p);
    }
  }

  lemma TakeKeeps(s: State, g: Tg, rw: bool)
    requires Shape(s) && QueuesOk(s) && 0 < g < |s.nodes| && s.nodes[g].Queue(rw).order != []
    requires s.nodes[g].Queue(rw).Get(s.nodes[g].Queue(rw).order[0]) != [] && s.nodes[g].Nr(rw) > 0
    ensures var t := Take(s, g, rw);
            && Shape(t) && QueuesOk(t)
            && SumNr(t.nodes, rw, |t.nodes|) == SumNr(s.nodes, rw, |s.nodes|) - 1
            && SumNr(t.nodes, !rw, |t.nodes|) == SumNr(s.nodes, !rw, |s.nodes|)
  {
    hide QueueOk, Held, Pop;
    var t := Take(s, g, rw);
    assert NodeQueueOk(s, g, rw);
    PopKeeps(s.nodes[g].Queue(rw));
    PopSources(s.nodes[g].Queue(rw));
    SumNrUpdate(s.nodes, t.nodes, rw, |s.nodes|, g);
    SumNrFrame(s.nodes, t.nodes, !rw, |s.nodes|);
    forall n, d | 0 <= n < |t.nodes|
      ensures NodeQueueOk(t, n, d)
    {
      assert NodeQueueOk(s, n, d);
    }
  }

  lemma PopSources(q: DirQueue)
    requires q.order != [] && q.Get(q.order[0]) != []
    ensures forall src :: src in Pop(q).order ==> src in q.order
  {
    assert q.order[0] in q.order;
  }

  lemma PutKeeps(s: State, n: nat, src: Source, rw: bool, b: Bio)
    requires Shape(s) && QueuesOk(s) && n < |s.nodes| && SourceOk(s, n, src)
    ensures var t := Put(s, n, src, rw, b);
            && Shape(t) && QueuesOk(t)
            && SumNr(t.nodes, rw, |t.nodes|) == SumNr(s.nodes, rw, |s.nodes|) + (if n > 0 then 1 else 0)
            && SumNr(t.nodes, !rw, |t.nodes|) == SumNr(s.nodes, !rw, |s.nodes|)
  {
    hide QueueOk, Held, AddBio;
    var t := Put(s, n, src, rw, b);
    assert NodeQueueOk(s, n, rw);
    AddBioKeeps(s.nodes[n].Queue(rw), src, b);
    AddBioSources(s.nodes[n].Queue(rw), src, b);
    SumNrUpdate(s.nodes, t.nodes, rw, |s.nodes|, n);
    SumNrFrame(s.nodes, t.nodes, !rw, |s.nodes|);
    hide SumNr;
    forall m, d | 0 <= m < |t.nodes|
      ensures NodeQueueOk(t, m, d)
    {
      assert NodeQueueOk(s, m, d);
    }
  }

  lemma AddBioSources(q: DirQueue, src: Source, b: Bio)
    ensures forall x :: x in AddBio(q, src, b).order <==> x in q.order || x == src
  {
  }

  lemma QueuesFrame(s: State, t: State)
    requires Shape(s) && SameQueues(s, t)
    ensures QueuesOk(s) ==> QueuesOk(t)
    ensures SumNr(t.nodes, false, |t.nodes|) == SumNr(s.nodes, false, |s.nodes|)
    ensures SumNr(t.nodes, true, |t.nodes|) == SumNr(s.nodes, true, |s.nodes|)
  {
    SumNrFrame(s.nodes, t.nodes, false, |s.nodes|);
    SumNrFrame(s.nodes, t.nodes, true, |s.nodes|);
    if QueuesOk(s) {
      forall n, rw | 0 <= n < |t.nodes|
        ensures NodeQueueOk(t, n, rw)
      {
        assert NodeQueueOk(s, n, rw) && SameQueue(s.nodes[n], t.nodes[n]);
      }
    }
  }

  function Transfer(s: State, g: Tg, rw: bool): State
    requires Shape(s) && 0 < g < |s.nodes| && s.nodes[g].Queue(rw).order != []
    requires s.nodes[g].Queue(rw).Get(s.nodes[g].Queue(rw).order[0]) != [] && s.nodes[g].Nr(rw) > 0
  {
    Put(Take(s, g, rw), s.parent[g], Child(g), rw, HeadBio(s.nodes[g].Queue(rw)))
  }

  predicate SameTree(n: Node, m: Node)
  {
    n.pending == m.pending && n.first == m.first && n.nrPending == m.nrPending && n.onTree == m.onTree && n.disptime == m.disptime
  }

  /** One bio leaves g for its parent; pending data and all other counts stay. */
  lemma TransferFrame(s: State, g: Tg, rw: bool)
    requires Shape(s) && 0 < g < |s.nodes| && s.nodes[g].Queue(rw).order != []
    requires s.nodes[g].Queue(rw).Get(s.nodes[g].Queue(rw).order[0]) != [] && s.nodes[g].Nr(rw) > 0
    ensures var t := Transfer(s, g, rw);
            && Shape(t) && t.parent == s.parent && |t.nodes| == |s.nodes| && t.tdReads == s.tdReads && t.tdWrites == s.tdWrites
            && (forall x :: 0 <= x < |s.nodes| ==> SameTree(t.nodes[x], s.nodes[x]))
            && (forall x :: 0 <= x < |s.nodes| && x != g && x != s.parent[g] ==> t.nodes[x] == s.nodes[x])
            && t.nodes[g].Nr(rw) == s.nodes[g].Nr(rw) - 1 && t.nodes[g].Nr(!rw) == s.nodes[g].Nr(!rw)
            && (s.parent[g] > 0 ==> Holds(t.nodes[s.parent[g]]))
  {
    hide Pop, AddBio, HeadBio;
  }

  lemma TransferKeeps(s: State, g: Tg, rw: bool)
    requires Shape(s) && QueuesOk(s) && 0 < g < |s.nodes| && s.nodes[g].Queue(rw).order != []
    requires s.nodes[g].Queue(rw).Get(s.nodes[g].Queue(rw).order[0]) != [] && s.nodes[g].Nr(rw) > 0
    ensures var t := Transfer(s, g, rw);
            && Shape(t) && QueuesOk(t)
            && SumNr(t.nodes, rw, |t.nodes|) == SumNr(s.nodes, rw, |s.nodes|) - (if s.parent[g] > 0 then 0 else 1)
            && SumNr(t.nodes, !rw, |t.nodes|) == SumNr(s.nodes, !rw, |s.nodes|)
  {
    hide QueuesOk, Take, Put;
    TakeKeeps(s, g, rw);
    TakeShape(s, g, rw);
    PutKeeps(Take(s, g, rw), s.parent[g], Child(g), rw, HeadBio(s.nodes[g].Queue(rw)));
  }

  lemma TakeShape(s: State, g: Tg, rw: bool)
    requires Shape(s) && 0 < g < |s.nodes| && s.nodes[g].Queue(rw).order != []
    requires s.nodes[g].Queue(rw).Get(s.nodes[g].Queue(rw).order[0]) != [] && s.nodes[g].Nr(rw) > 0
    ensures Take(s, g, rw).parent == s.parent && |Take(s, g, rw).nodes| == |s.nodes|
  {
  }

  /** One dispatch keeps every count, queue and pending tree. */
  lemma DispatchOneKeeps(s: State, g: Tg, rw: bool)
    requires Inv(s, {g}) && 0 < g < |s.nodes| && s.nodes[g].Queue(rw).order != []
    ensures var t := DispatchOne(s, g, rw);
            && Inv(t, {g}) && t.parent == s.parent
            && t.nodes[g].Nr(rw) == s.nodes[g].Nr(rw) - 1 && t.nodes[g].Nr(!rw) == s.nodes[g].Nr(!rw)
            && (forall x :: 0 <= x < |s.nodes| && x != s.parent[g] && x != g ==> SameQueue(t.nodes[x], s.nodes[x]))
            && t.nodes[s.parent[g]].nrPending == s.nodes[s.parent[g]].nrPending
  {
    hide QueuesOk, NodeTreeOk, Transfer, DispatchOne;
    DispatchReady(s, g, rw);
    TransferFrame(s, g, rw);
    TransferKeeps(s, g, rw);
    TransferIs(s, g, rw);
    var s2 := Transfer(s, g, rw);
    TreesIgnoreQueues(s, s2);
    if s.parent[g] > 0 {
      DispatchToGroup(s, s2, g);
    } else {
      DispatchToTop(s, s2, g, rw);
    }
  }

  /** The bio reaches throtl_data and no longer counts as queued. */
  lemma DispatchToTop(s: State, s2: State, g: Tg, rw: bool)
    requires Shape(s) && 0 < g < |s.nodes| && s.parent[g] == 0 && PendingOk(s, {g}) && s2.Queued(rw) > 0
    requires Shape(s2) && s2.parent == s.parent && QueuesOk(s2) && TreesOk(s2)
    requires forall x :: 0 <= x < |s.nodes| ==> SameTree(s2.nodes[x], s.nodes[x])
    requires forall x :: 0 <= x < |s.nodes| && x != g && x != 0 ==> s2.nodes[x] == s.nodes[x]
    requires SumNr(s2.nodes, rw, |s2.nodes|) == s2.Queued(rw) - 1 && SumNr(s2.nodes, !rw, |s2.nodes|) == s2.Queued(!rw)
    ensures Inv(s2.SetQueued(rw, s2.Queued(rw) - 1), {g})
  {
    hide QueuesOk, NodeTreeOk;
    var t := s2.SetQueued(rw, s2.Queued(rw) - 1);
    QueuesTotal(s2, t);
    TreesIgnoreQueues(s2, t);
    forall x | 0 < x < |t.nodes|
      ensures if x in {g} then !t.nodes[x].onTree else (t.nodes[x].onTree <==> Holds(t.nodes[x]))
    {
      assert SameTree(s2.nodes[x], s.nodes[x]);
    }
  }

  lemma TransferIs(s: State, g: Tg, rw: bool)
    requires Shape(s) && Inv(s, {g}) && 0 < g < |s.nodes| && s.nodes[g].Queue(rw).order != []
    requires s.nodes[g].Queue(rw).Get(s.nodes[g].Queue(rw).order[0]) != [] && s.nodes[g].Nr(rw) > 0 && s.Queued(rw) > 0
    ensures var s2 := Transfer(s, g, rw);
            && Shape(s2) && s2.Queued(rw) > 0 && |s2.nodes| == |s.nodes|
            && DispatchOne(s, g, rw) == if s.parent[g] > 0 then Enqueue(s2, s.parent[g]) else s2.SetQueued(rw, s2.Queued(rw) - 1)
  {
    hide Inv, Enqueue, Pop, AddBio, HeadBio;
  }

  /** The parent group now holds a bio and joins its own parent's tree. */
  lemma DispatchToGroup(s: State, s2: State, g: Tg)
    requires Shape(s) && 0 < g < |s.nodes| && s.parent[g] > 0 && PendingOk(s, {g}) && CountsOk(s2)
    requires Shape(s2) && s2.parent == s.parent && QueuesOk(s2) && TreesOk(s2)
    requires forall x :: 0 <= x < |s.nodes| ==> SameTree(s2.nodes[x], s.nodes[x])
    requires forall x :: 0 <= x < |s.nodes| && x != g && x != s.parent[g] ==> s2.nodes[x] == s.nodes[x]
    requires Holds(s2.nodes[s.parent[g]])
    ensures var t := Enqueue(s2, s.parent[g]); Inv(t, {g}) && SameQueues(s2, t)
    ensures Enqueue(s2, s.parent[g]).nodes[s.parent[g]].nrPending == s2.nodes[s.parent[g]].nrPending
  {
    hide QueuesOk, NodeTreeOk, Enqueue;
    var p := s.parent[g];
    EnqueueKeeps(s2, p);
    var t := Enqueue(s2, p);
    QueuesFrame(s2, t);
    EnqueueOwnTree(s2, p);
    forall x | 0 < x < |t.nodes|
      ensures if x in {g} then !t.nodes[x].onTree else (t.nodes[x].onTree <==> Holds(t.nodes[x]))
    {
      assert SameQueue(s2.nodes[x], t.nodes[x]);
      assert SameTree(s2.nodes[x], s.nodes[x]);
    }
  }

  lemma EnqueueOwnTree(s: State, p: Tg)
    requires Shape(s) && 0 < p < |s.nodes|
    ensures Enqueue(s, p).nodes[p].nrPending == s.nodes[p].nrPending && Enqueue(s, p).nodes[p].pending == s.nodes[p].pending
  {
  }

  lemma QueuesTotal(s: State, t: State)
    requires Shape(s) && QueuesOk(s) && t.nodes == s.nodes && t.parent == s.parent
    ensures QueuesOk(t)
  {
    forall n, rw | 0 <= n < |t.nodes|
      ensures NodeQueueOk(t, n, rw)
    {
      assert NodeQueueOk(s, n, rw);
    }
  }

  // ----- order: what happens to the bios themselves

  /** One bio moved from the head of list (g, src) to the tail of list (parent, Child(g)); no other list changed. */
  ghost predicate Moved(s: State, t: State, g: Tg, rw: bool, src: Source)
    requires Shape(s) && 0 < g < |s.nodes|
  {
    && Shape(t) && t.parent == s.parent
    && Bios(s, g, rw, src) != []
    && Bios(t, g, rw, src) == Bios(s, g, rw, src)[1..]
    && Bios(t, s.parent[g], rw, Child(g)) == Bios(s, s.parent[g], rw, Child(g)) + [Bios(s, g, rw, src)[0]]
    && forall n, d, x :: 0 <= n < |s.nodes| && !(n == g && d == rw && x == src) && !(n == s.parent[g] && d == rw && x == Child(g)) ==>
         Bios(t, n, d, x) == Bios(s, n, d, x)
  }

  lemma DispatchOneMoves(s: State, g: Tg, rw: bool)
    requires Inv(s, {g}) && 0 < g < |s.nodes| && s.nodes[g].Queue(rw).order != []
    ensures Moved(s, DispatchOne(s, g, rw), g, rw, s.nodes[g].Queue(rw).order[0])
  {
    hide QueuesOk, NodeTreeOk, Enqueue, CountsOk, PendingOk;
    DispatchReady(s, g, rw);
    var p := s.parent[g];
    var q := s.nodes[g].Queue(rw);
    var s1 := Take(s, g, rw);
    PopGets(q);
    var s2 := Transfer(s, g, rw);
    AddBioGets(s1.nodes[p].Queue(rw), Child(g), HeadBio(q));
    TransferIs(s, g, rw);
    MoveGets(s, g, rw);
    var t := DispatchOne(s, g, rw);
    if p > 0 {
      TransferFrame(s, g, rw);
      TransferKeeps(s, g, rw);
      TreesIgnoreQueues(s, s2);
      EnqueueKeeps(s2, p);
      BiosFrame(s2, t);
    }
  }

  lemma PopGets(q: DirQueue)
    requires q.order != [] && q.Get(q.order[0]) != []
    ensures forall x :: Pop(q).Get(x) == if x == q.order[0] then q.Get(x)[1..] else q.Get(x)
  {
  }

  lemma AddBioGets(q: DirQueue, src: Source, b: Bio)
    ensures forall x :: AddBio(q, src, b).Get(x) == if x == src then q.Get(src) + [b] else q.Get(x)
  {
  }

  lemma BiosFrame(s: State, t: State)
    requires SameQueues(s, t)
    ensures forall n, d, x :: 0 <= n < |s.nodes| ==> Bios(t, n, d, x) == Bios(s, n, d, x)
  {
    forall n, d, x | 0 <= n < |s.nodes|
      ensures Bios(t, n, d, x) == Bios(s, n, d, x)
    {
      assert SameQueue(s.nodes[n], t.nodes[n]);
    }
  }

  lemma MoveGets(s: State, g: Tg, rw: bool)
    requires Shape(s) && 0 < g < |s.nodes| && s.nodes[g].Queue(rw).order != []
    requires s.nodes[g].Queue(rw).Get(s.nodes[g].Queue(rw).order[0]) != [] && s.nodes[g].Nr(rw) > 0
    ensures Moved(s, Transfer(s, g, rw), g, rw, s.nodes[g].Queue(rw).order[0])
  {
    hide Pop, AddBio;
    var q := s.nodes[g].Queue(rw);
    var p := s.parent[g];
    PopGets(q);
    AddBioGets(s.nodes[p].Queue(rw), Child(g), HeadBio(q));
    var t := Transfer(s, g, rw);
    assert t.nodes[g].Queue(rw) == Pop(q) && t.nodes[g].Queue(!rw) == s.nodes[g].Queue(!rw);
    assert t.nodes[p].Queue(rw) == AddBio(s.nodes[p].Queue(rw), Child(g), HeadBio(q)) && t.nodes[p].Queue(!rw) == s.nodes[p].Queue(!rw);
    forall n, d, x | 0 <= n < |s.nodes| && !(n == g && d == rw && x == q.order[0]) && !(n == p && d == rw && x == Child(g))
      ensures Bios(t, n, d, x) == Bios(s, n, d, x)
    {
    }
  }

  /** All that is on its way up past (n, src): first what is nearest the top. */
  function Flow(s: State, n: nat, rw: bool, src: Source): seq<Bio>
    requires Shape(s) && n < |s.nodes|
    decreases n
  {
    if n == 0 then Bios(s, 0, rw, src) else Flow(s, s.parent[n], rw, Child(n)) + Bios(s, n, rw, src)
  }

  /** f embeds a into b in order. */
  ghost predicate Embeds<T>(a: seq<T>, b: seq<T>, f: seq<nat>)
  {
    && |f| == |a|
    && (forall i :: 0 <= i < |a| ==> f[i] < |b| && b[f[i]] == a[i])
    && forall i, j :: 0 <= i < j < |f| ==> f[i] < f[j]
  }

  /** a is a subsequence of b. */
  ghost predicate Within<T(!new)>(a: seq<T>, b: seq<T>)
  {
    exists f :: Embeds(a, b, f)
  }

  lemma WithinPrefix<T(!new)>(a: seq<T>, b: seq<T>)
    ensures Within(a, a + b)
  {
    assert Embeds(a, a + b, seq(|a|, i => i));
  }

  lemma WithinSelf<T(!new)>(a: seq<T>)
    ensures Within(a, a)
  {
    assert Embeds(a, a, seq(|a|, i => i));
  }

  lemma WithinTrans<T(!new)>(a: seq<T>, b: seq<T>, c: seq<T>)
    requires Within(a, b) && Within(b, c)
    ensures Within(a, c)
  {
    var f :| Embeds(a, b, f);
    var h :| Embeds(b, c, h);
    assert Embeds(a, c, seq(|a|, i requires 0 <= i < |a| => h[f[i]]));
  }

  lemma WithinAppend<T(!new)>(a: seq<T>, b: seq<T>, c: seq<T>)
    requires Within(a, b)
    ensures Within(a + c, b + c)
  {
    var f :| Embeds(a, b, f);
    var h := f + seq(|c|, i => |b| + i);
    forall i | 0 <= i < |a + c|
      ensures h[i] < |b + c| && (b + c)[h[i]] == (a + c)[i]
    {
      if i < |a| {
        assert h[i] == f[i];
      }
    }
    assert Embeds(a + c, b + c, h);
  }

  lemma FlowAbove(s: State, t: State, g: Tg, rw: bool, src: Source, n: nat, d: bool, x: Source)
    requires Shape(s) && 0 < g < |s.nodes| && Moved(s, t, g, rw, src) && n < s.parent[g]
    ensures Flow(t, n, d, x) == Flow(s, n, d, x)
    decreases n
  {
    if n > 0 {
      FlowAbove(s, t, g, rw, src, s.parent[n], d, Child(n));
    }
  }

  /** A dispatch reorders nothing: every flow only gains bios from other sources. */
  lemma FlowMoves(s: State, t: State, g: Tg, rw: bool, src: Source, n: nat, d: bool, x: Source)
    requires Shape(s) && 0 < g < |s.nodes| && Moved(s, t, g, rw, src) && n < |s.nodes|
    ensures Within(Flow(s, n, d, x), Flow(t, n, d, x))
    decreases n
  {
    var p := s.parent[g];
    var b := Bios(s, g, rw, src)[0];
    if n == p && d == rw && x == Child(g) {
      FlowAtParent(s, t, g, rw, src);
      WithinPrefix(Flow(s, n, d, x), [b]);
    } else if n == g && d == rw && x == src {
      FlowAtParent(s, t, g, rw, src);
      assert Flow(t, n, d, x) == Flow(s, p, rw, Child(g)) + [b] + Bios(s, g, rw, src)[1..];
      assert Flow(t, n, d, x) == Flow(s, n, d, x);
      WithinSelf(Flow(s, n, d, x));
    } else if n == 0 {
      WithinSelf(Flow(s, n, d, x));
    } else {
      FlowMoves(s, t, g, rw, src, s.parent[n], d, Child(n));
      WithinAppend(Flow(s, s.parent[n], d, Child(n)), Flow(t, s.parent[n], d, Child(n)), Bios(s, n, d, x));
    }
  }

  lemma FlowAtParent(s: State, t: State, g: Tg, rw: bool, src: Source)
    requires Shape(s) && 0 < g < |s.nodes| && Moved(s, t, g, rw, src)
    ensures Flow(t, s.parent[g], rw, Child(g)) == Flow(s, s.parent[g], rw, Child(g)) + [Bios(s, g, rw, src)[0]]
  {
    var p := s.parent[g];
    if p > 0 {
      FlowAbove(s, t, g, rw, src, s.parent[p], rw, Child(p));
    }
  }
}
