/**
 Cooperating queues of the CFQ scheduler, kernel/block/cfq-iosched.c.

 Processes that access the same area get their sync queues merged: new_cfqq links a queue to the one its processes
 should move to. An io context holds a reference on its own queue and, through the merge, on every queue further
 along the chain. Queues are named by ids that are never reused; a queue whose ref is zero is freed. `stamp` is the
 time a queue got its link.
 */
module CfqCoop {
  import opened Basics

  type Q = nat
  type Cic = nat
  type Rq = nat

  datatype Queue = Queue(ref: int, alloc: int, next: Option<Q>, stamp: nat)

  type Queues = map<Q, Queue>

  datatype State = State(
    queues: Queues,
    cics: map<Cic, Option<Q>>,        // cic->cfqq[BLK_RW_SYNC]; None when absent or the oom queue
    requests: map<Rq, Q>,             // rq->elv.priv[0]
    clock: nat)

  // ----- chains

  /** Links lead to known queues, and along a chain each was made later than the one before. */
  predicate Forest(queues: Queues, clock: nat)
  {
    forall q :: q in queues && queues[q].next.Some? ==>
      var p := queues[q].next.value;
      p in queues && queues[q].stamp < clock && (queues[p].next.Some? ==> queues[q].stamp < queues[p].stamp)
  }

  /** The queues a walk along new_cfqq meets, starting with q. That it is defined is that every walk ends. */
  function Chain(queues: Queues, clock: nat, q: Q): (l: seq<Q>)
    requires Forest(queues, clock) && q in queues
    ensures l != [] && l[0] == q
    ensures forall p :: p in l ==> p in queues
    decreases if queues[q].next.None? then 0 else clock - queues[q].stamp
  {
    match queues[q].next
    case None => [q]
    case Some(p) => [q] + Chain(queues, clock, p)
  }

  /** The end of the chain, which has no link. */
  function Root(queues: Queues, clock: nat, q: Q): Q
    requires Forest(queues, clock) && q in queues
  {
    Chain(queues, clock, q)[|Chain(queues, clock, q)| - 1]
  }

  /** q is not met again further on: no walk loops. */
  lemma {:induction false} ChainAcyclic(queues: Queues, clock: nat, q: Q)
    requires Forest(queues, clock) && q in queues
    ensures q !in Chain(queues, clock, q)[1..]
    ensures forall p :: p in Chain(queues, clock, q)[1..] && queues[p].next.Some? ==>
              queues[q].next.Some? && queues[q].stamp < queues[p].stamp
    decreases if queues[q].next.None? then 0 else clock - queues[q].stamp
  {
    if queues[q].next.Some? {
      var p := queues[q].next.value;
      ChainAcyclic(queues, clock, p);
      var l := Chain(queues, clock, p);
      assert l == [p] + l[1..];
      assert Chain(queues, clock, q)[1..] == l;
    }
  }

  /** Exactly the last queue of a chain has no link. */
  lemma {:induction false} RootEnds(queues: Queues, clock: nat, q: Q)
    requires Forest(queues, clock) && q in queues
    ensures Root(queues, clock, q) in queues && queues[Root(queues, clock, q)].next.None?
    ensures forall p :: p in Chain(queues, clock, q) && queues[p].next.None? ==> p == Root(queues, clock, q)
    ensures Root(queues, clock, q) in Chain(queues, clock, q)
    decreases if queues[q].next.None? then 0 else clock - queues[q].stamp
  {
    if queues[q].next.Some? {
      var p := queues[q].next.value;
      RootEnds(queues, clock, p);
      assert Root(queues, clock, q) == Root(queues, clock, p);
    }
  }

  /** Chains depend only on the links. */
  lemma {:induction false} ChainFrame(queues: Queues, queues': Queues, clock: nat, clock': nat, q: Q)
    requires Forest(queues, clock) && Forest(queues', clock') && q in queues
    requires forall p :: p in queues ==> p in queues' && queues'[p].next == queues[p].next
    ensures Chain(queues', clock', q) == Chain(queues, clock, q)
    decreases if queues[q].next.None? then 0 else clock - queues[q].stamp
  {
    if queues[q].next.Some? {
      ChainFrame(queues, queues', clock, clock', queues[q].next.value);
    }
  }

  /** Linking root a to root b appends b to every chain that ends in a. */
  lemma {:induction false} ChainLink(queues: Queues, queues': Queues, clock: nat, a: Q, b: Q, q: Q)
    requires Forest(queues, clock) && Forest(queues', clock + 1) && q in queues && a in queues && b in queues && a != b
    requires queues[a].next.None? && queues[b].next.None?
    requires queues'.Keys == queues.Keys && queues'[a].next == Some(b)
    requires forall p :: p in queues && p != a ==> queues'[p].next == queues[p].next
    ensures Chain(queues', clock + 1, q) == Chain(queues, clock, q) + (if a in Chain(queues, clock, q) then [b] else [])
    decreases if queues[q].next.None? then 0 else clock - queues[q].stamp
  {
    if queues[q].next.Some? {
      var p := queues[q].next.value;
      assert q != a;
      ChainLink(queues, queues', clock, a, b, p);
      assert a in Chain(queues, clock, q) <==> a in Chain(queues, clock, p);
    } else if q == a {
      assert Chain(queues', clock + 1, b) == [b];
    }
  }

  // ----- the invariant

  predicate Known(s: State)
  {
    && (forall c :: c in s.cics && s.cics[c].Some? ==> s.cics[c].value in s.queues)
    && (forall r :: r in s.requests ==> s.requests[r] in s.queues)
  }

  /** The io contexts whose chain meets q. */
  function Reachers(queues: Queues, clock: nat, cics: map<Cic, Option<Q>>, q: Q): set<Cic>
    requires Forest(queues, clock)
    requires forall c :: c in cics && cics[c].Some? ==> cics[c].value in queues
  {
    set c | c in cics && cics[c].Some? && q in Chain(queues, clock, cics[c].value)
  }

  function Owned(requests: map<Rq, Q>, q: Q): set<Rq> { set r | r in requests && requests[r] == q }

  /** A queue's allocated count is the number of its requests. */
  ghost predicate AllocOk(queues: Queues, requests: map<Rq, Q>)
  {
    forall q :: q in queues ==> queues[q].alloc == |Owned(requests, q)|
  }

  /** Beyond its requests, a queue has one reference for each io context that reaches it. */
  ghost predicate RefsOk(queues: Queues, clock: nat, cics: map<Cic, Option<Q>>)
    requires Forest(queues, clock)
    requires forall c :: c in cics && cics[c].Some? ==> cics[c].value in queues
  {
    forall q :: q in queues ==> queues[q].ref == queues[q].alloc + |Reachers(queues, clock, cics, q)|
  }

  ghost predicate Inv(s: State)
  {
    && Forest(s.queues, s.clock) && Known(s)
    && AllocOk(s.queues, s.requests)
    && RefsOk(s.queues, s.clock, s.cics)
  }

  /** cfqq_process_refs(). */
  function ProcessRefs(q: Queue): int { q.ref - q.alloc }

  // ----- the operations

  /** cfq_get_queue() giving io context c a new sync queue. */
  function NewQueue(s: State, c: Cic, q: Q): State
  {
    s.(queues := s.queues[q := Queue(1, 0, None, 0)], cics := s.cics[c := Some(q)])
  }

  /** The end of cfq_set_request(): r is allocated on q. */
  function TakeRequest(s: State, r: Rq, q: Q): State
    requires q in s.queues
  {
    s.(queues := s.queues[q := s.queues[q].(ref := s.queues[q].ref + 1, alloc := s.queues[q].alloc + 1)],
       requests := s.requests[r := q])
  }

  /** cfq_put_request(). */
  function PutRequest(s: State, r: Rq): State
    requires r in s.requests && s.requests[r] in s.queues
  {
    var q := s.requests[r];
    s.(queues := s.queues[q := s.queues[q].(ref := s.queues[q].ref - 1, alloc := s.queues[q].alloc - 1)],
       requests := s.requests - {r})
  }

  /** a gets linked to b, which takes over a reference for each process of a. */
  function Link(s: State, a: Q, b: Q): State
    requires a in s.queues && b in s.queues
  {
    var n := ProcessRefs(s.queues[a]);
    s.(queues := s.queues[a := s.queues[a].(next := Some(b), stamp := s.clock)]
                         [b := s.queues[b].(ref := s.queues[b].ref + n)],
       clock := s.clock + 1)
  }

  /** cfq_setup_merge(). */
  function SetupMerge(s: State, a: Q, n: Q): State
    requires Forest(s.queues, s.clock) && a in s.queues && n in s.queues
  {
    if ProcessRefs(s.queues[n]) == 0 || a in Chain(s.queues, s.clock, n)[1..] then s
    else
      var b := Root(s.queues, s.clock, n);
      var mine, theirs := ProcessRefs(s.queues[a]), ProcessRefs(s.queues[b]);
      if mine == 0 || theirs == 0 then s
      else if theirs >= mine then Link(s, a, b)
      else Link(s, b, a)
  }

  /** cfq_merge_cfqqs(): c follows the link of its queue. */
  function MergeCfqqs(s: State, c: Cic): State
    requires c in s.cics && s.cics[c].Some? && s.cics[c].value in s.queues
  {
    var h := s.cics[c].value;
    s.(queues := s.queues[h := s.queues[h].(ref := s.queues[h].ref - 1)], cics := s.cics[c := s.queues[h].next])
  }

  /** cfq_set_request() up to the queue: c gets a new queue if it has none or splits off, or follows the link. */
  function Settle(s: State, c: Cic, split: bool, spare: Q): State
    requires Forest(s.queues, s.clock) && Known(s)
  {
    if c !in s.cics || s.cics[c].None? then NewQueue(s, c, spare)
    else if split && ProcessRefs(s.queues[s.cics[c].value]) != 1 then NewQueue(LeaveChain(s, c), c, spare)
    else if s.queues[s.cics[c].value].next.Some? then MergeCfqqs(s, c)
    else s
  }

  /** One reference dropped on each listed queue. */
  function PutAll(queues: Queues, l: seq<Q>): Queues
  {
    map q | q in queues :: if q in l then queues[q].(ref := queues[q].ref - 1) else queues[q]
  }

  /** cfq_exit_cfqq() and the tail of split_cfqq(): c gives up its queue and the whole chain behind it. */
  function LeaveChain(s: State, c: Cic): State
    requires Forest(s.queues, s.clock) && c in s.cics && s.cics[c].Some? && s.cics[c].value in s.queues
  {
    s.(queues := PutAll(s.queues, Chain(s.queues, s.clock, s.cics[c].value)), cics := s.cics[c := None])
  }

  /** check_blkcg_changed(): c gives up only the queue at the head. */
  function ChangeCgroup(s: State, c: Cic): State
    requires c in s.cics && s.cics[c].Some? && s.cics[c].value in s.queues
  {
    var h := s.cics[c].value;
    s.(queues := s.queues[h := s.queues[h].(ref := s.queues[h].ref - 1)], cics := s.cics[c := None])
  }

  // ----- what every operation keeps

  lemma ReachersFrame(queues: Queues, queues': Queues, clock: nat, cics: map<Cic, Option<Q>>, q: Q)
    requires Forest(queues, clock) && Forest(queues', clock)
    requires forall c :: c in cics && cics[c].Some? ==> cics[c].value in queues
    requires forall p :: p in queues ==> p in queues' && queues'[p].next == queues[p].next
    ensures Reachers(queues', clock, cics, q) == Reachers(queues, clock, cics, q)
  {
    forall c | c in cics && cics[c].Some?
      ensures Chain(queues', clock, cics[c].value) == Chain(queues, clock, cics[c].value)
    {
      ChainFrame(queues, queues', clock, clock, cics[c].value);
    }
  }

  /** A queue some io context can walk to is not freed. */
  lemma ReachableIsLive(s: State, c: Cic, q: Q)
    requires Inv(s) && c in s.cics && s.cics[c].Some? && q in Chain(s.queues, s.clock, s.cics[c].value)
    ensures q in s.queues && s.queues[q].ref > s.queues[q].alloc >= 0
  {
    assert c in Reachers(s.queues, s.clock, s.cics, q);
  }

  /** What a walk meets further on, a walk from further back meets too. */
  lemma {:induction false} ChainTrans(queues: Queues, clock: nat, h: Q, n: Q, q: Q)
    requires Forest(queues, clock) && h in queues && n in Chain(queues, clock, h) && q in Chain(queues, clock, n)
    ensures q in Chain(queues, clock, h)
    decreases if queues[h].next.None? then 0 else clock - queues[h].stamp
  {
    if n != h {
      ChainTrans(queues, clock, queues[h].next.value, n, q);
    }
  }

  /** No walk from a queue that some io context uses meets a freed queue. */
  lemma ChainIsLive(s: State, n: Q)
    requires Inv(s) && n in s.queues && ProcessRefs(s.queues[n]) != 0
    ensures forall q :: q in Chain(s.queues, s.clock, n) ==> s.queues[q].ref > s.queues[q].alloc >= 0
  {
    var users := Reachers(s.queues, s.clock, s.cics, n);
    assert users != {};
    var c :| c in users;
    hide Inv, Reachers, Chain;
    forall q | q in Chain(s.queues, s.clock, n)
      ensures s.queues[q].ref > s.queues[q].alloc >= 0
    {
      ChainTrans(s.queues, s.clock, s.cics[c].value, n, q);
      ReachableIsLive(s, c, q);
    }
  }

  lemma NewQueueKeeps(s: State, c: Cic, q: Q)
    requires Inv(s) && q !in s.queues && (c in s.cics ==> s.cics[c].None?)
    ensures Inv(NewQueue(s, c, q))
  {
    hide Reachers, Owned, Chain;
    var t := NewQueue(s, c, q);
    assert Forest(t.queues, t.clock);
    NoneOwned(s.requests, q);
    forall p | p in t.queues
      ensures t.queues[p].ref == t.queues[p].alloc + |Reachers(t.queues, t.clock, t.cics, p)|
    {
      NewReachers(s, c, q, p);
    }
  }

  lemma NoneOwned(requests: map<Rq, Q>, q: Q)
    requires forall r :: r in requests ==> requests[r] != q
    ensures Owned(requests, q) == {}
  {
  }

  lemma NewReachers(s: State, c: Cic, q: Q, p: Q)
    requires Inv(s) && q !in s.queues && (c in s.cics ==> s.cics[c].None?)
    requires Forest(NewQueue(s, c, q).queues, s.clock)
    ensures var t := NewQueue(s, c, q);
            Reachers(t.queues, t.clock, t.cics, p) == if p == q then {c} else Reachers(s.queues, s.clock, s.cics, p)
  {
    hide Reachers, Chain, RefsOk, AllocOk, Forest;
    var t := NewQueue(s, c, q);
    ReachersFrame(s.queues, t.queues, s.clock, s.cics, p);
    ReachersMove(t.queues, t.clock, s.cics, c, Some(q), p);
    ChainAlone(t.queues, t.clock, q);
    NotReacher(t.queues, t.clock, s.cics, c, p);
    if p == q {
      NoReachers(s.queues, s.clock, s.cics, q);
    }
  }

  lemma ChainAlone(queues: Queues, clock: nat, q: Q)
    requires Forest(queues, clock) && q in queues && queues[q].next.None?
    ensures Chain(queues, clock, q) == [q]
  {
  }

  lemma NotReacher(queues: Queues, clock: nat, cics: map<Cic, Option<Q>>, c: Cic, p: Q)
    requires Forest(queues, clock) && (c in cics ==> cics[c].None?)
    requires forall x :: x in cics && cics[x].Some? ==> cics[x].value in queues
    ensures c !in Reachers(queues, clock, cics, p)
  {
  }

  lemma NoReachers(queues: Queues, clock: nat, cics: map<Cic, Option<Q>>, q: Q)
    requires Forest(queues, clock) && q !in queues
    requires forall x :: x in cics && cics[x].Some? ==> cics[x].value in queues
    ensures Reachers(queues, clock, cics, q) == {}
  {
  }

  /** Requests come and go without touching the chains. */
  lemma RefsShift(queues: Queues, queues': Queues, clock: nat, cics: map<Cic, Option<Q>>)
    requires Forest(queues, clock) && Forest(queues', clock) && queues'.Keys == queues.Keys
    requires forall c :: c in cics && cics[c].Some? ==> cics[c].value in queues
    requires forall p :: p in queues ==> queues'[p].next == queues[p].next && ProcessRefs(queues'[p]) == ProcessRefs(queues[p])
    requires RefsOk(queues, clock, cics)
    ensures RefsOk(queues', clock, cics)
  {
    hide Reachers, Forest;
    forall q | q in queues'
      ensures queues'[q].ref == queues'[q].alloc + |Reachers(queues', clock, cics, q)|
    {
      ReachersFrame(queues, queues', clock, cics, q);
    }
  }

  lemma UpdateForest(queues: Queues, clock: nat, q: Q, n: Queue)
    requires Forest(queues, clock) && q in queues && n.next == queues[q].next && n.stamp == queues[q].stamp
    ensures Forest(queues[q := n], clock)
  {
  }

  lemma OwnedAdd(requests: map<Rq, Q>, r: Rq, q: Q, p: Q)
    requires r !in requests
    ensures |Owned(requests[r := q], p)| == |Owned(requests, p)| + (if p == q then 1 else 0)
  {
    if p == q {
      assert Owned(requests[r := q], p) == Owned(requests, p) + {r};
    } else {
      assert Owned(requests[r := q], p) == Owned(requests, p);
    }
  }

  lemma TakeRequestKeeps(s: State, r: Rq, q: Q)
    requires Inv(s) && q in s.queues && r !in s.requests
    ensures Inv(TakeRequest(s, r, q))
  {
    hide Forest, RefsOk, Chain, Owned;
    var t := TakeRequest(s, r, q);
    UpdateForest(s.queues, s.clock, q, t.queues[q]);
    RefsShift(s.queues, t.queues, s.clock, s.cics);
    forall p | p in t.queues
      ensures t.queues[p].alloc == |Owned(t.requests, p)|
    {
      OwnedAdd(s.requests, r, q, p);
    }
  }

  /** BUG_ON(!allocated) in cfq_put_request() and BUG_ON(ref <= 0) in cfq_put_queue() do not fire. */
  lemma PutRequestKeeps(s: State, r: Rq)
    requires Inv(s) && r in s.requests
    ensures s.queues[s.requests[r]].ref >= s.queues[s.requests[r]].alloc > 0
    ensures Inv(PutRequest(s, r))
  {
    hide Forest, Chain, Reachers;
    var q := s.requests[r];
    var t := PutRequest(s, r);
    UpdateForest(s.queues, s.clock, q, t.queues[q]);
    RefsShift(s.queues, t.queues, s.clock, s.cics);
    assert r in Owned(s.requests, q);
    forall p | p in t.queues
      ensures t.queues[p].alloc == |Owned(t.requests, p)|
    {
      assert Owned(t.requests, p) == Owned(s.requests, p) - (if p == q then {r} else {});
    }
  }

  lemma LinkForest(s: State, a: Q, b: Q)
    requires Forest(s.queues, s.clock) && a in s.queues && b in s.queues && a != b
    requires s.queues[a].next.None? && s.queues[b].next.None?
    ensures Forest(Link(s, a, b).queues, Link(s, a, b).clock)
  {
  }

  lemma LinkReachers(s: State, a: Q, b: Q, q: Q)
    requires Forest(s.queues, s.clock) && Known(s) && a in s.queues && b in s.queues && a != b
    requires s.queues[a].next.None? && s.queues[b].next.None?
    requires Forest(Link(s, a, b).queues, Link(s, a, b).clock)
    ensures var t := Link(s, a, b);
            Reachers(t.queues, t.clock, t.cics, q) ==
            Reachers(s.queues, s.clock, s.cics, q) + (if q == b then Reachers(s.queues, s.clock, s.cics, a) else {})
  {
    var t := Link(s, a, b);
    forall c | c in s.cics && s.cics[c].Some?
      ensures Chain(t.queues, t.clock, s.cics[c].value) ==
              Chain(s.queues, s.clock, s.cics[c].value) + (if a in Chain(s.queues, s.clock, s.cics[c].value) then [b] else [])
    {
      ChainLink(s.queues, t.queues, s.clock, a, b, s.cics[c].value);
    }
  }

  /** No io context reaches two different roots. */
  lemma RootsApart(s: State, a: Q, b: Q)
    requires Forest(s.queues, s.clock) && Known(s) && a in s.queues && b in s.queues && a != b
    requires s.queues[a].next.None? && s.queues[b].next.None?
    ensures Reachers(s.queues, s.clock, s.cics, a) !! Reachers(s.queues, s.clock, s.cics, b)
  {
    forall c | c in s.cics && s.cics[c].Some?
      ensures !(a in Chain(s.queues, s.clock, s.cics[c].value) && b in Chain(s.queues, s.clock, s.cics[c].value))
    {
      RootEnds(s.queues, s.clock, s.cics[c].value);
    }
  }

  lemma LinkCount(s: State, a: Q, b: Q, q: Q)
    requires Forest(s.queues, s.clock) && Known(s) && a in s.queues && b in s.queues && a != b
    requires s.queues[a].next.None? && s.queues[b].next.None?
    requires Forest(Link(s, a, b).queues, Link(s, a, b).clock)
    ensures var t := Link(s, a, b);
            |Reachers(t.queues, t.clock, t.cics, q)| ==
            |Reachers(s.queues, s.clock, s.cics, q)| + (if q == b then |Reachers(s.queues, s.clock, s.cics, a)| else 0)
  {
    hide Forest, Chain, Reachers;
    LinkReachers(s, a, b, q);
    RootsApart(s, a, b);
  }

  lemma LinkKeeps(s: State, a: Q, b: Q)
    requires Inv(s) && a in s.queues && b in s.queues && a != b
    requires s.queues[a].next.None? && s.queues[b].next.None?
    ensures Inv(Link(s, a, b))
  {
    hide Forest, Chain, Reachers, Owned;
    var t := Link(s, a, b);
    LinkForest(s, a, b);
    forall q | q in t.queues
      ensures t.queues[q].ref == t.queues[q].alloc + |Reachers(t.queues, t.clock, t.cics, q)|
    {
      LinkCount(s, a, b, q);
    }
  }

  /** Setting up a merge keeps the forest and hands over exactly the references needed. */
  lemma SetupMergeKeeps(s: State, a: Q, n: Q)
    requires Inv(s) && a in s.queues && n in s.queues && a != n && s.queues[a].next.None?
    ensures Inv(SetupMerge(s, a, n))
    ensures ProcessRefs(s.queues[n]) != 0 ==> forall q :: q in Chain(s.queues, s.clock, n) ==> s.queues[q].ref > 0
  {
    hide Inv, Link, Chain;
    InvForest(s);
    if ProcessRefs(s.queues[n]) != 0 {
      ChainIsLive(s, n);
    }
    RootEnds(s.queues, s.clock, n);
    var l := Chain(s.queues, s.clock, n);
    if a !in l[1..] {
      assert l == [n] + l[1..];
      LinkKeeps(s, a, Root(s.queues, s.clock, n));
      LinkKeeps(s, Root(s.queues, s.clock, n), a);
    }
  }

  lemma InvForest(s: State)
    requires Inv(s)
    ensures Forest(s.queues, s.clock) && Known(s)
  {
  }

  lemma ReachersMove(queues: Queues, clock: nat, cics: map<Cic, Option<Q>>, c: Cic, h: Option<Q>, q: Q)
    requires Forest(queues, clock) && (h.Some? ==> h.value in queues)
    requires forall x :: x in cics && cics[x].Some? ==> cics[x].value in queues
    ensures var cics' := cics[c := h];
            Reachers(queues, clock, cics', q) ==
            (Reachers(queues, clock, cics, q) - {c}) + (if h.Some? && q in Chain(queues, clock, h.value) then {c} else {})
  {
  }

  lemma MergeCfqqsKeeps(s: State, c: Cic)
    requires Inv(s) && c in s.cics && s.cics[c].Some?
    requires s.queues[s.cics[c].value].next.Some?
    ensures Inv(MergeCfqqs(s, c))
  {
    hide Reachers, Owned, Chain;
    var h := s.cics[c].value;
    var n := s.queues[h].next;
    var t := MergeCfqqs(s, c);
    UpdateForest(s.queues, s.clock, h, t.queues[h]);
    ChainNext(s.queues, s.clock, h);
    forall q | q in t.queues
      ensures t.queues[q].ref == t.queues[q].alloc + |Reachers(t.queues, t.clock, t.cics, q)|
    {
      MergeReachers(s, c, n, q);
    }
  }

  lemma ChainNext(queues: Queues, clock: nat, q: Q)
    requires Forest(queues, clock) && q in queues && queues[q].next.Some?
    ensures var p := queues[q].next.value;
            p in queues && Chain(queues, clock, q) == [q] + Chain(queues, clock, p) && q !in Chain(queues, clock, p)
  {
    ChainAcyclic(queues, clock, q);
    assert Chain(queues, clock, q)[1..] == Chain(queues, clock, queues[q].next.value);
  }

  /** Following the link moves one io context and leaves all links. */
  lemma MergeMoves(s: State, c: Cic)
    requires c in s.cics && s.cics[c].Some? && s.cics[c].value in s.queues
    ensures var t := MergeCfqqs(s, c);
            && t.clock == s.clock && t.cics == s.cics[c := s.queues[s.cics[c].value].next]
            && forall p :: p in s.queues ==> p in t.queues && t.queues[p].next == s.queues[p].next
  {
  }

  lemma MergeReachers(s: State, c: Cic, n: Option<Q>, q: Q)
    requires Inv(s) && c in s.cics && s.cics[c].Some? && s.queues[s.cics[c].value].next == n && (n.Some? ==> n.value in s.queues)
    requires Forest(MergeCfqqs(s, c).queues, s.clock)
    ensures var t := MergeCfqqs(s, c);
            |Reachers(t.queues, t.clock, t.cics, q)| == |Reachers(s.queues, s.clock, s.cics, q)|
            - (if q in Chain(s.queues, s.clock, s.cics[c].value) then 1 else 0)
            + (if n.Some? && q in Chain(s.queues, s.clock, n.value) then 1 else 0)
  {
    hide Reachers, Owned, Chain, Inv, Forest, MergeCfqqs;
    InvForest(s);
    var t := MergeCfqqs(s, c);
    MergeMoves(s, c);
    assert t.cics == s.cics[c := n];
    ReachersFrame(s.queues, t.queues, s.clock, t.cics, q);
    ReachersMove(s.queues, s.clock, s.cics, c, n, q);
    ReachersOwn(s.queues, s.clock, s.cics, c, q);
    CountMoved(Reachers(s.queues, s.clock, s.cics, q), c, n.Some? && q in Chain(s.queues, s.clock, n.value));
  }

  lemma CountMoved(r: set<Cic>, c: Cic, now: bool)
    ensures |(r - {c}) + (if now then {c} else {})| == |r| - (if c in r then 1 else 0) + (if now then 1 else 0)
  {
  }

  lemma ReachersOwn(queues: Queues, clock: nat, cics: map<Cic, Option<Q>>, c: Cic, q: Q)
    requires Forest(queues, clock) && c in cics && cics[c].Some?
    requires forall x :: x in cics && cics[x].Some? ==> cics[x].value in queues
    ensures c in Reachers(queues, clock, cics, q) <==> q in Chain(queues, clock, cics[c].value)
  {
  }

  lemma PutAllForest(queues: Queues, clock: nat, l: seq<Q>)
    requires Forest(queues, clock)
    ensures Forest(PutAll(queues, l), clock) && PutAll(queues, l).Keys == queues.Keys
  {
  }

  /** Leaving gives back one reference on each queue of the chain, never one that was not held. */
  lemma LeaveChainKeeps(s: State, c: Cic)
    requires Inv(s) && c in s.cics && s.cics[c].Some?
    ensures Inv(LeaveChain(s, c))
    ensures forall q :: q in Chain(s.queues, s.clock, s.cics[c].value) ==> s.queues[q].ref > s.queues[q].alloc >= 0
  {
    hide Reachers, Owned, Chain, PutAll;
    var l := Chain(s.queues, s.clock, s.cics[c].value);
    var t := LeaveChain(s, c);
    PutAllForest(s.queues, s.clock, l);
    PutAllIs(s.queues, l);
    forall q | q in t.queues
      ensures t.queues[q].ref == t.queues[q].alloc + |Reachers(t.queues, t.clock, t.cics, q)|
    {
      LeaveCount(s, c, q);
    }
    forall q | q in l
      ensures s.queues[q].ref > s.queues[q].alloc >= 0
    {
      ReachableIsLive(s, c, q);
    }
  }

  lemma PutAllIs(queues: Queues, l: seq<Q>)
    ensures PutAll(queues, l).Keys == queues.Keys
    ensures forall q :: q in queues ==> PutAll(queues, l)[q] == queues[q].(ref := queues[q].ref - if q in l then 1 else 0)
  {
  }

  lemma LeaveCount(s: State, c: Cic, q: Q)
    requires Inv(s) && c in s.cics && s.cics[c].Some? && q in s.queues
    ensures Forest(LeaveChain(s, c).queues, s.clock)
    ensures var t := LeaveChain(s, c);
            |Reachers(t.queues, t.clock, t.cics, q)| ==
            |Reachers(s.queues, s.clock, s.cics, q)| - (if q in Chain(s.queues, s.clock, s.cics[c].value) then 1 else 0)
  {
    hide Reachers, Owned, Chain, PutAll;
    var l := Chain(s.queues, s.clock, s.cics[c].value);
    PutAllForest(s.queues, s.clock, l);
    PutAllIs(s.queues, l);
    var t := LeaveChain(s, c);
    ReachersFrame(s.queues, t.queues, s.clock, t.cics, q);
    ReachersMove(s.queues, s.clock, s.cics, c, None, q);
    ReachersOwn(s.queues, s.clock, s.cics, c, q);
  }

  lemma ChangeCount(s: State, c: Cic, q: Q)
    requires Inv(s) && c in s.cics && s.cics[c].Some? && q in s.queues
    requires Forest(ChangeCgroup(s, c).queues, s.clock)
    ensures var t := ChangeCgroup(s, c);
            |Reachers(t.queues, t.clock, t.cics, q)| ==
            |Reachers(s.queues, s.clock, s.cics, q)| - (if q in Chain(s.queues, s.clock, s.cics[c].value) then 1 else 0)
  {
    hide Reachers, Owned, Chain;
    var t := ChangeCgroup(s, c);
    ReachersFrame(s.queues, t.queues, s.clock, t.cics, q);
    ReachersMove(s.queues, s.clock, s.cics, c, None, q);
    ReachersOwn(s.queues, s.clock, s.cics, c, q);
  }

  lemma ChainHead(queues: Queues, clock: nat, h: Q)
    requires Forest(queues, clock) && h in queues
    ensures h in Chain(queues, clock, h)
    ensures queues[h].next.None? ==> Chain(queues, clock, h) == [h]
    ensures queues[h].next.Some? ==> queues[h].next.value != h && queues[h].next.value in Chain(queues, clock, h)
  {
    ChainAcyclic(queues, clock, h);
  }

  /**
   A cgroup move keeps the counts exact if and only if the abandoned queue has no link. In any case every queue behind it
   is left with one reference that belongs to nobody.
   */
  lemma ChangeCgroupExact(s: State, c: Cic)
    requires Inv(s) && c in s.cics && s.cics[c].Some?
    ensures Inv(ChangeCgroup(s, c)) <==> s.queues[s.cics[c].value].next.None?
    ensures Forest(ChangeCgroup(s, c).queues, s.clock)
    ensures var t := ChangeCgroup(s, c);
            forall q :: q in Chain(s.queues, s.clock, s.cics[c].value)[1..] ==>
              t.queues[q].ref == t.queues[q].alloc + |Reachers(t.queues, t.clock, t.cics, q)| + 1
  {
    hide Reachers, Owned, Chain, Forest;
    var h := s.cics[c].value;
    var t := ChangeCgroup(s, c);
    UpdateForest(s.queues, s.clock, h, t.queues[h]);
    ChainHead(s.queues, s.clock, h);
    var l := Chain(s.queues, s.clock, h);
    ChainAcyclic(s.queues, s.clock, h);
    assert l == [h] + l[1..];
    forall q | q in t.queues
      ensures t.queues[q].ref == t.queues[q].alloc + |Reachers(t.queues, t.clock, t.cics, q)| + if q in l[1..] then 1 else 0
    {
      ChangeCount(s, c, q);
    }
    if s.queues[h].next.Some? {
      assert s.queues[h].next.value in l[1..];
    }
  }

  /** Two io contexts with a queue each. */
  lemma TwoQueues() returns (s: State)
    ensures Inv(s) && s == State(map[10 := Queue(1, 0, None, 0), 11 := Queue(1, 0, None, 0)], map[0 := Some(10), 1 := Some(11)], map[], 0)
  {
    hide Inv;
    var z := State(map[], map[], map[], 0);
    EmptyOk();
    NewQueueKeeps(z, 0, 10);
    s := NewQueue(z, 0, 10);
    InvForest(s);
    NewQueueKeeps(s, 1, 11);
    s := NewQueue(s, 1, 11);
  }

  /** The queues of two io contexts linked, and then the first io context moved to another cgroup. */
  lemma ReferenceCanLeak() returns (s: State, t: State)
    ensures Inv(s) && 0 in s.cics && s.cics[0] == Some(10) && s.queues[10].next == Some(11)
    ensures t == ChangeCgroup(s, 0) && !Inv(t)
    ensures 11 in t.queues && t.queues[11].ref == 2 && t.queues[11].alloc == 0 && t.cics == map[0 := None, 1 := Some(11)]
  {
    hide Inv, Chain, Forest, Reachers;
    var x := TwoQueues();
    SetupMergeKeeps(x, 10, 11);
    InvForest(x);
    ChainAlone(x.queues, x.clock, 11);
    s := SetupMerge(x, 10, 11);
    assert s == Link(x, 10, 11);
    ChangeCgroupExact(s, 0);
    t := ChangeCgroup(s, 0);
  }

  lemma EmptyOk()
    ensures Inv(State(map[], map[], map[], 0))
  {
  }
}
