/**
 The cfq_data object: reference counts and new_cfqq links changed in place, against the functions of CfqCoop. The
 source's BUG_ON()s and WARN()s on counts and chains are preconditions or assertions.
 */
module CfqData {
  import opened Basics
  import opened Lists
  import opened CfqCoop

  lemma {:induction false} ChainNoDup(queues: Queues, clock: nat, q: Q)
    requires Forest(queues, clock) && q in queues
    ensures NoDup(Chain(queues, clock, q))
    decreases if queues[q].next.None? then 0 else clock - queues[q].stamp
  {
    if queues[q].next.Some? {
      var p := queues[q].next.value;
      ChainAcyclic(queues, clock, q);
      ChainNoDup(queues, clock, p);
      var l := Chain(queues, clock, q);
      assert l[1..] == Chain(queues, clock, p);
      PrependMembers(l[1..], q);
    }
  }

  lemma PutAllStep(queues: Queues, v: seq<Q>, q: Q)
    requires q in queues && q !in v
    ensures q in PutAll(queues, v) && PutAll(queues, v)[q] == queues[q]
    ensures PutAll(queues, v)[q := PutAll(queues, v)[q].(ref := PutAll(queues, v)[q].ref - 1)] == PutAll(queues, v + [q])
  {
  }

  /** Stepping along the chain. */
  lemma ChainStep(queues: Queues, clock: nat, q: Q)
    requires Forest(queues, clock) && q in queues && queues[q].next.Some?
    ensures var p := queues[q].next.value;
            && p in queues && Chain(queues, clock, q) == [q] + Chain(queues, clock, p)
            && Chain(queues, clock, q)[1..] == Chain(queues, clock, p)
            && Root(queues, clock, q) == Root(queues, clock, p)
            && (if queues[p].next.None? then 0 else clock - queues[p].stamp) < clock - queues[q].stamp
            && Chain(queues, clock, p) == [p] + Chain(queues, clock, p)[1..]
  {
  }

  class Cfq {
    var queues: Queues
    var cics: map<Cic, Option<Q>>
    var requests: map<Rq, Q>
    var clock: nat                    // counts links made

    ghost function View(): State
      reads this
    {
      State(queues, cics, requests, clock)
    }

    constructor ()
      ensures Inv(View()) && View() == State(map[], map[], map[], 0)
    {
      queues, cics, requests, clock := map[], map[], map[], 0;
    }

    /** cfq_put_queue(): whoever drops a reference leaves one for each request, so a queue that is freed has none. */
    method PutQueue(q: Q)
      requires q in queues && queues[q].ref > queues[q].alloc >= 0
      modifies `queues
      ensures queues == old(queues)[q := old(queues)[q].(ref := old(queues)[q].ref - 1)]
      ensures queues[q].ref >= queues[q].alloc && (queues[q].ref == 0 ==> queues[q].alloc == 0)
    {
      assert queues[q].ref > 0;                                 // BUG_ON(cfqq->ref <= 0)
      queues := queues[q := queues[q].(ref := queues[q].ref - 1)];
      assert queues[q].ref == 0 ==> queues[q].alloc == 0;       // BUG_ON(cfqq->allocated[READ] + cfqq->allocated[WRITE])
    }

    /** cfq_setup_merge(): walk to the end of the chain of n, then link the queue with fewer processes to the other. */
    method SetupMerge(a: Q, n: Q)
      requires Inv(View()) && a in queues && n in queues && a != n && queues[a].next.None?
      modifies `queues, `clock
      ensures View() == CfqCoop.SetupMerge(old(View()), a, n) && Inv(View())
    {
      hide Inv, Chain, Forest, Link;
      InvForest(View());
      SetupMergeKeeps(View(), a, n);
      if ProcessRefs(queues[n]) == 0 {
        return;
      }
      var b := n;
      ChainHead(queues, clock, n);
      while queues[b].next.Some?
        invariant View() == old(View())
        invariant Forest(queues, clock) && b in queues && Root(queues, clock, b) == Root(queues, clock, n)
        invariant a in Chain(queues, clock, n)[1..] <==> a in Chain(queues, clock, b)[1..]
        invariant b in Chain(queues, clock, n)
        decreases if queues[b].next.None? then 0 else clock - queues[b].stamp
      {
        assert queues[b].ref > 0;                               // the queue read is not freed
        ChainStep(queues, clock, b);
        ChainTrans(queues, clock, n, b, queues[b].next.value);
        if queues[b].next.value == a {
          return;
        }
        b := queues[b].next.value;
      }
      assert queues[b].ref > 0;
      RootEnds(queues, clock, b);
      ChainHead(queues, clock, b);
      assert Root(queues, clock, b) == b;
      var mine, theirs := ProcessRefs(queues[a]), ProcessRefs(queues[b]);
      if mine == 0 || theirs == 0 {
        return;
      }
      if theirs >= mine {
        SetNext(a, b, mine);
      } else {
        SetNext(b, a, theirs);
      }
    }

    method SetNext(a: Q, b: Q, n: int)
      requires a in queues && b in queues && n == ProcessRefs(queues[a])
      modifies `queues, `clock
      ensures View() == Link(old(View()), a, b)
    {
      queues := queues[a := queues[a].(next := Some(b), stamp := clock)][b := queues[b].(ref := queues[b].ref + n)];
      clock := clock + 1;
    }

    /** cfq_put_cooperator(): one reference off every queue behind q. */
    method PutCooperator(q: Q)
      requires Forest(queues, clock) && q in queues
      requires forall p :: p in Chain(queues, clock, q) ==> queues[p].ref > queues[p].alloc >= 0
      modifies `queues
      ensures queues == PutAll(old(queues), Chain(old(queues), clock, q)[1..])
    {
      hide Forest, Chain, PutAll;
      ghost var start := queues;
      ghost var visited := [];
      var cur := queues[q].next;
      WalkBegins(start, clock, q);
      while cur.Some?
        invariant queues == PutAll(start, visited)
        invariant Walking(start, clock, q, visited, cur)
        decreases Ahead(start, clock, cur)
      {
        var p := cur.value;
        WalkStep(start, clock, q, visited, p);
        assert p != q;                                          // WARN(1, "cfqq->new_cfqq loop detected")
        cur := queues[p].next;
        PutQueue(p);
        visited := visited + [p];
      }
      WalkEnds(start, clock, q, visited);
    }

    /** cfq_exit_cfqq(), also the tail of split_cfqq(): c drops its queue and the chain behind it. */
    method ExitCfqq(c: Cic)
      requires Inv(View()) && c in cics && cics[c].Some?
      modifies this
      ensures View() == LeaveChain(old(View()), c) && Inv(View())
    {
      hide Inv, Chain, Forest;
      LeaveChainKeeps(View(), c);
      InvForest(View());
      var h := cics[c].value;
      ghost var start := queues;
      ghost var l := Chain(start, clock, h);
      ChainNoDup(start, clock, h);
      ChainHead(start, clock, h);
      assert l == [h] + l[1..];
      PutCooperator(h);
      assert h !in l[1..];
      PutAllStep(start, l[1..], h);
      PutAllRotate(start, l, h);
      PutQueue(h);
      cics := cics[c := None];
    }

    /** cfq_merge_cfqqs(). */
    method MergeCfqqs(c: Cic)
      requires Inv(View()) && c in cics && cics[c].Some? && queues[cics[c].value].next.Some?
      modifies this
      ensures View() == CfqCoop.MergeCfqqs(old(View()), c) && Inv(View())
    {
      hide Inv, Chain, Forest;
      MergeCfqqsKeeps(View(), c);
      InvForest(View());
      var h := cics[c].value;
      ChainHead(queues, clock, h);
      ReachableIsLive(View(), c, h);
      cics := cics[c := queues[h].next];
      PutQueue(h);
    }

    /** cfq_set_request() for a sync request: c gets a queue if it has none, splits off or follows a merge if it should,
        and the request is charged to where c ends up. */
    method SetRequest(c: Cic, r: Rq, split: bool, spare: Q) returns (q: Q)
      requires Inv(View()) && r !in requests && spare !in queues
      modifies this
      ensures Inv(View()) && c in cics && cics[c] == Some(q)
      ensures Forest(old(queues), old(clock)) && Known(old(View()))
      ensures q in Settle(old(View()), c, split, spare).queues
      ensures View() == TakeRequest(Settle(old(View()), c, split, spare), r, q)
    {
      hide Inv, Chain, Forest, PutAll;
      InvForest(View());
      if c in cics && cics[c].Some? {
        if split && ProcessRefs(queues[cics[c].value]) != 1 {
          PutAllIs(queues, Chain(queues, clock, cics[c].value));
          ExitCfqq(c);
        } else if queues[cics[c].value].next.Some? {
          MergeCfqqs(c);
        }
      }
      if !(c in cics && cics[c].Some?) {
        NewQueueKeeps(View(), c, spare);
        queues, cics := queues[spare := Queue(1, 0, None, 0)], cics[c := Some(spare)];
      }
      InvForest(View());
      q := cics[c].value;
      TakeRequestKeeps(View(), r, q);
      queues := queues[q := queues[q].(alloc := queues[q].alloc + 1, ref := queues[q].ref + 1)];
      requests := requests[r := q];
    }

    /** cfq_put_request(). */
    method PutRequest(r: Rq)
      requires Inv(View()) && r in requests
      modifies this
      ensures Inv(View()) && r in old(requests) && old(requests)[r] in old(queues)
      ensures View() == CfqCoop.PutRequest(old(View()), r)
    {
      hide Inv;
      InvForest(View());
      PutRequestKeeps(View(), r);
      var q := requests[r];
      assert queues[q].alloc > 0;                               // BUG_ON(!cfqq->allocated[rw])
      requests := requests - {r};
      queues := queues[q := queues[q].(alloc := queues[q].alloc - 1)];
      PutQueue(q);
      assert View() == CfqCoop.PutRequest(old(View()), r);
    }
  }

  /** A walk behind q has passed `visited` and stands at cur. */
  ghost predicate Walking(queues: Queues, clock: nat, q: Q, visited: seq<Q>, cur: Option<Q>)
    requires Forest(queues, clock) && q in queues
  {
    && (cur.Some? ==> cur.value in queues)
    && Chain(queues, clock, q)[1..] == visited + (if cur.Some? then Chain(queues, clock, cur.value) else [])
  }

  function Ahead(queues: Queues, clock: nat, cur: Option<Q>): int
  {
    if cur.None? || cur.value !in queues then 0
    else 1 + (if queues[cur.value].next.None? || clock < queues[cur.value].stamp then 0 else clock - queues[cur.value].stamp)
  }

  lemma WalkBegins(queues: Queues, clock: nat, q: Q)
    requires Forest(queues, clock) && q in queues
    ensures Walking(queues, clock, q, [], queues[q].next)
    ensures queues == PutAll(queues, [])
  {
    if queues[q].next.Some? {
      ChainStep(queues, clock, q);
    }
  }

  lemma AheadDrops(queues: Queues, clock: nat, p: Q)
    requires Forest(queues, clock) && p in queues
    ensures 0 <= Ahead(queues, clock, queues[p].next) < Ahead(queues, clock, Some(p))
  {
  }

  lemma WalkOn(queues: Queues, clock: nat, q: Q, visited: seq<Q>, p: Q)
    requires Forest(queues, clock) && q in queues && Walking(queues, clock, q, visited, Some(p))
    ensures Walking(queues, clock, q, visited + [p], queues[p].next)
  {
    hide Forest, Chain;
    ChainHead(queues, clock, p);
    var l := Chain(queues, clock, q)[1..];
    if queues[p].next.Some? {
      ChainStep(queues, clock, p);
      Regrouped(l, visited, p, Chain(queues, clock, queues[p].next.value));
    } else {
      Regrouped(l, visited, p, []);
    }
  }

  lemma Regrouped(l: seq<Q>, visited: seq<Q>, p: Q, rest: seq<Q>)
    requires l == visited + ([p] + rest)
    ensures l == visited + [p] + rest
  {
  }

  lemma WalkStep(queues: Queues, clock: nat, q: Q, visited: seq<Q>, p: Q)
    requires Forest(queues, clock) && q in queues && Walking(queues, clock, q, visited, Some(p))
    ensures p in Chain(queues, clock, q) && p != q
    ensures p in PutAll(queues, visited) && PutAll(queues, visited)[p] == queues[p]
    ensures PutAll(queues, visited)[p := PutAll(queues, visited)[p].(ref := PutAll(queues, visited)[p].ref - 1)] == PutAll(queues, visited + [p])
    ensures Walking(queues, clock, q, visited + [p], queues[p].next)
    ensures 0 <= Ahead(queues, clock, queues[p].next) < Ahead(queues, clock, Some(p))
  {
    hide Forest, Chain, PutAll, Ahead;
    WalkOn(queues, clock, q, visited, p);
    AheadDrops(queues, clock, p);
    ChainSplit(queues, clock, q, visited, p);
    PutAllStep(queues, visited, p);
  }

  lemma WalkEnds(queues: Queues, clock: nat, q: Q, visited: seq<Q>)
    requires Forest(queues, clock) && q in queues && Walking(queues, clock, q, visited, None)
    ensures visited == Chain(queues, clock, q)[1..]
  {
    assert visited + [] == visited;
  }

  lemma PutAllRotate(queues: Queues, l: seq<Q>, h: Q)
    requires l != [] && l[0] == h
    ensures PutAll(queues, l[1..] + [h]) == PutAll(queues, l)
  {
    assert l == [h] + l[1..];
    assert forall q :: q in l[1..] + [h] <==> q in l;
  }

  lemma ChainSplit(queues: Queues, clock: nat, q: Q, visited: seq<Q>, p: Q)
    requires Forest(queues, clock) && q in queues && p in queues
    requires Chain(queues, clock, q)[1..] == visited + Chain(queues, clock, p)
    ensures p !in visited && p != q && p in Chain(queues, clock, q)
  {
    ChainNoDup(queues, clock, q);
    var l := Chain(queues, clock, q);
    assert l[1..][|visited|] == p;
    assert l[|visited| + 1] == p;
    assert forall i :: 0 <= i < |visited| ==> l[i + 1] == l[1..][i] == visited[i];
  }
}
