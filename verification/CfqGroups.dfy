/**
 The group tree of the CFQ scheduler, kernel/block/cfq-iosched.c: active counts, children weights and vfractions.

 Group 0 is the root; every other group has a lower-numbered parent. A group is active when it is on the service
 tree or has an active child. children_weight adds up the weights that compete inside a group: its own leaf weight
 while it is on the service tree, and the weights of its active children.
 */
module CfqGroups {
  import opened Basics

  const FULL: nat := 4096                // 1 << CFQ_SERVICE_SHIFT

  datatype Group = Group(
    onTree: bool, nrActive: int, childrenWeight: int,
    weight: nat, leafWeight: nat, newWeight: nat, newLeafWeight: nat,
    vfraction: nat)

  predicate Active(g: Group) { g.nrActive > 0 }

  /** c is an active child of n, other than skip. */
  predicate Counts(nodes: seq<Group>, parent: seq<nat>, n: nat, c: nat, skip: int)
    requires |nodes| == |parent| && c < |nodes|
  {
    c > 0 && parent[c] == n && Active(nodes[c]) && c != skip
  }

  function Kids(nodes: seq<Group>, parent: seq<nat>, n: nat, k: nat, skip: int): nat
    requires |nodes| == |parent| && k <= |nodes|
  {
    if k == 0 then 0
    else Kids(nodes, parent, n, k - 1, skip) + (if Counts(nodes, parent, n, k - 1, skip) then 1 else 0)
  }

  function KidsWeight(nodes: seq<Group>, parent: seq<nat>, n: nat, k: nat, skip: int): nat
    requires |nodes| == |parent| && k <= |nodes|
  {
    if k == 0 then 0
    else KidsWeight(nodes, parent, n, k - 1, skip) + (if Counts(nodes, parent, n, k - 1, skip) then nodes[k - 1].weight else 0)
  }

  /** The bookkeeping of group n, not yet including the child `skip`. */
  predicate NodeOk(nodes: seq<Group>, parent: seq<nat>, n: nat, skip: int)
    requires |nodes| == |parent| && n < |nodes|
  {
    var g := nodes[n];
    && g.nrActive == (if g.onTree then 1 else 0) + Kids(nodes, parent, n, |nodes|, skip)
    && g.childrenWeight == (if g.onTree then g.leafWeight else 0) + KidsWeight(nodes, parent, n, |nodes|, skip)
    && g.weight > 0 && g.leafWeight > 0
  }

  predicate FractionOk(g: Group) { g.onTree ==> 1 <= g.vfraction <= FULL }

  /** skip is a child whose parent has yet to hear that it became active or inactive; -1 when there is none. */
  ghost predicate TreeOk(nodes: seq<Group>, parent: seq<nat>, skip: int)
  {
    && |nodes| == |parent| && IsTree(parent)
    && forall n :: 0 <= n < |nodes| ==> NodeOk(nodes, parent, n, skip)
  }

  ghost predicate Inv(nodes: seq<Group>, parent: seq<nat>)
  {
    TreeOk(nodes, parent, -1) && forall n :: 0 <= n < |nodes| ==> FractionOk(nodes[n])
  }

  // ----- sums over the children

  lemma {:induction false} KidsFrame(nodes: seq<Group>, nodes': seq<Group>, parent: seq<nat>, n: nat, k: nat, skip: int, skip': int)
    requires |nodes| == |parent| == |nodes'| && k <= |nodes|
    requires forall c :: 0 <= c < k ==> (Counts(nodes, parent, n, c, skip) <==> Counts(nodes', parent, n, c, skip'))
    requires forall c :: 0 <= c < k && Counts(nodes, parent, n, c, skip) ==> nodes'[c].weight == nodes[c].weight
    ensures Kids(nodes', parent, n, k, skip') == Kids(nodes, parent, n, k, skip)
    ensures KidsWeight(nodes', parent, n, k, skip') == KidsWeight(nodes, parent, n, k, skip)
  {
    if k > 0 {
      KidsFrame(nodes, nodes', parent, n, k - 1, skip, skip');
    }
  }

  /** Counting in the child that was skipped. */
  lemma {:induction false} KidsJoin(nodes: seq<Group>, parent: seq<nat>, n: nat, k: nat, c: nat)
    requires |nodes| == |parent| && k <= |nodes| && 0 < c < |nodes| && parent[c] == n
    ensures Kids(nodes, parent, n, k, -1) == Kids(nodes, parent, n, k, c) + (if c < k && Active(nodes[c]) then 1 else 0)
    ensures KidsWeight(nodes, parent, n, k, -1) == KidsWeight(nodes, parent, n, k, c) + (if c < k && Active(nodes[c]) then nodes[c].weight else 0)
  {
    if k > 0 {
      KidsJoin(nodes, parent, n, k - 1, c);
    }
  }

  /** A group without active children has no children weight. */
  lemma {:induction false} KidsZero(nodes: seq<Group>, parent: seq<nat>, n: nat, k: nat, skip: int)
    requires |nodes| == |parent| && k <= |nodes|
    ensures Kids(nodes, parent, n, k, skip) == 0 ==> KidsWeight(nodes, parent, n, k, skip) == 0
  {
    if k > 0 {
      KidsZero(nodes, parent, n, k - 1, skip);
    }
  }

  /** A node sees a change of group p only as a child of p's parent. */
  lemma NodeFrame(nodes: seq<Group>, nodes': seq<Group>, parent: seq<nat>, n: nat, p: nat, skip: int, skip': int)
    requires |nodes| == |parent| == |nodes'| && n < |nodes| && p < |nodes| && n != p && IsTree(parent)
    requires forall x :: 0 <= x < |nodes| && x != p ==> nodes'[x] == nodes[x]
    requires NodeOk(nodes, parent, n, skip)
    requires forall c :: 0 <= c < |nodes| ==> (Counts(nodes, parent, n, c, skip) <==> Counts(nodes', parent, n, c, skip'))
    requires Counts(nodes, parent, n, p, skip) ==> nodes'[p].weight == nodes[p].weight
    ensures NodeOk(nodes', parent, n, skip')
  {
    KidsFrame(nodes, nodes', parent, n, |nodes|, skip, skip');
  }

  // ----- telling the parent

  /** pos joins its parent: one more active child, its weight competing. */
  function Join(nodes: seq<Group>, parent: seq<nat>, pos: nat): seq<Group>
    requires |nodes| == |parent| && IsTree(parent) && 0 < pos < |nodes|
  {
    var g := nodes[pos];
    var w := if g.newWeight != 0 then g.newWeight else g.weight;
    var p := nodes[parent[pos]];
    nodes[pos := g.(weight := w, newWeight := 0)]
         [parent[pos] := p.(nrActive := p.nrActive + 1, childrenWeight := p.childrenWeight + w)]
  }

  lemma JoinKeeps(nodes: seq<Group>, parent: seq<nat>, pos: nat)
    requires TreeOk(nodes, parent, pos) && 0 < pos < |nodes| && Active(nodes[pos])
    ensures TreeOk(Join(nodes, parent, pos), parent, if nodes[parent[pos]].nrActive == 0 then parent[pos] else -1)
    ensures Active(Join(nodes, parent, pos)[parent[pos]])
  {
    var p := parent[pos];
    var nodes' := Join(nodes, parent, pos);
    var skip := if nodes[p].nrActive == 0 then p else -1;
    var mid := nodes[pos := nodes'[pos]];
    forall n | 0 <= n < |nodes|
      ensures NodeOk(nodes', parent, n, skip)
    {
      assert NodeOk(nodes, parent, n, pos);
      KidsFrame(nodes, mid, parent, n, |nodes|, pos, pos);
      if n == p {
        KidsJoin(mid, parent, p, |nodes|, pos);
        KidsFrame(mid, nodes', parent, n, |nodes|, -1, skip);
      } else {
        KidsFrame(mid, nodes', parent, n, |nodes|, pos, skip);
      }
    }
    assert NodeOk(nodes, parent, p, pos);
  }

  /** pos, now inactive, still figures in its parent's sums; everyone else is in order. */
  ghost predicate Owes(nodes: seq<Group>, parent: seq<nat>, pos: nat)
  {
    && |nodes| == |parent| && IsTree(parent) && 0 < pos < |nodes| && !Active(nodes[pos])
    && (forall n :: 0 <= n < |nodes| && n != parent[pos] ==> NodeOk(nodes, parent, n, -1))
    && NodeOk(Leave(nodes, parent, pos), parent, parent[pos], -1)
  }

  function Leave(nodes: seq<Group>, parent: seq<nat>, pos: nat): seq<Group>
    requires |nodes| == |parent| && IsTree(parent) && 0 < pos < |nodes|
  {
    var p := nodes[parent[pos]];
    nodes[parent[pos] := p.(nrActive := p.nrActive - 1, childrenWeight := p.childrenWeight - nodes[pos].weight)]
  }

  /** The leftover-weight warning never fires: a group that is no longer active has no children weight. */
  lemma InactiveHasNoWeight(nodes: seq<Group>, parent: seq<nat>, n: nat)
    requires |nodes| == |parent| && n < |nodes| && NodeOk(nodes, parent, n, -1) && nodes[n].nrActive == 0
    ensures nodes[n].childrenWeight == 0 && !nodes[n].onTree
  {
    KidsZero(nodes, parent, n, |nodes|, -1);
  }

  lemma LeaveKeeps(nodes: seq<Group>, parent: seq<nat>, pos: nat)
    requires Owes(nodes, parent, pos)
    ensures var nodes' := Leave(nodes, parent, pos);
            var p := parent[pos];
            && nodes'[p].nrActive >= 0
            && (nodes'[p].nrActive == 0 ==> nodes'[p].childrenWeight == 0 && !nodes'[p].onTree)
            && (nodes'[p].nrActive > 0 || p == 0 ==> TreeOk(nodes', parent, -1))
            && (nodes'[p].nrActive == 0 && p > 0 ==> Owes(nodes', parent, p))
  {
    hide NodeOk;
    var nodes' := Leave(nodes, parent, pos);
    var p := parent[pos];
    LeaveCounts(nodes, parent, pos);
    forall n | 0 <= n < |nodes| && n != p && (n != parent[p] || nodes'[p].nrActive > 0 || p == 0)
      ensures NodeOk(nodes', parent, n, -1)
    {
      NodeFrame(nodes, nodes', parent, n, p, -1, -1);
    }
    if nodes'[p].nrActive == 0 && p > 0 {
      LeaveOwes(nodes, parent, pos);
    }
  }

  lemma LeaveCounts(nodes: seq<Group>, parent: seq<nat>, pos: nat)
    requires Owes(nodes, parent, pos)
    ensures var nodes' := Leave(nodes, parent, pos);
            && nodes'[parent[pos]].nrActive >= 0 && Active(nodes[parent[pos]])
            && (nodes'[parent[pos]].nrActive == 0 ==> nodes'[parent[pos]].childrenWeight == 0 && !nodes'[parent[pos]].onTree)
            && NodeOk(nodes', parent, parent[pos], -1)
  {
    var nodes' := Leave(nodes, parent, pos);
    if nodes'[parent[pos]].nrActive == 0 {
      InactiveHasNoWeight(nodes', parent, parent[pos]);
    }
  }

  /** The parent itself turned inactive, so now it owes its own parent. */
  lemma LeaveOwes(nodes: seq<Group>, parent: seq<nat>, pos: nat)
    requires Owes(nodes, parent, pos) && parent[pos] > 0 && Leave(nodes, parent, pos)[parent[pos]].nrActive == 0
    requires Active(nodes[parent[pos]])
    ensures var nodes' := Leave(nodes, parent, pos);
            NodeOk(Leave(nodes', parent, parent[pos]), parent, parent[parent[pos]], -1)
  {
    var nodes' := Leave(nodes, parent, pos);
    var p := parent[pos];
    var r := parent[p];
    var nodes'' := Leave(nodes', parent, p);
    assert NodeOk(nodes, parent, r, -1);
    KidsJoin(nodes, parent, r, |nodes|, p);
    KidsJoin(nodes', parent, r, |nodes|, p);
    KidsFrame(nodes, nodes', parent, r, |nodes|, p, p);
    KidsFrame(nodes', nodes'', parent, r, |nodes|, -1, -1);
  }

  // ----- shares

  /** What a value v at n becomes on the way up to the ancestor `stop`, rounded down at each level. */
  function Along(nodes: seq<Group>, parent: seq<nat>, v: int, n: nat, stop: nat): int
    requires |nodes| == |parent| && IsTree(parent) && n < |nodes|
    decreases n
  {
    if n <= stop then v
    else if nodes[parent[n]].childrenWeight <= 0 then 0
    else Along(nodes, parent, v * nodes[n].weight / nodes[parent[n]].childrenWeight, parent[n], stop)
  }

  /** The share of an on-tree group before the maximum with one. */
  function Share(nodes: seq<Group>, parent: seq<nat>, g: nat): int
    requires |nodes| == |parent| && IsTree(parent) && g < |nodes| && nodes[g].childrenWeight > 0
  {
    Along(nodes, parent, FULL * nodes[g].leafWeight / nodes[g].childrenWeight, g, 0)
  }
}
