/**
 Every run of the CFQ groups from an idle start: queues come and go, groups are served and weights change.
 */
module CfqGroupRuns {
  import opened Basics
  import opened CfqGroups
  import opened CfqShares
  import opened CfqGroupTree

  const WEIGHT_MIN := 10
  const WEIGHT_MAX := 1000

  // ----- who is active

  /** m is on the service tree, at n or below it. */
  ghost predicate Busy(nodes: Nodes, parent: seq<nat>, n: nat, m: nat)
    requires |nodes| == |parent| && IsTree(parent)
  {
    m < |nodes| && nodes[m].onTree && Above(parent, m, n)
  }

  lemma {:induction false} BusyIsActive(nodes: Nodes, parent: seq<nat>, n: nat, m: nat)
    requires TreeOk(nodes, parent, -1) && n < |nodes| && m < |nodes| && Active(nodes[m]) && Above(parent, m, n)
    ensures Active(nodes[n])
    decreases m
  {
    if m != n {
      ParentWeighs(nodes, parent, m, -1);
      BusyIsActive(nodes, parent, n, parent[m]);
    }
  }

  lemma {:induction false} SomeKid(nodes: Nodes, parent: seq<nat>, n: nat, k: nat) returns (c: nat)
    requires |nodes| == |parent| && k <= |nodes| && Kids(nodes, parent, n, k, -1) > 0
    ensures c < k && Counts(nodes, parent, n, c, -1)
  {
    if Counts(nodes, parent, n, k - 1, -1) {
      c := k - 1;
    } else {
      c := SomeKid(nodes, parent, n, k - 1);
    }
  }

  lemma {:induction false} ActiveIsBusy(nodes: Nodes, parent: seq<nat>, n: nat) returns (m: nat)
    requires TreeOk(nodes, parent, -1) && n < |nodes| && Active(nodes[n])
    ensures Busy(nodes, parent, n, m)
    decreases |nodes| - n
  {
    assert NodeOk(nodes, parent, n, -1);
    if nodes[n].onTree {
      m := n;
    } else {
      var c := SomeKid(nodes, parent, n, |nodes|);
      m := ActiveIsBusy(nodes, parent, c);
      AboveStep(parent, m, c);
    }
  }

  /** A group counts as active exactly when it, or a group below it, is on the service tree. */
  lemma ActiveExact(nodes: Nodes, parent: seq<nat>, n: nat)
    requires TreeOk(nodes, parent, -1) && n < |nodes|
    ensures Active(nodes[n]) <==> exists m: nat :: Busy(nodes, parent, n, m)
  {
    if Active(nodes[n]) {
      var m := ActiveIsBusy(nodes, parent, n);
    }
    forall m: nat | Busy(nodes, parent, n, m)
      ensures Active(nodes[n])
    {
      assert NodeOk(nodes, parent, m, -1);
      BusyIsActive(nodes, parent, n, m);
    }
  }

  // ----- steps

  datatype Op =
    | QueueAdd(g: nat)                         // cfq_group_notify_queue_add()
    | QueueDel(g: nat)                         // cfq_group_notify_queue_del()
    | Serve(g: nat)                            // cfq_group_served()
    | SetWeight(g: nat, val: nat, leaf: bool)  // a cgroup write

  /** Only a group with queues loses one or is served. */
  predicate Can(queues: seq<nat>, op: Op) { op.g < |queues| && (op.QueueDel? || op.Serve? ==> queues[op.g] > 0) }

  function Step(queues: seq<nat>, op: Op): seq<nat>
    requires Can(queues, op)
  {
    match op
    case QueueAdd(g) => queues[g := queues[g] + 1]
    case QueueDel(g) => queues[g := queues[g] - 1]
    case _ => queues
  }

  predicate Legal(queues: seq<nat>, ops: seq<Op>)
    decreases |ops|
  {
    ops == [] || (Can(queues, ops[0]) && Legal(Step(queues, ops[0]), ops[1..]))
  }

  function Final(queues: seq<nat>, ops: seq<Op>): seq<nat>
    requires Legal(queues, ops)
    decreases |ops|
  {
    if ops == [] then queues else Final(Step(queues, ops[0]), ops[1..])
  }

  /** A weight written to a group counts only once the group joins its parent. */
  function Written(nodes: Nodes, g: nat, val: nat, leaf: bool): Nodes
    requires g < |nodes|
  {
    nodes[g := if leaf then nodes[g].(newLeafWeight := val) else nodes[g].(newWeight := val)]
  }

  lemma WrittenKeeps(nodes: Nodes, parent: seq<nat>, g: nat, val: nat, leaf: bool)
    requires Inv(nodes, parent) && g < |nodes|
    ensures Inv(Written(nodes, g, val, leaf), parent)
  {
    var nodes' := Written(nodes, g, val, leaf);
    forall n | 0 <= n < |nodes|
      ensures NodeOk(nodes', parent, n, -1) && FractionOk(nodes'[n])
    {
      assert NodeOk(nodes, parent, n, -1) && FractionOk(nodes[n]);
      KidsFrame(nodes, nodes', parent, n, |nodes|, -1, -1);
    }
  }

  /** It counts from then on: the leaf weight when the group enters the tree, the weight when it turns active. */
  lemma WrittenIsTaken(nodes: Nodes, now: Nodes, g: nat, val: nat, leaf: bool)
    requires g < |nodes| == |now| && val > 0 && Takes(Written(nodes, g, val, leaf), now, g)
    ensures leaf ==> now[g].leafWeight == val && (KeepsWeight(nodes[g], now[g]) || TakesWeight(nodes[g], now[g]))
    ensures !leaf ==> TakesLeaf(nodes[g], now[g])
    ensures !leaf && g > 0 && !Active(nodes[g]) && Active(now[g]) ==> now[g].weight == val
    ensures !leaf && (g == 0 || Active(nodes[g])) ==> now[g].weight == nodes[g].weight && now[g].newWeight == val
  {
  }

  /** The groups on the service tree are those with queues. */
  predicate Matches(nodes: Nodes, queues: seq<nat>)
  {
    |nodes| == |queues| && forall n :: 0 <= n < |nodes| ==> (nodes[n].onTree <==> queues[n] > 0)
  }

  method Do(t: GroupTree, queues: seq<nat>, op: Op) returns (queues': seq<nat>)
    requires Inv(t.nodes, t.parent) && Matches(t.nodes, queues) && Can(queues, op)
    modifies t
    ensures queues' == Step(queues, op) && Inv(t.nodes, t.parent) && Matches(t.nodes, queues')
    ensures op.QueueAdd? && queues[op.g] == 0 ==> Takes(old(t.nodes), t.nodes, op.g)
    ensures op.QueueAdd? && queues[op.g] > 0 ==> t.nodes == old(t.nodes)
    ensures op.SetWeight? ==> op.g < |old(t.nodes)|
    ensures op.SetWeight? && WEIGHT_MIN <= op.val <= WEIGHT_MAX ==> t.nodes == Written(old(t.nodes), op.g, op.val, op.leaf)
    ensures op.SetWeight? && !(WEIGHT_MIN <= op.val <= WEIGHT_MAX) ==> t.nodes == old(t.nodes)
  {
    hide Inv, Share;
    queues' := queues;
    match op {
      case QueueAdd(g) =>
        queues' := queues'[g := queues'[g] + 1];
        if !t.nodes[g].onTree {
          t.ServiceTreeAdd(g);
        }
      case QueueDel(g) =>
        queues' := queues'[g := queues'[g] - 1];
        if queues'[g] == 0 {
          t.ServiceTreeDel(g);
        }
      case Serve(g) =>
        t.GroupServed(g);
      case SetWeight(g, val, leaf) =>
        if WEIGHT_MIN <= val <= WEIGHT_MAX {
          WrittenKeeps(t.nodes, t.parent, g, val, leaf);
          t.nodes := Written(t.nodes, g, val, leaf);
        }
    }
  }

  /**
   After every run from idle groups: on the service tree are the groups with queues, active are those with such a group
   at or below them, their counts and weights are right, every fraction is within 1 and 4096, and the shares together
   are at most the whole.
   */
  method RunFromIdle(parent: seq<nat>, weights: seq<Weights>, ops: seq<Op>) returns (t: GroupTree)
    requires IsTree(parent) && |weights| == |parent| && forall n :: 0 <= n < |weights| ==> weights[n].weight > 0 && weights[n].leaf > 0
    requires Legal(seq(|parent|, _ => 0), ops)
    ensures t.parent == parent && Inv(t.nodes, parent)
    ensures Matches(t.nodes, Final(seq(|parent|, _ => 0), ops))
    ensures forall n :: 0 <= n < |t.nodes| ==> (Active(t.nodes[n]) <==> exists m: nat :: Busy(t.nodes, parent, n, m))
    ensures ShareSum(t.nodes, parent, |t.nodes|) <= FULL
  {
    hide Inv;
    t := new GroupTree(parent, weights);
    var queues: seq<nat> := seq(|parent|, _ => 0);
    for i := 0 to |ops|
      invariant fresh(t) && t.parent == parent && Inv(t.nodes, parent) && Matches(t.nodes, queues)
      invariant Legal(queues, ops[i..]) && Final(queues, ops[i..]) == Final(seq(|parent|, _ => 0), ops)
    {
      assert ops[i..][1..] == ops[i + 1..];
      queues := Do(t, queues, ops[i]);
    }
    InvTree(t.nodes, parent);
    forall n | 0 <= n < |t.nodes|
      ensures Active(t.nodes[n]) <==> exists m: nat :: Busy(t.nodes, parent, n, m)
    {
      ActiveExact(t.nodes, parent, n);
    }
    SharesFit(t.nodes, parent);
  }

  lemma InvTree(nodes: Nodes, parent: seq<nat>)
    requires Inv(nodes, parent)
    ensures TreeOk(nodes, parent, -1)
  {
  }
}
