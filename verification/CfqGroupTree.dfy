/**
 The group service tree, updated in place along the path to the root.
 */
module CfqGroupTree {
  import opened Arith
  import opened Basics
  import opened CfqGroups
  import opened CfqShares

  /** a is n or above it. */
  predicate Above(parent: seq<nat>, n: nat, a: nat)
    requires IsTree(parent) && n < |parent|
    decreases n
  {
    n == a || (n > a && n > 0 && Above(parent, parent[n], a))
  }

  lemma {:induction false} AboveStep(parent: seq<nat>, n: nat, a: nat)
    requires IsTree(parent) && n < |parent| && Above(parent, n, a) && 0 < a < |parent|
    ensures Above(parent, n, parent[a])
    decreases n
  {
    if n != a {
      AboveStep(parent, parent[n], a);
      AboveBelow(parent, parent[n], a);
    }
  }

  lemma {:induction false} AboveBelow(parent: seq<nat>, n: nat, a: nat)
    requires IsTree(parent) && n < |parent| && Above(parent, n, a)
    ensures a <= n
    decreases n
  {
  }

  /** One level further up. */
  lemma {:induction false} AlongStep(nodes: Nodes, parent: seq<nat>, v: int, n: nat, a: nat)
    requires |nodes| == |parent| && IsTree(parent) && n < |nodes| && 0 < a < |nodes| && Above(parent, n, a)
    requires nodes[parent[a]].childrenWeight > 0
    requires forall x :: a <= x <= n && Above(parent, n, x) ==> nodes[x].childrenWeight > 0
    ensures Along(nodes, parent, v, n, parent[a]) == Along(nodes, parent, v, n, a) * nodes[a].weight / nodes[parent[a]].childrenWeight
    decreases n
  {
    if n == a {
    } else {
      AboveBelow(parent, parent[n], a);
      assert Above(parent, n, parent[n]) by { assert Above(parent, parent[n], parent[n]); }
      forall x | a <= x <= parent[n] && Above(parent, parent[n], x)
        ensures nodes[x].childrenWeight > 0
      {
        assert Above(parent, n, x);
      }
      AlongStep(nodes, parent, v * nodes[n].weight / nodes[parent[n]].childrenWeight, parent[n], a);
    }
  }

  /** The path up to a does not see what changes above a, nor the weight of a itself. */
  lemma {:induction false} AlongFrame(nodes: Nodes, nodes': Nodes, parent: seq<nat>, v: int, n: nat, a: nat)
    requires |nodes| == |parent| == |nodes'| && IsTree(parent) && n < |nodes| && Above(parent, n, a)
    requires forall x :: a <= x < |nodes| ==> nodes'[x].childrenWeight == nodes[x].childrenWeight
    requires forall x :: a < x < |nodes| ==> nodes'[x].weight == nodes[x].weight
    ensures Along(nodes', parent, v, n, a) == Along(nodes, parent, v, n, a)
    decreases n
  {
    if n > a {
      AboveBelow(parent, parent[n], a);
      if nodes[parent[n]].childrenWeight > 0 {
        AlongFrame(nodes, nodes', parent, v * nodes[n].weight / nodes[parent[n]].childrenWeight, parent[n], a);
      }
    }
  }

  /** A counted child's weight is part of its parent's children weight. */
  lemma {:induction false} KidCounted(nodes: Nodes, parent: seq<nat>, n: nat, k: nat, c: nat, skip: int)
    requires |nodes| == |parent| && k <= |nodes| && c < k && Counts(nodes, parent, n, c, skip)
    ensures KidsWeight(nodes, parent, n, k, skip) >= nodes[c].weight
    ensures Kids(nodes, parent, n, k, skip) >= 1
  {
    if c < k - 1 {
      KidCounted(nodes, parent, n, k - 1, c, skip);
    }
  }

  /** A group goes onto the service tree: its own sums at once, its parent's only if it was inactive. */
  function Enter(nodes: Nodes, g: nat): Nodes
    requires g < |nodes|
  {
    var n := nodes[g];
    var leaf := if n.newLeafWeight != 0 then n.newLeafWeight else n.leafWeight;
    nodes[g := n.(leafWeight := leaf, newLeafWeight := 0, onTree := true,
                  nrActive := n.nrActive + 1, childrenWeight := n.childrenWeight + leaf)]
  }

  lemma EnterKeeps(nodes: Nodes, parent: seq<nat>, g: nat)
    requires TreeOk(nodes, parent, -1) && g < |nodes| && !nodes[g].onTree
    ensures TreeOk(Enter(nodes, g), parent, if nodes[g].nrActive == 0 then g else -1)
    ensures Active(Enter(nodes, g)[g]) && nodes[g].nrActive >= 0
  {
    var nodes' := Enter(nodes, g);
    var skip := if nodes[g].nrActive == 0 then g else -1;
    forall n | 0 <= n < |nodes|
      ensures NodeOk(nodes', parent, n, skip)
    {
      assert NodeOk(nodes, parent, n, -1);
      assert NodeOk(nodes, parent, g, -1);
      KidsFrame(nodes, nodes', parent, n, |nodes|, -1, skip);
    }
    assert NodeOk(nodes, parent, g, -1);
  }

  function Quit(nodes: Nodes, g: nat): Nodes
    requires g < |nodes|
  {
    var n := nodes[g];
    nodes[g := n.(onTree := false, nrActive := n.nrActive - 1, childrenWeight := n.childrenWeight - n.leafWeight)]
  }

  lemma QuitKeeps(nodes: Nodes, parent: seq<nat>, g: nat)
    requires TreeOk(nodes, parent, -1) && g < |nodes| && nodes[g].onTree
    ensures var nodes' := Quit(nodes, g);
            && nodes'[g].nrActive >= 0
            && (nodes'[g].nrActive == 0 ==> nodes'[g].childrenWeight == 0)
            && (nodes'[g].nrActive > 0 || g == 0 ==> TreeOk(nodes', parent, -1))
            && (nodes'[g].nrActive == 0 && g > 0 ==> Owes(nodes', parent, g))
  {
    var nodes' := Quit(nodes, g);
    assert NodeOk(nodes, parent, g, -1);
    KidsFrame(nodes, nodes', parent, g, |nodes|, -1, -1);
    assert NodeOk(nodes', parent, g, -1);
    forall n | 0 <= n < |nodes| && n != g && (n != parent[g] || nodes'[g].nrActive > 0 || g == 0)
      ensures NodeOk(nodes', parent, n, -1)
    {
      assert NodeOk(nodes, parent, n, -1);
      NodeFrame(nodes, nodes', parent, n, g, -1, -1);
    }
    if nodes'[g].nrActive == 0 {
      InactiveHasNoWeight(nodes', parent, g);
      if g > 0 {
        var p := parent[g];
        var nodes'' := Leave(nodes', parent, g);
        assert NodeOk(nodes, parent, p, -1);
        KidsJoin(nodes, parent, p, |nodes|, g);
        KidsJoin(nodes', parent, p, |nodes|, g);
        KidsFrame(nodes, nodes', parent, p, |nodes|, g, g);
        KidsFrame(nodes', nodes'', parent, p, |nodes|, -1, -1);
      }
    }
  }

  /** Fractions are not part of the sums. */
  lemma FractionFree(nodes: Nodes, parent: seq<nat>, g: nat, v: nat, skip: int)
    requires |nodes| == |parent| && g < |nodes|
    ensures var nodes' := nodes[g := nodes[g].(vfraction := v)];
            && (TreeOk(nodes, parent, skip) ==> TreeOk(nodes', parent, skip))
            && forall pos :: 0 < pos < |nodes| && Owes(nodes, parent, pos) ==> Owes(nodes', parent, pos)
  {
    var nodes' := nodes[g := nodes[g].(vfraction := v)];
    if TreeOk(nodes, parent, skip) {
      forall n | 0 <= n < |nodes|
        ensures NodeOk(nodes', parent, n, skip)
      {
        assert NodeOk(nodes, parent, n, skip);
        KidsFrame(nodes, nodes', parent, n, |nodes|, skip, skip);
      }
    }
    forall pos | 0 < pos < |nodes| && Owes(nodes, parent, pos)
      ensures Owes(nodes', parent, pos)
    {
      forall n | 0 <= n < |nodes| && n != parent[pos]
        ensures NodeOk(nodes', parent, n, -1)
      {
        assert NodeOk(nodes, parent, n, -1);
        KidsFrame(nodes, nodes', parent, n, |nodes|, -1, -1);
      }
      KidsFrame(Leave(nodes, parent, pos), Leave(nodes', parent, pos), parent, parent[pos], |nodes|, -1, -1);
    }
  }

  /** The root is nobody's child, so it need not be skipped. */
  lemma RootNotSkipped(nodes: Nodes, parent: seq<nat>)
    requires TreeOk(nodes, parent, 0)
    ensures TreeOk(nodes, parent, -1)
  {
    forall n | 0 <= n < |nodes|
      ensures NodeOk(nodes, parent, n, -1)
    {
      assert NodeOk(nodes, parent, n, 0);
      KidsFrame(nodes, nodes, parent, n, |nodes|, 0, -1);
    }
  }

  /** The parent of an active, counted child competes with at least its weight. */
  lemma ParentWeighs(nodes: Nodes, parent: seq<nat>, pos: nat, skip: int)
    requires TreeOk(nodes, parent, skip) && 0 < pos < |nodes| && Active(nodes[pos]) && pos != skip
    ensures nodes[parent[pos]].childrenWeight >= nodes[pos].weight > 0
    ensures Active(nodes[parent[pos]])
  {
    assert NodeOk(nodes, parent, parent[pos], skip) && NodeOk(nodes, parent, pos, skip);
    KidCounted(nodes, parent, parent[pos], |nodes|, pos, skip);
  }

  lemma StepBelow(v: int, w: int, c: int)
    requires 0 <= v <= FULL && 0 < w <= c
    ensures 0 <= v * w / c <= v
  {
    MulMono(w, c, v);
    DivMono(v * w, v * c, c);
    MultipleMod(v, c);
    DivAtLeast(v * w, c, 0);
  }

  /** All groups on the path from g up to pos have children weight. */
  ghost predicate PathWeighs(nodes: Nodes, parent: seq<nat>, g: nat, pos: nat)
    requires |nodes| == |parent| && IsTree(parent) && g < |nodes|
  {
    forall x :: pos <= x <= g && Above(parent, g, x) ==> nodes[x].childrenWeight > 0
  }

  lemma {:induction false} NoneBetween(parent: seq<nat>, g: nat, pos: nat, x: nat)
    requires IsTree(parent) && g < |parent| && 0 < pos < |parent| && Above(parent, g, pos) && Above(parent, g, x) && parent[pos] <= x < pos
    ensures x == parent[pos]
    decreases g
  {
    if g != pos {
      AboveBelow(parent, parent[g], pos);
      NoneBetween(parent, parent[g], pos, x);
    } else if x != g {
      AboveBelow(parent, parent[g], x);
    }
  }

  predicate SameWeights(a: Group, b: Group)
  {
    a.weight == b.weight && a.leafWeight == b.leafWeight && a.newWeight == b.newWeight && a.newLeafWeight == b.newLeafWeight
  }

  /** g, put on the tree, uses the leaf weight last written; so does each group that turns active with its weight. */
  predicate Takes(was: Nodes, now: Nodes, g: nat)
    requires |was| == |now|
  {
    forall n :: 0 <= n < |was| ==>
      && (if n == g then TakesLeaf(was[n], now[n]) else KeepsLeaf(was[n], now[n]))
      && (if n > 0 && !Active(was[n]) && Active(now[n]) then TakesWeight(was[n], now[n]) else KeepsWeight(was[n], now[n]))
  }

  predicate TakesLeaf(was: Group, now: Group)
  {
    now.newLeafWeight == 0 && now.leafWeight == if was.newLeafWeight != 0 then was.newLeafWeight else was.leafWeight
  }

  predicate TakesWeight(was: Group, now: Group)
  {
    now.newWeight == 0 && now.weight == if was.newWeight != 0 then was.newWeight else was.weight
  }

  predicate KeepsLeaf(was: Group, now: Group) { now.newLeafWeight == was.newLeafWeight && now.leafWeight == was.leafWeight }

  predicate KeepsWeight(was: Group, now: Group) { now.newWeight == was.newWeight && now.weight == was.weight }

  /** What Takes() says, with pos, if any, still to join its parent. */
  predicate Taking(was: Nodes, now: Nodes, g: nat, pos: int)
    requires |was| == |now|
  {
    forall n :: 0 <= n < |was| ==>
      && (if n == g then TakesLeaf(was[n], now[n]) else KeepsLeaf(was[n], now[n]))
      && (if n > 0 && n != pos && !Active(was[n]) && Active(now[n]) then TakesWeight(was[n], now[n]) else KeepsWeight(was[n], now[n]))
  }

  lemma EnterTakes(nodes: Nodes, g: nat)
    requires g < |nodes| && nodes[g].nrActive >= 0
    ensures Taking(nodes, Enter(nodes, g), g, if nodes[g].nrActive == 0 then g else -1)
  {
  }

  lemma AllTaken(was: Nodes, now: Nodes, now': Nodes, g: nat, pos: int)
    requires |was| == |now| == |now'| && pos <= 0 && Taking(was, now, g, pos)
    requires forall n :: 0 <= n < |now| ==> now'[n] == now[n].(vfraction := now'[n].vfraction)
    ensures Takes(was, now', g)
  {
  }

  lemma JoinTakes(was: Nodes, nodes: Nodes, parent: seq<nat>, g: nat, pos: nat)
    requires |was| == |nodes| == |parent| && IsTree(parent) && 0 < pos <= g < |nodes|
    requires Taking(was, nodes, g, pos) && !Active(was[pos]) && Active(nodes[pos])
    requires forall n :: 0 <= n < pos ==> nodes[n] == was[n]
    requires nodes[parent[pos]].nrActive >= 0
    ensures Taking(was, Join(nodes, parent, pos), g, if nodes[parent[pos]].nrActive == 0 then parent[pos] else -1)
  {
  }

  datatype Weights = Weights(weight: nat, leaf: nat)

  /** Groups without queues. */
  function Fresh(weights: seq<Weights>): Nodes
  {
    seq(|weights|, n requires 0 <= n < |weights| => Group(false, 0, 0, weights[n].weight, weights[n].leaf, 0, 0, 0))
  }

  lemma {:induction false} FreshKids(weights: seq<Weights>, parent: seq<nat>, n: nat, k: nat)
    requires |weights| == |parent| && k <= |weights|
    ensures Kids(Fresh(weights), parent, n, k, -1) == 0 && KidsWeight(Fresh(weights), parent, n, k, -1) == 0
  {
    if k > 0 {
      FreshKids(weights, parent, n, k - 1);
    }
  }

  /** A tree of groups without queues satisfies the invariant. */
  lemma FreshOk(weights: seq<Weights>, parent: seq<nat>)
    requires IsTree(parent) && |weights| == |parent| && forall n :: 0 <= n < |weights| ==> weights[n].weight > 0 && weights[n].leaf > 0
    ensures Inv(Fresh(weights), parent)
  {
    forall n | 0 <= n < |weights|
      ensures NodeOk(Fresh(weights), parent, n, -1)
    {
      FreshKids(weights, parent, n, |weights|);
    }
  }

  class GroupTree {
    var nodes: Nodes
    const parent: seq<nat>

    /** Groups as cfq_init_cfqg_base() and cfq_pd_init() leave them. */
    constructor (parent: seq<nat>, weights: seq<Weights>)
      requires IsTree(parent) && |weights| == |parent| && forall n :: 0 <= n < |weights| ==> weights[n].weight > 0 && weights[n].leaf > 0
      ensures this.parent == parent && this.nodes == Fresh(weights) && Inv(this.nodes, parent)
    {
      this.parent, this.nodes := parent, Fresh(weights);
      FreshOk(weights, parent);
    }

    /** The climb of cfq_group_service_tree_add() from pos to its parent. */
    method ClimbAdd(ghost g: nat, pos: nat, propagate: bool, vfr: int, ghost v0: int) returns (more: bool, vfr': int)
      requires TreeOk(nodes, parent, if propagate then pos else -1) && 0 < pos <= g < |nodes|
      requires Active(nodes[pos]) && Above(parent, g, pos) && PathWeighs(nodes, parent, g, pos)
      requires 0 <= vfr <= FULL && vfr == Along(nodes, parent, v0, g, pos)
      modifies `nodes
      ensures |nodes| == |old(nodes)| && TreeOk(nodes, parent, if more then parent[pos] else -1)
      ensures Active(nodes[parent[pos]]) && Above(parent, g, parent[pos]) && PathWeighs(nodes, parent, g, parent[pos])
      ensures 0 <= vfr' <= FULL && vfr' == Along(nodes, parent, v0, g, parent[pos])
      ensures forall n :: 0 <= n < |nodes| ==> nodes[n].onTree == old(nodes)[n].onTree && nodes[n].vfraction == old(nodes)[n].vfraction
      ensures forall n :: pos <= n < |nodes| ==> nodes[n].leafWeight == old(nodes)[n].leafWeight && nodes[n].childrenWeight == old(nodes)[n].childrenWeight
      ensures |old(nodes)| == |parent| && IsTree(parent) && nodes == if propagate then Join(old(nodes), parent, pos) else old(nodes)
      ensures more == (propagate && old(nodes)[parent[pos]].nrActive == 0)
      ensures forall n :: 0 <= n < parent[pos] ==> nodes[n] == old(nodes)[n]
    {
      hide TreeOk, Along;
      ghost var was := nodes;
      assert |nodes| == |parent| && IsTree(parent) by { TreeShape(nodes, parent, if propagate then pos else -1); }
      more := false;
      var p := parent[pos];
      if propagate {
        JoinKeeps(nodes, parent, pos);
        more := nodes[p].nrActive == 0;
        nodes := Join(nodes, parent, pos);
      }
      AboveStep(parent, g, pos);
      ParentWeighs(nodes, parent, pos, if more then p else -1);
      AlongFrame(was, nodes, parent, v0, g, pos);
      AlongStep(nodes, parent, v0, g, pos);
      StepBelow(vfr, nodes[pos].weight, nodes[p].childrenWeight);
      vfr' := vfr * nodes[pos].weight / nodes[p].childrenWeight;
      forall x | p <= x <= g && Above(parent, g, x)
        ensures nodes[x].childrenWeight > 0
      {
        if x < pos {
          NoneBetween(parent, g, pos, x);
        }
      }
    }

    /** cfq_group_service_tree_add(). */
    method ServiceTreeAdd(g: nat)
      requires Inv(nodes, parent) && g < |nodes|
      requires !nodes[g].onTree                                 // BUG_ON(!RB_EMPTY_NODE(&cfqg->rb_node))
      modifies `nodes
      ensures Inv(nodes, parent) && |nodes| == |old(nodes)|
      ensures nodes[g].onTree && nodes[g].childrenWeight > 0 && Active(nodes[g])
      ensures nodes[g].vfraction == (if Share(nodes, parent, g) > 1 then Share(nodes, parent, g) else 1)
      ensures forall n :: 0 <= n < |nodes| && n != g ==> nodes[n].onTree == old(nodes)[n].onTree && nodes[n].vfraction == old(nodes)[n].vfraction
      ensures Takes(old(nodes), nodes, g)
    {
      hide NodeOk, Along, Taking, Takes, Join;
      EnterKeeps(nodes, parent, g);
      EnterTakes(nodes, g);
      var propagate := nodes[g].nrActive == 0;
      nodes := Enter(nodes, g);
      OwnWeight(nodes, parent, g, if propagate then g else -1);
      var pos := g;
      var vfr := FULL * nodes[g].leafWeight / nodes[g].childrenWeight;
      StepBelow(FULL, nodes[g].leafWeight, nodes[g].childrenWeight);
      ghost var v0 := vfr;
      AlongHere(nodes, parent, v0, g);
      ghost var leaf, cw := nodes[g].leafWeight, nodes[g].childrenWeight;
      while pos > 0
        invariant 0 <= pos <= g < |nodes| == |old(nodes)|
        invariant TreeOk(nodes, parent, if propagate then pos else -1) && Active(nodes[pos])
        invariant Above(parent, g, pos) && PathWeighs(nodes, parent, g, pos)
        invariant 0 <= vfr <= FULL && vfr == Along(nodes, parent, v0, g, pos)
        invariant forall n :: 0 <= n < |nodes| && n != g ==> nodes[n].onTree == old(nodes)[n].onTree && nodes[n].vfraction == old(nodes)[n].vfraction
        invariant nodes[g].onTree && nodes[g].leafWeight == leaf && nodes[g].childrenWeight == cw
        invariant Taking(old(nodes), nodes, g, if propagate then pos else -1) && (propagate ==> !Active(old(nodes)[pos]))
        invariant forall n :: 0 <= n < pos ==> nodes[n] == old(nodes)[n]
      {
        if propagate {
          CountHere(nodes, parent, parent[pos], pos);
          JoinTakes(old(nodes), nodes, parent, g, pos);
        }
        propagate, vfr := ClimbAdd(g, pos, propagate, vfr, v0);
        pos := parent[pos];
      }
      if propagate {
        RootNotSkipped(nodes, parent);
      }
      CountHere(nodes, parent, g, -1);
      FractionFree(nodes, parent, g, if vfr > 1 then vfr else 1, -1);
      ghost var before := nodes;
      nodes := nodes[g := nodes[g].(vfraction := if vfr > 1 then vfr else 1)];
      AllTaken(old(nodes), before, nodes, g, if propagate then pos else -1);
      AlongFrame(before, nodes, parent, v0, g, 0);
    }

    /** cfq_group_service_tree_del(). */
    method ServiceTreeDel(g: nat)
      requires Inv(nodes, parent) && g < |nodes| && nodes[g].onTree
      modifies `nodes
      ensures Inv(nodes, parent) && |nodes| == |old(nodes)| && !nodes[g].onTree && nodes[g].nrActive == old(nodes)[g].nrActive - 1 >= 0
      ensures forall n :: 0 <= n < |nodes| && n != g ==> nodes[n].onTree == old(nodes)[n].onTree
      ensures forall n :: 0 <= n < |nodes| ==> SameWeights(nodes[n], old(nodes)[n])
      ensures forall n :: 0 <= n < |nodes| && nodes[n].vfraction != old(nodes)[n].vfraction ==> nodes[n].vfraction == 0 && !Active(nodes[n])
    {
      hide NodeOk, Owes;
      QuitKeeps(nodes, parent, g);
      nodes := Quit(nodes, g);
      var pos := g;
      var propagate := nodes[g].nrActive == 0;
      while propagate
        invariant 0 <= pos < |nodes| == |old(nodes)| == |parent| && IsTree(parent)
        invariant propagate ==> nodes[pos].childrenWeight == 0 && !nodes[pos].onTree && nodes[pos].nrActive == 0
        invariant propagate && pos > 0 ==> Owes(nodes, parent, pos)
        invariant pos <= g && nodes[g].nrActive == old(nodes)[g].nrActive - 1
        invariant !propagate || pos == 0 ==> TreeOk(nodes, parent, -1)
        invariant !nodes[g].onTree && forall n :: 0 <= n < |nodes| && n != g ==> nodes[n].onTree == old(nodes)[n].onTree
        invariant forall n :: 0 <= n < |nodes| ==> FractionOk(nodes[n]) && SameWeights(nodes[n], old(nodes)[n])
        invariant forall n :: 0 <= n < |nodes| && nodes[n].vfraction != old(nodes)[n].vfraction ==> nodes[n].vfraction == 0 && !Active(nodes[n])
        decreases propagate, pos
      {
        assert nodes[pos].childrenWeight == 0;                  // WARN_ON_ONCE(pos->children_weight)
        FractionFree(nodes, parent, pos, 0, -1);
        nodes := nodes[pos := nodes[pos].(vfraction := 0)];
        if pos == 0 {
          break;
        }
        LeaveKeeps(nodes, parent, pos);
        nodes := Leave(nodes, parent, pos);
        pos := parent[pos];
        propagate := nodes[pos].nrActive == 0;
      }
    }

    /** cfq_group_served(): the group leaves and re-enters the tree, picking up its current share. */
    method GroupServed(g: nat)
      requires Inv(nodes, parent) && g < |nodes| && nodes[g].onTree
      modifies `nodes
      ensures Inv(nodes, parent) && |nodes| == |old(nodes)| && nodes[g].onTree
      ensures nodes[g].childrenWeight > 0 && nodes[g].vfraction == (if Share(nodes, parent, g) > 1 then Share(nodes, parent, g) else 1)
      ensures forall n :: 0 <= n < |nodes| ==> nodes[n].onTree == old(nodes)[n].onTree
      ensures TakesLeaf(old(nodes)[g], nodes[g]) && forall n :: 0 <= n < |nodes| && n != g ==> KeepsLeaf(old(nodes)[n], nodes[n])
      ensures if g > 0 && old(nodes)[g].nrActive == 1 then TakesWeight(old(nodes)[g], nodes[g]) else KeepsWeight(old(nodes)[g], nodes[g])
      ensures forall n :: 0 <= n < |nodes| ==> TakesWeight(old(nodes)[n], nodes[n]) || KeepsWeight(old(nodes)[n], nodes[n])
    {
      hide Inv, Share;
      ServiceTreeDel(g);
      ServiceTreeAdd(g);
    }
  }

  lemma TreeShape(nodes: Nodes, parent: seq<nat>, skip: int)
    requires TreeOk(nodes, parent, skip)
    ensures |nodes| == |parent| && IsTree(parent)
  {
  }

  lemma OwnWeight(nodes: Nodes, parent: seq<nat>, g: nat, skip: int)
    requires TreeOk(nodes, parent, skip) && g < |nodes| && nodes[g].onTree
    ensures nodes[g].childrenWeight >= nodes[g].leafWeight > 0
    ensures PathWeighs(nodes, parent, g, g)
  {
    assert NodeOk(nodes, parent, g, skip);
  }

  lemma CountHere(nodes: Nodes, parent: seq<nat>, n: nat, skip: int)
    requires TreeOk(nodes, parent, skip) && n < |nodes|
    ensures nodes[n].nrActive >= 0 && (nodes[n].onTree ==> Active(nodes[n]))
  {
    assert NodeOk(nodes, parent, n, skip);
  }

  lemma AlongHere(nodes: Nodes, parent: seq<nat>, v: int, n: nat)
    requires |nodes| == |parent| && IsTree(parent) && n < |nodes|
    ensures Along(nodes, parent, v, n, n) == v
  {
  }
}
