/**
 Over one tree, the shares of all groups on the service tree add up to no more than the whole.
 */
module CfqShares {
  import opened Basics
  import opened CfqGroups

  type Nodes = seq<Group>

  /** The part of r that weight x gets out of a total weight w. */
  ghost function Part(r: real, x: real, w: real): real
    requires w > 0.0
  {
    r * x / w
  }

  /** The part of the root's time that reaches n, without rounding. */
  ghost function Ratio(nodes: Nodes, parent: seq<nat>, n: nat): real
    requires |nodes| == |parent| && IsTree(parent) && n < |nodes|
    decreases n
  {
    if n == 0 then 1.0
    else if nodes[parent[n]].childrenWeight <= 0 then 0.0
    else Part(Ratio(nodes, parent, parent[n]), nodes[n].weight as real, nodes[parent[n]].childrenWeight as real)
  }

  /** The part n keeps for its own queues. */
  ghost function Local(nodes: Nodes, parent: seq<nat>, n: nat): real
    requires |nodes| == |parent| && IsTree(parent) && n < |nodes|
  {
    if !nodes[n].onTree || nodes[n].childrenWeight <= 0 then 0.0
    else Part(Ratio(nodes, parent, n), nodes[n].leafWeight as real, nodes[n].childrenWeight as real)
  }

  /** What the active children of n below k receive. */
  ghost function Passed(nodes: Nodes, parent: seq<nat>, n: nat, k: nat): real
    requires |nodes| == |parent| && IsTree(parent) && k <= |nodes|
  {
    if k == 0 then 0.0
    else Passed(nodes, parent, n, k - 1) + (if Counts(nodes, parent, n, k - 1, -1) then Ratio(nodes, parent, k - 1) else 0.0)
  }

  ghost function LocalSum(nodes: Nodes, parent: seq<nat>, m: nat): real
    requires |nodes| == |parent| && IsTree(parent) && m <= |nodes|
  {
    if m == 0 then 0.0 else LocalSum(nodes, parent, m - 1) + Local(nodes, parent, m - 1)
  }

  ghost function PassedSum(nodes: Nodes, parent: seq<nat>, m: nat, k: nat): real
    requires |nodes| == |parent| && IsTree(parent) && k <= |nodes|
  {
    if m == 0 then 0.0 else PassedSum(nodes, parent, m - 1, k) + Passed(nodes, parent, m - 1, k)
  }

  /** What all active groups from lo up to m receive. */
  ghost function ActiveSum(nodes: Nodes, parent: seq<nat>, lo: nat, m: nat): real
    requires |nodes| == |parent| && IsTree(parent) && m <= |nodes|
  {
    if m <= lo then 0.0
    else ActiveSum(nodes, parent, lo, m - 1) + (if Active(nodes[m - 1]) then Ratio(nodes, parent, m - 1) else 0.0)
  }

  lemma {:induction false} RatioNonNegative(nodes: Nodes, parent: seq<nat>, n: nat)
    requires |nodes| == |parent| && IsTree(parent) && n < |nodes|
    ensures Ratio(nodes, parent, n) >= 0.0
    decreases n
  {
    if n > 0 {
      RatioNonNegative(nodes, parent, parent[n]);
      var r := Ratio(nodes, parent, parent[n]) * nodes[n].weight as real;
      assert r >= 0.0;
    }
  }

  /** The children of n share in proportion to their weights. */
  lemma {:induction false} PassedIs(nodes: Nodes, parent: seq<nat>, n: nat, k: nat)
    requires |nodes| == |parent| && IsTree(parent) && n < |nodes| && k <= |nodes| && nodes[n].childrenWeight > 0
    ensures Passed(nodes, parent, n, k) ==
            Part(Ratio(nodes, parent, n), KidsWeight(nodes, parent, n, k, -1) as real, nodes[n].childrenWeight as real)
  {
    hide Part;
    var r, w := Ratio(nodes, parent, n), nodes[n].childrenWeight as real;
    if k == 0 {
      PartEnds(r, w);
    } else {
      PassedIs(nodes, parent, n, k - 1);
      var x, y := KidsWeight(nodes, parent, n, k - 1, -1) as real, nodes[k - 1].weight as real;
      if Counts(nodes, parent, n, k - 1, -1) {
        assert Ratio(nodes, parent, k - 1) == Part(r, y, w);
        PartAdds(r, x, y, w);
      }
    }
  }

  lemma PartAdds(r: real, x: real, y: real, w: real)
    requires w > 0.0
    ensures Part(r, x + y, w) == Part(r, x, w) + Part(r, y, w)
  {
    assert r * (x + y) == r * x + r * y;
  }

  lemma PartEnds(r: real, w: real)
    requires w > 0.0
    ensures Part(r, 0.0, w) == 0.0 && Part(r, w, w) == r
  {
  }

  lemma {:induction false} NoKidsPassNothing(nodes: Nodes, parent: seq<nat>, n: nat, k: nat)
    requires |nodes| == |parent| && IsTree(parent) && k <= |nodes|
    requires Kids(nodes, parent, n, k, -1) == 0
    ensures Passed(nodes, parent, n, k) == 0.0
  {
    if k > 0 {
      NoKidsPassNothing(nodes, parent, n, k - 1);
    }
  }

  /** An active group keeps or passes on exactly what it receives. */
  lemma NodeConserves(nodes: Nodes, parent: seq<nat>, n: nat)
    requires TreeOk(nodes, parent, -1) && n < |nodes|
    ensures Local(nodes, parent, n) + Passed(nodes, parent, n, |nodes|) ==
            if Active(nodes[n]) then Ratio(nodes, parent, n) else 0.0
  {
    hide Part, Ratio, Passed;
    assert NodeOk(nodes, parent, n, -1);
    var g := nodes[n];
    if Active(g) {
      ActiveHasWeight(nodes, parent, n);
      PassedIs(nodes, parent, n, |nodes|);
      var r, w := Ratio(nodes, parent, n), g.childrenWeight as real;
      var x, y := if g.onTree then g.leafWeight as real else 0.0, KidsWeight(nodes, parent, n, |nodes|, -1) as real;
      assert x + y == w;
      PartAdds(r, x, y, w);
      PartEnds(r, w);
    } else {
      NoKidsPassNothing(nodes, parent, n, |nodes|);
    }
  }

  lemma ActiveHasWeight(nodes: Nodes, parent: seq<nat>, n: nat)
    requires TreeOk(nodes, parent, -1) && n < |nodes| && Active(nodes[n])
    ensures nodes[n].childrenWeight > 0
  {
    assert NodeOk(nodes, parent, n, -1);
    if !nodes[n].onTree {
      KidsWeigh(nodes, parent, n, |nodes|);
    }
  }

  lemma {:induction false} KidsWeigh(nodes: Nodes, parent: seq<nat>, n: nat, k: nat)
    requires TreeOk(nodes, parent, -1) && k <= |nodes|
    ensures Kids(nodes, parent, n, k, -1) > 0 ==> KidsWeight(nodes, parent, n, k, -1) > 0
  {
    if k > 0 {
      KidsWeigh(nodes, parent, n, k - 1);
      assert NodeOk(nodes, parent, k - 1, -1);
    }
  }

  lemma {:induction false} AllConserve(nodes: Nodes, parent: seq<nat>, m: nat)
    requires TreeOk(nodes, parent, -1) && m <= |nodes|
    ensures LocalSum(nodes, parent, m) + PassedSum(nodes, parent, m, |nodes|) == ActiveSum(nodes, parent, 0, m)
  {
    if m > 0 {
      AllConserve(nodes, parent, m - 1);
      NodeConserves(nodes, parent, m - 1);
    }
  }

  /** One more group counts once, at its parent. */
  lemma {:induction false} PassedOnce(nodes: Nodes, parent: seq<nat>, m: nat, k: nat)
    requires |nodes| == |parent| && IsTree(parent) && k < |nodes|
    ensures PassedSum(nodes, parent, m, k + 1) ==
            PassedSum(nodes, parent, m, k) + (if k > 0 && parent[k] < m && Active(nodes[k]) then Ratio(nodes, parent, k) else 0.0)
  {
    if m > 0 {
      PassedOnce(nodes, parent, m - 1, k);
    }
  }

  lemma {:induction false} PassedZero(nodes: Nodes, parent: seq<nat>, m: nat)
    requires |nodes| == |parent| && IsTree(parent)
    ensures PassedSum(nodes, parent, m, 0) == 0.0
  {
    if m > 0 {
      PassedZero(nodes, parent, m - 1);
    }
  }

  /** Everything passed on is received by a group below the root. */
  lemma {:induction false} PassedIsReceived(nodes: Nodes, parent: seq<nat>, k: nat)
    requires |nodes| == |parent| && IsTree(parent) && k <= |nodes|
    ensures PassedSum(nodes, parent, |nodes|, k) == ActiveSum(nodes, parent, 1, k)
  {
    if k == 0 {
      PassedZero(nodes, parent, |nodes|);
    } else {
      PassedIsReceived(nodes, parent, k - 1);
      PassedOnce(nodes, parent, |nodes|, k - 1);
    }
  }

  lemma {:induction false} ActiveSumSplit(nodes: Nodes, parent: seq<nat>, m: nat)
    requires |nodes| == |parent| && IsTree(parent) && 0 < m <= |nodes|
    ensures ActiveSum(nodes, parent, 0, m) == ActiveSum(nodes, parent, 1, m) + (if Active(nodes[0]) then 1.0 else 0.0)
  {
    if m > 1 {
      ActiveSumSplit(nodes, parent, m - 1);
    }
  }

  /** Exactly one whole is handed out, if anyone is active. */
  lemma LocalsAreWhole(nodes: Nodes, parent: seq<nat>)
    requires TreeOk(nodes, parent, -1)
    ensures LocalSum(nodes, parent, |nodes|) == if Active(nodes[0]) then 1.0 else 0.0
  {
    AllConserve(nodes, parent, |nodes|);
    PassedIsReceived(nodes, parent, |nodes|);
    ActiveSumSplit(nodes, parent, |nodes|);
  }

  // ----- rounding down at every level only loses

  lemma FloorBelow(v: nat, w: nat, c: int, x: real)
    requires c > 0 && x >= 0.0
    ensures v * w / c >= 0
    ensures (v * w / c) as real * x <= v as real * Part(x, w as real, c as real)
  {
    var q := v * w / c;
    var a := v * w;
    assert q * c <= a;
    assert q as real * c as real <= a as real;
    assert a as real == v as real * w as real;
    var cr := c as real;
    assert q as real <= a as real / cr;
    assert q as real * x <= a as real / cr * x by { RealMono(q as real, a as real / cr, x); }
    assert a as real / cr * x == v as real * (x * w as real / cr);
  }

  lemma RealMono(a: real, b: real, x: real)
    requires a <= b && x >= 0.0
    ensures a * x <= b * x
  {
  }

  lemma {:induction false} AlongBelow(nodes: Nodes, parent: seq<nat>, v: nat, n: nat)
    requires |nodes| == |parent| && IsTree(parent) && n < |nodes|
    ensures 0 <= Along(nodes, parent, v, n, 0)
    ensures Along(nodes, parent, v, n, 0) as real <= v as real * Ratio(nodes, parent, n)
    decreases n
  {
    if n > 0 && nodes[parent[n]].childrenWeight > 0 {
      var c := nodes[parent[n]].childrenWeight;
      RatioNonNegative(nodes, parent, parent[n]);
      FloorBelow(v, nodes[n].weight, c, Ratio(nodes, parent, parent[n]));
      AlongBelow(nodes, parent, v * nodes[n].weight / c, parent[n]);
    }
  }

  lemma ShareBelow(nodes: Nodes, parent: seq<nat>, g: nat)
    requires |nodes| == |parent| && IsTree(parent) && g < |nodes| && nodes[g].onTree && nodes[g].childrenWeight > 0
    ensures 0 <= Share(nodes, parent, g)
    ensures Share(nodes, parent, g) as real <= FULL as real * Local(nodes, parent, g)
  {
    RatioNonNegative(nodes, parent, g);
    FloorBelow(FULL, nodes[g].leafWeight, nodes[g].childrenWeight, Ratio(nodes, parent, g));
    AlongBelow(nodes, parent, FULL * nodes[g].leafWeight / nodes[g].childrenWeight, g);
  }

  /** The shares of the groups below m that are on the service tree. */
  function ShareSum(nodes: Nodes, parent: seq<nat>, m: nat): int
    requires |nodes| == |parent| && IsTree(parent) && m <= |nodes|
  {
    if m == 0 then 0
    else ShareSum(nodes, parent, m - 1) +
         if nodes[m - 1].onTree && nodes[m - 1].childrenWeight > 0 then Share(nodes, parent, m - 1) else 0
  }

  lemma {:induction false} ShareSumBelow(nodes: Nodes, parent: seq<nat>, m: nat)
    requires TreeOk(nodes, parent, -1) && m <= |nodes|
    ensures ShareSum(nodes, parent, m) as real <= FULL as real * LocalSum(nodes, parent, m)
  {
    if m > 0 {
      ShareSumBelow(nodes, parent, m - 1);
      if nodes[m - 1].onTree && nodes[m - 1].childrenWeight > 0 {
        ShareBelow(nodes, parent, m - 1);
      }
    }
  }

  /** Over one tree the floored shares of all groups on the service tree sum to at most 4096. */
  lemma SharesFit(nodes: Nodes, parent: seq<nat>)
    requires TreeOk(nodes, parent, -1)
    ensures ShareSum(nodes, parent, |nodes|) <= FULL
  {
    ShareSumBelow(nodes, parent, |nodes|);
    LocalsAreWhole(nodes, parent);
  }
}
