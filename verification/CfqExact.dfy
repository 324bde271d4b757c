/**
 A group's share is exact up to rounding: each level of the climb loses less than one part of 4096.
 */
module CfqExact {
  import opened Basics
  import opened CfqGroups
  import opened CfqShares
  import opened CfqGroupTree

  /** Levels between n and the root. */
  function Depth(parent: seq<nat>, n: nat): nat
    requires IsTree(parent) && n < |parent|
    decreases n
  {
    if n == 0 then 0 else 1 + Depth(parent, parent[n])
  }

  /** Rounding down loses less than one. */
  lemma FloorAbove(v: nat, w: nat, c: int, x: real)
    requires c > 0 && x > 0.0
    ensures v * w / c >= 0
    ensures (v * w / c) as real * x > v as real * Part(x, w as real, c as real) - x
  {
    var q := v * w / c;
    var a := v * w;
    assert a < q * c + c;
    var cr := c as real;
    assert a as real < (q as real + 1.0) * cr;
    assert a as real == v as real * w as real;
    QuotientBelow(a as real, q as real + 1.0, cr);
    StrictMono(a as real / cr, q as real + 1.0, x);
    assert a as real / cr * x == v as real * (x * w as real / cr);
  }

  lemma QuotientBelow(a: real, b: real, c: real)
    requires c > 0.0 && a < b * c
    ensures a / c < b
  {
    assert a / c * c == a;
    if a / c >= b {
      RealMono(b, a / c, c);
    }
  }

  lemma StrictMono(a: real, b: real, x: real)
    requires a < b && x > 0.0
    ensures a * x < b * x
  {
  }

  /** An active group receives something, and no more than everything. */
  lemma {:induction false} RatioBounds(nodes: Nodes, parent: seq<nat>, n: nat)
    requires TreeOk(nodes, parent, -1) && n < |nodes| && Active(nodes[n])
    ensures 0.0 < Ratio(nodes, parent, n) <= 1.0
    decreases n
  {
    hide TreeOk;
    TreeShape(nodes, parent, -1);
    if n > 0 {
      ParentWeighs(nodes, parent, n, -1);
      RatioBounds(nodes, parent, parent[n]);
      PartBounds(Ratio(nodes, parent, parent[n]), nodes[n].weight as real, nodes[parent[n]].childrenWeight as real);
    }
  }

  lemma PartBounds(r: real, x: real, w: real)
    requires 0.0 < r <= 1.0 && 0.0 < x <= w
    ensures 0.0 < Part(r, x, w) <= 1.0
  {
    assert r * x <= w by {
      RealMono(r, 1.0, x);
    }
    assert r * x > 0.0;
  }

  /** The climb from v is less than one below the exact product for each level. */
  lemma {:induction false} AlongAbove(nodes: Nodes, parent: seq<nat>, v: nat, n: nat)
    requires TreeOk(nodes, parent, -1) && n < |nodes| && Active(nodes[n])
    ensures Along(nodes, parent, v, n, 0) as real >= v as real * Ratio(nodes, parent, n) - Depth(parent, n) as real
    decreases n
  {
    hide TreeOk, Part;
    TreeShape(nodes, parent, -1);
    if n > 0 {
      var p := parent[n];
      ParentWeighs(nodes, parent, n, -1);
      RatioBounds(nodes, parent, p);
      FloorAbove(v, nodes[n].weight, nodes[p].childrenWeight, Ratio(nodes, parent, p));
      AlongAbove(nodes, parent, v * nodes[n].weight / nodes[p].childrenWeight, p);
    }
  }

  /** The share of a group on the service tree is its exact part of 4096, less than one off for itself and each group above it. */
  lemma ShareExact(nodes: Nodes, parent: seq<nat>, g: nat)
    requires TreeOk(nodes, parent, -1) && g < |nodes| && nodes[g].onTree
    ensures nodes[g].childrenWeight > 0
    ensures var exact := FULL as real * Local(nodes, parent, g);
            exact - (Depth(parent, g) + 1) as real < Share(nodes, parent, g) as real <= exact
  {
    hide TreeOk, Part;
    TreeShape(nodes, parent, -1);
    OwnWeight(nodes, parent, g, -1);
    ActiveOnTree(nodes, parent, g);
    ShareBelow(nodes, parent, g);
    RatioBounds(nodes, parent, g);
    FloorAbove(FULL, nodes[g].leafWeight, nodes[g].childrenWeight, Ratio(nodes, parent, g));
    AlongAbove(nodes, parent, FULL * nodes[g].leafWeight / nodes[g].childrenWeight, g);
  }

  lemma ActiveOnTree(nodes: Nodes, parent: seq<nat>, g: nat)
    requires TreeOk(nodes, parent, -1) && g < |nodes| && nodes[g].onTree
    ensures Active(nodes[g])
  {
    assert NodeOk(nodes, parent, g, -1);
  }
}
