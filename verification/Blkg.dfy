/**
 The index of cgroup-queue pairs, kernel/block/blk-cgroup.c.

 A blkg stands for one cgroup on one queue. Each cgroup finds its blkgs in a tree keyed by queue and caches the last one
 found as a hint; each queue lists its blkgs; a blkg points to the blkg of its parent cgroup and holds a reference to it.
 */
module Blkg {
  import opened Basics
  import opened Lists

  /** struct blkcg_gq. users counts the references that others took with blkg_get(). */
  datatype Gq = Gq(cg: nat, q: nat, parent: Option<nat>, refs: int, users: nat)

  /** Why a blkg could not be had. */
  datatype Error = EINVAL | ENOMEM | EEXIST | EBUSY

  datatype Result = Ok(blkg: nat) | Err(error: Error)

  /** Cgroup 0 is blkcg_root. tree is keyed by cgroup and queue; hint is blkg_hint of the cgroups that have one. */
  datatype State = State(
    parentOf: seq<nat>, online: seq<bool>, gone: seq<bool>,
    gqs: map<nat, Gq>, tree: map<(nat, nat), nat>, hint: map<nat, nat>, lists: seq<seq<nat>>, next: nat)

  // ----- invariants

  /** A forest of cgroups, where css_offline() runs on children before parents. */
  ghost predicate Hierarchy(parentOf: seq<nat>, online: seq<bool>, gone: seq<bool>)
  {
    && |parentOf| == |online| == |gone| > 0
    && (forall c :: 0 < c < |parentOf| ==> parentOf[c] < c)
    && (forall c :: 0 <= c < |gone| && gone[c] ==> !online[c])
    && (forall c :: 0 < c < |gone| && parentOf[c] < c && gone[parentOf[c]] ==> gone[c])
  }

  ghost predicate Names(g: Gq, k: (nat, nat)) { g.cg == k.0 && g.q == k.1 }

  ghost predicate TreeOk(gone: seq<bool>, gqs: map<nat, Gq>, tree: map<(nat, nat), nat>, nq: nat)
  {
    forall k :: k in tree ==> k.0 < |gone| && k.1 < nq && !gone[k.0] && tree[k] in gqs && Names(gqs[tree[k]], k)
  }

  /** The blkg of the parent cgroup is in the tree too, and pointed to. */
  ghost predicate LinkOk(parentOf: seq<nat>, gqs: map<nat, Gq>, tree: map<(nat, nat), nat>, k: (nat, nat))
    requires k in tree
  {
    && k.0 < |parentOf| && tree[k] in gqs
    && if k.0 == 0 then gqs[tree[k]].parent == None
       else (parentOf[k.0], k.1) in tree && gqs[tree[k]].parent == Some(tree[(parentOf[k.0], k.1)])
  }

  ghost predicate Linked(parentOf: seq<nat>, gqs: map<nat, Gq>, tree: map<(nat, nat), nat>)
  {
    forall k :: k in tree ==> LinkOk(parentOf, gqs, tree, k)
  }

  ghost predicate Indexed(gqs: map<nat, Gq>, tree: map<(nat, nat), nat>, b: nat)
  {
    b in gqs && (gqs[b].cg, gqs[b].q) in tree && tree[(gqs[b].cg, gqs[b].q)] == b
  }

  ghost predicate HintOk(gqs: map<nat, Gq>, tree: map<(nat, nat), nat>, hint: map<nat, nat>)
  {
    forall c :: c in hint ==> Indexed(gqs, tree, hint[c]) && gqs[hint[c]].cg == c
  }

  /** A queue lists just its blkgs in the tree, children before parents. */
  ghost predicate ListOk(gqs: map<nat, Gq>, tree: map<(nat, nat), nat>, q: nat, list: seq<nat>)
  {
    && NoDup(list)
    && (forall b :: b in list ==> Indexed(gqs, tree, b) && gqs[b].q == q)
    && (forall k :: k in tree && k.1 == q ==> tree[k] in list)
    && ChildrenFirst(gqs, list)
  }

  ghost predicate ChildrenFirst(gqs: map<nat, Gq>, list: seq<nat>)
  {
    forall i, j :: 0 <= i < |list| && 0 <= j < |list| && list[i] in gqs && gqs[list[i]].parent == Some(list[j]) ==> i < j
  }

  ghost predicate ListsOk(gqs: map<nat, Gq>, tree: map<(nat, nat), nat>, lists: seq<seq<nat>>)
  {
    forall q :: 0 <= q < |lists| ==> ListOk(gqs, tree, q, lists[q])
  }

  /** The unreleased blkgs that hold a reference to b as their parent. */
  function Kids(gqs: map<nat, Gq>, b: nat): set<nat> { set k | k in gqs && gqs[k].parent == Some(b) }

  ghost predicate RefOk(gqs: map<nat, Gq>, tree: map<(nat, nat), nat>, b: nat)
    requires b in gqs
  {
    && gqs[b].refs == (if Indexed(gqs, tree, b) then 1 else 0) + |Kids(gqs, b)| + gqs[b].users
    && (gqs[b].parent.Some? ==> gqs[b].parent.value in gqs && gqs[b].parent.value != b)
  }

  ghost predicate RefsOk(gqs: map<nat, Gq>, tree: map<(nat, nat), nat>, next: nat)
  {
    forall b :: b in gqs ==> b < next && RefOk(gqs, tree, b)
  }

  ghost predicate Inv(s: State)
  {
    && Hierarchy(s.parentOf, s.online, s.gone)
    && TreeOk(s.gone, s.gqs, s.tree, |s.lists|)
    && Linked(s.parentOf, s.gqs, s.tree)
    && HintOk(s.gqs, s.tree, s.hint)
    && ListsOk(s.gqs, s.tree, s.lists)
    && RefsOk(s.gqs, s.tree, s.next)
  }

  // ----- operations

  /** __blkg_lookup(): the hint if it is for this queue, else the tree. */
  function Lookup(s: State, c: nat, q: nat): Option<nat>
  {
    if c in s.hint && s.hint[c] in s.gqs && s.gqs[s.hint[c]].q == q then Some(s.hint[c])
    else if (c, q) in s.tree && s.tree[(c, q)] in s.gqs && s.gqs[s.tree[(c, q)]].q == q then Some(s.tree[(c, q)])
    else None
  }

  function InTree(tree: map<(nat, nat), nat>, c: nat, q: nat): Option<nat>
  {
    if (c, q) in tree then Some(tree[(c, q)]) else None
  }

  /** The hint never misleads. */
  lemma LookupAgrees(s: State, c: nat, q: nat)
    requires TreeOk(s.gone, s.gqs, s.tree, |s.lists|) && HintOk(s.gqs, s.tree, s.hint)
    ensures Lookup(s, c, q) == InTree(s.tree, c, q)
  {
    if c in s.hint {
      assert Indexed(s.gqs, s.tree, s.hint[c]);
    }
    if (c, q) in s.tree {
      assert Names(s.gqs[s.tree[(c, q)]], (c, q));
    }
  }

  /** __blkg_lookup() with update_hint: the hint is set from the tree. */
  function SetHint(s: State, c: nat, q: nat): State
  {
    if c in s.hint && s.hint[c] in s.gqs && s.gqs[s.hint[c]].q == q then s
    else if Lookup(s, c, q).Some? then s.(hint := s.hint[c := Lookup(s, c, q).value])
    else s
  }

  /** After a lookup that updates the hint, the hint is what the lookup found, if it did; no other hint changes. */
  lemma HintFollows(s: State, c: nat, q: nat)
    requires TreeOk(s.gone, s.gqs, s.tree, |s.lists|) && HintOk(s.gqs, s.tree, s.hint)
    ensures var t := SetHint(s, c, q);
            && t == s.(hint := t.hint)
            && t.hint == if (c, q) in s.tree then s.hint[c := s.tree[(c, q)]] else s.hint
  {
    LookupAgrees(s, c, q);
    if c in s.hint {
      assert Indexed(s.gqs, s.tree, s.hint[c]);
    }
  }

  /** blkg_get() or blkg_put() of a parent, if there is one. */
  function Adjust(gqs: map<nat, Gq>, p: Option<nat>, d: int): map<nat, Gq>
  {
    if p.Some? && p.value in gqs then gqs[p.value := gqs[p.value].(refs := gqs[p.value].refs + d)] else gqs
  }

  /** blkg_create(): alloc and insert say whether memory is found for the blkg and for the tree. */
  function Create(s: State, c: nat, q: nat, alloc: bool, insert: bool): (State, Result)
    requires c < |s.parentOf| == |s.online| && q < |s.lists|
  {
    if !s.online[c] then (s, Err(EINVAL))
    else if !alloc then (s, Err(ENOMEM))
    else
      var parent := if c == 0 then None else Lookup(s, s.parentOf[c], q);
      if c != 0 && parent.None? then (s, Err(EINVAL))
      else
        var b := s.next;
        var gqs := Adjust(s.gqs, parent, 1);
        if insert && (c, q) !in s.tree then
          (s.(gqs := gqs[b := Gq(c, q, parent, 1, 0)], tree := s.tree[(c, q) := b],
              lists := s.lists[q := [b] + s.lists[q]], next := b + 1), Ok(b))
        else (s.(gqs := gqs[b := Gq(c, q, parent, 0, 0)], next := b + 1), Err(if (c, q) in s.tree then EEXIST else ENOMEM))
  }

  /** blkg_destroy(). */
  function Destroy(s: State, b: nat): State
    requires b in s.gqs && s.gqs[b].q < |s.lists|
  {
    var g := s.gqs[b];
    s.(gqs := s.gqs[b := g.(refs := g.refs - 1)], tree := s.tree - {(g.cg, g.q)},
       lists := s.lists[g.q := Remove(s.lists[g.q], b)],
       hint := if g.cg in s.hint && s.hint[g.cg] == b then s.hint - {g.cg} else s.hint)
  }

  /** __blkg_release_rcu(), which blkg_put() schedules when the last reference is gone. */
  function Release(s: State, b: nat): State
    requires b in s.gqs
  {
    s.(gqs := Adjust(s.gqs - {b}, s.gqs[b].parent, -1))
  }

  /** blkg_get() and blkg_put() by a user of the blkg. */
  function Use(s: State, b: nat): State
    requires b in s.gqs
  {
    s.(gqs := s.gqs[b := s.gqs[b].(refs := s.gqs[b].refs + 1, users := s.gqs[b].users + 1)])
  }

  function Unuse(s: State, b: nat): State
    requires b in s.gqs && s.gqs[b].users > 0
  {
    s.(gqs := s.gqs[b := s.gqs[b].(refs := s.gqs[b].refs - 1, users := s.gqs[b].users - 1)])
  }

  /** The cgroup stops taking new blkgs; later css_offline() has removed those it had. */
  function Kill(s: State, c: nat): State
    requires c < |s.online|
  {
    s.(online := s.online[c := false])
  }

  function Leave(s: State, c: nat): State
    requires c < |s.gone|
  {
    s.(gone := s.gone[c := true])
  }

  // ----- changing counts only

  ghost predicate SameShape(a: map<nat, Gq>, b: map<nat, Gq>)
  {
    && a.Keys == b.Keys
    && (forall x :: x in a ==> b[x].cg == a[x].cg && b[x].q == a[x].q && b[x].parent == a[x].parent)
  }

  lemma ShapeTree(s: State, gqs: map<nat, Gq>)
    requires TreeOk(s.gone, s.gqs, s.tree, |s.lists|) && Linked(s.parentOf, s.gqs, s.tree) && SameShape(s.gqs, gqs)
    ensures TreeOk(s.gone, gqs, s.tree, |s.lists|) && Linked(s.parentOf, gqs, s.tree)
  {
    forall k | k in s.tree
      ensures LinkOk(s.parentOf, gqs, s.tree, k)
    {
      assert LinkOk(s.parentOf, s.gqs, s.tree, k);
    }
  }

  lemma ShapeIndexed(s: State, gqs: map<nat, Gq>)
    requires SameShape(s.gqs, gqs)
    ensures forall b :: Indexed(gqs, s.tree, b) <==> Indexed(s.gqs, s.tree, b)
    ensures forall b :: Kids(gqs, b) == Kids(s.gqs, b)
  {
  }

  lemma ShapeLists(s: State, gqs: map<nat, Gq>)
    requires HintOk(s.gqs, s.tree, s.hint) && ListsOk(s.gqs, s.tree, s.lists) && SameShape(s.gqs, gqs)
    ensures HintOk(gqs, s.tree, s.hint) && ListsOk(gqs, s.tree, s.lists)
  {
    ShapeIndexed(s, gqs);
    hide Indexed;
    forall q | 0 <= q < |s.lists|
      ensures ListOk(gqs, s.tree, q, s.lists[q])
    {
      assert ListOk(s.gqs, s.tree, q, s.lists[q]);
    }
  }

  ghost predicate Struct(s: State)
  {
    && TreeOk(s.gone, s.gqs, s.tree, |s.lists|) && Linked(s.parentOf, s.gqs, s.tree)
    && HintOk(s.gqs, s.tree, s.hint) && ListsOk(s.gqs, s.tree, s.lists)
  }

  lemma ShapeKeeps(s: State, gqs: map<nat, Gq>)
    requires Struct(s) && SameShape(s.gqs, gqs)
    ensures Struct(s.(gqs := gqs))
  {
    hide TreeOk, Linked, HintOk, ListsOk, SameShape;
    ShapeTree(s, gqs);
    ShapeLists(s, gqs);
  }

  // ----- a new blkg, not yet in the tree

  lemma FreshIndexed(s: State, b: nat, g: Gq)
    requires TreeOk(s.gone, s.gqs, s.tree, |s.lists|) && b !in s.gqs
    ensures forall x :: Indexed(s.gqs[b := g], s.tree, x) <==> Indexed(s.gqs, s.tree, x)
    ensures !Indexed(s.gqs[b := g], s.tree, b)
  {
  }

  lemma FreshTree(s: State, b: nat, g: Gq)
    requires TreeOk(s.gone, s.gqs, s.tree, |s.lists|) && Linked(s.parentOf, s.gqs, s.tree) && b !in s.gqs
    ensures TreeOk(s.gone, s.gqs[b := g], s.tree, |s.lists|) && Linked(s.parentOf, s.gqs[b := g], s.tree)
  {
    forall k | k in s.tree
      ensures LinkOk(s.parentOf, s.gqs[b := g], s.tree, k)
    {
      assert LinkOk(s.parentOf, s.gqs, s.tree, k);
    }
  }

  lemma FreshLists(s: State, b: nat, g: Gq)
    requires HintOk(s.gqs, s.tree, s.hint) && ListsOk(s.gqs, s.tree, s.lists) && b !in s.gqs
    requires forall x :: Indexed(s.gqs[b := g], s.tree, x) <==> Indexed(s.gqs, s.tree, x)
    ensures HintOk(s.gqs[b := g], s.tree, s.hint) && ListsOk(s.gqs[b := g], s.tree, s.lists)
  {
    forall q | 0 <= q < |s.lists|
      ensures ListOk(s.gqs[b := g], s.tree, q, s.lists[q])
    {
      assert ListOk(s.gqs, s.tree, q, s.lists[q]);
      assert forall x :: x in s.lists[q] ==> x in s.gqs && x != b;
      hide Indexed;
    }
  }

  lemma FreshKeeps(s: State, b: nat, g: Gq)
    requires Struct(s) && b !in s.gqs
    ensures Struct(s.(gqs := s.gqs[b := g]))
  {
    hide TreeOk, Linked, HintOk, ListsOk, Indexed;
    FreshIndexed(s, b, g);
    FreshTree(s, b, g);
    FreshLists(s, b, g);
  }

  lemma NoKids(gqs: map<nat, Gq>, b: nat)
    ensures Kids(gqs, b) == {} <==> forall x :: x in gqs ==> gqs[x].parent != Some(b)
  {
    assert forall x :: x in Kids(gqs, b) <==> x in gqs && gqs[x].parent == Some(b);
  }

  // ----- entering the tree

  /** b, known to nobody, becomes the blkg of (c, q). */
  ghost predicate MayEnter(s: State, c: nat, q: nat, b: nat)
  {
    && c < |s.parentOf| && c < |s.gone| && !s.gone[c] && q < |s.lists| && (c, q) !in s.tree
    && b in s.gqs && Names(s.gqs[b], (c, q)) && !Indexed(s.gqs, s.tree, b)
    && (if c == 0 then s.gqs[b].parent == None
        else (s.parentOf[c], q) in s.tree && s.gqs[b].parent == Some(s.tree[(s.parentOf[c], q)]))
    && Kids(s.gqs, b) == {}
  }

  function Enter(s: State, c: nat, q: nat, b: nat): State
    requires q < |s.lists|
  {
    s.(tree := s.tree[(c, q) := b], lists := s.lists[q := [b] + s.lists[q]])
  }

  lemma EnterIndexed(s: State, c: nat, q: nat, b: nat)
    requires MayEnter(s, c, q, b)
    ensures forall x :: Indexed(s.gqs, s.tree[(c, q) := b], x) <==> x == b || Indexed(s.gqs, s.tree, x)
  {
  }

  lemma EnterTree(s: State, c: nat, q: nat, b: nat)
    requires TreeOk(s.gone, s.gqs, s.tree, |s.lists|) && Linked(s.parentOf, s.gqs, s.tree) && MayEnter(s, c, q, b)
    ensures var t := s.tree[(c, q) := b]; TreeOk(s.gone, s.gqs, t, |s.lists|) && Linked(s.parentOf, s.gqs, t)
  {
    var t := s.tree[(c, q) := b];
    forall k | k in t
      ensures LinkOk(s.parentOf, s.gqs, t, k)
    {
      if k != (c, q) {
        assert LinkOk(s.parentOf, s.gqs, s.tree, k);
      }
    }
  }

  lemma EnterList(s: State, c: nat, q: nat, b: nat)
    requires MayEnter(s, c, q, b) && ListOk(s.gqs, s.tree, q, s.lists[q])
    ensures ListOk(s.gqs, s.tree[(c, q) := b], q, [b] + s.lists[q])
  {
    EnterIndexed(s, c, q, b);
    hide Indexed;
    var t, l := s.tree[(c, q) := b], [b] + s.lists[q];
    assert b !in s.lists[q];
    NoKids(s.gqs, b);
    forall k | k in t && k.1 == q
      ensures t[k] in l
    {
      if k != (c, q) {
        assert s.tree[k] in s.lists[q];
      }
    }
    forall i, j | 0 <= i < |l| && 0 <= j < |l| && l[i] in s.gqs && s.gqs[l[i]].parent == Some(l[j])
      ensures i < j
    {
      if i > 0 && j > 0 {
        assert l[i] == s.lists[q][i - 1] && l[j] == s.lists[q][j - 1];
      }
    }
  }

  lemma EnterOtherList(s: State, c: nat, q: nat, b: nat, r: nat)
    requires r < |s.lists| && r != q && ListOk(s.gqs, s.tree, r, s.lists[r]) && MayEnter(s, c, q, b)
    ensures ListOk(s.gqs, s.tree[(c, q) := b], r, s.lists[r])
  {
    EnterIndexed(s, c, q, b);
    hide Indexed;
  }

  lemma EnterKeeps(s: State, c: nat, q: nat, b: nat)
    requires Struct(s) && MayEnter(s, c, q, b)
    ensures Struct(Enter(s, c, q, b))
  {
    EnterTree(s, c, q, b);
    EnterIndexed(s, c, q, b);
    hide TreeOk, Linked, Indexed;
    var n := Enter(s, c, q, b);
    forall r | 0 <= r < |n.lists|
      ensures ListOk(n.gqs, n.tree, r, n.lists[r])
    {
      assert ListOk(s.gqs, s.tree, r, s.lists[r]);
      if r == q {
        EnterList(s, c, q, b);
      } else {
        EnterOtherList(s, c, q, b, r);
      }
    }
  }

  // ----- leaving the tree

  /** b is in the tree and no blkg in the tree has it as its parent. */
  ghost predicate MayLeave(s: State, b: nat)
  {
    && Indexed(s.gqs, s.tree, b) && s.gqs[b].q < |s.lists|
    && forall k :: k in s.tree && k.1 == s.gqs[b].q && 0 < k.0 < |s.parentOf| ==> s.parentOf[k.0] != s.gqs[b].cg
  }

  lemma LeaveIndexed(s: State, b: nat)
    requires Indexed(s.gqs, s.tree, b)
    ensures forall x :: Indexed(s.gqs, s.tree - {(s.gqs[b].cg, s.gqs[b].q)}, x) <==> x != b && Indexed(s.gqs, s.tree, x)
  {
    var t := s.tree - {(s.gqs[b].cg, s.gqs[b].q)};
    forall x
      ensures Indexed(s.gqs, t, x) <==> x != b && Indexed(s.gqs, s.tree, x)
    {
      if x in s.gqs {
        var k := (s.gqs[x].cg, s.gqs[x].q);
        assert k in t <==> k in s.tree && k != (s.gqs[b].cg, s.gqs[b].q);
      }
    }
  }

  lemma LeaveTree(s: State, b: nat)
    requires TreeOk(s.gone, s.gqs, s.tree, |s.lists|) && Linked(s.parentOf, s.gqs, s.tree) && MayLeave(s, b)
    ensures var t := s.tree - {(s.gqs[b].cg, s.gqs[b].q)}; TreeOk(s.gone, s.gqs, t, |s.lists|) && Linked(s.parentOf, s.gqs, t)
  {
    var t := s.tree - {(s.gqs[b].cg, s.gqs[b].q)};
    forall k | k in t
      ensures LinkOk(s.parentOf, s.gqs, t, k)
    {
      assert LinkOk(s.parentOf, s.gqs, s.tree, k);
    }
  }

  lemma LeaveList(s: State, b: nat)
    requires MayLeave(s, b) && ListOk(s.gqs, s.tree, s.gqs[b].q, s.lists[s.gqs[b].q])
    requires TreeOk(s.gone, s.gqs, s.tree, |s.lists|)
    ensures ListOk(s.gqs, s.tree - {(s.gqs[b].cg, s.gqs[b].q)}, s.gqs[b].q, Remove(s.lists[s.gqs[b].q], b))
  {
    hide ChildrenFirst, Indexed, TreeOk, MayLeave;
    MayLeaveHas(s, b);
    LeaveIndexed(s, b);
    LeaveRest(s, b);
    RemoveMembers(s.lists[s.gqs[b].q], b);
    RemoveOrder(s.gqs, s.lists[s.gqs[b].q], b);
  }

  lemma MayLeaveHas(s: State, b: nat)
    requires MayLeave(s, b)
    ensures b in s.gqs && s.gqs[b].q < |s.lists| && Indexed(s.gqs, s.tree, b)
  {
  }

  lemma LeaveRest(s: State, b: nat)
    requires Indexed(s.gqs, s.tree, b) && TreeOk(s.gone, s.gqs, s.tree, |s.lists|)
    ensures var t := s.tree - {(s.gqs[b].cg, s.gqs[b].q)}; forall k :: k in t ==> k in s.tree && t[k] == s.tree[k] && t[k] != b
  {
    var t := s.tree - {(s.gqs[b].cg, s.gqs[b].q)};
    forall k | k in t
      ensures s.tree[k] != b
    {
      assert Names(s.gqs[s.tree[k]], k);
    }
  }

  lemma RemoveOrder(gqs: map<nat, Gq>, l: seq<nat>, b: nat)
    requires NoDup(l) && ChildrenFirst(gqs, l)
    ensures ChildrenFirst(gqs, Remove(l, b))
  {
    hide NoDup, Remove;
    var r := Remove(l, b);
    forall x, y | 0 <= x < |r| && 0 <= y < |r| && r[x] in gqs && gqs[r[x]].parent == Some(r[y])
      ensures x < y
    {
      var x', y' := RemoveIndices(l, b, x, y);
    }
  }

  lemma LeaveOtherList(s: State, b: nat, r: nat)
    requires MayLeave(s, b) && r < |s.lists| && r != s.gqs[b].q && ListOk(s.gqs, s.tree, r, s.lists[r])
    ensures ListOk(s.gqs, s.tree - {(s.gqs[b].cg, s.gqs[b].q)}, r, s.lists[r])
  {
    LeaveIndexed(s, b);
    hide Indexed;
  }

  /** blkg_destroy() but for the reference. */
  function Unlink(s: State, b: nat): State
    requires b in s.gqs && s.gqs[b].q < |s.lists|
  {
    var g := s.gqs[b];
    s.(tree := s.tree - {(g.cg, g.q)}, lists := s.lists[g.q := Remove(s.lists[g.q], b)],
       hint := if g.cg in s.hint && s.hint[g.cg] == b then s.hint - {g.cg} else s.hint)
  }

  lemma UnlinkHint(s: State, b: nat)
    requires HintOk(s.gqs, s.tree, s.hint) && Indexed(s.gqs, s.tree, b) && s.gqs[b].q < |s.lists|
    ensures HintOk(s.gqs, Unlink(s, b).tree, Unlink(s, b).hint)
  {
    LeaveIndexed(s, b);
    hide Indexed;
    var n := Unlink(s, b);
    forall c | c in n.hint
      ensures Indexed(s.gqs, n.tree, n.hint[c]) && s.gqs[n.hint[c]].cg == c
    {
      assert Indexed(s.gqs, s.tree, s.hint[c]) && s.gqs[s.hint[c]].cg == c;
    }
  }

  lemma UnlinkKeeps(s: State, b: nat)
    requires Struct(s) && MayLeave(s, b)
    ensures Struct(Unlink(s, b))
  {
    LeaveTree(s, b);
    UnlinkHint(s, b);
    hide Linked, HintOk, Indexed, TreeOk;
    var n := Unlink(s, b);
    forall r | 0 <= r < |n.lists|
      ensures ListOk(n.gqs, n.tree, r, n.lists[r])
    {
      assert ListOk(s.gqs, s.tree, r, s.lists[r]);
      if r == s.gqs[b].q {
        LeaveList(s, b);
      } else {
        LeaveOtherList(s, b, r);
      }
    }
  }

  // ----- going away

  lemma GoneIndexed(s: State, b: nat)
    requires b in s.gqs && !Indexed(s.gqs, s.tree, b)
    ensures forall x :: Indexed(s.gqs - {b}, s.tree, x) <==> Indexed(s.gqs, s.tree, x)
  {
  }

  lemma GoneTree(s: State, b: nat)
    requires TreeOk(s.gone, s.gqs, s.tree, |s.lists|) && Linked(s.parentOf, s.gqs, s.tree)
    requires b in s.gqs && !Indexed(s.gqs, s.tree, b)
    ensures TreeOk(s.gone, s.gqs - {b}, s.tree, |s.lists|) && Linked(s.parentOf, s.gqs - {b}, s.tree)
  {
    forall k | k in s.tree
      ensures s.tree[k] != b && LinkOk(s.parentOf, s.gqs - {b}, s.tree, k)
    {
      assert Names(s.gqs[s.tree[k]], k) && LinkOk(s.parentOf, s.gqs, s.tree, k);
    }
  }

  lemma GoneLists(s: State, b: nat)
    requires HintOk(s.gqs, s.tree, s.hint) && ListsOk(s.gqs, s.tree, s.lists)
    requires b in s.gqs && !Indexed(s.gqs, s.tree, b)
    ensures HintOk(s.gqs - {b}, s.tree, s.hint) && ListsOk(s.gqs - {b}, s.tree, s.lists)
  {
    GoneIndexed(s, b);
    hide Indexed;
    forall q | 0 <= q < |s.lists|
      ensures ListOk(s.gqs - {b}, s.tree, q, s.lists[q])
    {
      assert ListOk(s.gqs, s.tree, q, s.lists[q]);
    }
  }

  lemma GoneKeeps(s: State, b: nat)
    requires Struct(s) && b in s.gqs && !Indexed(s.gqs, s.tree, b)
    ensures Struct(s.(gqs := s.gqs - {b}))
  {
    hide TreeOk, Linked, HintOk, ListsOk, Indexed;
    GoneTree(s, b);
    GoneLists(s, b);
  }
}
