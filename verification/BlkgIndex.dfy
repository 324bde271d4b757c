/** The index itself: lookup, creation from the root down, and destruction from the leaves up. */
module BlkgIndex {
  import opened Basics
  import opened Lists
  import opened Blkg
  import opened BlkgRuns

  /** How many cgroups from c up to the root have no blkg on q. */
  ghost function Missing(parentOf: seq<nat>, tree: map<(nat, nat), nat>, c: nat, q: nat): nat
    decreases c
  {
    (if (c, q) in tree then 0 else 1) + (if 0 < c < |parentOf| && parentOf[c] < c then Missing(parentOf, tree, parentOf[c], q) else 0)
  }

  lemma {:induction false} MissingShrinks(parentOf: seq<nat>, tree: map<(nat, nat), nat>, c: nat, q: nat, a: nat, b: nat)
    ensures Missing(parentOf, tree[(a, q) := b], c, q) <= Missing(parentOf, tree, c, q)
    ensures OnPath(parentOf, a, c) && (a, q) !in tree ==> Missing(parentOf, tree[(a, q) := b], c, q) < Missing(parentOf, tree, c, q)
    decreases c
  {
    if 0 < c < |parentOf| && parentOf[c] < c {
      MissingShrinks(parentOf, tree, parentOf[c], q, a, b);
    }
  }

  lemma {:induction false} PathUp(parentOf: seq<nat>, a: nat, c: nat)
    requires OnPath(parentOf, a, c) && 0 < a < |parentOf| && parentOf[a] < a
    ensures OnPath(parentOf, parentOf[a], c)
    decreases c
  {
    if a != c {
      PathUp(parentOf, a, parentOf[c]);
    }
  }

  class Index {
    const parentOf: seq<nat>
    var online: seq<bool>
    var gone: seq<bool>
    var gqs: map<nat, Gq>
    var tree: map<(nat, nat), nat>
    var hint: map<nat, nat>
    var lists: seq<seq<nat>>
    var next: nat

    ghost function View(): State
      reads this
    {
      State(parentOf, online, gone, gqs, tree, hint, lists, next)
    }

    constructor (parentOf: seq<nat>, queues: nat)
      requires parentOf != [] && forall c :: 0 < c < |parentOf| ==> parentOf[c] < c
      ensures Inv(View()) && View() == Empty(parentOf, queues)
    {
      this.parentOf := parentOf;
      online, gone := seq(|parentOf|, _ => true), seq(|parentOf|, _ => false);
      gqs, tree, hint, lists, next := map[], map[], map[], seq(queues, _ => []), 0;
      new;
      EveryRunIsSafe(parentOf, queues, [], 0, 0, 0, 0);
    }

    /** __blkg_lookup(): what the tree says, whatever the hint. */
    method LookupBlkg(c: nat, q: nat, updateHint: bool) returns (b: Option<nat>)
      requires Inv(View())
      modifies `hint
      ensures Inv(View()) && b == InTree(tree, c, q)
      ensures View() == (if updateHint then SetHint(old(View()), c, q) else old(View()))
    {
      LookupAgrees(View(), c, q);
      HintKeeps(View(), c, q);
      if c in hint && hint[c] in gqs && gqs[hint[c]].q == q {
        return Some(hint[c]);
      }
      if (c, q) in tree && tree[(c, q)] in gqs && gqs[tree[(c, q)]].q == q {
        b := Some(tree[(c, q)]);
        if updateHint {
          hint := hint[c := b.value];
        }
        return;
      }
      return None;
    }

    /** blkg_create(). */
    method CreateBlkg(c: nat, q: nat, alloc: bool, insert: bool) returns (r: Result)
      requires Inv(View()) && c < |parentOf| && q < |lists|
      modifies `gqs, `tree, `lists, `next, `hint
      ensures Inv(View()) && (View(), r) == Create(old(View()), c, q, alloc, insert)
    {
      hide Inv, Adjust, Lookup;
      CreateKeeps(View(), c, q, alloc, insert);
      OnlineStays(View(), c);
      if !online[c] {
        return Err(EINVAL);
      }
      if !alloc {
        return Err(ENOMEM);
      }
      var parent := None;
      if c != 0 {
        parent := LookupBlkg(parentOf[c], q, false);
        ParentFound(View(), c, q);
        if parent.None? {
          return Err(EINVAL);
        }
        gqs := Adjust(gqs, parent, 1);
      } else {
        AdjustNone(gqs);
      }
      var b := next;
      next := next + 1;
      gqs := gqs[b := Gq(c, q, parent, 1, 0)];
      if insert && (c, q) !in tree {
        tree := tree[(c, q) := b];
        lists := lists[q := [b] + lists[q]];
        return Ok(b);
      }
      // blkg_put() of the only reference
      gqs := gqs[b := Gq(c, q, parent, 0, 0)];
      assert gqs == Adjust(old(gqs), parent, 1)[b := Gq(c, q, parent, 0, 0)];
      return Err(if (c, q) in tree then EEXIST else ENOMEM);
    }

    /** One turn of blkg_lookup_create(): the topmost missing blkg is made, if it can be. */
    method CreateTop(c: nat, q: nat, alloc: bool, insert: bool) returns (pos: nat, r: Result)
      requires Inv(View()) && c < |parentOf| && q < |lists| && (c, q) !in tree
      modifies `gqs, `tree, `lists, `next, `hint
      ensures Inv(View()) && |lists| == |old(lists)|
      ensures pos < |parentOf| && OnPath(parentOf, pos, c) && (pos, q) !in old(tree)
      ensures pos < |online| && (r.Ok? <==> online[pos] && alloc && insert)
      ensures tree == if r.Ok? then old(tree)[(pos, q) := r.blkg] else old(tree)
    {
      hide Inv, Create;
      pos := TopMissing(c, q);
      CreateKeeps(View(), pos, q, alloc, insert);
      OnlineStays(View(), pos);
      CreateFrame(View(), pos, q, alloc, insert);
      r := CreateBlkg(pos, q, alloc, insert);
    }

    /**
     blkg_lookup_create(): makes the missing blkgs from the top of the path down to c, one per turn. mem(i) tells how the
     i-th creation finds memory.
     */
    method LookupCreate(c: nat, q: nat, bypass: bool, dying: bool, mem: nat -> (bool, bool)) returns (r: Result)
      requires Inv(View()) && c < |parentOf| && q < |lists|
      modifies `gqs, `tree, `lists, `next, `hint
      ensures Inv(View()) && |lists| == |old(lists)|
      ensures bypass ==> r == Err(if dying then EINVAL else EBUSY) && View() == old(View())
      ensures forall k :: k in old(tree) ==> k in tree && tree[k] == old(tree)[k]
      ensures forall k :: k in tree ==> k in old(tree) || (k.1 == q && OnPath(parentOf, k.0, c))
      ensures r.Ok? ==> InTree(tree, c, q) == Some(r.blkg)
      ensures r.Ok? ==> forall a: nat :: OnPath(parentOf, a, c) ==> (a, q) in tree
      ensures !bypass && (forall i :: mem(i) == (true, true)) && (forall a: nat :: a < |online| && OnPath(parentOf, a, c) ==> online[a]) ==> r.Ok?
      ensures old(InTree(tree, c, q)).Some? && !bypass ==> r.Ok? && tree == old(tree)
    {
      hide Inv, Create;
      if bypass {
        return Err(if dying then EINVAL else EBUSY);
      }
      var b := LookupBlkg(c, q, true);
      if b.Some? {
        Ancestry(View(), c, q);
        return Ok(b.value);
      }
      var i := 0;
      while true
        invariant Inv(View()) && |lists| == |old(lists)| && (c, q) !in tree
        invariant forall k :: k in old(tree) ==> k in tree && tree[k] == old(tree)[k]
        invariant forall k :: k in tree ==> k in old(tree) || (k.1 == q && OnPath(parentOf, k.0, c))
        decreases Missing(parentOf, tree, c, q)
      {
        ghost var t := tree;
        var pos;
        pos, r := CreateTop(c, q, mem(i).0, mem(i).1);
        if r.Ok? {
          MissingShrinks(parentOf, t, c, q, pos, r.blkg);
        }
        if pos == c || r.Err? {
          if r.Ok? {
            Ancestry(View(), c, q);
          }
          return;
        }
        i := i + 1;
      }
    }

    /** blkg_destroy(), for a blkg without children in the tree. */
    method DestroyBlkg(b: nat)
      requires Inv(View()) && MayLeave(View(), b)
      modifies `gqs, `tree, `lists, `hint
      ensures Inv(View()) && View() == Destroy(old(View()), b)
    {
      hide Inv, MayLeave, Remove;
      DestroyKeeps(View(), b);
      MayLeaveHas(View(), b);
      var g := gqs[b];
      tree := tree - {(g.cg, g.q)};
      lists := lists[g.q := Remove(lists[g.q], b)];
      if g.cg in hint && hint[g.cg] == b {
        hint := hint - {g.cg};
      }
      gqs := gqs[b := g.(refs := g.refs - 1)];
    }

    /** blkg_destroy_all(): along the list, so that no blkg goes while one below it is in the tree. */
    method DestroyAll(q: nat)
      requires Inv(View()) && q < |lists|
      modifies `gqs, `tree, `lists, `hint
      ensures Inv(View()) && |lists| == |old(lists)| && lists[q] == []
      ensures forall k :: k in tree <==> k in old(tree) && k.1 != q
      ensures forall k :: k in tree ==> tree[k] == old(tree)[k]
      ensures forall r :: 0 <= r < |lists| && r != q ==> lists[r] == old(lists)[r]
    {
      hide Inv, MayLeave;
      while lists[q] != []
        invariant Inv(View()) && |lists| == |old(lists)|
        invariant forall k :: k in tree ==> k in old(tree) && tree[k] == old(tree)[k]
        invariant forall k :: k in old(tree) && k.1 != q ==> k in tree
        invariant forall r :: 0 <= r < |lists| && r != q ==> lists[r] == old(lists)[r]
        decreases |lists[q]|
      {
        HeadMayLeave(View(), q);
        DestroyBlkg(lists[q][0]);
      }
      EmptyList(View(), q);
    }

    /** blkcg_css_offline(), once the cgroup takes no new blkgs and the cgroups below it are gone. */
    method CssOffline(c: nat)
      requires Inv(View()) && c < |parentOf| && c < |online| && !online[c] && ChildrenGone(View(), c)
      modifies `gqs, `tree, `lists, `hint, `gone
      ensures Inv(View()) && gone == old(gone)[c := true]
      ensures forall k :: k in tree <==> k in old(tree) && k.0 != c
      ensures forall k :: k in tree ==> tree[k] == old(tree)[k]
    {
      hide Inv, MayLeave;
      OnlineStays(View(), c);
      while exists k :: k in tree && k.0 == c
        invariant Inv(View()) && gone == old(gone)
        invariant forall k :: k in tree ==> k in old(tree) && tree[k] == old(tree)[k]
        invariant forall k :: k in old(tree) && k.0 != c ==> k in tree
        decreases |tree|
      {
        var k :| k in tree && k.0 == c;
        OfflineMayLeave(View(), c, k.1);
        NamedBy(View(), k);
        assert |tree| > 0;
        DestroyBlkg(tree[k]);
      }
      DepartKeeps(View(), c);
      gone := gone[c := true];
    }

    /** __blkg_release_rcu(). */
    method ReleaseBlkg(b: nat)
      requires Inv(View()) && b in gqs && gqs[b].refs == 0
      modifies `gqs
      ensures Inv(View()) && View() == Release(old(View()), b)
    {
      ReleaseKeeps(View(), b);
      var parent := gqs[b].parent;
      gqs := gqs - {b};
      if parent.Some? {
        gqs := Adjust(gqs, parent, -1);
      }
    }

    /** The inner loop of blkg_lookup_create(): climb while the parent is missing too. */
    method TopMissing(c: nat, q: nat) returns (pos: nat)
      requires Inv(View()) && c < |parentOf| && (c, q) !in tree
      modifies `hint
      ensures View() == old(View())
      ensures pos < |parentOf| && OnPath(parentOf, pos, c) && (pos, q) !in tree
      ensures pos == 0 || (parentOf[pos], q) in tree
    {
      Descending(View());
      hide Inv;
      pos := c;
      while pos != 0
        invariant View() == old(View())
        invariant pos < |parentOf| && OnPath(parentOf, pos, c) && (pos, q) !in tree
        decreases pos
      {
        var b := LookupBlkg(parentOf[pos], q, false);
        if b.Some? {
          break;
        }
        PathUp(parentOf, pos, c);
        pos := parentOf[pos];
      }
    }
  }

  lemma AdjustNone(gqs: map<nat, Gq>)
    ensures Adjust(gqs, None, 1) == gqs
  {
  }

  lemma Descending(s: State)
    requires Inv(s)
    ensures forall c :: 0 < c < |s.parentOf| ==> s.parentOf[c] < c
  {
  }

  lemma Ancestry(s: State, c: nat, q: nat)
    requires Inv(s) && (c, q) in s.tree
    ensures forall a: nat :: OnPath(s.parentOf, a, c) ==> (a, q) in s.tree
  {
    hide Inv;
    forall a: nat | OnPath(s.parentOf, a, c)
      ensures (a, q) in s.tree
    {
      AncestorsIndexed(s, a, c, q);
    }
  }

  lemma EmptyList(s: State, q: nat)
    requires Inv(s) && q < |s.lists| && s.lists[q] == []
    ensures forall k :: k in s.tree ==> k.1 != q
  {
    assert ListOk(s.gqs, s.tree, q, s.lists[q]);
  }

  lemma NamedBy(s: State, k: (nat, nat))
    requires Inv(s) && k in s.tree
    ensures s.tree[k] in s.gqs && Names(s.gqs[s.tree[k]], k)
  {
  }
}
