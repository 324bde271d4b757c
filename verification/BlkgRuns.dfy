/** Every operation on the blkg index keeps its invariant, so every run does. */
module BlkgRuns {
  import opened Basics
  import opened Blkg

  // ----- reference counts

  lemma KidsAdd(gqs: map<nat, Gq>, b: nat, g: Gq, x: nat)
    requires b !in gqs
    ensures Kids(gqs[b := g], x) == Kids(gqs, x) + (if g.parent == Some(x) then {b} else {})
    ensures |Kids(gqs[b := g], x)| == |Kids(gqs, x)| + (if g.parent == Some(x) then 1 else 0)
  {
  }

  lemma KidsDrop(gqs: map<nat, Gq>, b: nat, x: nat)
    requires b in gqs
    ensures |Kids(gqs - {b}, x)| == |Kids(gqs, x)| - (if gqs[b].parent == Some(x) then 1 else 0)
  {
    assert Kids(gqs, x) == Kids(gqs - {b}, x) + (if gqs[b].parent == Some(x) then {b} else {});
  }

  lemma AdjustShape(gqs: map<nat, Gq>, p: Option<nat>, d: int)
    ensures SameShape(gqs, Adjust(gqs, p, d))
    ensures forall x :: x in gqs ==> Adjust(gqs, p, d)[x].users == gqs[x].users
    ensures forall x :: x in gqs ==> Adjust(gqs, p, d)[x].refs == gqs[x].refs + (if p == Some(x) then d else 0)
  {
  }

  /** One blkg's own count changes together with what it counts. */
  lemma RefsUse(s: State, b: nat, g: Gq)
    requires RefsOk(s.gqs, s.tree, s.next) && b in s.gqs
    requires g.cg == s.gqs[b].cg && g.q == s.gqs[b].q && g.parent == s.gqs[b].parent
    requires g.refs - s.gqs[b].refs == g.users - s.gqs[b].users
    ensures RefsOk(s.gqs[b := g], s.tree, s.next)
  {
    ShapeIndexed(s, s.gqs[b := g]);
    hide Indexed, Kids;
    forall x | x in s.gqs
      ensures x < s.next && RefOk(s.gqs[b := g], s.tree, x)
    {
      assert RefOk(s.gqs, s.tree, x);
    }
  }

  lemma RefsUnlink(s: State, b: nat)
    requires RefsOk(s.gqs, s.tree, s.next) && Indexed(s.gqs, s.tree, b) && s.gqs[b].q < |s.lists|
    ensures RefsOk(Destroy(s, b).gqs, Destroy(s, b).tree, s.next)
  {
    var n := Destroy(s, b);
    LeaveIndexed(s, b);
    ShapeIndexed(s.(tree := n.tree), n.gqs);
    hide Indexed, Kids;
    forall x | x in n.gqs
      ensures x < n.next && RefOk(n.gqs, n.tree, x)
    {
      assert RefOk(s.gqs, s.tree, x);
    }
  }

  /** A new blkg, in the tree or not, with its reference to the parent. */
  lemma RefsNew(s: State, b: nat, g: Gq, tree: map<(nat, nat), nat>, indexed: bool)
    requires RefsOk(s.gqs, s.tree, s.next) && b == s.next && g.users == 0 && g.refs == (if indexed then 1 else 0)
    requires g.parent.Some? ==> g.parent.value in s.gqs
    requires var gqs := Adjust(s.gqs, g.parent, 1)[b := g];
             forall x :: Indexed(gqs, tree, x) <==> (if x == b then indexed else Indexed(s.gqs, s.tree, x))
    ensures RefsOk(Adjust(s.gqs, g.parent, 1)[b := g], tree, b + 1)
  {
    hide Adjust, Indexed, Kids;
    var mid := Adjust(s.gqs, g.parent, 1);
    var gqs := mid[b := g];
    AdjustShape(s.gqs, g.parent, 1);
    ShapeIndexed(s, mid);
    NoParent(s, b);
    forall x | x in gqs
      ensures x < b + 1 && RefOk(gqs, tree, x)
    {
      KidsAdd(mid, b, g, x);
      if x != b {
        assert RefOk(s.gqs, s.tree, x);
      }
    }
  }

  lemma NoParent(s: State, b: nat)
    requires RefsOk(s.gqs, s.tree, s.next) && b !in s.gqs
    ensures Kids(s.gqs, b) == {}
  {
    forall x | x in s.gqs
      ensures s.gqs[x].parent != Some(b)
    {
      assert RefOk(s.gqs, s.tree, x);
    }
  }

  lemma RefsRelease(s: State, b: nat)
    requires RefsOk(s.gqs, s.tree, s.next) && b in s.gqs && s.gqs[b].refs == 0
    ensures !Indexed(s.gqs, s.tree, b) && Kids(s.gqs, b) == {}
    ensures RefsOk(Release(s, b).gqs, s.tree, s.next)
  {
    assert RefOk(s.gqs, s.tree, b);
    var p := s.gqs[b].parent;
    var mid := s.gqs - {b};
    var gqs := Adjust(mid, p, -1);
    AdjustShape(mid, p, -1);
    GoneIndexed(s, b);
    ShapeIndexed(s.(gqs := mid), gqs);
    NoKids(s.gqs, b);
    hide Adjust, Indexed, Kids;
    forall x | x in gqs
      ensures x < s.next && RefOk(gqs, s.tree, x)
    {
      assert RefOk(s.gqs, s.tree, x);
      KidsDrop(s.gqs, b, x);
    }
  }

  // ----- operations

  lemma HintKeeps(s: State, c: nat, q: nat)
    requires Inv(s)
    ensures Inv(SetHint(s, c, q))
  {
    hide Hierarchy, TreeOk, Linked, ListsOk, RefsOk, HintOk;
    LookupAgrees(s, c, q);
    if (c, q) in s.tree {
      HintSet(s, c, q);
    }
  }

  lemma HintSet(s: State, c: nat, q: nat)
    requires TreeOk(s.gone, s.gqs, s.tree, |s.lists|) && HintOk(s.gqs, s.tree, s.hint) && (c, q) in s.tree
    ensures HintOk(s.gqs, s.tree, s.hint[c := s.tree[(c, q)]])
  {
    assert Names(s.gqs[s.tree[(c, q)]], (c, q));
  }

  lemma UseKeeps(s: State, b: nat)
    requires Inv(s) && b in s.gqs
    ensures Inv(Use(s, b))
  {
    hide Hierarchy, TreeOk, Linked, HintOk, ListsOk, RefsOk;
    var g := s.gqs[b];
    RefsUse(s, b, g.(refs := g.refs + 1, users := g.users + 1));
    ShapeKeeps(s, Use(s, b).gqs);
  }

  lemma UnuseKeeps(s: State, b: nat)
    requires Inv(s) && b in s.gqs && s.gqs[b].users > 0
    ensures Inv(Unuse(s, b))
  {
    hide Hierarchy, TreeOk, Linked, HintOk, ListsOk, RefsOk;
    var g := s.gqs[b];
    RefsUse(s, b, g.(refs := g.refs - 1, users := g.users - 1));
    ShapeKeeps(s, Unuse(s, b).gqs);
  }

  lemma DestroyKeeps(s: State, b: nat)
    requires Inv(s) && MayLeave(s, b)
    ensures Inv(Destroy(s, b))
  {
    hide Hierarchy, TreeOk, Linked, HintOk, ListsOk, RefsOk;
    RefsUnlink(s, b);
    UnlinkKeeps(s, b);
    ShapeKeeps(Unlink(s, b), Destroy(s, b).gqs);
  }

  lemma ReleaseKeeps(s: State, b: nat)
    requires Inv(s) && b in s.gqs && s.gqs[b].refs == 0
    ensures Inv(Release(s, b))
  {
    hide Hierarchy, TreeOk, Linked, HintOk, ListsOk, RefsOk;
    RefsRelease(s, b);
    GoneKeeps(s, b);
    AdjustShape(s.gqs - {b}, s.gqs[b].parent, -1);
    ShapeKeeps(s.(gqs := s.gqs - {b}), Release(s, b).gqs);
  }

  /** The parent that blkg_create() links to. */
  lemma ParentFound(s: State, c: nat, q: nat)
    requires Inv(s) && 0 < c < |s.parentOf|
    ensures var p := Lookup(s, s.parentOf[c], q);
            p == InTree(s.tree, s.parentOf[c], q) && (p.Some? ==> p.value in s.gqs)
  {
    LookupAgrees(s, s.parentOf[c], q);
  }

  lemma CreateKeeps(s: State, c: nat, q: nat, alloc: bool, insert: bool)
    requires Inv(s) && c < |s.parentOf| && q < |s.lists|
    ensures Inv(Create(s, c, q, alloc, insert).0)
    ensures var (n, r) := Create(s, c, q, alloc, insert);
            && (r.Ok? <==> s.online[c] && alloc && insert && (c, q) !in s.tree && (c == 0 || (s.parentOf[c], q) in s.tree))
            && (r.Ok? ==> n.tree == s.tree[(c, q) := r.blkg])
            && (r.Err? ==> n.tree == s.tree)
  {
    if c > 0 {
      ParentFound(s, c, q);
    }
    if s.online[c] && alloc && (c == 0 || Lookup(s, s.parentOf[c], q).Some?) {
      NewKeeps(s, c, q, insert);
    }
  }

  lemma CreateFrame(s: State, c: nat, q: nat, alloc: bool, insert: bool)
    requires c < |s.parentOf| == |s.online| && q < |s.lists|
    ensures var n := Create(s, c, q, alloc, insert).0;
            && n.parentOf == s.parentOf && n.online == s.online && n.gone == s.gone
            && n.hint == s.hint && |n.lists| == |s.lists|
  {
    hide Lookup, Adjust;
  }

  lemma NewKeeps(s: State, c: nat, q: nat, insert: bool)
    requires Inv(s) && c < |s.parentOf| && q < |s.lists| && s.online[c]
    requires c > 0 ==> Lookup(s, s.parentOf[c], q).Some?
    ensures Inv(Create(s, c, q, true, insert).0)
  {
    hide Hierarchy, TreeOk, Linked, HintOk, ListsOk, RefsOk, Indexed, Adjust, Kids, Lookup;
    var p := if c == 0 then None else Lookup(s, s.parentOf[c], q);
    if c > 0 {
      ParentFound(s, c, q);
    }
    OnlineStays(s, c);
    var entered := insert && (c, q) !in s.tree;
    var g := Gq(c, q, p, if entered then 1 else 0, 0);
    Stands(s, g);
    if entered {
      Entered(s, g);
    } else {
      RefsNew(s, s.next, g, s.tree, false);
    }
  }

  lemma OnlineStays(s: State, c: nat)
    requires Inv(s) && c < |s.parentOf|
    ensures |s.parentOf| == |s.online| == |s.gone|
    ensures s.online[c] ==> !s.gone[c]
  {
  }

  /** The new blkg before it is put into the tree. */
  function WithNew(s: State, g: Gq): State
  {
    s.(gqs := Adjust(s.gqs, g.parent, 1)[s.next := g])
  }

  lemma Stands(s: State, g: Gq)
    requires Struct(s) && RefsOk(s.gqs, s.tree, s.next) && (g.parent.Some? ==> g.parent.value in s.gqs)
    ensures Struct(WithNew(s, g)) && s.next !in s.gqs
    ensures forall x :: Indexed(WithNew(s, g).gqs, s.tree, x) <==> Indexed(s.gqs, s.tree, x)
    ensures !Indexed(WithNew(s, g).gqs, s.tree, s.next) && Kids(WithNew(s, g).gqs, s.next) == {}
  {
    IdsBelow(s);
    NoParent(s, s.next);
    var mid := s.(gqs := Adjust(s.gqs, g.parent, 1));
    AdjustShape(s.gqs, g.parent, 1);
    hide TreeOk, Linked, HintOk, ListsOk, RefsOk, Indexed, Adjust, Kids;
    ShapeKeeps(s, mid.gqs);
    ShapeIndexed(s, mid.gqs);
    FreshKeeps(mid, s.next, g);
    FreshIndexed(mid, s.next, g);
    KidsAdd(mid.gqs, s.next, g, s.next);
  }

  lemma Entered(s: State, g: Gq)
    requires Struct(s) && RefsOk(s.gqs, s.tree, s.next) && g.users == 0 && g.refs == 1
    requires g.cg < |s.parentOf| && g.cg < |s.gone| && !s.gone[g.cg] && g.q < |s.lists| && (g.cg, g.q) !in s.tree
    requires g.parent == if g.cg == 0 then None else InTree(s.tree, s.parentOf[g.cg], g.q)
    requires g.cg > 0 ==> g.parent.Some? && g.parent.value in s.gqs
    ensures var n := Enter(WithNew(s, g), g.cg, g.q, s.next); Struct(n) && RefsOk(n.gqs, n.tree, s.next + 1)
  {
    hide TreeOk, Linked, HintOk, ListsOk, RefsOk, Indexed, Adjust, Kids;
    Stands(s, g);
    var out := WithNew(s, g);
    assert MayEnter(out, g.cg, g.q, s.next);
    EnterKeeps(out, g.cg, g.q, s.next);
    EnterIndexed(out, g.cg, g.q, s.next);
    RefsNew(s, s.next, g, out.tree[(g.cg, g.q) := s.next], true);
  }

  lemma IdsBelow(s: State)
    requires RefsOk(s.gqs, s.tree, s.next)
    ensures forall b :: b in s.gqs ==> b < s.next
  {
  }

  // ----- what the invariant means

  /** a is c or one of its ancestors. */
  predicate OnPath(parentOf: seq<nat>, a: nat, c: nat)
    decreases c
  {
    a == c || (0 < c < |parentOf| && parentOf[c] < c && OnPath(parentOf, a, parentOf[c]))
  }

  /** A cgroup in the tree has its whole ancestry there, on the same queue. */
  lemma {:induction false} AncestorsIndexed(s: State, a: nat, c: nat, q: nat)
    requires Inv(s) && (c, q) in s.tree && OnPath(s.parentOf, a, c)
    ensures (a, q) in s.tree
    decreases c
  {
    if a != c {
      assert LinkOk(s.parentOf, s.gqs, s.tree, (c, q));
      AncestorsIndexed(s, a, s.parentOf[c], q);
    }
  }

  /** Descendants are listed before their ancestors. */
  lemma {:induction false} ListedBefore(s: State, a: nat, c: nat, q: nat, i: nat, j: nat)
    requires Inv(s) && OnPath(s.parentOf, a, c) && a != c && (c, q) in s.tree && q < |s.lists|
    requires i < |s.lists[q]| && s.lists[q][i] == s.tree[(c, q)]
    requires (a, q) in s.tree && j < |s.lists[q]| && s.lists[q][j] == s.tree[(a, q)]
    ensures i < j
    decreases c
  {
    var p, l := s.parentOf[c], s.lists[q];
    assert LinkOk(s.parentOf, s.gqs, s.tree, (c, q));
    assert ListOk(s.gqs, s.tree, q, l);
    if a != p {
      assert s.tree[(p, q)] in l;
      var k :| 0 <= k < |l| && l[k] == s.tree[(p, q)];
      ListedBefore(s, a, p, q, k, j);
    }
  }

  /** The parent of an unreleased blkg is unreleased and has references left. */
  lemma ParentAlive(s: State, b: nat)
    requires Inv(s) && b in s.gqs && s.gqs[b].parent.Some?
    ensures var p := s.gqs[b].parent.value; p in s.gqs && s.gqs[p].refs > 0
  {
    var p := s.gqs[b].parent.value;
    assert RefOk(s.gqs, s.tree, b) && RefOk(s.gqs, s.tree, p);
    assert b in Kids(s.gqs, p);
  }

  /** blkg_destroy_all() takes the head, which has no children left. */
  lemma HeadMayLeave(s: State, q: nat)
    requires Inv(s) && q < |s.lists| && s.lists[q] != []
    ensures MayLeave(s, s.lists[q][0]) && s.gqs[s.lists[q][0]].q == q
  {
    var l := s.lists[q];
    var b := l[0];
    assert ListOk(s.gqs, s.tree, q, l) && b in l;
    forall k | k in s.tree && k.1 == q && 0 < k.0 < |s.parentOf|
      ensures s.parentOf[k.0] != s.gqs[b].cg
    {
      assert LinkOk(s.parentOf, s.gqs, s.tree, k) && s.tree[k] in l;
      var i :| 0 <= i < |l| && l[i] == s.tree[k];
      assert s.gqs[l[i]].parent == Some(l[0]) ==> i < 0;
    }
  }

  /** The cgroups right below c are gone. */
  ghost predicate ChildrenGone(s: State, c: nat)
  {
    forall d :: 0 < d < |s.parentOf| && d < |s.gone| && s.parentOf[d] == c ==> s.gone[d]
  }

  lemma OfflineMayLeave(s: State, c: nat, q: nat)
    requires Inv(s) && (c, q) in s.tree && ChildrenGone(s, c)
    ensures MayLeave(s, s.tree[(c, q)])
  {
    assert Names(s.gqs[s.tree[(c, q)]], (c, q));
  }

  // ----- runs

  datatype Step =
    | Look(c: nat, q: nat)
    | Make(c: nat, q: nat, alloc: bool, insert: bool)
    | DropHead(q: nat)
    | Die(c: nat)
    | DropOf(c: nat, q: nat)
    | Depart(c: nat)
    | Get(b: nat)
    | Put(b: nat)
    | Free(b: nat)

  ghost predicate Can(s: State, a: Step)
  {
    match a
    case Look(_, _) => true
    case Make(c, q, _, _) => c < |s.parentOf| && q < |s.lists|
    case DropHead(q) => q < |s.lists| && s.lists[q] != []
    case Die(c) => c < |s.online|
    case DropOf(c, q) => c < |s.parentOf| && (c, q) in s.tree && ChildrenGone(s, c)
    case Depart(c) => c < |s.parentOf| && c < |s.online| && !s.online[c] && ChildrenGone(s, c) && forall k :: k in s.tree ==> k.0 != c
    case Get(b) => b in s.gqs && s.gqs[b].refs > 0
    case Put(b) => b in s.gqs && s.gqs[b].users > 0
    case Free(b) => b in s.gqs && s.gqs[b].refs == 0
  }

  ghost function Next(s: State, a: Step): State
    requires Inv(s) && Can(s, a)
  {
    match a
    case Look(c, q) => SetHint(s, c, q)
    case Make(c, q, alloc, insert) => Create(s, c, q, alloc, insert).0
    case DropHead(q) => HeadMayLeave(s, q); Destroy(s, s.lists[q][0])
    case Die(c) => Kill(s, c)
    case DropOf(c, q) => OfflineMayLeave(s, c, q); Destroy(s, s.tree[(c, q)])
    case Depart(c) => Leave(s, c)
    case Get(b) => Use(s, b)
    case Put(b) => Unuse(s, b)
    case Free(b) => Release(s, b)
  }

  lemma DepartKeeps(s: State, c: nat)
    requires Inv(s) && Can(s, Depart(c))
    ensures Inv(Leave(s, c))
  {
  }

  lemma NextKeeps(s: State, a: Step)
    requires Inv(s) && Can(s, a)
    ensures Inv(Next(s, a))
  {
    hide Inv, Create, Destroy, SetHint, Use, Unuse, Release;
    match a
    case Look(c, q) => HintKeeps(s, c, q);
    case Make(c, q, alloc, insert) => CreateKeeps(s, c, q, alloc, insert);
    case DropHead(q) =>
      HeadMayLeave(s, q);
      DestroyKeeps(s, s.lists[q][0]);
    case Die(c) => KillKeeps(s, c);
    case DropOf(c, q) =>
      OfflineMayLeave(s, c, q);
      DestroyKeeps(s, s.tree[(c, q)]);
    case Depart(c) => DepartKeeps(s, c);
    case Get(b) => UseKeeps(s, b);
    case Put(b) => UnuseKeeps(s, b);
    case Free(b) => ReleaseKeeps(s, b);
  }

  lemma KillKeeps(s: State, c: nat)
    requires Inv(s) && c < |s.online|
    ensures Inv(Kill(s, c))
  {
  }

  ghost function Run(s: State, run: seq<Step>): Option<State>
    requires Inv(s)
    decreases |run|
  {
    if run == [] then Some(s)
    else if !Can(s, run[0]) then None
    else
      NextKeeps(s, run[0]);
      Run(Next(s, run[0]), run[1..])
  }

  /** Every run keeps the invariant. */
  lemma {:induction false} RunKeeps(s: State, run: seq<Step>)
    requires Inv(s)
    ensures Run(s, run).Some? ==> Inv(Run(s, run).value)
    decreases |run|
  {
    hide Inv, Next;
    if run != [] && Can(s, run[0]) {
      NextKeeps(s, run[0]);
      RunKeeps(Next(s, run[0]), run[1..]);
    }
  }

  function Empty(parentOf: seq<nat>, queues: nat): State
  {
    State(parentOf, seq(|parentOf|, _ => true), seq(|parentOf|, _ => false), map[], map[], map[], seq(queues, _ => []), 0)
  }

  /** What holds after any run from an empty index, given that cgroups go offline from the leaves up. */
  lemma EveryRunIsSafe(parentOf: seq<nat>, queues: nat, run: seq<Step>, c: nat, q: nat, a: nat, b: nat)
    requires parentOf != [] && forall c :: 0 < c < |parentOf| ==> parentOf[c] < c
    ensures Inv(Empty(parentOf, queues))
    ensures Run(Empty(parentOf, queues), run).Some? ==>
              var s := Run(Empty(parentOf, queues), run).value;
              && Lookup(s, c, q) == InTree(s.tree, c, q)
              && ((c, q) in s.tree && OnPath(s.parentOf, a, c) ==> (a, q) in s.tree)
              && (b in s.gqs && s.gqs[b].parent.Some? ==> s.gqs[b].parent.value in s.gqs && s.gqs[s.gqs[b].parent.value].refs > 0)
  {
    var s := Empty(parentOf, queues);
    assert Inv(s);
    hide Run, Inv, Lookup;
    RunKeeps(s, run);
    if Run(s, run).Some? {
      var e := Run(s, run).value;
      Meaning(e, c, q, a, b);
    }
  }

  lemma Meaning(s: State, c: nat, q: nat, a: nat, b: nat)
    requires Inv(s)
    ensures Lookup(s, c, q) == InTree(s.tree, c, q)
    ensures (c, q) in s.tree && OnPath(s.parentOf, a, c) ==> (a, q) in s.tree
    ensures b in s.gqs && s.gqs[b].parent.Some? ==> s.gqs[b].parent.value in s.gqs && s.gqs[s.gqs[b].parent.value].refs > 0
  {
    LookupAgrees(s, c, q);
    hide Hierarchy, TreeOk, Linked, HintOk, ListsOk, RefsOk, Lookup;
    if (c, q) in s.tree && OnPath(s.parentOf, a, c) {
      AncestorsIndexed(s, a, c, q);
    }
    if b in s.gqs && s.gqs[b].parent.Some? {
      ParentAlive(s, b);
    }
  }
}
