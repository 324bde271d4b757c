/**
 throtl_select_dispatch(): the children of a node give it the bios their limits allow, the earliest child first, within
 the quanta; every bio is charged to the group that gives it, whose rate stays bounded.
 */
module ThrottleDispatch {
  import opened Basics
  import opened Lists
  import opened ThrottleRate
  import opened ThrottleMeters
  import opened ThrottleTree
  import opened ThrottleDrain

  const GRP_QUANTUM := 8
  const QUANTUM := 32

  const MAX_READS := GRP_QUANTUM * 3 / 4
  const MAX_WRITES := GRP_QUANTUM - MAX_READS

  type Sizes = Bio -> nat

  // ----- the bytes on a group

  function SumSizes(l: seq<Bio>, size: Sizes): nat
  {
    if l == [] then 0 else size(l[0]) + SumSizes(l[1..], size)
  }

  function BytesOn(order: seq<Source>, q: DirQueue, size: Sizes): nat
  {
    if order == [] then 0 else SumSizes(q.Get(order[0]), size) + BytesOn(order[1..], q, size)
  }

  function Bytes(q: DirQueue, size: Sizes): nat { BytesOn(q.order, q, size) }

  lemma {:induction false} BytesConcat(a: seq<Source>, b: seq<Source>, q: DirQueue, size: Sizes)
    ensures BytesOn(a + b, q, size) == BytesOn(a, q, size) + BytesOn(b, q, size)
  {
    if a == [] {
      assert a + b == b;
    } else {
      BytesConcat(a[1..], b, q, size);
      assert (a + b)[1..] == a[1..] + b;
    }
  }

  lemma {:induction false} BytesFrame(order: seq<Source>, q: DirQueue, q': DirQueue, size: Sizes)
    requires forall src :: src in order ==> q.Get(src) == q'.Get(src)
    ensures BytesOn(order, q, size) == BytesOn(order, q', size)
  {
    if order != [] {
      BytesFrame(order[1..], q, q', size);
    }
  }

  /** throtl_peek_queued(); 0 stands for no bio. */
  function FirstBio(q: DirQueue): Bio { if q.order == [] || q.Get(q.order[0]) == [] then 0 else q.Get(q.order[0])[0] }

  /** Taking the first bio takes its bytes. */
  lemma PopBytes(q: DirQueue, size: Sizes)
    requires QueueOk(q) && q.order != []
    ensures q.Get(q.order[0]) != [] && Bytes(q, size) == Bytes(Pop(q), size) + size(FirstBio(q))
  {
    var src := q.order[0];
    assert src in q.order;
    var t := Pop(q);
    var tail := q.order[1..];
    assert q.order == [src] + tail;
    TailMembers(q.order);
    hide NoDup;
    BytesFrame(tail, q, t, size);
    assert t.Get(src) == q.Get(src)[1..];
    assert SumSizes(q.Get(src), size) == size(FirstBio(q)) + SumSizes(t.Get(src), size);
    if t.Get(src) == [] {
      assert t.order == tail;
    } else {
      BytesConcat(tail, [src], t, size);
      assert [src][1..] == [];
    }
  }

  // ----- the meters of the groups

  datatype Dir = Dir(g: Tg, rw: bool)

  type Rates = map<Dir, Side>

  /** Every group has a meter for each direction, and all of them are in order at time now. */
  ghost predicate RatesOk(rates: Rates, groups: nat, now: nat)
  {
    && (forall g: nat, rw :: 0 < g < groups ==> Dir(g, rw) in rates)
    && (forall d :: d in rates ==> rates[d].Ok() && rates[d].meter.clock <= now)
  }

  /** Meters that start at time now. */
  lemma FreshRates(lims: map<Dir, Limits>, groups: nat, now: nat)
    requires forall d :: d in lims ==> lims[d].Valid()
    requires forall g: nat, rw :: 0 < g < groups ==> Dir(g, rw) in lims
    ensures RatesOk(map d | d in lims :: Side(Begin(lims[d], now), lims[d], now), groups, now)
  {
    hide Side.Ok;
    forall d | d in lims
      ensures Side(Begin(lims[d], now), lims[d], now).Ok()
    {
      FreshSide(lims[d], now);
    }
  }

  /** Limits stay; only the meters named are read or charged. */
  ghost predicate Metered(rates: Rates, rates': Rates, touched: set<Dir>)
  {
    && rates'.Keys == rates.Keys
    && forall d :: d in rates ==>
         rates'[d].lim == rates[d].lim && rates'[d].s0 == rates[d].s0 && (d !in touched ==> rates'[d] == rates[d])
  }

  lemma MeteredTrans(a: Rates, b: Rates, c: Rates, t: set<Dir>, u: set<Dir>)
    requires Metered(a, b, t) && Metered(b, c, u)
    ensures Metered(a, c, t + u)
  {
  }

  /** What g was charged is what it gave. */
  ghost predicate Charged(n: Node, m: Node, rates: Rates, rates': Rates, g: Tg, size: Sizes)
  {
    forall rw :: Dir(g, rw) in rates && Dir(g, rw) in rates' ==>
      && rates'[Dir(g, rw)].meter.ios + m.Nr(rw) == rates[Dir(g, rw)].meter.ios + n.Nr(rw)
      && rates'[Dir(g, rw)].meter.bytes + Bytes(m.Queue(rw), size) == rates[Dir(g, rw)].meter.bytes + Bytes(n.Queue(rw), size)
  }

  /** g was charged nothing. */
  ghost predicate Uncharged(rates: Rates, rates': Rates, g: Tg)
  {
    forall rw :: Dir(g, rw) in rates && Dir(g, rw) in rates' ==>
      rates'[Dir(g, rw)].meter.ios == rates[Dir(g, rw)].meter.ios && rates'[Dir(g, rw)].meter.bytes == rates[Dir(g, rw)].meter.bytes
  }

  /** A test that refuses, or one for the dispatch time. */
  function Ask(rates: Rates, d: Dir, size: nat, now: nat): Rates
    requires d in rates && rates[d].lim.Valid()
  {
    rates[d := rates[d].Do(Probe(size), now)]
  }

  /** The meters after tg_dispatch_one_bio(): charge g, lend its slice start to the parent p, trim g. */
  function Give(rates: Rates, g: Tg, p: Tg, rw: bool, size: nat, now: nat): Rates
    requires Dir(g, rw) in rates && rates[Dir(g, rw)].lim.Valid() && g != p
    requires p > 0 ==> Dir(p, rw) in rates && rates[Dir(p, rw)].lim.Valid()
  {
    var x := rates[Dir(g, rw)].Do(Dispatch(size), now);
    var lent := if p > 0 then rates[Dir(p, rw) := rates[Dir(p, rw)].Do(Credit(x.meter.slice.start), now)] else rates;
    lent[Dir(g, rw) := x.Do(TrimSlice, now)]
  }

  lemma AskKeeps(rates: Rates, groups: nat, d: Dir, size: nat, now: nat)
    requires RatesOk(rates, groups, now) && d in rates
    ensures var rates' := Ask(rates, d, size, now);
            && RatesOk(rates', groups, now) && Metered(rates, rates', {d}) && (forall g :: Uncharged(rates, rates', g))
            && rates'[d].Test(size, now).ok == rates[d].Test(size, now).ok
            && rates'[d].Test(size, now).wait == rates[d].Test(size, now).wait
            && (if rates[d].Test(size, now).ok then rates[d].Test(size, now).wait == 0 else rates[d].Test(size, now).wait > 0)
  {
    hide Side.Ok, Act, MayDispatch;
    SideValid(rates[d]);
    DoKeeps(rates[d], Probe(size), now);
    DoCounts(rates[d], Probe(size), now);
    TestAgain(rates[d], size, now);
  }

  lemma SideValid(x: Side)
    requires x.Ok()
    ensures x.lim.Valid() && x.meter.slice.start <= x.meter.clock
  {
    hide RateInv;
  }

  lemma GiveKeeps(rates: Rates, groups: nat, g: Tg, p: Tg, rw: bool, size: nat, now: nat)
    requires RatesOk(rates, groups, now) && 0 < g < groups && p < g
    requires rates[Dir(g, rw)].lim.Valid() && (p > 0 ==> rates[Dir(p, rw)].lim.Valid())
    requires rates[Dir(g, rw)].Test(size, now).ok
    ensures var rates' := Give(rates, g, p, rw, size, now);
            && RatesOk(rates', groups, now) && Metered(rates, rates', {Dir(g, rw), Dir(p, rw)}) && Uncharged(rates, rates', p)
            && rates'[Dir(g, rw)].meter.ios == rates[Dir(g, rw)].meter.ios + 1
            && rates'[Dir(g, rw)].meter.bytes == rates[Dir(g, rw)].meter.bytes + size
  {
    hide Side.Ok, Act, MayDispatch, RatesOk;
    RatesKnown(rates, groups, g, rw, now);
    var x0 := rates[Dir(g, rw)];
    DoKeeps(x0, Dispatch(size), now);
    DoCounts(x0, Dispatch(size), now);
    var x := x0.Do(Dispatch(size), now);
    SideValid(x);
    DoKeeps(x, TrimSlice, now);
    DoCounts(x, TrimSlice, now);
    if p > 0 {
      RatesKnown(rates, groups, p, rw, now);
      DoKeeps(rates[Dir(p, rw)], Credit(x.meter.slice.start), now);
      DoCounts(rates[Dir(p, rw)], Credit(x.meter.slice.start), now);
      Replaced(rates, groups, Dir(p, rw), rates[Dir(p, rw)].Do(Credit(x.meter.slice.start), now), now);
      Replaced(rates[Dir(p, rw) := rates[Dir(p, rw)].Do(Credit(x.meter.slice.start), now)], groups, Dir(g, rw), x.Do(TrimSlice, now), now);
    } else {
      Replaced(rates, groups, Dir(g, rw), x.Do(TrimSlice, now), now);
    }
  }

  lemma Replaced(rates: Rates, groups: nat, d: Dir, x: Side, now: nat)
    requires RatesOk(rates, groups, now) && d in rates && x.Ok() && x.meter.clock <= now && x.lim == rates[d].lim && x.s0 == rates[d].s0
    ensures RatesOk(rates[d := x], groups, now) && Metered(rates, rates[d := x], {d})
  {
    hide Side.Ok;
  }

  // ----- what a dispatch leaves alone

  predicate SameChild(n: Node, m: Node) { SameQueue(n, m) && n.onTree == m.onTree && n.disptime == m.disptime }

  /** Among the children of its parent only g is touched. */
  ghost predicate OnlyChild(s: State, t: State, g: Tg)
    requires Shape(s) && 0 < g < |s.nodes|
  {
    && |t.nodes| == |s.nodes| && t.parent == s.parent
    && forall c :: 0 < c < |s.nodes| && s.parent[c] == s.parent[g] && c != g ==> SameChild(s.nodes[c], t.nodes[c])
  }

  lemma OnlyChildSelf(s: State, g: Tg)
    requires Shape(s) && 0 < g < |s.nodes|
    ensures OnlyChild(s, s, g)
  {
  }

  lemma OnlyChildTrans(s: State, t: State, u: State, g: Tg)
    requires Shape(s) && 0 < g < |s.nodes| && OnlyChild(s, t, g) && Shape(t) && OnlyChild(t, u, g)
    ensures OnlyChild(s, u, g)
  {
    forall c | 0 < c < |s.nodes| && s.parent[c] == s.parent[g] && c != g
      ensures SameChild(s.nodes[c], u.nodes[c])
    {
      assert SameChild(s.nodes[c], t.nodes[c]) && SameChild(t.nodes[c], u.nodes[c]);
    }
  }

  lemma EnqueueTimes(s: State, g: Tg)
    requires Shape(s) && 0 < g < |s.nodes|
    ensures var t := Enqueue(s, g);
            && |t.nodes| == |s.nodes| && t.parent == s.parent
            && (forall x :: 0 <= x < |s.nodes| ==> t.nodes[x].disptime == s.nodes[x].disptime)
            && (forall x :: 0 <= x < |s.nodes| && x != g ==> t.nodes[x].onTree == s.nodes[x].onTree)
  {
  }

  lemma DispatchOneChild(s: State, g: Tg, rw: bool)
    requires Inv(s, {g}) && 0 < g < |s.nodes| && s.nodes[g].Queue(rw).order != []
    ensures OnlyChild(s, DispatchOne(s, g, rw), g)
  {
    hide QueuesOk, CountsOk, TreesOk, Transfer, Enqueue, DispatchOne;
    DispatchReady(s, g, rw);
    TransferFrame(s, g, rw);
    TransferIs(s, g, rw);
    DispatchOneKeeps(s, g, rw);
    var p := s.parent[g];
    var s2, t := Transfer(s, g, rw), DispatchOne(s, g, rw);
    if p > 0 {
      EnqueueTimes(s2, p);
    }
    forall c | 0 < c < |s.nodes| && s.parent[c] == p && c != g
      ensures SameChild(s.nodes[c], t.nodes[c])
    {
      assert SameTree(s2.nodes[c], s.nodes[c]) && SameQueue(t.nodes[c], s.nodes[c]);
    }
  }

  /** The group gives its first bio, of this direction only. */
  lemma DispatchOnePops(s: State, g: Tg, rw: bool)
    requires Inv(s, {g}) && 0 < g < |s.nodes| && s.nodes[g].Queue(rw).order != []
    ensures QueueOk(s.nodes[g].Queue(rw)) && s.nodes[g].Queue(rw).Get(s.nodes[g].Queue(rw).order[0]) != []
    ensures DispatchOne(s, g, rw).nodes[g].Queue(rw) == Pop(s.nodes[g].Queue(rw))
    ensures DispatchOne(s, g, rw).nodes[g].Queue(!rw) == s.nodes[g].Queue(!rw)
  {
    hide CountsOk, TreesOk, PendingOk, Enqueue, DispatchOne, Pop, AddBio, HeadBio;
    DispatchReady(s, g, rw);
    assert NodeQueueOk(s, g, rw);
    hide QueuesOk;
    TransferIs(s, g, rw);
    TransferFrame(s, g, rw);
    var s2 := Transfer(s, g, rw);
    if s.parent[g] > 0 {
      EnqueueQueues(s2, s.parent[g], g);
    }
  }

  lemma EnqueueQueues(s: State, p: Tg, x: nat)
    requires Shape(s) && 0 < p < |s.nodes| && x < |s.nodes|
    ensures |Enqueue(s, p).nodes| == |s.nodes| && SameQueue(s.nodes[x], Enqueue(s, p).nodes[x])
  {
  }

  method Dispatched(ghost s: State, t: State, g: Tg, rw: bool) returns (v: State)
    requires Shape(s) && 0 < g < |s.nodes| && Preserved(s, t) && |t.nodes| == |s.nodes| && OnlyChild(s, t, g)
    requires Inv(t, {g}) && t.nodes[g].Queue(rw).order != []
    ensures v == DispatchOne(t, g, rw) && Inv(v, {g}) && Preserved(s, v) && |v.nodes| == |s.nodes| && OnlyChild(s, v, g)
    ensures v.nodes[g].Nr(rw) == t.nodes[g].Nr(rw) - 1 && v.nodes[g].Nr(!rw) == t.nodes[g].Nr(!rw)
  {
    hide Preserved, QueuesOk, TreesOk, DispatchOne, CountsOk, PendingOk;
    DispatchOneKeeps(t, g, rw);
    DispatchOneMoves(t, g, rw);
    DispatchOneChild(t, g, rw);
    v := DispatchOne(t, g, rw);
    MovedPreserves(t, v, g, rw, t.nodes[g].Queue(rw).order[0]);
    PreservedTrans(s, t, v);
    OnlyChildTrans(s, t, v, g);
  }

  // ----- one direction of one group

  /** The first bio of g may go. */
  predicate MayGo(s: State, rates: Rates, g: Tg, rw: bool, size: Sizes, now: nat)
    requires g < |s.nodes| && Dir(g, rw) in rates && rates[Dir(g, rw)].lim.Valid()
  {
    rates[Dir(g, rw)].Test(size(FirstBio(s.nodes[g].Queue(rw))), now).ok
  }

  /** A dispatch loop of throtl_dispatch_tg(): it stops at the first bio that must wait, at the end of the queue or at max. */
  method DispatchSome(s: State, rates: Rates, g: Tg, rw: bool, size: Sizes, now: nat, max: nat) returns (t: State, rates': Rates, n: nat)
    requires Inv(s, {g}) && 0 < g < |s.nodes| && max > 0 && RatesOk(rates, |s.nodes|, now)
    ensures Inv(t, {g}) && Preserved(s, t) && |t.nodes| == |s.nodes| && OnlyChild(s, t, g)
    ensures RatesOk(rates', |s.nodes|, now) && Metered(rates, rates', {Dir(g, rw), Dir(s.parent[g], rw)})
    ensures Charged(s.nodes[g], t.nodes[g], rates, rates', g, size) && Uncharged(rates, rates', s.parent[g])
    ensures n <= max && t.nodes[g].Nr(rw) == s.nodes[g].Nr(rw) - n && t.nodes[g].Nr(!rw) == s.nodes[g].Nr(!rw)
    ensures t.nodes[g].Queue(!rw) == s.nodes[g].Queue(!rw)
    ensures rates'[Dir(g, rw)].lim.Valid() && (t.nodes[g].Nr(rw) == 0 || n == max || !MayGo(t, rates', g, rw, size, now))
  {
    hide Preserved, QueuesOk, TreesOk, CountsOk, PendingOk, DispatchOne, OnlyChild, RatesOk, Metered, Charged, Uncharged, Side.Ok, Bytes;
    t, rates', n := s, rates, 0;
    PreservedSelf(s);
    OnlyChildSelf(s, g);
    NothingYet(s.nodes[g], rates, g, s.parent[g], rw, size);
    while true
      invariant Inv(t, {g}) && Preserved(s, t) && |t.nodes| == |s.nodes| && t.parent == s.parent && OnlyChild(s, t, g)
      invariant RatesOk(rates', |s.nodes|, now) && Metered(rates, rates', {Dir(g, rw), Dir(s.parent[g], rw)})
      invariant Charged(s.nodes[g], t.nodes[g], rates, rates', g, size) && Uncharged(rates, rates', s.parent[g])
      invariant n < max && t.nodes[g].Nr(rw) == s.nodes[g].Nr(rw) - n && t.nodes[g].Nr(!rw) == s.nodes[g].Nr(!rw)
      invariant t.nodes[g].Queue(!rw) == s.nodes[g].Queue(!rw)
      decreases max - n
    {
      EmptyNode(t, g, rw);
      RatesKnown(rates', |s.nodes|, g, rw, now);
      if t.nodes[g].Queue(rw).order == [] {
        break;
      }
      ghost var was := rates';
      if !MayGo(t, rates', g, rw, size, now) {
        rates' := Asked(s, t, rates, rates', g, rw, size, now);
        break;
      }
      t, rates' := Given(s, t, rates, rates', g, rw, size, now);
      n := n + 1;
      if n >= max {
        RatesKnown(rates', |s.nodes|, g, rw, now);
        break;
      }
    }
  }

  lemma NothingYet(n: Node, rates: Rates, g: Tg, p: Tg, rw: bool, size: Sizes)
    ensures Metered(rates, rates, {Dir(g, rw), Dir(p, rw)}) && Charged(n, n, rates, rates, g, size) && Uncharged(rates, rates, p)
  {
  }

  lemma RatesKnown(rates: Rates, groups: nat, g: Tg, rw: bool, now: nat)
    requires RatesOk(rates, groups, now) && 0 < g < groups
    ensures Dir(g, rw) in rates && rates[Dir(g, rw)].lim.Valid() && rates[Dir(g, rw)].Ok() && rates[Dir(g, rw)].meter.clock <= now
  {
    SideValid(rates[Dir(g, rw)]);
  }

  /** The loop's last test, which refused. */
  method Asked(ghost s: State, t: State, ghost rates0: Rates, rates: Rates, g: Tg, rw: bool, size: Sizes, now: nat) returns (rates': Rates)
    requires Shape(s) && 0 < g < |s.nodes| == |t.nodes| && RatesOk(rates, |s.nodes|, now) && Dir(g, rw) in rates && rates[Dir(g, rw)].lim.Valid()
    requires Metered(rates0, rates, {Dir(g, rw), Dir(s.parent[g], rw)}) && !MayGo(t, rates, g, rw, size, now)
    requires Charged(s.nodes[g], t.nodes[g], rates0, rates, g, size) && Uncharged(rates0, rates, s.parent[g])
    ensures RatesOk(rates', |s.nodes|, now) && Metered(rates0, rates', {Dir(g, rw), Dir(s.parent[g], rw)})
    ensures Charged(s.nodes[g], t.nodes[g], rates0, rates', g, size) && Uncharged(rates0, rates', s.parent[g])
    ensures Dir(g, rw) in rates' && rates'[Dir(g, rw)].lim.Valid() && !MayGo(t, rates', g, rw, size, now)
  {
    hide RatesOk, Side.Ok, MayDispatch, Act;
    var b := FirstBio(t.nodes[g].Queue(rw));
    AskKeeps(rates, |s.nodes|, Dir(g, rw), size(b), now);
    rates' := Ask(rates, Dir(g, rw), size(b), now);
    assert Uncharged(rates, rates', g) && Uncharged(rates, rates', s.parent[g]);
  }

  /** One bio leaves g and is charged to it. */
  method Given(ghost s: State, t: State, ghost rates0: Rates, rates: Rates, g: Tg, rw: bool, size: Sizes, now: nat)
    returns (v: State, rates': Rates)
    requires Shape(s) && 0 < g < |s.nodes| && Preserved(s, t) && |t.nodes| == |s.nodes| && t.parent == s.parent && OnlyChild(s, t, g)
    requires Inv(t, {g}) && t.nodes[g].Queue(rw).order != []
    requires RatesOk(rates, |s.nodes|, now) && Dir(g, rw) in rates && rates[Dir(g, rw)].lim.Valid() && MayGo(t, rates, g, rw, size, now)
    requires Metered(rates0, rates, {Dir(g, rw), Dir(s.parent[g], rw)})
    requires Charged(s.nodes[g], t.nodes[g], rates0, rates, g, size) && Uncharged(rates0, rates, s.parent[g])
    ensures Inv(v, {g}) && Preserved(s, v) && |v.nodes| == |s.nodes| && v.parent == s.parent && OnlyChild(s, v, g)
    ensures v.nodes[g].Nr(rw) == t.nodes[g].Nr(rw) - 1 && v.nodes[g].Nr(!rw) == t.nodes[g].Nr(!rw)
    ensures v.nodes[g].Queue(!rw) == t.nodes[g].Queue(!rw)
    ensures RatesOk(rates', |s.nodes|, now) && Metered(rates0, rates', {Dir(g, rw), Dir(s.parent[g], rw)})
    ensures Charged(s.nodes[g], v.nodes[g], rates0, rates', g, size) && Uncharged(rates0, rates', s.parent[g])
  {
    hide Preserved, QueuesOk, TreesOk, CountsOk, PendingOk, DispatchOne, RatesOk, Side.Ok, MayDispatch, Act, Bytes, Give;
    var p := t.parent[g];
    if p > 0 {
      RatesKnown(rates, |s.nodes|, p, rw, now);
    }
    var b := FirstBio(t.nodes[g].Queue(rw));
    DispatchOnePops(t, g, rw);
    PopBytes(t.nodes[g].Queue(rw), size);
    v := Dispatched(s, t, g, rw);
    PreservedShape(s, v);
    GiveKeeps(rates, |s.nodes|, g, p, rw, size(b), now);
    rates' := Give(rates, g, p, rw, size(b), now);
    ChargedMore(s.nodes[g], t.nodes[g], v.nodes[g], rates0, rates, rates', g, p, rw, size, size(b));
  }

  lemma ChargedMore(n: Node, m: Node, k: Node, rates0: Rates, rates: Rates, rates': Rates, g: Tg, p: Tg, rw: bool, size: Sizes, bytes: nat)
    requires g != p && Dir(g, rw) in rates && Metered(rates0, rates, {Dir(g, rw), Dir(p, rw)}) && Metered(rates, rates', {Dir(g, rw), Dir(p, rw)})
    requires Charged(n, m, rates0, rates, g, size) && Uncharged(rates0, rates, p) && Uncharged(rates, rates', p)
    requires rates'[Dir(g, rw)].meter.ios == rates[Dir(g, rw)].meter.ios + 1 && rates'[Dir(g, rw)].meter.bytes == rates[Dir(g, rw)].meter.bytes + bytes
    requires k.Nr(rw) == m.Nr(rw) - 1 && k.Nr(!rw) == m.Nr(!rw)
    requires Bytes(m.Queue(rw), size) == Bytes(k.Queue(rw), size) + bytes && k.Queue(!rw) == m.Queue(!rw)
    ensures Metered(rates0, rates', {Dir(g, rw), Dir(p, rw)})
    ensures Charged(n, k, rates0, rates', g, size) && Uncharged(rates0, rates', p)
  {
    hide Bytes;
    forall d: bool | Dir(g, d) in rates0 && Dir(g, d) in rates'
      ensures rates'[Dir(g, d)].meter.ios + k.Nr(d) == rates0[Dir(g, d)].meter.ios + n.Nr(d)
      ensures rates'[Dir(g, d)].meter.bytes + Bytes(k.Queue(d), size) == rates0[Dir(g, d)].meter.bytes + Bytes(n.Queue(d), size)
    {
      assert d == rw || d == !rw;
      assert Dir(g, d) in rates;
    }
  }

  // ----- one group

  function Near(s: State, g: Tg): set<Dir>
    requires g < |s.parent|
  {
    {Dir(g, false), Dir(g, true), Dir(s.parent[g], false), Dir(s.parent[g], true)}
  }

  lemma ChargedTrans(n: Node, m: Node, k: Node, a: Rates, b: Rates, c: Rates, g: Tg, size: Sizes)
    requires a.Keys == b.Keys == c.Keys && Charged(n, m, a, b, g, size) && Charged(m, k, b, c, g, size)
    ensures Charged(n, k, a, c, g, size)
  {
    hide Bytes;
  }

  lemma UnchargedTrans(a: Rates, b: Rates, c: Rates, g: Tg)
    requires a.Keys == b.Keys == c.Keys && Uncharged(a, b, g) && Uncharged(b, c, g)
    ensures Uncharged(a, c, g)
  {
  }

  function Total(n: Node): nat { n.nrReads + n.nrWrites }

  /** throtl_dispatch_tg(): of each direction as many as may go, up to three quarters reads and one quarter writes. */
  method DispatchTg(s: State, rates: Rates, g: Tg, size: Sizes, now: nat) returns (t: State, rates': Rates, n: nat)
    requires Inv(s, {g}) && 0 < g < |s.nodes| && RatesOk(rates, |s.nodes|, now)
    ensures Inv(t, {g}) && Preserved(s, t) && |t.nodes| == |s.nodes| && OnlyChild(s, t, g)
    ensures RatesOk(rates', |s.nodes|, now) && Metered(rates, rates', Near(s, g))
    ensures Charged(s.nodes[g], t.nodes[g], rates, rates', g, size) && Uncharged(rates, rates', s.parent[g])
    ensures n == Total(s.nodes[g]) - Total(t.nodes[g])
    ensures s.nodes[g].nrReads - MAX_READS <= t.nodes[g].nrReads <= s.nodes[g].nrReads
    ensures s.nodes[g].nrWrites - MAX_WRITES <= t.nodes[g].nrWrites <= s.nodes[g].nrWrites
    ensures forall rw :: Dir(g, rw) in rates' && rates'[Dir(g, rw)].lim.Valid()
    ensures t.nodes[g].nrReads == 0 || t.nodes[g].nrReads == s.nodes[g].nrReads - MAX_READS || !MayGo(t, rates', g, false, size, now)
    ensures t.nodes[g].nrWrites == 0 || t.nodes[g].nrWrites == s.nodes[g].nrWrites - MAX_WRITES || !MayGo(t, rates', g, true, size, now)
  {
    hide Preserved, Inv, RatesOk, Charged, Uncharged, Side.Ok, MayDispatch, OnlyChild;
    var nrReads, nrWrites;
    var u: State;
    var mid: Rates;
    u, mid, nrReads := DispatchSome(s, rates, g, false, size, now, MAX_READS);
    PreservedShape(s, u);
    t, rates', nrWrites := DispatchSome(u, mid, g, true, size, now, MAX_WRITES);
    PreservedTrans(s, u, t);
    OnlyChildTrans(s, u, t, g);
    ChargedTrans(s.nodes[g], u.nodes[g], t.nodes[g], rates, mid, rates', g, size);
    UnchargedTrans(rates, mid, rates', s.parent[g]);
    RatesKnown(mid, |s.nodes|, g, false, now);
    RatesKnown(rates', |s.nodes|, g, false, now);
    RatesKnown(rates', |s.nodes|, g, true, now);
    assert rates'[Dir(g, false)] == mid[Dir(g, false)];
    n := nrReads + nrWrites;
  }

  /** tg_update_disptime(): the wait of the direction that may go first. */
  function HeadWait(rates: Rates, g: Tg, n: Node, size: Sizes, now: nat): int
    requires forall rw :: Dir(g, rw) in rates && rates[Dir(g, rw)].lim.Valid()
  {
    var r := rates[Dir(g, false)].Test(size(FirstBio(n.Queue(false))), now).wait;
    var w := rates[Dir(g, true)].Test(size(FirstBio(n.Queue(true))), now).wait;
    if n.nrReads == 0 then w else if n.nrWrites == 0 then r else Min(r, w)
  }

  /** The two tests of tg_update_disptime() leave the waits they report. */
  method AskHeads(rates: Rates, groups: nat, g: Tg, n: Node, size: Sizes, now: nat) returns (rates': Rates, wait: int)
    requires RatesOk(rates, groups, now) && 0 < g < groups && n.nrReads + n.nrWrites > 0
    requires forall rw :: Dir(g, rw) in rates && rates[Dir(g, rw)].lim.Valid()
    ensures RatesOk(rates', groups, now) && Metered(rates, rates', {Dir(g, false), Dir(g, true)}) && forall c :: Uncharged(rates, rates', c)
    ensures (forall rw :: Dir(g, rw) in rates' && rates'[Dir(g, rw)].lim.Valid()) && wait == HeadWait(rates', g, n, size, now)
    ensures (forall rw :: n.Nr(rw) == 0 || !rates[Dir(g, rw)].Test(size(FirstBio(n.Queue(rw))), now).ok) ==> wait > 0
  {
    hide RatesOk, Side.Ok, MayDispatch, Act;
    var r, w := size(FirstBio(n.Queue(false))), size(FirstBio(n.Queue(true)));
    rates' := rates;
    var readWait, writeWait := 0, 0;
    if n.nrReads > 0 {
      AskKeeps(rates', groups, Dir(g, false), r, now);
      readWait := rates'[Dir(g, false)].Test(r, now).wait;
      rates' := Ask(rates', Dir(g, false), r, now);
    }
    ghost var mid := rates';
    if n.nrWrites > 0 {
      AskKeeps(rates', groups, Dir(g, true), w, now);
      writeWait := rates'[Dir(g, true)].Test(w, now).wait;
      rates' := Ask(rates', Dir(g, true), w, now);
    }
    forall c
      ensures Uncharged(rates, rates', c)
    {
      UnchargedTrans(rates, mid, rates', c);
    }
    assert n.Nr(false) == n.nrReads && n.Nr(true) == n.nrWrites;
    wait := if n.nrReads == 0 then writeWait else if n.nrWrites == 0 then readWait else Min(readWait, writeWait);
  }

  /** A turn of throtl_select_dispatch() with the child g. */
  method Turn(s: State, rates: Rates, g: Tg, size: Sizes, now: nat) returns (t: State, rates': Rates, n: nat)
    requires Inv(s, {}) && 0 < g < |s.nodes| && s.nodes[g].onTree && RatesOk(rates, |s.nodes|, now)
    ensures Inv(t, {}) && Preserved(s, t) && OnlyChild(s, t, g)
    ensures RatesOk(rates', |s.nodes|, now) && Metered(rates, rates', Near(s, g))
    ensures Charged(s.nodes[g], t.nodes[g], rates, rates', g, size) && Uncharged(rates, rates', s.parent[g])
    ensures n == Total(s.nodes[g]) - Total(t.nodes[g]) && n <= GRP_QUANTUM
    ensures forall rw :: Dir(g, rw) in rates' && rates'[Dir(g, rw)].lim.Valid()
    ensures t.nodes[g].onTree ==> t.nodes[g].disptime == now + HeadWait(rates', g, t.nodes[g], size, now)
    ensures t.nodes[g].onTree && n == 0 ==> t.nodes[g].disptime > now
  {
    hide Preserved, QueuesOk, TreesOk, CountsOk, Dequeue, Reschedule, RatesOk, Charged, Uncharged, Side.Ok, MayDispatch, OnlyChild;
    DequeueBusy(s, g);
    DequeueChild(s, g);
    var u := Dequeue(s, g);
    SamePreserved(s, u);
    assert SameQueue(s.nodes[g], u.nodes[g]);
    t, rates', n := DispatchTg(u, rates, g, size, now);
    PreservedTrans(s, u, t);
    OnlyChildTrans(s, u, t, g);
    ChargedSame(s.nodes[g], u.nodes[g], t.nodes[g], t.nodes[g], rates, rates', g, size);
    RatesKnown(rates', |s.nodes|, g, false, now);
    RatesKnown(rates', |s.nodes|, g, true, now);
    if t.nodes[g].nrReads > 0 || t.nodes[g].nrWrites > 0 {
      ghost var v, mid := t, rates';
      var wait;
      rates', wait := AskHeads(rates', |s.nodes|, g, t.nodes[g], size, now);
      MeteredTrans(rates, mid, rates', Near(s, g), {Dir(g, false), Dir(g, true)});
      assert Near(s, g) + {Dir(g, false), Dir(g, true)} == Near(s, g);
      UnchargedTrans(rates, mid, rates', s.parent[g]);
      ChargedThen(s.nodes[g], t.nodes[g], rates, mid, rates', g, size);
      t := Rescheduled(t, g, now + wait);
      PreservedTrans(s, v, t);
      OnlyChildTrans(s, v, t, g);
      ChargedSame(s.nodes[g], s.nodes[g], v.nodes[g], t.nodes[g], rates, rates', g, size);
      WaitSame(rates', g, v.nodes[g], t.nodes[g], size, now);
    }
  }

  lemma ChargedSame(n: Node, n': Node, m: Node, m': Node, rates: Rates, rates': Rates, g: Tg, size: Sizes)
    requires SameQueue(n, n') && SameQueue(m, m') && Charged(n', m, rates, rates', g, size)
    ensures Charged(n, m', rates, rates', g, size)
  {
    hide Bytes;
  }

  lemma ChargedThen(n: Node, m: Node, a: Rates, b: Rates, c: Rates, g: Tg, size: Sizes)
    requires a.Keys == b.Keys == c.Keys && Charged(n, m, a, b, g, size) && Uncharged(b, c, g)
    ensures Charged(n, m, a, c, g, size)
  {
    hide Bytes;
  }

  lemma WaitSame(rates: Rates, g: Tg, n: Node, m: Node, size: Sizes, now: nat)
    requires SameQueue(n, m) && forall rw :: Dir(g, rw) in rates && rates[Dir(g, rw)].lim.Valid()
    ensures HeadWait(rates, g, n, size, now) == HeadWait(rates, g, m, size, now)
  {
    hide MayDispatch;
  }

  lemma DequeueChild(s: State, g: Tg)
    requires Inv(s, {}) && 0 < g < |s.nodes| && s.nodes[g].onTree
    ensures s.nodes[s.parent[g]].nrPending > 0 && OnlyChild(s, Dequeue(s, g), g)
  {
    hide QueuesOk, CountsOk, TreesOk, Dequeue, PendingOk;
    DequeueKeeps(s, g);
    var t := Dequeue(s, g);
    forall c | 0 < c < |s.nodes| && s.parent[c] == s.parent[g] && c != g
      ensures SameChild(s.nodes[c], t.nodes[c])
    {
      assert SameQueue(s.nodes[c], t.nodes[c]);
    }
  }

  method Rescheduled(s: State, g: Tg, disptime: int) returns (t: State)
    requires Inv(s, {g}) && 0 < g < |s.nodes| && Holds(s.nodes[g])
    ensures t == Reschedule(s, g, disptime)
    ensures Inv(t, {}) && Preserved(s, t) && OnlyChild(s, t, g) && SameQueue(s.nodes[g], t.nodes[g]) && t.nodes[g].disptime == disptime
  {
    hide QueuesOk, CountsOk, TreesOk, Enqueue, PendingOk, Preserved;
    RescheduleKeeps(s, g, disptime);
    t := Reschedule(s, g, disptime);
    EnqueueTimes(s.(nodes := s.nodes[g := s.nodes[g].(disptime := disptime)]), g);
    SamePreserved(s, t);
    forall c | 0 < c < |s.nodes| && s.parent[c] == s.parent[g] && c != g
      ensures SameChild(s.nodes[c], t.nodes[c])
    {
      assert SameQueue(s.nodes[c], t.nodes[c]);
    }
  }

  // ----- all children of a node

  /** The pending children of p whose time has come. */
  function Due(s: State, p: nat, now: int): set<Tg>
    requires Shape(s)
  {
    set c | 0 < c < |s.nodes| && s.parent[c] == p && s.nodes[c].onTree && s.nodes[c].disptime <= now
  }

  /** The bios on the children of p below k. */
  function Waiting(s: State, p: nat, k: nat): nat
    requires Shape(s) && k <= |s.nodes|
  {
    if k <= 1 then 0 else Waiting(s, p, k - 1) + if s.parent[k - 1] == p then Total(s.nodes[k - 1]) else 0
  }

  lemma {:induction false} WaitingUpdate(s: State, t: State, g: Tg, k: nat)
    requires Shape(s) && Shape(t) && 0 < g < |s.nodes| && OnlyChild(s, t, g) && k <= |s.nodes|
    ensures Waiting(t, s.parent[g], k) ==
            Waiting(s, s.parent[g], k) + if g < k then Total(t.nodes[g]) - Total(s.nodes[g]) else 0
  {
    if k > 1 {
      WaitingUpdate(s, t, g, k - 1);
      assert s.parent[k - 1] == s.parent[g] && k - 1 != g ==> SameChild(s.nodes[k - 1], t.nodes[k - 1]);
    }
  }

  /** The meter readings of c have not changed. */
  ghost predicate SameSides(rates: Rates, rates': Rates, c: Tg)
  {
    forall rw :: Dir(c, rw) in rates && Dir(c, rw) in rates' ==> rates'[Dir(c, rw)] == rates[Dir(c, rw)]
  }

  /** c is pending for exactly as long as its first bios must wait. */
  ghost predicate OnTime(t: State, rates: Rates, c: Tg, size: Sizes, now: nat)
    requires c < |t.nodes|
  {
    && (forall rw :: Dir(c, rw) in rates && rates[Dir(c, rw)].lim.Valid())
    && (t.nodes[c].onTree ==> t.nodes[c].disptime == now + HeadWait(rates, c, t.nodes[c], size, now))
  }

  /** A child that was not due is untouched; one that was and is still pending waits exactly as long as its bios must. */
  ghost predicate Fair(s: State, t: State, rates: Rates, rates': Rates, p: nat, size: Sizes, now: nat)
    requires Shape(s) && Shape(t) && |t.nodes| == |s.nodes|
  {
    forall c :: 0 < c < |s.nodes| && s.parent[c] == p ==>
      || (SameChild(s.nodes[c], t.nodes[c]) && SameSides(rates, rates', c))
      || (c in Due(s, p, now) && OnTime(t, rates', c, size, now))
  }

  /** Every child of p was charged what it gave; p itself and all other groups were charged nothing. */
  ghost predicate Settled(s: State, t: State, rates: Rates, rates': Rates, p: nat, size: Sizes)
    requires Shape(s) && |t.nodes| == |s.nodes|
  {
    && rates'.Keys == rates.Keys
    && (forall d :: d in rates ==> rates'[d].lim == rates[d].lim && rates'[d].s0 == rates[d].s0)
    && (forall c :: 0 < c < |s.nodes| && s.parent[c] == p ==> Charged(s.nodes[c], t.nodes[c], rates, rates', c, size))
    && (forall c: nat :: !(0 < c < |s.nodes| && s.parent[c] == p) ==> Uncharged(rates, rates', c))
  }

  lemma SettledSelf(s: State, rates: Rates, p: nat, size: Sizes, now: nat)
    requires Shape(s)
    ensures Settled(s, s, rates, rates, p, size) && Fair(s, s, rates, rates, p, size, now)
  {
    hide Bytes;
  }

  lemma SettledTurn(s: State, t: State, u: State, a: Rates, b: Rates, c: Rates, p: nat, size: Sizes, g: Tg)
    requires Shape(s) && Shape(t) && |s.nodes| == |t.nodes| == |u.nodes| && s.parent == t.parent && 0 < g < |s.nodes| && s.parent[g] == p
    requires Settled(s, t, a, b, p, size) && Metered(b, c, Near(t, g)) && OnlyChild(t, u, g)
    requires Charged(t.nodes[g], u.nodes[g], b, c, g, size) && Uncharged(b, c, p)
    ensures Settled(s, u, a, c, p, size)
  {
    hide Bytes, Charged, Uncharged;
    forall x | 0 < x < |s.nodes| && s.parent[x] == p
      ensures Charged(s.nodes[x], u.nodes[x], a, c, x, size)
    {
      if x == g {
        ChargedTrans(s.nodes[g], t.nodes[g], u.nodes[g], a, b, c, g, size);
      } else {
        assert SameChild(t.nodes[x], u.nodes[x]);
        SidesUncharged(b, c, x, Near(t, g));
        ChargedThen(s.nodes[x], t.nodes[x], a, b, c, x, size);
        ChargedSame(s.nodes[x], s.nodes[x], t.nodes[x], u.nodes[x], a, c, x, size);
      }
    }
    forall x: nat | !(0 < x < |s.nodes| && s.parent[x] == p)
      ensures Uncharged(a, c, x)
    {
      if x != p {
        SidesUncharged(b, c, x, Near(t, g));
      }
      UnchargedTrans(a, b, c, x);
    }
  }

  lemma SidesUncharged(b: Rates, c: Rates, x: Tg, touched: set<Dir>)
    requires Metered(b, c, touched) && forall rw :: Dir(x, rw) !in touched
    ensures SameSides(b, c, x) && Uncharged(b, c, x)
  {
  }

  lemma FairTurn(s: State, t: State, u: State, a: Rates, b: Rates, c: Rates, p: nat, size: Sizes, now: nat, g: Tg)
    requires Shape(s) && Shape(t) && Shape(u) && |s.nodes| == |t.nodes| == |u.nodes| && s.parent == t.parent && a.Keys == b.Keys
    requires Fair(s, t, a, b, p, size, now) && g in Due(t, p, now) && OnlyChild(t, u, g) && Metered(b, c, Near(t, g))
    requires OnTime(u, c, g, size, now)
    ensures Fair(s, u, a, c, p, size, now)
  {
    hide HeadWait;
    forall x | 0 < x < |s.nodes| && s.parent[x] == p
      ensures || (SameChild(s.nodes[x], u.nodes[x]) && SameSides(a, c, x))
              || (x in Due(s, p, now) && OnTime(u, c, x, size, now))
    {
      if x != g {
        assert SameChild(t.nodes[x], u.nodes[x]);
        SidesUncharged(b, c, x, Near(t, g));
        if OnTime(t, b, x, size, now) {
          OnTimeStays(t, u, b, c, x, size, now);
        }
      }
    }
  }

  lemma OnTimeStays(t: State, u: State, b: Rates, c: Rates, x: Tg, size: Sizes, now: nat)
    requires x < |t.nodes| == |u.nodes| && SameChild(t.nodes[x], u.nodes[x]) && SameSides(b, c, x) && b.Keys == c.Keys && OnTime(t, b, x, size, now)
    ensures OnTime(u, c, x, size, now)
  {
    hide MayDispatch;
  }

  lemma DueTurn(t: State, u: State, p: nat, now: int, g: Tg)
    requires Shape(t) && Shape(u) && g in Due(t, p, now) && OnlyChild(t, u, g)
    requires u.nodes[g].onTree ==> u.nodes[g].disptime > now
    ensures Due(u, p, now) == Due(t, p, now) - {g}
  {
    forall c | 0 < c < |t.nodes| && t.parent[c] == p && c != g
      ensures c in Due(u, p, now) <==> c in Due(t, p, now)
    {
      assert SameChild(t.nodes[c], u.nodes[c]);
    }
  }

  /**
   throtl_select_dispatch(). Unless the quantum was used up no child is due any more, so none of those served has a bio
   that may go; what the children gave is what they were charged and what is counted; the children not due are untouched.
   */
  method SelectDispatch(s: State, rates: Rates, p: nat, size: Sizes, now: nat) returns (t: State, rates': Rates, n: nat)
    requires Inv(s, {}) && p < |s.nodes| && RatesOk(rates, |s.nodes|, now)
    ensures Inv(t, {}) && Preserved(s, t) && |t.nodes| == |s.nodes|
    ensures n < QUANTUM + GRP_QUANTUM && n + Waiting(t, p, |t.nodes|) == Waiting(s, p, |s.nodes|)
    ensures n >= QUANTUM || Due(t, p, now) == {}
    ensures RatesOk(rates', |s.nodes|, now) && Settled(s, t, rates, rates', p, size)
    ensures Fair(s, t, rates, rates', p, size, now)
  {
    hide Preserved, QueuesOk, TreesOk, CountsOk, PendingOk, RatesOk, Settled, Fair, Charged, Uncharged, OnlyChild, Waiting, Side.Ok;
    t, rates', n := s, rates, 0;
    PreservedSelf(s);
    SettledSelf(s, rates, p, size, now);
    while true
      invariant Inv(t, {}) && Preserved(s, t) && |t.nodes| == |s.nodes| && t.parent == s.parent
      invariant n < QUANTUM && n + Waiting(t, p, |t.nodes|) == Waiting(s, p, |s.nodes|)
      invariant RatesOk(rates', |s.nodes|, now) && Settled(s, t, rates, rates', p, size) && Fair(s, t, rates, rates', p, size, now)
      decreases QUANTUM - n, Due(t, p, now)
    {
      var u, first := RbFirst(t, p);
      PreservedTrans(s, t, u);
      LookSame(s, t, u, rates, rates', p, size, now);
      if first.None? {
        NoneDue(u, p, now);
        t := u;
        break;
      }
      if now < u.nodes[first.value].disptime {
        EarliestLater(t, p, now, first.value);
        t := u;
        break;
      }
      var g := first.value;
      var v, after, k := Turn(u, rates', g, size, now);
      PreservedTrans(s, u, v);
      PreservedShape(u, v);
      SettledKeys(s, u, rates, rates', p, size);
      FairTurn(s, u, v, rates, rates', after, p, size, now, g);
      SettledTurn(s, u, v, rates, rates', after, p, size, g);
      WaitingUpdate(u, v, g, |u.nodes|);
      if k == 0 {
        DueTurn(u, v, p, now, g);
      }
      t, rates', n := v, after, n + k;
      if n >= QUANTUM {
        break;
      }
    }
  }

  lemma SettledKeys(s: State, t: State, a: Rates, b: Rates, p: nat, size: Sizes)
    requires Shape(s) && |t.nodes| == |s.nodes| && Settled(s, t, a, b, p, size)
    ensures a.Keys == b.Keys
  {
  }

  /** Looking for the first child changes nothing about the children. */
  lemma LookSame(s: State, t: State, u: State, rates: Rates, rates': Rates, p: nat, size: Sizes, now: nat)
    requires Shape(s) && Shape(t) && Shape(u) && |s.nodes| == |t.nodes| && SameQueues(t, u) && s.parent == t.parent
    requires forall x :: 0 <= x < |t.nodes| ==> u.nodes[x].onTree == t.nodes[x].onTree && u.nodes[x].disptime == t.nodes[x].disptime
    requires Fair(s, t, rates, rates', p, size, now) && Settled(s, t, rates, rates', p, size)
    ensures Fair(s, u, rates, rates', p, size, now) && Settled(s, u, rates, rates', p, size)
    ensures Due(u, p, now) == Due(t, p, now) && Waiting(u, p, |u.nodes|) == Waiting(t, p, |t.nodes|)
  {
    hide Bytes, Charged, Uncharged, OnTime, Waiting;
    forall c | 0 <= c < |t.nodes|
      ensures SameChild(t.nodes[c], u.nodes[c])
    {
      assert SameQueue(t.nodes[c], u.nodes[c]);
    }
    forall c | 0 < c < |s.nodes| && s.parent[c] == p
      ensures Charged(s.nodes[c], u.nodes[c], rates, rates', c, size)
      ensures OnTime(t, rates', c, size, now) ==> OnTime(u, rates', c, size, now)
    {
      ChargedSame(s.nodes[c], s.nodes[c], t.nodes[c], u.nodes[c], rates, rates', c, size);
      if OnTime(t, rates', c, size, now) {
        OnTimeStays(t, u, rates', rates', c, size, now);
      }
    }
    WaitingSame(t, u, p, |t.nodes|);
  }

  lemma {:induction false} WaitingSame(s: State, t: State, p: nat, k: nat)
    requires Shape(s) && Shape(t) && SameQueues(s, t) && k <= |s.nodes|
    ensures Waiting(t, p, k) == Waiting(s, p, k)
  {
    if k > 1 {
      WaitingSame(s, t, p, k - 1);
      assert SameQueue(s.nodes[k - 1], t.nodes[k - 1]);
    }
  }

  lemma NoneDue(s: State, p: nat, now: int)
    requires Inv(s, {}) && p < |s.nodes| && s.nodes[p].nrPending == 0
    ensures Due(s, p, now) == {}
  {
    hide QueuesOk, NodeTreeOk, CountsOk, PendingOk;
    MembersOf(s, p);
  }

  lemma EarliestLater(s: State, p: nat, now: int, g: Tg)
    requires Inv(s, {}) && p < |s.nodes| && g < |s.nodes| && now < s.nodes[g].disptime
    requires forall c :: c in s.nodes[p].pending ==> Key(s.nodes, g) <= Key(s.nodes, c)
    ensures Due(s, p, now) == {}
  {
    hide QueuesOk, NodeTreeOk, CountsOk, PendingOk;
    MembersOf(s, p);
    forall c | 0 < c < |s.nodes| && s.parent[c] == p && s.nodes[c].onTree
      ensures now < s.nodes[c].disptime
    {
      assert c in s.nodes[p].pending;
    }
  }

  // ----- any number of rounds

  /** In every group and direction that is limited, no more got through by time t than the rate allows. */
  ghost predicate WithinRates(rates: Rates, t: nat)
  {
    forall d :: d in rates && !rates[d].lim.Unlimited() ==>
      var x := rates[d];
      && x.lim.Valid() && x.s0 <= t
      && x.meter.bytes <= x.lim.bps * (t - x.s0 + x.lim.slice + x.meter.credit) / x.lim.hz
      && x.meter.ios <= x.lim.iops * (t - x.s0 + x.lim.slice + x.meter.credit) / x.lim.hz
  }

  lemma RatesBound(rates: Rates, groups: nat, now: nat)
    requires RatesOk(rates, groups, now)
    ensures WithinRates(rates, now)
  {
    hide Side.Ok;
    forall d | d in rates && !rates[d].lim.Unlimited()
      ensures var x := rates[d];
              && x.lim.Valid() && x.s0 <= now
              && x.meter.bytes <= x.lim.bps * (now - x.s0 + x.lim.slice + x.meter.credit) / x.lim.hz
              && x.meter.ios <= x.lim.iops * (now - x.s0 + x.lim.slice + x.meter.credit) / x.lim.hz
    {
      SideValid(rates[d]);
      SideBound(rates[d], now);
    }
  }

  lemma RatesLater(rates: Rates, groups: nat, now: nat, later: nat)
    requires RatesOk(rates, groups, now) && now <= later
    ensures RatesOk(rates, groups, later)
  {
    hide Side.Ok;
  }

  predicate Later(from: nat, calls: seq<(nat, nat)>)
    decreases |calls|
  {
    calls == [] || (from <= calls[0].1 && Later(calls[0].1, calls[1..]))
  }

  /** Dispatch rounds at any nodes and times, one after the other: every group keeps to its rates, and no bio is lost. */
  method Rounds(s: State, rates: Rates, start: nat, calls: seq<(nat, nat)>, size: Sizes) returns (t: State, rates': Rates, now: nat)
    requires Inv(s, {}) && RatesOk(rates, |s.nodes|, start) && Later(start, calls)
    requires forall i :: 0 <= i < |calls| ==> calls[i].0 < |s.nodes|
    ensures Inv(t, {}) && Preserved(s, t) && |t.nodes| == |s.nodes|
    ensures now == (if calls == [] then start else calls[|calls| - 1].1)
    ensures RatesOk(rates', |s.nodes|, now) && WithinRates(rates', now)
  {
    hide Preserved, QueuesOk, TreesOk, CountsOk, PendingOk, RatesOk, Settled, Fair, WithinRates;
    t, rates', now := s, rates, start;
    PreservedSelf(s);
    for i := 0 to |calls|
      invariant Inv(t, {}) && Preserved(s, t) && |t.nodes| == |s.nodes|
      invariant RatesOk(rates', |s.nodes|, now) && Later(now, calls[i..]) && now == if i == 0 then start else calls[i - 1].1
    {
      assert calls[i..][1..] == calls[i + 1..];
      RatesLater(rates', |s.nodes|, now, calls[i].1);
      now := calls[i].1;
      var u, n;
      u, rates', n := SelectDispatch(t, rates', calls[i].0, size, now);
      PreservedTrans(s, t, u);
      t := u;
    }
    RatesBound(rates', |s.nodes|, now);
  }
}
