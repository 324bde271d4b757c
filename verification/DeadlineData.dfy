/**
 The deadline_data object, updated in place by its entry points, against the functions of Deadline. The
 source's BUG_ON()s are assertions.
 */
module DeadlineData {
  import opened Basics
  import opened Lists
  import opened Deadline
  import opened DeadlineBound

  /** The entry behind r. */
  function Behind(l: seq<Rq>, r: Rq): Option<Rq>
    requires r in l
  {
    if IndexOf(l, r) + 1 < |l| then Some(l[IndexOf(l, r) + 1]) else None
  }

  lemma {:induction false} LatterIsBehind(l: seq<Rq>, r: Rq)
    requires r in l
    ensures Latter(l, r) == Behind(l, r)
  {
    if |l| >= 2 && l[0] != r {
      LatterIsBehind(l[1..], r);
    }
  }

  /** From l to m: r is gone, the others are there in the same order. */
  ghost predicate Dropped(l: seq<Rq>, m: seq<Rq>, r: Rq)
  {
    && (forall x :: x in m <==> x in l && x != r)
    && (forall x, y :: x in m && y in m && x in l && y in l ==> (IndexOf(m, x) < IndexOf(m, y) <==> IndexOf(l, x) < IndexOf(l, y)))
  }

  /** From s to t: r has left both of its lists, no batch goes on from it, and every other request is where it was. */
  ghost predicate Without(s: State, t: State, r: Rq)
  {
    && (forall d :: Dropped(s.Fifo(d), t.Fifo(d), r) && Dropped(s.Sort(d), t.Sort(d), r))
    && t.nextR != Some(r) && t.nextW != Some(r)
  }

  lemma {:induction false} IndexUnique(l: seq<Rq>, i: nat)
    requires NoDup(l) && i < |l|
    ensures IndexOf(l, l[i]) == i
  {
    if i > 0 {
      IndexUnique(l[1..], i - 1);
    }
  }

  lemma RemoveDrops(l: seq<Rq>, r: Rq)
    requires NoDup(l)
    ensures Dropped(l, Remove(l, r), r)
  {
    RemoveMembers(l, r);
    var m := Remove(l, r);
    hide NoDup, Remove;
    forall x, y | x in m && y in m && x in l && y in l
      ensures IndexOf(m, x) < IndexOf(m, y) <==> IndexOf(l, x) < IndexOf(l, y)
    {
      var i, j := RemoveIndices(l, r, IndexOf(m, x), IndexOf(m, y));
      IndexUnique(l, i);
      IndexUnique(l, j);
    }
  }

  lemma RemoveMeans(s: State, cfg: Settings, clock: int, r: Rq)
    requires Inv(s, cfg, clock) && r in s.reqs
    ensures Without(s, Deadline.RemoveRequest(s, r), r)
  {
    hide Inv, Dropped, Latter, Remove, NoDup;
    ListsClear(s, cfg, clock, r);
    LatterIn(s.sortR, r);
    LatterIn(s.sortW, r);
    RemoveDrops(s.fifoR, r);
    RemoveDrops(s.fifoW, r);
    RemoveDrops(s.sortR, r);
    RemoveDrops(s.sortW, r);
  }

  /** r is on no list of the other direction, where removing it would change nothing. */
  lemma ListsClear(s: State, cfg: Settings, clock: int, r: Rq)
    requires Inv(s, cfg, clock) && r in s.reqs
    ensures NoDup(s.fifoR) && NoDup(s.fifoW) && NoDup(s.sortR) && NoDup(s.sortW)
    ensures s.reqs[r].dir ==> Remove(s.fifoR, r) == s.fifoR && Remove(s.sortR, r) == s.sortR && s.nextR != Some(r)
    ensures !s.reqs[r].dir ==> Remove(s.fifoW, r) == s.fifoW && Remove(s.sortW, r) == s.sortW && s.nextW != Some(r)
  {
    if s.reqs[r].dir {
      RemoveAbsent(s.fifoR, r);
      RemoveAbsent(s.sortR, r);
    } else {
      RemoveAbsent(s.fifoW, r);
      RemoveAbsent(s.sortW, r);
    }
  }

  lemma MoveMeans(s: State, cfg: Settings, clock: int, r: Rq)
    requires Inv(s, cfg, clock) && r in s.reqs && s.batching > 0
    ensures r in s.Sort(s.reqs[r].dir)
    ensures var t := Deadline.MoveRequest(s, r);
            && Without(s, t, r) && t.Next(!s.reqs[r].dir) == None && t.Next(s.reqs[r].dir) == Behind(s.Sort(s.reqs[r].dir), r)
  {
    hide Inv, Dropped, Latter, Remove, NoDup, Behind, IndexOf;
    var d := s.reqs[r].dir;
    InFifo(s, cfg, clock, r);
    LatterIsBehind(s.Sort(d), r);
    ListsClear(s, cfg, clock, r);
    LatterIn(s.Sort(d), r);
    PointKeeps(s, cfg, clock, r);
    RemoveMeans(s.(nextR := None, nextW := None).SetNext(d, Latter(s.Sort(d), r)), cfg, clock, r);
  }

  /** A new request stands last in the FIFO, expires its direction's time from now, and changes no other order. */
  lemma AddMeans(s: State, cfg: Settings, clock: int, r: Rq, dir: bool, pos: nat, now: int)
    requires Inv(s, cfg, clock) && r !in s.reqs && clock <= now
    ensures var t := Deadline.AddRequest(s, cfg, r, dir, pos, now);
            && t.reqs == s.reqs[r := Request(dir, pos, now + if dir then cfg.writeExpire else cfg.readExpire)]
            && t.Fifo(dir) == s.Fifo(dir) + [r] && Remove(t.Sort(dir), r) == s.Sort(dir)
            && t.Fifo(!dir) == s.Fifo(!dir) && t.Sort(!dir) == s.Sort(!dir)
            && t.nextR == s.nextR && t.nextW == s.nextW && t.batching == s.batching && t.starved == s.starved
            && forall x :: x in t.Sort(dir) && x != r && t.reqs[r].pos == Pos(t.reqs, x) ==> r in t.Sort(dir) && IndexOf(t.Sort(dir), x) < IndexOf(t.Sort(dir), r)
  {
    hide DirOk;
    var t := Deadline.AddRequest(s, cfg, r, dir, pos, now);
    NotListed(s, cfg, clock, r);
    InsertDrops(t.reqs, s.Sort(dir), r);
    InsertOrders(s, cfg, clock, r, dir, pos, now);
  }

  lemma NotListed(s: State, cfg: Settings, clock: int, r: Rq)
    requires Inv(s, cfg, clock) && r !in s.reqs
    ensures r !in s.sortR && r !in s.sortW
  {
  }

  lemma {:induction false} InsertDrops(reqs: Requests, l: seq<Rq>, r: Rq)
    requires r !in l
    ensures Remove(Insert(reqs, l, r), r) == l
  {
    if l != [] && Pos(reqs, r) >= Pos(reqs, l[0]) {
      InsertDrops(reqs, l[1..], r);
      assert ([l[0]] + Insert(reqs, l[1..], r))[1..] == Insert(reqs, l[1..], r);
    }
  }

  lemma {:induction false} InsertBehind(reqs: Requests, l: seq<Rq>, r: Rq, x: Rq)
    requires NoDup(l) && SortedPos(reqs, l) && r !in l && x in l && Pos(reqs, x) <= Pos(reqs, r)
    ensures x in Insert(reqs, l, r) && r in Insert(reqs, l, r)
    ensures IndexOf(Insert(reqs, l, r), x) < IndexOf(Insert(reqs, l, r), r)
  {
    var m := Insert(reqs, l, r);
    InsertMembers(reqs, l, r);
    var k :| 0 <= k < |l| && l[k] == x;
    assert Pos(reqs, l[0]) <= Pos(reqs, l[k]);
    if l[0] != x {
      InsertBehind(reqs, l[1..], r, x);
      assert m[1..] == Insert(reqs, l[1..], r);
    } else {
      assert m[0] == x;
    }
  }

  lemma InsertOrders(s: State, cfg: Settings, clock: int, r: Rq, dir: bool, pos: nat, now: int)
    requires Inv(s, cfg, clock) && r !in s.reqs
    ensures var t := Deadline.AddRequest(s, cfg, r, dir, pos, now);
            forall x :: x in t.Sort(dir) && x != r && t.reqs[r].pos == Pos(t.reqs, x) ==> r in t.Sort(dir) && IndexOf(t.Sort(dir), x) < IndexOf(t.Sort(dir), r)
  {
    var t := Deadline.AddRequest(s, cfg, r, dir, pos, now);
    var l := s.Sort(dir);
    NotListed(s, cfg, clock, r);
    assert NoDup(l) && SortedPos(s.reqs, l);
    assert SortedPos(t.reqs, l) by {
      forall i, j | 0 <= i < j < |l|
        ensures Pos(t.reqs, l[i]) <= Pos(t.reqs, l[j])
      {
        assert l[i] in l && l[j] in l;
      }
    }
    InsertMembers(t.reqs, l, r);
    forall x | x in t.Sort(dir) && x != r && t.reqs[r].pos == Pos(t.reqs, x)
      ensures r in t.Sort(dir) && IndexOf(t.Sort(dir), x) < IndexOf(t.Sort(dir), r)
    {
      InsertBehind(t.reqs, l, r, x);
    }
  }

  /** elv_rb_find(): the search goes left or right until it meets a request at the sector or runs out. */
  method RbFind(reqs: Requests, l: seq<Rq>, sector: int) returns (r: Option<Rq>)
    requires SortedPos(reqs, l)
    ensures r.Some? ==> r.value in l && Pos(reqs, r.value) == sector
    ensures r.None? ==> forall x :: x in l ==> Pos(reqs, x) != sector
  {
    var lo, hi := 0, |l|;
    while lo < hi
      invariant 0 <= lo <= hi <= |l|
      invariant forall i :: 0 <= i < lo ==> Pos(reqs, l[i]) < sector
      invariant forall i :: hi <= i < |l| ==> Pos(reqs, l[i]) > sector
    {
      var mid := (lo + hi) / 2;
      if sector < Pos(reqs, l[mid]) {
        hi := mid;
      } else if sector > Pos(reqs, l[mid]) {
        lo := mid + 1;
      } else {
        return Some(l[mid]);
      }
    }
    return None;
  }

  class DeadlineQueue {
    var reqs: map<Rq, Request>
    var fifoR: seq<Rq>
    var fifoW: seq<Rq>
    var sortR: seq<Rq>
    var sortW: seq<Rq>
    var nextR: Option<Rq>
    var nextW: Option<Rq>
    var batching: nat
    var starved: nat
    ghost var clock: int
    const cfg: Settings

    ghost function View(): State
      reads this
    {
      State(reqs, fifoR, fifoW, sortR, sortW, nextR, nextW, batching, starved)
    }

    ghost predicate Valid()
      reads this
    {
      Inv(View(), cfg, clock)
    }

    constructor (cfg: Settings, ghost now: int)
      ensures Valid() && View() == Empty && this.cfg == cfg && clock == now
    {
      this.cfg := cfg;
      reqs, fifoR, fifoW, sortR, sortW := map[], [], [], [], [];
      nextR, nextW, batching, starved := None, None, 0, 0;
      clock := now;
      new;
      EmptyOk(cfg, now);
    }

    method AddRequest(r: Rq, dir: bool, pos: nat, now: int)
      requires Valid() && r !in reqs && clock <= now
      modifies this
      ensures Valid() && clock == now && View() == Deadline.AddRequest(old(View()), cfg, r, dir, pos, now)
    {
      hide Inv, Insert;
      AddKeeps(View(), cfg, clock, now, r, dir, pos);
      reqs := reqs[r := Request(dir, pos, now + cfg.Expire(dir))];
      if dir {
        sortW := Insert(reqs, sortW, r);
        fifoW := fifoW + [r];
      } else {
        sortR := Insert(reqs, sortR, r);
        fifoR := fifoR + [r];
      }
      clock := now;
    }

    /** deadline_merge(): a request of the direction that starts where the bio ends, if there is one and merging is allowed. */
    method FrontTarget(dir: bool, end: nat, frontMerges: bool, allow: bool) returns (r: Option<Rq>)
      requires Valid()
      ensures r.Some? ==> frontMerges && allow && r.value in reqs && reqs[r.value].dir == dir && reqs[r.value].pos == end
      ensures r.None? && frontMerges && allow ==> forall x :: x in reqs && reqs[x].dir == dir ==> reqs[x].pos != end
    {
      if !frontMerges {
        return None;
      }
      r := RbFind(reqs, if dir then sortW else sortR, end);
      if r.Some? && !allow {
        r := None;
      }
    }

    /** deadline_remove_request(): r, and nothing else, leaves its lists, and the batch does not go on from it. */
    method RemoveRequest(r: Rq)
      requires Valid() && r in reqs
      modifies this
      ensures Valid() && View() == Deadline.RemoveRequest(old(View()), r) && clock == old(clock)
      ensures reqs == old(reqs) - {r} && Without(old(View()), View(), r)
    {
      hide Inv, Without, Latter, Remove;
      RemoveKeeps(View(), cfg, clock, r);
      RemoveMeans(View(), cfg, clock, r);
      if reqs[r].dir {
        if nextW == Some(r) { nextW := Latter(sortW, r); }
        fifoW, sortW := Remove(fifoW, r), Remove(sortW, r);
      } else {
        if nextR == Some(r) { nextR := Latter(sortR, r); }
        fifoR, sortR := Remove(fifoR, r), Remove(sortR, r);
      }
      reqs := reqs - {r};
    }

    method MergedRequests(req: Rq, next: Rq)
      requires Valid() && req in reqs && next in reqs && req != next && reqs[req].dir == reqs[next].dir
      modifies this
      ensures Valid() && clock == old(clock) && View() == Deadline.MergedRequests(old(View()), req, next)
    {
      hide Inv, Deadline.RemoveRequest, MoveAfter, Remove;
      MergedKeeps(View(), cfg, clock, req, next);
      TakeOverKeeps(View(), cfg, clock, req, next);
      if reqs[next].fifoTime < reqs[req].fifoTime {
        if reqs[req].dir {
          fifoW := MoveAfter(Remove(fifoW, req), req, next);
        } else {
          fifoR := MoveAfter(Remove(fifoR, req), req, next);
        }
        reqs := reqs[req := reqs[req].(fifoTime := reqs[next].fifoTime)];
      }
      RemoveRequest(next);
    }

    /** deadline_move_request(): r leaves, and the batch goes on with the request behind it in sector order, if any. */
    method MoveRequest(r: Rq)
      requires Valid() && r in reqs && batching > 0
      modifies this
      ensures Valid() && View() == Deadline.MoveRequest(old(View()), r) && clock == old(clock)
      ensures reqs == old(reqs) - {r} && Without(old(View()), View(), r)
      ensures View().Next(!old(reqs)[r].dir) == None
      ensures r in old(View()).Sort(old(reqs)[r].dir)
      ensures View().Next(old(reqs)[r].dir) == Behind(old(View()).Sort(old(reqs)[r].dir), r)
    {
      hide Inv, Deadline.RemoveRequest, Latter, Without;
      MoveMeans(View(), cfg, clock, r);
      PointKeeps(View(), cfg, clock, r);
      var latter := Latter(if reqs[r].dir then sortW else sortR, r);
      nextR, nextW := None, None;
      if reqs[r].dir { nextW := latter; } else { nextR := latter; }
      RemoveRequest(r);
    }

    /** The start of a batch: reads unless writes have been starved long enough, from the FIFO head if it expired. */
    method StartBatch(now: int) returns (rq: Option<Rq>)
      requires Valid() && !InBatch(View(), cfg)
      modifies `starved, `batching
      ensures rq == Choice(old(View()), cfg, now) && (rq.None? <==> fifoR == [] && fifoW == [])
      ensures View() == if rq.None? then old(View()) else old(View()).(batching := 0, starved := StarvedAfter(old(View()), cfg))
    {
      hide DirOk;
      var haveReads := fifoR != [];
      var haveWrites := fifoW != [];
      var dir;
      if haveReads && !(haveWrites && starved >= cfg.writesStarved) {
        assert sortR != [] by { SortNotEmpty(View(), cfg, clock, false); }        // BUG_ON(RB_EMPTY_ROOT)
        if haveWrites { starved := starved + 1; }
        dir := false;
      } else if haveWrites {
        assert sortW != [] by { SortNotEmpty(View(), cfg, clock, true); }         // BUG_ON(RB_EMPTY_ROOT)
        starved := 0;
        dir := true;
      } else {
        return None;
      }
      var fifo := if dir then fifoW else fifoR;
      var next := if dir then nextW else nextR;
      rq := if now >= Time(reqs, fifo[0]) || next.None? then Some(fifo[0]) else next;
      batching := 0;
    }

    /** deadline_dispatch_requests(). */
    method DispatchRequests(now: int) returns (dispatched: Option<Rq>)
      requires Valid() && clock <= now
      modifies this
      ensures Valid() && clock == now && View() == Dispatch(old(View()), cfg, now)
      ensures dispatched == Choice(old(View()), cfg, now)
      ensures dispatched.None? <==> old(fifoR) == [] && old(fifoW) == []
    {
      hide DirOk, Inv, Deadline.MoveRequest;
      ghost var s := View();
      ChoiceKnown(s, cfg, clock, now);
      DispatchKeeps(s, cfg, clock, now);
      ClockKeeps(s, cfg, clock, now);
      clock := now;
      var rq := if nextW.Some? then nextW else nextR;
      if rq.None? || batching >= cfg.fifoBatch {
        rq := StartBatch(now);
        if rq.None? {
          return None;
        }
      } else {
        InBatchKnown(s, cfg, now);
      }
      batching := batching + 1;
      assert Valid() by { BatchKeeps(s, View(), cfg, now); }
      MoveRequest(rq.value);
      return rq;
    }
  }

  /** Only the counters of the batch differ. */
  lemma BatchKeeps(s: State, t: State, cfg: Settings, now: int)
    requires Inv(s, cfg, now) && t == s.(batching := t.batching, starved := t.starved) && t.batching > 0
    ensures Inv(t, cfg, now)
  {
    hide DirOk;
  }

  lemma InBatchKnown(s: State, cfg: Settings, clock: int)
    requires Inv(s, cfg, clock) && (s.nextR.Some? || s.nextW.Some?)
    ensures s.fifoR != [] || s.fifoW != []
  {
  }

  lemma SortNotEmpty(s: State, cfg: Settings, clock: int, d: bool)
    requires Inv(s, cfg, clock) && s.Fifo(d) != []
    ensures s.Sort(d) != []
  {
    HeadIsMember(s.Fifo(d));
  }
}
