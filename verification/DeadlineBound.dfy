/**
 The invariant of the deadline scheduler and its waiting bounds.
 */
module DeadlineBound {
  import opened Arith
  import opened Basics
  import opened Lists
  import opened Deadline

  type Requests = map<Rq, Request>

  ghost predicate SortedPos(reqs: Requests, l: seq<Rq>)
  {
    forall i, j :: 0 <= i < j < |l| ==> Pos(reqs, l[i]) <= Pos(reqs, l[j])
  }

  ghost predicate SortedTime(reqs: Requests, l: seq<Rq>)
  {
    forall i, j :: 0 <= i < j < |l| ==> Time(reqs, l[i]) <= Time(reqs, l[j])
  }

  /** l lists exactly the requests of direction d, once each. */
  ghost predicate Lists_(reqs: Requests, l: seq<Rq>, d: bool)
  {
    NoDup(l) && forall r :: r in l <==> r in reqs && reqs[r].dir == d
  }

  /** One direction: FIFO and sorted list hold the same requests, in expiry and in sector order. */
  ghost predicate DirOk(reqs: Requests, fifo: seq<Rq>, sort: seq<Rq>, next: Option<Rq>, d: bool, horizon: int)
  {
    && Lists_(reqs, fifo, d) && Lists_(reqs, sort, d)
    && SortedPos(reqs, sort) && SortedTime(reqs, fifo)
    && (next.Some? ==> next.value in sort)
    && forall r :: r in fifo ==> Time(reqs, r) <= horizon
  }

  ghost predicate Inv(s: State, cfg: Settings, clock: int)
  {
    && DirOk(s.reqs, s.fifoR, s.sortR, s.nextR, false, clock + cfg.readExpire)
    && DirOk(s.reqs, s.fifoW, s.sortW, s.nextW, true, clock + cfg.writeExpire)
    && (s.nextR.None? || s.nextW.None?)                 // batches are reads XOR writes
    && (s.nextR.Some? || s.nextW.Some? ==> s.batching > 0)
  }

  // ----- list lemmas

  lemma {:induction false} InsertMembers(reqs: Requests, l: seq<Rq>, r: Rq)
    requires NoDup(l) && r !in l && SortedPos(reqs, l)
    ensures NoDup(Insert(reqs, l, r)) && SortedPos(reqs, Insert(reqs, l, r))
    ensures forall x :: x in Insert(reqs, l, r) <==> x in l || x == r
  {
    if l == [] {
    } else if Pos(reqs, r) < Pos(reqs, l[0]) {
      PrependMembers(l, r);
    } else {
      var tail := l[1..];
      InsertMembers(reqs, tail, r);
      var t := Insert(reqs, tail, r);
      assert l == [l[0]] + tail;
      PrependMembers(t, l[0]);
      forall j | 0 <= j < |t|
        ensures Pos(reqs, l[0]) <= Pos(reqs, t[j])
      {
        assert t[j] in t;
        if t[j] != r {
          var k :| 0 <= k < |tail| && tail[k] == t[j];
          assert l[k + 1] == t[j];
        }
      }
    }
  }

  lemma {:induction false} LatterIn(l: seq<Rq>, r: Rq)
    requires NoDup(l)
    ensures Latter(l, r).Some? ==> Latter(l, r).value in l && Latter(l, r).value != r
  {
    if |l| >= 2 && l[0] != r {
      LatterIn(l[1..], r);
    }
  }

  lemma SortedTimeRemove(reqs: Requests, l: seq<Rq>, r: Rq)
    requires NoDup(l) && SortedTime(reqs, l)
    ensures SortedTime(reqs, Remove(l, r))
  {
    hide NoDup, Remove, Time;
    forall i, j | 0 <= i < j < |Remove(l, r)|
      ensures Time(reqs, Remove(l, r)[i]) <= Time(reqs, Remove(l, r)[j])
    {
      var i', j' := RemoveIndices(l, r, i, j);
    }
  }

  lemma SortedPosRemove(reqs: Requests, l: seq<Rq>, r: Rq)
    requires NoDup(l) && SortedPos(reqs, l)
    ensures SortedPos(reqs, Remove(l, r))
  {
    hide NoDup, Remove, Pos;
    forall i, j | 0 <= i < j < |Remove(l, r)|
      ensures Pos(reqs, Remove(l, r)[i]) <= Pos(reqs, Remove(l, r)[j])
    {
      var i', j' := RemoveIndices(l, r, i, j);
    }
  }

  /** A list whose requests are unchanged keeps its order. */
  lemma OrderFrame(reqs: Requests, reqs': Requests, l: seq<Rq>)
    requires forall r :: r in l ==> r in reqs && r in reqs' && reqs[r] == reqs'[r]
    ensures SortedTime(reqs, l) ==> SortedTime(reqs', l)
    ensures SortedPos(reqs, l) ==> SortedPos(reqs', l)
  {
    assert forall i :: 0 <= i < |l| ==> l[i] in l;
  }

  // ----- removing a request from one direction

  lemma RemoveDir(reqs: Requests, fifo: seq<Rq>, sort: seq<Rq>, next: Option<Rq>, d: bool, horizon: int, r: Rq)
    requires DirOk(reqs, fifo, sort, next, d, horizon) && r in fifo
    ensures DirOk(reqs - {r}, Remove(fifo, r), Remove(sort, r), if next == Some(r) then Latter(sort, r) else next, d, horizon)
  {
    RemoveMembers(fifo, r);
    RemoveMembers(sort, r);
    LatterIn(sort, r);
    SortedTimeRemove(reqs, fifo, r);
    SortedPosRemove(reqs, sort, r);
    OrderFrame(reqs, reqs - {r}, Remove(fifo, r));
    OrderFrame(reqs, reqs - {r}, Remove(sort, r));
    forall x | x in Remove(fifo, r)
      ensures Time(reqs - {r}, x) <= horizon
    {
      assert Time(reqs - {r}, x) == Time(reqs, x);
    }
  }

  /** The other direction does not notice. */
  lemma OtherDir(reqs: Requests, reqs': Requests, fifo: seq<Rq>, sort: seq<Rq>, next: Option<Rq>, d: bool, horizon: int, horizon': int)
    requires DirOk(reqs, fifo, sort, next, d, horizon) && horizon <= horizon'
    requires forall x :: x in reqs && reqs[x].dir == d ==> x in reqs' && reqs'[x] == reqs[x]
    requires forall x :: x in reqs' && reqs'[x].dir == d ==> x in reqs
    requires forall x :: x in reqs' && x in reqs ==> reqs'[x].dir == reqs[x].dir
    ensures DirOk(reqs', fifo, sort, next, d, horizon')
    ensures DirOk(reqs', fifo, sort, None, d, horizon')
  {
    OrderFrame(reqs, reqs', fifo);
    OrderFrame(reqs, reqs', sort);
    forall r | r in fifo
      ensures Time(reqs', r) <= horizon'
    {
      assert Time(reqs', r) == Time(reqs, r);
    }
  }

  lemma RemoveKeeps(s: State, cfg: Settings, clock: int, r: Rq)
    requires Inv(s, cfg, clock) && r in s.reqs
    ensures Inv(RemoveRequest(s, r), cfg, clock)
  {
    hide DirOk;
    var d := s.reqs[r].dir;
    InFifo(s, cfg, clock, r);
    RemoveDir(s.reqs, s.Fifo(d), s.Sort(d), s.Next(d), d, clock + cfg.Expire(d), r);
    OtherDir(s.reqs, s.reqs - {r}, s.Fifo(!d), s.Sort(!d), s.Next(!d), !d, clock + cfg.Expire(!d), clock + cfg.Expire(!d));
  }

  lemma InFifo(s: State, cfg: Settings, clock: int, r: Rq)
    requires Inv(s, cfg, clock) && r in s.reqs
    ensures r in s.Fifo(s.reqs[r].dir) && r in s.Sort(s.reqs[r].dir)
  {
  }

  lemma AddLists(reqs: Requests, l: seq<Rq>, l': seq<Rq>, d: bool, r: Rq, req: Request)
    requires Lists_(reqs, l, d) && r !in reqs && req.dir == d && NoDup(l') && forall x :: x in l' <==> x in l || x == r
    ensures Lists_(reqs[r := req], l', d)
  {
  }

  lemma AppendTime(reqs: Requests, l: seq<Rq>, r: Rq)
    requires SortedTime(reqs, l) && forall x :: x in l ==> Time(reqs, x) <= Time(reqs, r)
    ensures SortedTime(reqs, l + [r])
  {
    hide Time;
    var t := l + [r];
    forall i, j | 0 <= i < j < |t|
      ensures Time(reqs, t[i]) <= Time(reqs, t[j])
    {
      assert t[i] == l[i] && l[i] in l;
    }
  }

  lemma NotListed(reqs: Requests, l: seq<Rq>, d: bool, r: Rq)
    requires Lists_(reqs, l, d) && r !in reqs
    ensures NoDup(l) && r !in l && forall x :: x in l ==> x in reqs
  {
  }

  lemma AddDir(reqs: Requests, fifo: seq<Rq>, sort: seq<Rq>, next: Option<Rq>, d: bool, horizon: int, r: Rq, pos: nat, time: int)
    requires DirOk(reqs, fifo, sort, next, d, horizon) && r !in reqs && horizon <= time
    ensures var reqs' := reqs[r := Request(d, pos, time)];
            DirOk(reqs', fifo + [r], Insert(reqs', sort, r), next, d, time)
  {
    hide Lists_, SortedPos, SortedTime, NoDup, Insert;
    var req := Request(d, pos, time);
    var reqs' := reqs[r := req];
    NotListed(reqs, fifo, d, r);
    NotListed(reqs, sort, d, r);
    AppendMembers(fifo, r);
    AddLists(reqs, fifo, fifo + [r], d, r, req);
    OrderFrame(reqs, reqs', fifo);
    OrderFrame(reqs, reqs', sort);
    InsertMembers(reqs', sort, r);
    AddLists(reqs, sort, Insert(reqs', sort, r), d, r, req);
    AppendTime(reqs', fifo, r);
  }

  /** With a fixed expiry and a clock that does not run back, the FIFO stays in expiry order. */
  lemma AddKeeps(s: State, cfg: Settings, clock: int, now: int, r: Rq, dir: bool, pos: nat)
    requires Inv(s, cfg, clock) && r !in s.reqs && clock <= now
    ensures Inv(AddRequest(s, cfg, r, dir, pos, now), cfg, now)
  {
    hide DirOk;
    var e := now + cfg.Expire(dir);
    AddDir(s.reqs, s.Fifo(dir), s.Sort(dir), s.Next(dir), dir, clock + cfg.Expire(dir), r, pos, e);
    OtherDir(s.reqs, s.reqs[r := Request(dir, pos, e)], s.Fifo(!dir), s.Sort(!dir), s.Next(!dir), !dir, clock + cfg.Expire(!dir), now + cfg.Expire(!dir));
  }

  // ----- merges

  lemma {:induction false} MoveAfterIs(l: seq<Rq>, req: Rq, next: Rq, i: nat)
    requires NoDup(l) && i < |l| && l[i] == next
    ensures MoveAfter(l, req, next) == l[..i + 1] + [req] + l[i + 1..]
  {
    if i > 0 {
      assert l[0] != next;
      MoveAfterIs(l[1..], req, next, i - 1);
      assert l[1..][..i] == l[1..i + 1];
      assert l[..i + 1] == [l[0]] + l[1..i + 1];
      assert l[1..][i..] == l[i + 1..];
    }
  }

  lemma {:induction false} MoveAfterMembers(l: seq<Rq>, req: Rq, next: Rq)
    requires NoDup(l) && next in l && req !in l
    ensures NoDup(MoveAfter(l, req, next))
    ensures forall x :: x in MoveAfter(l, req, next) <==> x in l || x == req
  {
    var tail := l[1..];
    assert l == [l[0]] + tail;
    if l[0] == next {
      PrependMembers(tail, req);
      PrependMembers([req] + tail, next);
      assert [next, req] + tail == [next] + ([req] + tail);
    } else {
      MoveAfterMembers(tail, req, next);
      PrependMembers(MoveAfter(tail, req, next), l[0]);
    }
  }

  lemma MoveAfterSorted(reqs: Requests, l: seq<Rq>, req: Rq, next: Rq)
    requires NoDup(l) && next in l && req !in l && SortedTime(reqs, l) && Time(reqs, req) == Time(reqs, next)
    ensures SortedTime(reqs, MoveAfter(l, req, next))
  {
    hide Time, MoveAfter, NoDup;
    var k :| 0 <= k < |l| && l[k] == next;
    MoveAfterIs(l, req, next, k);
    var m := l[..k + 1] + [req] + l[k + 1..];
    forall i | 0 <= i < |m|
      ensures Time(reqs, m[i]) == Time(reqs, l[if i <= k then i else i - 1])
    {
    }
  }

  /** The FIFO after req took over the earlier expiry and the place of next. */
  lemma MergeDir(reqs: Requests, fifo: seq<Rq>, sort: seq<Rq>, nx: Option<Rq>, d: bool, horizon: int, req: Rq, next: Rq)
    requires DirOk(reqs, fifo, sort, nx, d, horizon) && req in fifo && next in fifo && req != next
    ensures var reqs' := reqs[req := reqs[req].(fifoTime := reqs[next].fifoTime)];
            DirOk(reqs', MoveAfter(Remove(fifo, req), req, next), sort, nx, d, horizon)
  {
    hide SortedPos, SortedTime, NoDup, Remove, MoveAfter, Lists_;
    Listed(reqs, fifo, d);
    Listed(reqs, sort, d);
    var reqs' := reqs[req := reqs[req].(fifoTime := reqs[next].fifoTime)];
    var l := Remove(fifo, req);
    RemoveMembers(fifo, req);
    SortedTimeRemove(reqs, fifo, req);
    OrderFrame(reqs, reqs', l);
    MoveAfterMembers(l, req, next);
    MoveAfterSorted(reqs', l, req, next);
    SamePos(reqs, reqs', sort);
    SameLists(reqs, reqs', fifo, MoveAfter(l, req, next), d);
    SameLists(reqs, reqs', sort, sort, d);
  }

  lemma Listed(reqs: Requests, l: seq<Rq>, d: bool)
    requires Lists_(reqs, l, d)
    ensures NoDup(l) && forall x :: x in l ==> x in reqs
  {
  }

  lemma SamePos(reqs: Requests, reqs': Requests, l: seq<Rq>)
    requires SortedPos(reqs, l) && reqs.Keys == reqs'.Keys && forall x :: x in reqs ==> reqs'[x].pos == reqs[x].pos
    ensures SortedPos(reqs', l)
  {
    forall i, j | 0 <= i < j < |l|
      ensures Pos(reqs', l[i]) <= Pos(reqs', l[j])
    {
      assert Pos(reqs', l[i]) == Pos(reqs, l[i]) && Pos(reqs', l[j]) == Pos(reqs, l[j]);
    }
  }

  lemma SameLists(reqs: Requests, reqs': Requests, l: seq<Rq>, l': seq<Rq>, d: bool)
    requires Lists_(reqs, l, d) && NoDup(l') && (forall x :: x in l <==> x in l')
    requires reqs.Keys == reqs'.Keys && forall x :: x in reqs ==> reqs'[x].dir == reqs[x].dir
    ensures Lists_(reqs', l', d)
  {
  }

  /** The other direction does not see a FIFO time change. */
  lemma TimeOther(reqs: Requests, fifo: seq<Rq>, sort: seq<Rq>, nx: Option<Rq>, d: bool, horizon: int, req: Rq, time: int)
    requires DirOk(reqs, fifo, sort, nx, d, horizon) && req in reqs && reqs[req].dir != d
    ensures DirOk(reqs[req := reqs[req].(fifoTime := time)], fifo, sort, nx, d, horizon)
  {
    hide DirOk;
    OtherDir(reqs, reqs[req := reqs[req].(fifoTime := time)], fifo, sort, nx, d, horizon, horizon);
  }

  lemma InvDirs(s: State, cfg: Settings, clock: int)
    requires Inv(s, cfg, clock)
    ensures forall d :: DirOk(s.reqs, s.Fifo(d), s.Sort(d), s.Next(d), d, clock + cfg.Expire(d))
  {
    hide DirOk;
  }

  lemma InvFifo(s: State, cfg: Settings, clock: int, d: bool, reqs: Requests, l: seq<Rq>)
    requires Inv(s, cfg, clock)
    requires DirOk(reqs, l, s.Sort(d), s.Next(d), d, clock + cfg.Expire(d))
    requires DirOk(reqs, s.Fifo(!d), s.Sort(!d), s.Next(!d), !d, clock + cfg.Expire(!d))
    ensures Inv(s.SetFifo(d, l).(reqs := reqs), cfg, clock)
  {
    hide DirOk;
  }

  /** The FIFO after req took over from next, which is still queued. */
  lemma TakeOverKeeps(s: State, cfg: Settings, clock: int, req: Rq, next: Rq)
    requires Inv(s, cfg, clock) && req in s.reqs && next in s.reqs && req != next && s.reqs[req].dir == s.reqs[next].dir
    ensures var d := s.reqs[req].dir;
            Inv(s.SetFifo(d, MoveAfter(Remove(s.Fifo(d), req), req, next))
                 .(reqs := s.reqs[req := s.reqs[req].(fifoTime := s.reqs[next].fifoTime)]), cfg, clock)
  {
    hide Inv, DirOk, Remove, MoveAfter;
    InFifo(s, cfg, clock, req);
    InFifo(s, cfg, clock, next);
    InvDirs(s, cfg, clock);
    var d, time := s.reqs[req].dir, s.reqs[next].fifoTime;
    var reqs, l := s.reqs[req := s.reqs[req].(fifoTime := time)], MoveAfter(Remove(s.Fifo(d), req), req, next);
    MergeDir(s.reqs, s.Fifo(d), s.Sort(d), s.Next(d), d, clock + cfg.Expire(d), req, next);
    TimeOther(s.reqs, s.Fifo(!d), s.Sort(!d), s.Next(!d), !d, clock + cfg.Expire(!d), req, time);
    InvFifo(s, cfg, clock, d, reqs, l);
  }

  lemma MergedKeeps(s: State, cfg: Settings, clock: int, req: Rq, next: Rq)
    requires Inv(s, cfg, clock) && req in s.reqs && next in s.reqs && req != next && s.reqs[req].dir == s.reqs[next].dir
    ensures Inv(MergedRequests(s, req, next), cfg, clock)
  {
    hide Inv, Remove, MoveAfter, RemoveRequest;
    var d := s.reqs[req].dir;
    if s.reqs[next].fifoTime < s.reqs[req].fifoTime {
      TakeOverKeeps(s, cfg, clock, req, next);
      var reqs := s.reqs[req := s.reqs[req].(fifoTime := s.reqs[next].fifoTime)];
      RemoveKeeps(s.SetFifo(d, MoveAfter(Remove(s.Fifo(d), req), req, next)).(reqs := reqs), cfg, clock, next);
    } else {
      RemoveKeeps(s, cfg, clock, next);
    }
  }

  lemma FrontDir(reqs: Requests, fifo: seq<Rq>, sort: seq<Rq>, nx: Option<Rq>, d: bool, horizon: int, r: Rq, pos: nat)
    requires DirOk(reqs, fifo, sort, nx, d, horizon) && r in sort
    ensures var reqs' := reqs[r := reqs[r].(pos := pos)];
            DirOk(reqs', fifo, Insert(reqs', Remove(sort, r), r), nx, d, horizon)
  {
    hide Lists_, SortedPos, SortedTime, NoDup, Remove, Insert;
    Listed(reqs, sort, d);
    Listed(reqs, fifo, d);
    var reqs' := reqs[r := reqs[r].(pos := pos)];
    RemoveMembers(sort, r);
    SortedPosRemove(reqs, sort, r);
    OrderFrame(reqs, reqs', Remove(sort, r));
    InsertMembers(reqs', Remove(sort, r), r);
    SameTime(reqs, reqs', fifo);
    SameLists(reqs, reqs', fifo, fifo, d);
    SameLists(reqs, reqs', sort, Insert(reqs', Remove(sort, r), r), d);
  }

  lemma SameTime(reqs: Requests, reqs': Requests, l: seq<Rq>)
    requires SortedTime(reqs, l) && reqs.Keys == reqs'.Keys && forall x :: x in reqs ==> reqs'[x].fifoTime == reqs[x].fifoTime
    ensures SortedTime(reqs', l) && forall x :: Time(reqs', x) == Time(reqs, x)
  {
    forall i, j | 0 <= i < j < |l|
      ensures Time(reqs', l[i]) <= Time(reqs', l[j])
    {
      assert Time(reqs', l[i]) == Time(reqs, l[i]) && Time(reqs', l[j]) == Time(reqs, l[j]);
    }
  }

  lemma FrontMergedKeeps(s: State, cfg: Settings, clock: int, r: Rq, pos: nat)
    requires Inv(s, cfg, clock) && r in s.reqs
    ensures Inv(FrontMerged(s, r, pos), cfg, clock)
  {
    hide DirOk;
    var d := s.reqs[r].dir;
    InFifo(s, cfg, clock, r);
    FrontDir(s.reqs, s.Fifo(d), s.Sort(d), s.Next(d), d, clock + cfg.Expire(d), r, pos);
    OtherDir(s.reqs, s.reqs[r := s.reqs[r].(pos := pos)], s.Fifo(!d), s.Sort(!d), s.Next(!d), !d, clock + cfg.Expire(!d), clock + cfg.Expire(!d));
  }

  // ----- dispatch

  lemma ChoiceKnown(s: State, cfg: Settings, clock: int, now: int)
    requires Inv(s, cfg, clock)
    ensures var c := Choice(s, cfg, now);
            && (c.None? <==> s.fifoR == [] && s.fifoW == [])
            && (c.Some? ==> c.value in s.reqs)
            && (c.Some? && !InBatch(s, cfg) ==> s.reqs[c.value].dir == Direction(s, cfg))
  {
    HeadIsMember(s.fifoR);
    HeadIsMember(s.fifoW);
  }

  lemma PointDir(reqs: Requests, fifo: seq<Rq>, sort: seq<Rq>, nx: Option<Rq>, d: bool, horizon: int, r: Rq)
    requires DirOk(reqs, fifo, sort, nx, d, horizon)
    ensures DirOk(reqs, fifo, sort, Latter(sort, r), d, horizon)
    ensures DirOk(reqs, fifo, sort, None, d, horizon)
  {
    LatterIn(sort, r);
  }

  /** The batch pointer moved behind r, which is still queued. */
  lemma PointKeeps(s: State, cfg: Settings, clock: int, r: Rq)
    requires Inv(s, cfg, clock) && r in s.reqs && s.batching > 0
    ensures var d := s.reqs[r].dir; Inv(s.(nextR := None, nextW := None).SetNext(d, Latter(s.Sort(d), r)), cfg, clock)
  {
    hide DirOk;
    var d := s.reqs[r].dir;
    PointDir(s.reqs, s.Fifo(d), s.Sort(d), s.Next(d), d, clock + cfg.Expire(d), r);
    PointDir(s.reqs, s.Fifo(!d), s.Sort(!d), s.Next(!d), !d, clock + cfg.Expire(!d), r);
  }

  lemma MoveKeeps(s: State, cfg: Settings, clock: int, r: Rq)
    requires Inv(s, cfg, clock) && r in s.reqs && s.batching > 0
    ensures Inv(MoveRequest(s, r), cfg, clock)
  {
    hide Inv;
    var d := s.reqs[r].dir;
    PointKeeps(s, cfg, clock, r);
    RemoveKeeps(s.(nextR := None, nextW := None).SetNext(d, Latter(s.Sort(d), r)), cfg, clock, r);
  }

  lemma ClockKeeps(s: State, cfg: Settings, clock: int, now: int)
    requires Inv(s, cfg, clock) && clock <= now
    ensures Inv(s, cfg, now)
  {
    hide SortedPos, SortedTime, Lists_;
  }

  lemma DispatchKeeps(s: State, cfg: Settings, clock: int, now: int)
    requires Inv(s, cfg, clock) && clock <= now
    ensures Inv(Dispatch(s, cfg, now), cfg, now)
  {
    hide DirOk, MoveRequest;
    ClockKeeps(s, cfg, clock, now);
    ChoiceKnown(s, cfg, clock, now);
    var c := Choice(s, cfg, now);
    if c.Some? {
      if InBatch(s, cfg) {
        MoveKeeps(s.(batching := s.batching + 1), cfg, now, c.value);
      } else {
        MoveKeeps(s.(batching := 1, starved := StarvedAfter(s, cfg)), cfg, now, c.value);
      }
    }
  }

  // ----- how far back a waiting request stands

  function IndexOf(l: seq<Rq>, w: Rq): (k: nat)
    requires w in l
    ensures k < |l| && l[k] == w
  {
    if l[0] == w then 0 else 1 + IndexOf(l[1..], w)
  }

  lemma {:induction false} IndexAfterRemove(l: seq<Rq>, x: Rq, w: Rq)
    requires NoDup(l) && w in l && x != w
    ensures w in Remove(l, x)
    ensures IndexOf(Remove(l, x), w) <= IndexOf(l, w)
    ensures x in l && IndexOf(l, x) < IndexOf(l, w) ==> IndexOf(Remove(l, x), w) == IndexOf(l, w) - 1
    ensures x in l && IndexOf(l, w) < IndexOf(l, x) ==> IndexOf(Remove(l, x), w) == IndexOf(l, w)
  {
    RemoveMembers(l, x);
    if l[0] == x {
      assert w in l[1..];
    } else if l[0] != w {
      IndexAfterRemove(l[1..], x, w);
      assert ([l[0]] + Remove(l[1..], x))[1..] == Remove(l[1..], x);
    }
  }

  lemma {:induction false} IndexAfterAppend(l: seq<Rq>, x: Rq, w: Rq)
    requires w in l
    ensures w in l + [x] && IndexOf(l + [x], w) == IndexOf(l, w)
  {
    if l[0] != w {
      IndexAfterAppend(l[1..], x, w);
      assert (l + [x])[1..] == l[1..] + [x];
    }
  }

  lemma {:induction false} IndexAfterMove(l: seq<Rq>, req: Rq, next: Rq, w: Rq)
    requires NoDup(l) && next in l && req !in l && (w in l || w == req)
    ensures w in MoveAfter(l, req, next)
    ensures w == req ==> IndexOf(MoveAfter(l, req, next), w) == IndexOf(l, next) + 1
    ensures w != req && IndexOf(l, w) <= IndexOf(l, next) ==> IndexOf(MoveAfter(l, req, next), w) == IndexOf(l, w)
    ensures w != req && IndexOf(l, w) > IndexOf(l, next) ==> IndexOf(MoveAfter(l, req, next), w) == IndexOf(l, w) + 1
  {
    var m := MoveAfter(l, req, next);
    if l[0] == next {
      assert m == [next, req] + l[1..];
      assert m[1..] == [req] + l[1..] && m[1..][1..] == l[1..];
      if w != next && w != req {
        assert w in l[1..];
      }
    } else {
      assert m == [l[0]] + MoveAfter(l[1..], req, next) && m[1..] == MoveAfter(l[1..], req, next);
      if w != l[0] {
        IndexAfterMove(l[1..], req, next, w);
      } else {
        assert m[0] == w;
      }
    }
  }

  /** The earlier expiry stands further ahead. */
  lemma EarlierAhead(reqs: Requests, l: seq<Rq>, a: Rq, b: Rq)
    requires SortedTime(reqs, l) && a in l && b in l && Time(reqs, a) < Time(reqs, b)
    ensures IndexOf(l, a) < IndexOf(l, b)
  {
    if IndexOf(l, b) < IndexOf(l, a) {
      assert Time(reqs, l[IndexOf(l, b)]) <= Time(reqs, l[IndexOf(l, a)]);
    }
  }

  /** Merging next into req lets no other request fall back. */
  lemma MergeIndex(reqs: Requests, l: seq<Rq>, req: Rq, next: Rq, w: Rq)
    requires NoDup(l) && SortedTime(reqs, l) && req in l && next in l && req != next && w in l && w != next
    requires Time(reqs, next) < Time(reqs, req)
    ensures var m := Remove(MoveAfter(Remove(l, req), req, next), next);
            w in m && IndexOf(m, w) <= IndexOf(l, w)
  {
    var l1 := Remove(l, req);
    RemoveMembers(l, req);
    EarlierAhead(reqs, l, next, req);
    IndexAfterRemove(l, req, next);
    if w != req {
      IndexAfterRemove(l, req, w);
    }
    MoveAfterMembers(l1, req, next);
    IndexAfterMove(l1, req, next, w);
    IndexAfterMove(l1, req, next, next);
    IndexAfterRemove(MoveAfter(l1, req, next), next, w);
  }

  // ----- runs

  datatype Event =
    | Add(rq: Rq, dir: bool, pos: nat)
    | Merge(req: Rq, next: Rq)
    | Front(rq: Rq, pos: nat)
    | Serve

  predicate Enabled(s: State, e: Event)
  {
    match e
    case Add(r, _, _) => r !in s.reqs
    case Merge(req, next) => req in s.reqs && next in s.reqs && req != next && s.reqs[req].dir == s.reqs[next].dir
    case Front(r, _) => r in s.reqs
    case Serve => true
  }

  function Step(s: State, cfg: Settings, e: Event, now: int): State
    requires Enabled(s, e)
  {
    match e
    case Add(r, dir, pos) => AddRequest(s, cfg, r, dir, pos, now)
    case Merge(req, next) => MergedRequests(s, req, next)
    case Front(r, pos) => FrontMerged(s, r, pos)
    case Serve => Dispatch(s, cfg, now)
  }

  lemma StepKeeps(s: State, cfg: Settings, clock: int, e: Event, now: int)
    requires Inv(s, cfg, clock) && Enabled(s, e) && clock <= now
    ensures Inv(Step(s, cfg, e, now), cfg, now)
  {
    hide Inv, AddRequest, MergedRequests, FrontMerged, Dispatch;
    ClockKeeps(s, cfg, clock, now);
    match e
    case Add(r, dir, pos) => AddKeeps(s, cfg, clock, now, r, dir, pos);
    case Merge(req, next) => MergedKeeps(s, cfg, now, req, next);
    case Front(r, pos) => FrontMergedKeeps(s, cfg, now, r, pos);
    case Serve => DispatchKeeps(s, cfg, clock, now);
  }

  /** The longest batch. */
  function BatchSize(cfg: Settings): nat { if cfg.fifoBatch == 0 then 1 else cfg.fifoBatch }

  /** Batches from one of direction d to the next while d has requests waiting. */
  function Rounds(cfg: Settings, d: bool): nat { if d then cfg.writesStarved + 1 else 2 }

  function BatchLeft(s: State, cfg: Settings): nat { if InBatch(s, cfg) then cfg.fifoBatch - s.batching else 0 }

  /** Batches of the other direction that may still come first. */
  function TurnsLeft(s: State, cfg: Settings, d: bool): nat
  {
    if d then (if s.starved >= cfg.writesStarved then 0 else cfg.writesStarved - s.starved)
    else if s.starved >= cfg.writesStarved then 1 else 0
  }

  /** Dispatches after which the waiting request w is gone. */
  function Rank(s: State, cfg: Settings, d: bool, w: Rq): nat
    requires w in s.Fifo(d)
  {
    IndexOf(s.Fifo(d), w) * (Rounds(cfg, d) * BatchSize(cfg)) + BatchLeft(s, cfg) + TurnsLeft(s, cfg, d) * BatchSize(cfg) + 1
  }

  /** What MoveRequest() leaves behind. */
  lemma MoveFrame(s: State, cfg: Settings, clock: int, r: Rq, d: bool)
    requires Inv(s, cfg, clock) && r in s.reqs
    ensures var t := MoveRequest(s, r);
            && t.Fifo(d) == (if s.reqs[r].dir == d then Remove(s.Fifo(d), r) else s.Fifo(d))
            && t.batching == s.batching && t.starved == s.starved
            && t.reqs == s.reqs - {r}
  {
    hide DirOk;
  }

  lemma RankBelow(cfg: Settings, d: bool, k: nat, k': nat)
    requires k' <= k
    ensures k' * (Rounds(cfg, d) * BatchSize(cfg)) <= k * (Rounds(cfg, d) * BatchSize(cfg))
    ensures k' < k ==> k' * (Rounds(cfg, d) * BatchSize(cfg)) + Rounds(cfg, d) * BatchSize(cfg) <= k * (Rounds(cfg, d) * BatchSize(cfg))
  {
    var u := Rounds(cfg, d) * BatchSize(cfg);
    MulMono(k', k, u);
    if k' < k {
      MulMono(k' + 1, k, u);
      assert (k' + 1) * u == k' * u + u;
    }
  }

  lemma ServeInBatch(s: State, cfg: Settings, clock: int, now: int, d: bool, w: Rq)
    requires Inv(s, cfg, clock) && w in s.Fifo(d) && InBatch(s, cfg)
    requires w in Dispatch(s, cfg, now).Fifo(d)
    ensures Rank(Dispatch(s, cfg, now), cfg, d, w) < Rank(s, cfg, d, w)
  {
    hide DirOk, MoveRequest, Choice, IndexOf, Rounds, BatchSize, Remove, NoDup;
    ChoiceKnown(s, cfg, clock, now);
    var r := Choice(s, cfg, now).value;
    var s1 := s.(batching := s.batching + 1);
    MoveFrame(s1, cfg, clock, r, d);
    FifoNoDup(s, cfg, clock, d);
    var t := Dispatch(s, cfg, now);
    if s.reqs[r].dir == d {
      RemoveMembers(s.Fifo(d), r);
      IndexAfterRemove(s.Fifo(d), r, w);
    }
    RankBelow(cfg, d, IndexOf(s.Fifo(d), w), IndexOf(t.Fifo(d), w));
  }

  lemma FifoNoDup(s: State, cfg: Settings, clock: int, d: bool)
    requires Inv(s, cfg, clock)
    ensures NoDup(s.Fifo(d)) && SortedTime(s.reqs, s.Fifo(d))
    ensures forall r :: r in s.Fifo(d) ==> r in s.reqs && s.reqs[r].dir == d
  {
  }

  /** A new batch in the other direction uses up one of the turns it has left. */
  lemma ServeOther(s: State, cfg: Settings, clock: int, now: int, d: bool, w: Rq)
    requires Inv(s, cfg, clock) && w in s.Fifo(d) && !InBatch(s, cfg) && Direction(s, cfg) != d
    requires d || cfg.writesStarved > 0
    ensures w in Dispatch(s, cfg, now).Fifo(d)
    ensures Rank(Dispatch(s, cfg, now), cfg, d, w) < Rank(s, cfg, d, w)
  {
    hide DirOk, MoveRequest, Choice;
    ChoiceKnown(s, cfg, clock, now);
    var r := Choice(s, cfg, now).value;
    var s1 := s.(batching := 1, starved := StarvedAfter(s, cfg));
    MoveFrame(s1, cfg, clock, r, d);
    var t := Dispatch(s, cfg, now);
    var f := BatchSize(cfg);
    assert t.Fifo(d) == s.Fifo(d);
    assert BatchLeft(t, cfg) <= f - 1;
    assert TurnsLeft(t, cfg, d) == TurnsLeft(s, cfg, d) - 1;
    assert (TurnsLeft(s, cfg, d) - 1) * f == TurnsLeft(s, cfg, d) * f - f;
  }

  /** A new batch in the direction of an expired request starts at the head of the FIFO. */
  lemma ServeOwn(s: State, cfg: Settings, clock: int, now: int, d: bool, w: Rq)
    requires Inv(s, cfg, clock) && w in s.Fifo(d) && !InBatch(s, cfg) && Direction(s, cfg) == d
    requires Time(s.reqs, w) <= now
    requires w in Dispatch(s, cfg, now).Fifo(d)
    ensures Rank(Dispatch(s, cfg, now), cfg, d, w) < Rank(s, cfg, d, w)
  {
    hide Inv, MoveRequest, Choice, IndexOf, Rounds, Remove, NoDup, SortedTime, TurnsLeft, Direction, InBatch, BatchLeft, BatchSize, Dispatch;
    FifoNoDup(s, cfg, clock, d);
    var l := s.Fifo(d);
    var t := Dispatch(s, cfg, now);
    DispatchOwn(s, cfg, clock, now, d, w);
    RemoveMembers(l, l[0]);
    IndexAfterRemove(l, l[0], w);
    OwnTurns(s, cfg, d, t);
    NewBatchLeft(t, cfg);
    NextRound(IndexOf(l, w), IndexOf(t.Fifo(d), w), Rounds(cfg, d) * BatchSize(cfg), BatchLeft(t, cfg),
              TurnsLeft(t, cfg, d) * BatchSize(cfg), BatchSize(cfg));
  }

  /** One place further forward is worth a whole round. */
  lemma NextRound(k: nat, k': nat, u: nat, left: nat, turns: int, f: nat)
    requires k' < k && left + 1 <= f && turns + f <= u
    ensures k' * u + left + turns < k * u
  {
    MulMono(k' + 1, k, u);
    assert (k' + 1) * u == k' * u + u;
  }

  lemma DispatchOwn(s: State, cfg: Settings, clock: int, now: int, d: bool, w: Rq)
    requires Inv(s, cfg, clock) && w in s.Fifo(d) && !InBatch(s, cfg) && Direction(s, cfg) == d
    requires Time(s.reqs, w) <= now
    ensures var t, l := Dispatch(s, cfg, now), s.Fifo(d);
            && t.Fifo(d) == Remove(l, l[0]) && t.batching == 1 && t.starved == StarvedAfter(s, cfg)
            && (l[0] != w ==> IndexOf(l, l[0]) < IndexOf(l, w))
  {
    hide DirOk, MoveRequest, Choice, IndexOf, Remove, NoDup, SortedTime;
    ChoiceKnown(s, cfg, clock, now);
    FifoNoDup(s, cfg, clock, d);
    ChoiceIsHead(s, cfg, now, d, w);
    MoveFrame(s.(batching := 1, starved := StarvedAfter(s, cfg)), cfg, clock, s.Fifo(d)[0], d);
  }

  lemma NewBatchLeft(t: State, cfg: Settings)
    requires t.batching == 1
    ensures BatchLeft(t, cfg) <= BatchSize(cfg) - 1
  {
  }

  lemma ChoiceIsHead(s: State, cfg: Settings, now: int, d: bool, w: Rq)
    requires NoDup(s.Fifo(d)) && SortedTime(s.reqs, s.Fifo(d)) && w in s.Fifo(d)
    requires !InBatch(s, cfg) && Direction(s, cfg) == d && Time(s.reqs, w) <= now
    ensures Choice(s, cfg, now) == Some(s.Fifo(d)[0])
    ensures s.Fifo(d)[0] != w ==> IndexOf(s.Fifo(d), s.Fifo(d)[0]) < IndexOf(s.Fifo(d), w)
  {
    var l := s.Fifo(d);
    assert Time(s.reqs, l[0]) <= Time(s.reqs, l[IndexOf(l, w)]);
  }

  lemma OwnTurns(s: State, cfg: Settings, d: bool, t: State)
    requires !InBatch(s, cfg) && Direction(s, cfg) == d && t.starved == StarvedAfter(s, cfg)
    ensures TurnsLeft(t, cfg, d) * BatchSize(cfg) + BatchSize(cfg) <= Rounds(cfg, d) * BatchSize(cfg)
  {
    var f := BatchSize(cfg);
    MulMono(TurnsLeft(t, cfg, d) + 1, Rounds(cfg, d), f);
    assert (TurnsLeft(t, cfg, d) + 1) * f == TurnsLeft(t, cfg, d) * f + f;
  }

  lemma RankMono(s: State, t: State, cfg: Settings, d: bool, w: Rq)
    requires w in s.Fifo(d) && w in t.Fifo(d) && IndexOf(t.Fifo(d), w) <= IndexOf(s.Fifo(d), w)
    requires BatchLeft(t, cfg) <= BatchLeft(s, cfg) && t.starved == s.starved
    ensures Rank(t, cfg, d, w) <= Rank(s, cfg, d, w)
  {
    hide IndexOf, BatchLeft;
    RankBelow(cfg, d, IndexOf(s.Fifo(d), w), IndexOf(t.Fifo(d), w));
  }

  lemma QuietAdd(s: State, cfg: Settings, r: Rq, dir: bool, pos: nat, now: int, d: bool, w: Rq)
    requires r !in s.reqs && w in s.reqs && w in s.Fifo(d)
    ensures var t := AddRequest(s, cfg, r, dir, pos, now);
            w in t.Fifo(d) && Rank(t, cfg, d, w) <= Rank(s, cfg, d, w) && Time(t.reqs, w) <= Time(s.reqs, w)
  {
    hide IndexOf, Insert, Rank;
    IndexAfterAppend(s.Fifo(d), r, w);
    RankMono(s, AddRequest(s, cfg, r, dir, pos, now), cfg, d, w);
  }

  lemma RemoveFifo(s: State, r: Rq, d: bool)
    requires r in s.reqs
    ensures var t := RemoveRequest(s, r);
            && t.Fifo(d) == (if s.reqs[r].dir == d then Remove(s.Fifo(d), r) else s.Fifo(d))
            && t.starved == s.starved && t.batching == s.batching
            && t.reqs == s.reqs - {r}
            && (t.nextR.Some? ==> s.nextR.Some?) && (t.nextW.Some? ==> s.nextW.Some?)
  {
  }

  lemma QuietMerge(s: State, cfg: Settings, clock: int, req: Rq, next: Rq, d: bool, w: Rq)
    requires Inv(s, cfg, clock) && Enabled(s, Merge(req, next)) && w in s.Fifo(d)
    requires w in MergedRequests(s, req, next).Fifo(d)
    ensures var t := MergedRequests(s, req, next);
            Rank(t, cfg, d, w) <= Rank(s, cfg, d, w) && Time(t.reqs, w) <= Time(s.reqs, w)
  {
    hide DirOk, IndexOf, Rank, MoveAfter, SortedTime, NoDup, Remove, RemoveRequest;
    FifoNoDup(s, cfg, clock, d);
    InFifo(s, cfg, clock, req);
    InFifo(s, cfg, clock, next);
    var dd := s.reqs[req].dir;
    var t := MergedRequests(s, req, next);
    MergedGone(s, cfg, clock, req, next);
    var reqs := s.reqs[req := s.reqs[req].(fifoTime := s.reqs[next].fifoTime)];
    if s.reqs[next].fifoTime < s.reqs[req].fifoTime {
      RemoveFifo(s.SetFifo(dd, MoveAfter(Remove(s.Fifo(dd), req), req, next)).(reqs := reqs), next, d);
      if dd == d {
        MergeIndex(s.reqs, s.Fifo(d), req, next, w);
      }
    } else {
      RemoveFifo(s, next, d);
      if dd == d {
        IndexAfterRemove(s.Fifo(d), next, w);
      }
    }
    RankMono(s, t, cfg, d, w);
  }

  /** Arrivals and merges do not put off a waiting request. */
  lemma QuietStep(s: State, cfg: Settings, clock: int, e: Event, now: int, d: bool, w: Rq)
    requires Inv(s, cfg, clock) && Enabled(s, e) && !e.Serve? && w in s.Fifo(d)
    requires w in Step(s, cfg, e, now).Fifo(d)
    ensures Rank(Step(s, cfg, e, now), cfg, d, w) <= Rank(s, cfg, d, w)
    ensures Time(Step(s, cfg, e, now).reqs, w) <= Time(s.reqs, w)
  {
    hide DirOk, IndexOf, Insert, SortedTime, NoDup, Remove, Rank, AddRequest, MergedRequests;
    FifoNoDup(s, cfg, clock, d);
    match e {
      case Add(r, dir, pos) => QuietAdd(s, cfg, r, dir, pos, now, d, w);
      case Merge(req, next) => QuietMerge(s, cfg, clock, req, next, d, w);
      case Front(r, pos) => RankMono(s, FrontMerged(s, r, pos), cfg, d, w);
    }
  }

  lemma MergedGone(s: State, cfg: Settings, clock: int, req: Rq, next: Rq)
    requires Inv(s, cfg, clock) && req in s.reqs && next in s.reqs && req != next && s.reqs[req].dir == s.reqs[next].dir
    ensures next !in MergedRequests(s, req, next).Fifo(s.reqs[req].dir)
  {
    hide Inv, MergedRequests;
    MergedKeeps(s, cfg, clock, req, next);
    FifoNoDup(MergedRequests(s, req, next), cfg, clock, s.reqs[req].dir);
    MergedUnknown(s, req, next);
  }

  lemma MergedUnknown(s: State, req: Rq, next: Rq)
    requires req in s.reqs && next in s.reqs && req != next
    ensures next !in MergedRequests(s, req, next).reqs
  {
  }

  lemma ServeStep(s: State, cfg: Settings, clock: int, now: int, d: bool, w: Rq)
    requires Inv(s, cfg, clock) && clock <= now && w in s.Fifo(d) && Time(s.reqs, w) <= now && (d || cfg.writesStarved > 0)
    requires w in Dispatch(s, cfg, now).Fifo(d)
    ensures Rank(Dispatch(s, cfg, now), cfg, d, w) < Rank(s, cfg, d, w)
    ensures Time(Dispatch(s, cfg, now).reqs, w) <= Time(s.reqs, w)
  {
    hide DirOk, Rank, MoveRequest, Choice;
    if InBatch(s, cfg) {
      ServeInBatch(s, cfg, clock, now, d, w);
    } else if Direction(s, cfg) != d {
      ServeOther(s, cfg, clock, now, d, w);
    } else {
      ServeOwn(s, cfg, clock, now, d, w);
    }
    ChoiceKnown(s, cfg, clock, now);
    DispatchKeeps(s, cfg, clock, now);
    FifoNoDup(Dispatch(s, cfg, now), cfg, now, d);
    var r := Choice(s, cfg, now).value;
    if InBatch(s, cfg) {
      MoveFrame(s.(batching := s.batching + 1), cfg, clock, r, d);
    } else {
      MoveFrame(s.(batching := 1, starved := StarvedAfter(s, cfg)), cfg, clock, r, d);
    }
  }

  /** The run is possible, its clock does not run back, and w stays in the FIFO of d throughout. */
  predicate Waits(s: State, cfg: Settings, clock: int, run: seq<(Event, int)>, d: bool, w: Rq)
    decreases |run|
  {
    && w in s.Fifo(d)
    && (run == [] ||
        (&& Enabled(s, run[0].0) && clock <= run[0].1
         && Waits(Step(s, cfg, run[0].0, run[0].1), cfg, run[0].1, run[1..], d, w)))
  }

  function Serves(run: seq<(Event, int)>): nat
  {
    if run == [] then 0 else (if run[0].0.Serve? then 1 else 0) + Serves(run[1..])
  }

  lemma {:induction false} WaitingCosts(s: State, cfg: Settings, clock: int, run: seq<(Event, int)>, d: bool, w: Rq)
    requires Inv(s, cfg, clock) && Waits(s, cfg, clock, run, d, w) && (d || cfg.writesStarved > 0)
    requires Time(s.reqs, w) <= clock
    ensures Serves(run) < Rank(s, cfg, d, w)
    decreases |run|
  {
    hide Inv, Rank, Step, Dispatch;
    if run == [] {
      assert Rank(s, cfg, d, w) > 0 by { RankPositive(s, cfg, d, w); }
    } else {
      var e, now := run[0].0, run[0].1;
      StepKeeps(s, cfg, clock, e, now);
      var t := Step(s, cfg, e, now);
      if e.Serve? {
        assert t == Dispatch(s, cfg, now) by { StepServe(s, cfg, now); }
        ServeStep(s, cfg, clock, now, d, w);
      } else {
        QuietStep(s, cfg, clock, e, now, d, w);
      }
      WaitingCosts(t, cfg, now, run[1..], d, w);
    }
  }

  lemma StepServe(s: State, cfg: Settings, now: int)
    ensures Step(s, cfg, Serve, now) == Dispatch(s, cfg, now)
  {
  }

  lemma RankPositive(s: State, cfg: Settings, d: bool, w: Rq)
    requires w in s.Fifo(d)
    ensures Rank(s, cfg, d, w) > 0
  {
  }

  lemma RankBound(s: State, cfg: Settings, clock: int, d: bool, w: Rq)
    requires Inv(s, cfg, clock) && w in s.Fifo(d) && (d || cfg.writesStarved > 0)
    ensures Rank(s, cfg, d, w) <= (IndexOf(s.Fifo(d), w) + 1) * (Rounds(cfg, d) * BatchSize(cfg))
  {
    hide DirOk;
    var f := BatchSize(cfg);
    var u := Rounds(cfg, d) * f;
    var k := IndexOf(s.Fifo(d), w);
    assert (k + 1) * u == k * u + u;
    MulMono(TurnsLeft(s, cfg, d) + 1, Rounds(cfg, d), f);
    assert (TurnsLeft(s, cfg, d) + 1) * f == TurnsLeft(s, cfg, d) * f + f;
  }

  /** Bounded waiting for writes: an expired write with k requests ahead of it in its FIFO leaves before
      (k + 1) * (writesStarved + 1) * max(1, fifoBatch) dispatches have been made, whatever else arrives or merges. */
  lemma WriteWaitBound(s: State, cfg: Settings, clock: int, run: seq<(Event, int)>, w: Rq)
    requires Inv(s, cfg, clock) && Waits(s, cfg, clock, run, true, w) && Time(s.reqs, w) <= clock
    ensures Serves(run) < (IndexOf(s.fifoW, w) + 1) * ((cfg.writesStarved + 1) * BatchSize(cfg))
  {
    hide Inv, Rank;
    WaitingCosts(s, cfg, clock, run, true, w);
    RankBound(s, cfg, clock, true, w);
  }

  /** Bounded waiting for reads, when writesStarved is not zero: two batches per request ahead. */
  lemma ReadWaitBound(s: State, cfg: Settings, clock: int, run: seq<(Event, int)>, r: Rq)
    requires cfg.writesStarved > 0
    requires Inv(s, cfg, clock) && Waits(s, cfg, clock, run, false, r) && Time(s.reqs, r) <= clock
    ensures Serves(run) < (IndexOf(s.fifoR, r) + 1) * (2 * BatchSize(cfg))
  {
    hide Inv, Rank;
    WaitingCosts(s, cfg, clock, run, false, r);
    RankBound(s, cfg, clock, false, r);
  }

  // ----- with writesStarved zero there is no bound for reads

  /** One write arrives and is served, over and over. */
  function WriteStream(n: nat, id: nat): seq<(Event, int)>
  {
    if n == 0 then [] else [(Add(id, true, 0), 0), (Serve, 0)] + WriteStream(n - 1, id + 1)
  }

  /** One read that expired at time 0. */
  const Parked := State(map[0 := Request(false, 0, 0)], [0], [], [0], [], None, None, 0, 0)

  lemma StreamServes(n: nat, id: nat)
    ensures Serves(WriteStream(n, id)) == n
  {
    if n > 0 {
      var run := WriteStream(n, id);
      StreamServes(n - 1, id + 1);
      assert run[1..][1..] == WriteStream(n - 1, id + 1);
      assert Serves(run) == Serves(run[1..]);
    }
  }

  lemma {:induction false} ReadStarves(s: State, cfg: Settings, n: nat, id: nat)
    requires cfg.writesStarved == 0 && id > 0 && s.(batching := 0, starved := 0) == Parked && s.starved == 0
    ensures Waits(s, cfg, 0, WriteStream(n, id), false, 0)
    decreases n
  {
    hide AddRequest, Dispatch;
    if n == 0 {
    } else {
      var run := WriteStream(n, id);
      assert run[1..][1..] == WriteStream(n - 1, id + 1);
      assert run[1..][0] == (Serve, 0);
      OneWrite(s, cfg, id);
      var s1 := AddRequest(s, cfg, id, true, 0, 0);
      ReadStarves(Dispatch(s1, cfg, 0), cfg, n - 1, id + 1);
      assert Waits(s1, cfg, 0, run[1..], false, 0);
    }
  }

  /** A write comes in and is served; the read is where it was. */
  lemma OneWrite(s: State, cfg: Settings, id: nat)
    requires cfg.writesStarved == 0 && id > 0 && s.(batching := 0, starved := 0) == Parked && s.starved == 0
    ensures var s1 := AddRequest(s, cfg, id, true, 0, 0);
            Dispatch(s1, cfg, 0) == s.(batching := 1, starved := 0) && s1.fifoR == s.fifoR
  {
    var s1 := AddRequest(s, cfg, id, true, 0, 0);
    assert s1 == s.(reqs := s.reqs[id := Request(true, 0, cfg.writeExpire)], fifoW := [id], sortW := [id]);
    assert Choice(s1, cfg, 0) == Some(id);
    assert Latter([id], id) == None;
    assert Remove([id], id) == [];
    assert s1.reqs - {id} == s.reqs;
  }

  /** For every n there is a run of n dispatches through which an expired read at the head of its FIFO still waits. */
  lemma ReadsUnboundedWithoutQuota(cfg: Settings, n: nat)
    requires cfg.writesStarved == 0
    ensures Inv(Parked, cfg, 0) && Time(Parked.reqs, 0) <= 0 && IndexOf(Parked.fifoR, 0) == 0
    ensures Waits(Parked, cfg, 0, WriteStream(n, 1), false, 0) && Serves(WriteStream(n, 1)) == n
  {
    ReadStarves(Parked, cfg, n, 1);
    StreamServes(n, 1);
  }

  /** Fewer than `bound` dispatches are made while an expired read with at most k requests ahead of it waits, in any run. */
  ghost predicate ReadsWithin(cfg: Settings, k: nat, bound: nat)
  {
    forall s, clock, run, r ::
      Waits(s, cfg, clock, run, false, r) && Inv(s, cfg, clock) && r in s.fifoR && IndexOf(s.fifoR, r) <= k && Time(s.reqs, r) <= clock ==>
      Serves(run) < bound
  }

  /** Waiting reads have a bound if and only if writes_starved is not zero. */
  lemma ReadBoundExact(cfg: Settings, k: nat)
    ensures (exists bound :: ReadsWithin(cfg, k, bound)) <==> cfg.writesStarved > 0
  {
    hide Inv, Waits, Serves;
    if cfg.writesStarved > 0 {
      var bound := (k + 1) * (2 * BatchSize(cfg));
      forall s, clock, run, r
        | Waits(s, cfg, clock, run, false, r) && Inv(s, cfg, clock) && r in s.fifoR && IndexOf(s.fifoR, r) <= k && Time(s.reqs, r) <= clock
        ensures Serves(run) < bound
      {
        ReadWaitBound(s, cfg, clock, run, r);
        MulMono(IndexOf(s.fifoR, r) + 1, k + 1, 2 * BatchSize(cfg));
      }
      assert ReadsWithin(cfg, k, bound);
    } else {
      forall bound
        ensures !ReadsWithin(cfg, k, bound)
      {
        ReadsUnboundedWithoutQuota(cfg, bound);
      }
    }
  }

  lemma EmptyOk(cfg: Settings, clock: int)
    ensures Inv(Empty, cfg, clock)
  {
  }
}
