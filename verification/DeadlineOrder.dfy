/**
 Batches of the deadline scheduler go up in sector order, and end only when they must.
 */
module DeadlineOrder {
  import opened Basics
  import opened Lists
  import opened Deadline
  import opened DeadlineBound
  import opened DeadlineData

  /** b is of the same direction as a was, starts no earlier, and no queued request of that direction lies between them. */
  ghost predicate NextUp(s: State, t: State, a: Rq, b: Rq)
    requires a in s.reqs
  {
    && b in t.reqs && t.reqs[b].dir == s.reqs[a].dir && s.reqs[a].pos <= t.reqs[b].pos
    && forall x :: x in t.reqs && t.reqs[x].dir == s.reqs[a].dir ==> t.reqs[x].pos <= s.reqs[a].pos || t.reqs[b].pos <= t.reqs[x].pos
  }

  /** Some queued request of the direction lies behind a. */
  ghost predicate MoreBehind(s: State, t: State, a: Rq)
    requires a in s.reqs
  {
    exists x :: x in t.reqs && t.reqs[x].dir == s.reqs[a].dir && t.reqs[x].pos > s.reqs[a].pos
  }

  /** The entry behind a in a list sorted by sector. */
  lemma BehindIsNext(reqs: Requests, l: seq<Rq>, a: Rq)
    requires NoDup(l) && SortedPos(reqs, l) && a in l
    ensures var b := Behind(l, a);
            && (b.Some? ==> b.value in l && b.value != a && Pos(reqs, a) <= Pos(reqs, b.value))
            && (b.Some? ==> forall x :: x in l && x != a ==> Pos(reqs, x) <= Pos(reqs, a) || Pos(reqs, b.value) <= Pos(reqs, x))
            && (b.None? ==> forall x :: x in l ==> Pos(reqs, x) <= Pos(reqs, a))
  {
    var k := IndexOf(l, a);
    forall x | x in l && x != a
      ensures IndexOf(l, x) < k ==> Pos(reqs, x) <= Pos(reqs, a)
      ensures IndexOf(l, x) > k ==> k + 1 < |l| && Pos(reqs, l[k + 1]) <= Pos(reqs, x)
    {
      var j := IndexOf(l, x);
      if j < k {
        assert Pos(reqs, l[j]) <= Pos(reqs, l[k]);
      } else if j > k + 1 {
        assert Pos(reqs, l[k + 1]) <= Pos(reqs, l[j]);
      }
    }
    if k + 1 < |l| {
      assert Pos(reqs, l[k]) <= Pos(reqs, l[k + 1]);
      assert l[k] != l[k + 1];
    }
  }

  /** What one dispatch leaves: the pointer of its direction at the next request by sector, and the batch counted. */
  lemma DispatchPoints(s: State, cfg: Settings, clock: int, now: int)
    requires Inv(s, cfg, clock) && clock <= now && Choice(s, cfg, now).Some?
    ensures var a, t := Choice(s, cfg, now).value, Dispatch(s, cfg, now);
            && a in s.reqs && a in s.Sort(s.reqs[a].dir) && t.reqs == s.reqs - {a}
            && t.Next(s.reqs[a].dir) == Behind(s.Sort(s.reqs[a].dir), a) && t.Next(!s.reqs[a].dir) == None
            && t.batching == (if InBatch(s, cfg) then s.batching + 1 else 1)
  {
    hide Inv, Deadline.MoveRequest, Without, Behind;
    ChoiceKnown(s, cfg, clock, now);
    var a := Choice(s, cfg, now).value;
    var s1 := if InBatch(s, cfg) then s.(batching := s.batching + 1) else s.(batching := 1, starved := StarvedAfter(s, cfg));
    BatchKeeps(s, s1, cfg, clock);
    MoveMeans(s1, cfg, clock, a);
    MoveFrame(s1, cfg, clock, a, false);
  }

  lemma NextIs(s: State, cfg: Settings, clock: int, a: Rq, t: State)
    requires Inv(s, cfg, clock) && a in s.reqs && a in s.Sort(s.reqs[a].dir) && t.reqs == s.reqs - {a}
    ensures var b := Behind(s.Sort(s.reqs[a].dir), a);
            (b.Some? ==> NextUp(s, t, a, b.value)) && (b.None? ==> !MoreBehind(s, t, a))
  {
    hide Behind;
    BehindIsNext(s.reqs, s.Sort(s.reqs[a].dir), a);
  }

  /**
   Two dispatches in a row. Fewer than fifo_batch requests into a batch the second is the next one up by sector, if there
   is one behind the first; the batch ends only when it is full or nothing lies behind; and a new batch in the same
   direction goes on from there too while the head of the FIFO has not expired.
   */
  lemma BatchGoesUp(s: State, cfg: Settings, clock: int, now: int, later: int)
    requires Inv(s, cfg, clock) && clock <= now <= later && Choice(s, cfg, now).Some?
    ensures var a, t := Choice(s, cfg, now).value, Dispatch(s, cfg, now);
            var b, d := Choice(t, cfg, later), t.Fifo(s.reqs[a].dir);
            && a in s.reqs
            && (t.batching < cfg.fifoBatch && MoreBehind(s, t, a) ==> b.Some? && NextUp(s, t, a, b.value))
            && (InBatch(t, cfg) ==> b.Some? && NextUp(s, t, a, b.value))
            && (!InBatch(t, cfg) ==> t.batching >= cfg.fifoBatch || !MoreBehind(s, t, a))
            && (!InBatch(t, cfg) && Direction(t, cfg) == s.reqs[a].dir && MoreBehind(s, t, a) && d != [] && later < Time(t.reqs, d[0]) ==>
                  b.Some? && NextUp(s, t, a, b.value))
  {
    hide Inv, Behind, NextUp, MoreBehind, Dispatch;
    DispatchPoints(s, cfg, clock, now);
    var a, t := Choice(s, cfg, now).value, Dispatch(s, cfg, now);
    NextIs(s, cfg, clock, a, t);
  }

  /**
   A new batch is of reads, unless there are none, or writes wait and have been passed over writes_starved times; each read
   batch that passes waiting writes over is counted, a batch of writes starts the count again, and nothing else does.
   */
  lemma ReadsGoFirst(s: State, cfg: Settings, clock: int, now: int)
    requires Inv(s, cfg, clock) && clock <= now && Choice(s, cfg, now).Some?
    ensures var a, t := Choice(s, cfg, now).value, Dispatch(s, cfg, now);
            && a in s.reqs
            && (InBatch(s, cfg) ==> t.starved == s.starved)
            && (!InBatch(s, cfg) ==> (s.reqs[a].dir <==> s.fifoR == [] || (s.fifoW != [] && s.starved >= cfg.writesStarved)))
            && (!InBatch(s, cfg) && s.reqs[a].dir ==> t.starved == 0)
            && (!InBatch(s, cfg) && !s.reqs[a].dir ==> t.starved == s.starved + if s.fifoW == [] then 0 else 1)
  {
    hide Inv, Deadline.MoveRequest;
    ChoiceKnown(s, cfg, clock, now);
    var a := Choice(s, cfg, now).value;
    var s1 := if InBatch(s, cfg) then s.(batching := s.batching + 1) else s.(batching := 1, starved := StarvedAfter(s, cfg));
    BatchKeeps(s, s1, cfg, clock);
    MoveFrame(s1, cfg, clock, a, false);
  }

  /** A batch that starts afresh takes the request that expires first, once that has expired or the batch has no place to go on. */
  lemma ExpiredGoesFirst(s: State, cfg: Settings, clock: int, now: int, x: Rq)
    requires Inv(s, cfg, clock) && clock <= now && !InBatch(s, cfg) && x in s.reqs && s.reqs[x].dir == Direction(s, cfg)
    requires s.reqs[x].fifoTime <= now || s.Next(Direction(s, cfg)).None?
    ensures Choice(s, cfg, now).Some? && Choice(s, cfg, now).value in s.reqs
    ensures s.reqs[Choice(s, cfg, now).value].fifoTime <= s.reqs[x].fifoTime
  {
    hide DirOk;
    var d := Direction(s, cfg);
    InFifo(s, cfg, clock, x);
    FifoNoDup(s, cfg, clock, d);
    var l := s.Fifo(d);
    assert l[0] in l;
    var k := IndexOf(l, x);
    if k > 0 {
      assert Time(s.reqs, l[0]) <= Time(s.reqs, l[k]);
    }
  }
}
