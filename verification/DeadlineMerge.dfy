/**
 What becomes of the I/O of a request that is merged into another: when the absorbing request takes over its place in the
 FIFO, the waiting bound goes on with it.
 */
module DeadlineMerge {
  import opened Basics
  import opened Lists
  import opened Deadline
  import opened DeadlineBound

  /** The place of the absorbing request after the merge. */
  function PlaceAfter(reqs: Requests, l: seq<Rq>, req: Rq, next: Rq): int
    requires req in l && next in l
  {
    if Time(reqs, next) < Time(reqs, req) then IndexOf(l, next)
    else IndexOf(l, req) - if IndexOf(l, next) < IndexOf(l, req) then 1 else 0
  }

  lemma EarlierPlace(reqs: Requests, l: seq<Rq>, req: Rq, next: Rq)
    requires NoDup(l) && SortedTime(reqs, l) && req in l && next in l && req != next && Time(reqs, next) < Time(reqs, req)
    ensures var m := Remove(MoveAfter(Remove(l, req), req, next), next);
            req in m && IndexOf(m, req) == IndexOf(l, next)
  {
    hide NoDup, SortedTime, Remove, MoveAfter, IndexOf;
    var l1 := Remove(l, req);
    RemoveMembers(l, req);
    EarlierAhead(reqs, l, next, req);
    IndexAfterRemove(l, req, next);
    MoveAfterMembers(l1, req, next);
    IndexAfterMove(l1, req, next, req);
    IndexAfterMove(l1, req, next, next);
    IndexAfterRemove(MoveAfter(l1, req, next), next, req);
  }

  /** After a merge the absorbing request is the only one left of the two, with the earlier expiry. */
  lemma Absorbs(s: State, cfg: Settings, clock: int, req: Rq, next: Rq)
    requires Inv(s, cfg, clock) && Enabled(s, Merge(req, next))
    ensures req in s.Fifo(s.reqs[req].dir) && next in s.Fifo(s.reqs[req].dir)
    ensures var d, t := s.reqs[req].dir, MergedRequests(s, req, next);
            && next !in t.Fifo(d) && req in t.Fifo(d) && IndexOf(t.Fifo(d), req) == PlaceAfter(s.reqs, s.Fifo(d), req, next)
            && Time(t.reqs, req) == Min(Time(s.reqs, req), Time(s.reqs, next))
            && t.starved == s.starved && BatchLeft(t, cfg) <= BatchLeft(s, cfg)
  {
    hide DirOk, IndexOf, MoveAfter, SortedTime, NoDup, Remove, RemoveRequest;
    var d := s.reqs[req].dir;
    FifoNoDup(s, cfg, clock, d);
    InFifo(s, cfg, clock, req);
    InFifo(s, cfg, clock, next);
    MergedGone(s, cfg, clock, req, next);
    var reqs := s.reqs[req := s.reqs[req].(fifoTime := s.reqs[next].fifoTime)];
    if s.reqs[next].fifoTime < s.reqs[req].fifoTime {
      RemoveFifo(s.SetFifo(d, MoveAfter(Remove(s.Fifo(d), req), req, next)).(reqs := reqs), next, d);
      EarlierPlace(s.reqs, s.Fifo(d), req, next);
    } else {
      RemoveFifo(s, next, d);
      IndexAfterRemove(s.Fifo(d), next, req);
      DistinctPlaces(s.Fifo(d), req, next);
    }
  }

  lemma DistinctPlaces(l: seq<Rq>, a: Rq, b: Rq)
    requires a in l && b in l && a != b
    ensures IndexOf(l, a) != IndexOf(l, b)
  {
  }

  /** The I/O of next stands no further back in req than before. */
  predicate TakesPlace(reqs: Requests, l: seq<Rq>, req: Rq, next: Rq)
    requires req in l && next in l
  {
    !(Time(reqs, req) == Time(reqs, next) && IndexOf(l, next) + 1 < IndexOf(l, req))
  }

  /** It falls back if and only if both expire at the same time and others stand between them: those then go first. */
  lemma PlaceExact(s: State, cfg: Settings, clock: int, req: Rq, next: Rq)
    requires Inv(s, cfg, clock) && Enabled(s, Merge(req, next))
    ensures var d, t := s.reqs[req].dir, MergedRequests(s, req, next);
            && req in s.Fifo(d) && next in s.Fifo(d) && req in t.Fifo(d)
            && (IndexOf(t.Fifo(d), req) <= IndexOf(s.Fifo(d), next) <==> TakesPlace(s.reqs, s.Fifo(d), req, next))
  {
    hide DirOk, IndexOf, MergedRequests, NoDup, SortedTime;
    Absorbs(s, cfg, clock, req, next);
    var d := s.reqs[req].dir;
    FifoNoDup(s, cfg, clock, d);
    if Time(s.reqs, req) < Time(s.reqs, next) {
      EarlierAhead(s.reqs, s.Fifo(d), req, next);
    }
  }

  // ----- following the I/O

  /** The request that carries the I/O of w after the event. */
  function Carrier(e: Event, w: Rq): Rq { if e.Merge? && e.next == w then e.req else w }

  /**
   The run is possible, its clock does not run back, the I/O that starts out in w stays in the FIFO of d throughout, in
   whichever request carries it, and each such request takes over the place.
   */
  predicate IoWaits(s: State, cfg: Settings, clock: int, run: seq<(Event, int)>, d: bool, w: Rq)
    decreases |run|
  {
    && w in s.Fifo(d)
    && (run == [] ||
        var e, now := run[0].0, run[0].1;
        && Enabled(s, e) && clock <= now
        && (e.Merge? && e.next == w ==> e.req in s.Fifo(d) && TakesPlace(s.reqs, s.Fifo(d), e.req, w))
        && IoWaits(Step(s, cfg, e, now), cfg, now, run[1..], d, Carrier(e, w)))
  }

  lemma RankCarried(s: State, t: State, cfg: Settings, d: bool, w: Rq, w': Rq)
    requires w in s.Fifo(d) && w' in t.Fifo(d) && IndexOf(t.Fifo(d), w') <= IndexOf(s.Fifo(d), w)
    requires BatchLeft(t, cfg) <= BatchLeft(s, cfg) && t.starved == s.starved
    ensures Rank(t, cfg, d, w') <= Rank(s, cfg, d, w)
  {
    hide IndexOf, BatchLeft;
    RankBelow(cfg, d, IndexOf(s.Fifo(d), w), IndexOf(t.Fifo(d), w'));
  }

  lemma CarriedStep(s: State, cfg: Settings, clock: int, req: Rq, w: Rq, d: bool)
    requires Inv(s, cfg, clock) && Enabled(s, Merge(req, w)) && w in s.Fifo(d) && req in s.Fifo(d) && TakesPlace(s.reqs, s.Fifo(d), req, w)
    ensures var t := MergedRequests(s, req, w);
            && req in t.Fifo(d) && Rank(t, cfg, d, req) <= Rank(s, cfg, d, w) && Time(t.reqs, req) <= Time(s.reqs, w)
  {
    hide Inv, IndexOf, MergedRequests, Rank, TakesPlace, BatchLeft;
    FifoNoDup(s, cfg, clock, d);
    Absorbs(s, cfg, clock, req, w);
    PlaceExact(s, cfg, clock, req, w);
    RankCarried(s, MergedRequests(s, req, w), cfg, d, w, req);
  }

  lemma StepMerges(s: State, cfg: Settings, req: Rq, next: Rq, now: int)
    requires Enabled(s, Merge(req, next))
    ensures Step(s, cfg, Merge(req, next), now) == MergedRequests(s, req, next)
  {
  }

  lemma {:induction false} IoWaitingCosts(s: State, cfg: Settings, clock: int, run: seq<(Event, int)>, d: bool, w: Rq)
    requires Inv(s, cfg, clock) && IoWaits(s, cfg, clock, run, d, w) && (d || cfg.writesStarved > 0)
    requires Time(s.reqs, w) <= clock
    ensures Serves(run) < Rank(s, cfg, d, w)
    decreases |run|
  {
    hide Inv, Rank, Step, Dispatch, MergedRequests, TakesPlace;
    if run == [] {
      RankPositive(s, cfg, d, w);
    } else {
      var e, now := run[0].0, run[0].1;
      StepKeeps(s, cfg, clock, e, now);
      var t := Step(s, cfg, e, now);
      if e.Serve? {
        StepServe(s, cfg, now);
        ServeStep(s, cfg, clock, now, d, w);
      } else if e.Merge? && e.next == w {
        StepMerges(s, cfg, e.req, w, now);
        CarriedStep(s, cfg, clock, e.req, w, d);
      } else {
        QuietStep(s, cfg, clock, e, now, d, w);
      }
      IoWaitingCosts(t, cfg, now, run[1..], d, Carrier(e, w));
    }
  }

  /**
   Bounded waiting of the I/O itself: if it has expired and k requests are ahead of it, it leaves before
   (k + 1) * rounds * max(1, fifoBatch) dispatches, through any number of merges that take over its place.
   */
  lemma IoWaitBound(s: State, cfg: Settings, clock: int, run: seq<(Event, int)>, d: bool, w: Rq)
    requires Inv(s, cfg, clock) && IoWaits(s, cfg, clock, run, d, w) && Time(s.reqs, w) <= clock && (d || cfg.writesStarved > 0)
    ensures Serves(run) < (IndexOf(s.Fifo(d), w) + 1) * (Rounds(cfg, d) * BatchSize(cfg))
  {
    hide Inv, Rank;
    IoWaitingCosts(s, cfg, clock, run, d, w);
    RankBound(s, cfg, clock, d, w);
  }
}
