/**
 The deadline I/O scheduler, kernel/block/deadline-iosched.c.

 Each direction (false reads, true writes) has a FIFO ordered by expiry and a list sorted by sector. A batch runs
 on in sector order for at most fifoBatch requests; between batches reads win until they have passed over waiting
 writes writesStarved times. Time is in jiffies and does not wrap.
 */
module Deadline {
  import opened Basics
  import opened Lists

  type Rq = nat

  datatype Request = Request(dir: bool, pos: nat, fifoTime: int)

  datatype Settings = Settings(readExpire: nat, writeExpire: nat, fifoBatch: nat, writesStarved: nat)
  {
    function Expire(dir: bool): nat { if dir then writeExpire else readExpire }
  }

  datatype State = State(
    reqs: map<Rq, Request>,
    fifoR: seq<Rq>, fifoW: seq<Rq>,
    sortR: seq<Rq>, sortW: seq<Rq>,
    nextR: Option<Rq>, nextW: Option<Rq>,
    batching: nat, starved: nat)
  {
    function Fifo(d: bool): seq<Rq> { if d then fifoW else fifoR }

    function Sort(d: bool): seq<Rq> { if d then sortW else sortR }

    function Next(d: bool): Option<Rq> { if d then nextW else nextR }

    function SetFifo(d: bool, l: seq<Rq>): State { if d then this.(fifoW := l) else this.(fifoR := l) }

    function SetSort(d: bool, l: seq<Rq>): State { if d then this.(sortW := l) else this.(sortR := l) }

    function SetNext(d: bool, n: Option<Rq>): State { if d then this.(nextW := n) else this.(nextR := n) }
  }

  const Empty := State(map[], [], [], [], [], None, None, 0, 0)

  // ----- the sector-sorted list

  function Pos(reqs: map<Rq, Request>, r: Rq): int { if r in reqs then reqs[r].pos else 0 }

  function Time(reqs: map<Rq, Request>, r: Rq): int { if r in reqs then reqs[r].fifoTime else 0 }

  /** elv_rb_add(): r goes after every request that does not start behind it. */
  function Insert(reqs: map<Rq, Request>, l: seq<Rq>, r: Rq): seq<Rq>
  {
    if l == [] || Pos(reqs, r) < Pos(reqs, l[0]) then [r] + l else [l[0]] + Insert(reqs, l[1..], r)
  }

  /** deadline_latter_request(). */
  function Latter(l: seq<Rq>, r: Rq): Option<Rq>
  {
    if |l| < 2 then None
    else if l[0] == r then Some(l[1])
    else Latter(l[1..], r)
  }

  // ----- the entry points

  function AddRequest(s: State, cfg: Settings, r: Rq, dir: bool, pos: nat, now: int): State
  {
    var reqs := s.reqs[r := Request(dir, pos, now + cfg.Expire(dir))];
    s.(reqs := reqs).SetSort(dir, Insert(reqs, s.Sort(dir), r)).SetFifo(dir, s.Fifo(dir) + [r])
  }

  /** deadline_remove_request(): off the FIFO and the sorted list, the batch pointer moving past it. */
  function RemoveRequest(s: State, r: Rq): State
    requires r in s.reqs
  {
    var d := s.reqs[r].dir;
    var s1 := if s.Next(d) == Some(r) then s.SetNext(d, Latter(s.Sort(d), r)) else s;
    s1.SetFifo(d, Remove(s.Fifo(d), r)).SetSort(d, Remove(s.Sort(d), r)).(reqs := s.reqs - {r})
  }

  /** The FIFO with req moved to just after next. */
  function MoveAfter(l: seq<Rq>, req: Rq, next: Rq): seq<Rq>
  {
    if l == [] then []
    else if l[0] == next then [next, req] + l[1..]
    else [l[0]] + MoveAfter(l[1..], req, next)
  }

  /** deadline_merged_requests(): next has been merged into req. */
  function MergedRequests(s: State, req: Rq, next: Rq): State
    requires req in s.reqs && next in s.reqs
  {
    var d := s.reqs[req].dir;
    var s1 := if s.reqs[next].fifoTime < s.reqs[req].fifoTime
              then s.SetFifo(d, MoveAfter(Remove(s.Fifo(d), req), req, next))
                    .(reqs := s.reqs[req := s.reqs[req].(fifoTime := s.reqs[next].fifoTime)])
              else s;
    RemoveRequest(s1, next)
  }

  /** deadline_merged_request() after a front merge: the request starts earlier and is repositioned. */
  function FrontMerged(s: State, r: Rq, pos: nat): State
    requires r in s.reqs
  {
    var d := s.reqs[r].dir;
    var reqs := s.reqs[r := s.reqs[r].(pos := pos)];
    s.(reqs := reqs).SetSort(d, Insert(reqs, Remove(s.Sort(d), r), r))
  }

  predicate InBatch(s: State, cfg: Settings) { (s.nextW.Some? || s.nextR.Some?) && s.batching < cfg.fifoBatch }

  /** The direction a new batch takes; both FIFOs empty means nothing to do. */
  function Direction(s: State, cfg: Settings): bool
  {
    s.fifoR == [] || (s.fifoW != [] && s.starved >= cfg.writesStarved)
  }

  function StarvedAfter(s: State, cfg: Settings): nat
  {
    if Direction(s, cfg) then 0 else if s.fifoW != [] then s.starved + 1 else s.starved
  }

  /** The request deadline_dispatch_requests() moves. */
  function Choice(s: State, cfg: Settings, now: int): Option<Rq>
  {
    if InBatch(s, cfg) then (if s.nextW.Some? then s.nextW else s.nextR)
    else
      var d := Direction(s, cfg);
      var l := s.Fifo(d);
      if l == [] then None
      else if now >= Time(s.reqs, l[0]) || s.Next(d).None? then Some(l[0])
      else s.Next(d)
  }

  /** deadline_move_request(). */
  function MoveRequest(s: State, r: Rq): State
    requires r in s.reqs
  {
    var d := s.reqs[r].dir;
    RemoveRequest(s.(nextR := None, nextW := None).SetNext(d, Latter(s.Sort(d), r)), r)
  }

  function Dispatch(s: State, cfg: Settings, now: int): State
  {
    var c := Choice(s, cfg, now);
    if c.None? || c.value !in s.reqs then s
    else if InBatch(s, cfg) then MoveRequest(s.(batching := s.batching + 1), c.value)
    else MoveRequest(s.(batching := 1, starved := StarvedAfter(s, cfg)), c.value)
  }
}
