/**
 The FLUSH/FUA sequencer of kernel/block/blk-flush.c.

 A request walks PREFLUSH -> DATA -> POSTFLUSH, skipping what its policy does not ask for. Flushes are
 double buffered: requests wait on queue[pendingIdx], one flush serves queue[runningIdx] while the two
 indices differ. The state below is the blk_flush_queue, the dispatch queue and the driver; `log` is the
 history of what the device and the submitters saw, and the guarantees are stated about it.
 */
module Flush {
  import opened Lists

  type Rq = nat

  /** REQ_FLUSH and REQ_FUA, as request flags or as the queue's flush_flags. */
  datatype Flags = Flags(flush: bool, fua: bool)

  /** A set of REQ_FSEQ_* bits. */
  datatype Mask = Mask(pre: bool, data: bool, post: bool)

  datatype Stage = Preflush | Payload | Postflush | Done

  datatype Status = Sequenced | Direct | Finished

  /** What a submitter hands in: the queue's flush_flags at that time, the request's flags and its size. */
  datatype Ask = Ask(queue: Flags, rq: Flags, sectors: nat)

  /** born and dataEnd are positions in the log: the insertion, and the end of DATA (or born before that). */
  datatype Request = Request(ask: Ask, policy: Mask, done: Mask, born: nat, dataEnd: nat, status: Status)

  datatype Item = FlushItem | DataItem(rq: Rq) | DirectItem(rq: Rq)

  datatype Event =
    | Inserted(rq: Rq, ask: Ask, policy: Mask)
    | FlushIssued(id: nat)
    | FlushDone(id: nat, ok: bool)
    | DataQueued(rq: Rq, flags: Flags)     // with the flags the driver sees
    | DataDone(rq: Rq, ok: bool)
    | Ended(rq: Rq, ok: bool)

  datatype State = State(
    reqs: map<Rq, Request>,
    q0: seq<Rq>, q1: seq<Rq>,        // flush_queue[2]
    data: seq<Rq>,                   // flush_data_in_flight
    pendingIdx: bool, runningIdx: bool,
    since: int,                      // flush_pending_since
    dispatch: seq<Item>,             // queue_head
    driver: set<Item>,               // fetched by the driver and not completed
    flushes: nat, issuedAt: nat,     // flushes issued so far; log position of the last issue
    log: seq<Event>)
  {
    function Queue(i: bool): seq<Rq> { if i then q1 else q0 }

    function SetQueue(i: bool, l: seq<Rq>): State { if i then this.(q1 := l) else this.(q0 := l) }
  }

  const TIMEOUT_SECONDS: int := 5

  // ----- the decision functions

  /** blk_flush_policy(). */
  function Policy(a: Ask): (p: Mask)
  {
    Mask(a.queue.flush && a.rq.flush,
         a.sectors != 0,
         a.queue.flush && !a.queue.fua && a.rq.fua)
  }

  /** The flags left on the request for the driver. */
  function DriverFlags(a: Ask): Flags { Flags(false, a.queue.fua && a.rq.fua) }

  /** blk_flush_cur_seq(): the lowest unset bit. */
  function Current(done: Mask): Stage
  {
    if !done.pre then Preflush else if !done.data then Payload else if !done.post then Postflush else Done
  }

  predicate Disjoint(a: Mask, b: Mask) { !(a.pre && b.pre) && !(a.data && b.data) && !(a.post && b.post) }

  function Or(a: Mask, b: Mask): Mask { Mask(a.pre || b.pre, a.data || b.data, a.post || b.post) }

  function Not(a: Mask): Mask { Mask(!a.pre, !a.data, !a.post) }

  const NoSteps := Mask(false, false, false)

  function StageBit(s: Stage): Mask { Mask(s == Preflush, s == Payload, s == Postflush) }

  // ----- the steps

  /** blk_kick_flush(): C1, then C2 unless C3. */
  function Kick(s: State, now: int, hz: nat): State
  {
    if s.pendingIdx != s.runningIdx || s.Queue(s.pendingIdx) == [] then s
    else if s.data != [] && now < s.since + TIMEOUT_SECONDS * hz then s
    else s.(pendingIdx := !s.pendingIdx,
            dispatch := s.dispatch + [FlushItem],
            flushes := s.flushes + 1,
            issuedAt := |s.log|,
            log := s.log + [FlushIssued(s.flushes)])
  }

  function Detach(s: State, r: Rq): State
  {
    s.(q0 := Remove(s.q0, r), q1 := Remove(s.q1, r), data := Remove(s.data, r))
  }

  /** The switch of blk_flush_complete_seq(): where the request goes next. */
  function Route(s: State, r: Rq, stage: Stage, ok: bool): State
    requires r in s.reqs
  {
    match stage
    case Preflush => s.SetQueue(s.pendingIdx, s.Queue(s.pendingIdx) + [r])
    case Postflush => s.SetQueue(s.pendingIdx, s.Queue(s.pendingIdx) + [r])
    case Payload =>
      s.(data := s.data + [r], dispatch := [DataItem(r)] + s.dispatch, log := s.log + [DataQueued(r, DriverFlags(s.reqs[r].ask))])
    case Done =>
      s.(reqs := s.reqs[r := s.reqs[r].(status := Finished)], log := s.log + [Ended(r, ok)])
  }

  function NextStage(done: Mask, ok: bool): Stage { if ok then Current(done) else Done }

  function MarkDone(s: State, r: Rq, seq_: Mask): State
    requires r in s.reqs
  {
    s.(reqs := s.reqs[r := s.reqs[r].(done := Or(s.reqs[r].done, seq_))])
  }

  /** The pending timestamp, taken before the list move as the source does. */
  function Stamp(s: State, stage: Stage, now: int): State
  {
    if stage in {Preflush, Postflush} && s.Queue(s.pendingIdx) == [] then s.(since := now) else s
  }

  /** blk_flush_complete_seq(). */
  function CompleteSeq(s: State, r: Rq, seq_: Mask, ok: bool, now: int, hz: nat): State
    requires r in s.reqs
  {
    var stage := NextStage(Or(s.reqs[r].done, seq_), ok);
    Kick(Route(MarkDone(Detach(Stamp(s, stage, now), r), r, seq_), r, stage, ok), now, hz)
  }

  /** What the walk of flush_end_io() does to the entry at the front of the list. */
  function ServeHead(s: State, w: bool, ok: bool, now: int, hz: nat): State
    requires s.Queue(w) != [] && s.Queue(w)[0] in s.reqs
  {
    var r := s.Queue(w)[0];
    CompleteSeq(s, r, StageBit(Current(s.reqs[r].done)), ok, now, hz)
  }

  /** Steps the waiting requests of a list still have to take in one walk. */
  ghost function Weight(reqs: map<Rq, Request>, l: seq<Rq>): nat
  {
    if l == [] then 0
    else (if l[0] in reqs && Current(reqs[l[0]].done) == Preflush then 2 else 1) + Weight(reqs, l[1..])
  }

  // ----- what the history must satisfy

  /** A flush that was issued after position a has completed without error before position b. */
  ghost predicate Flushed(log: seq<Event>, a: int, b: int)
  {
    exists i, j :: a < i < j < b && 0 <= i && j < |log| && FlushSpan(log[i], log[j])
  }

  predicate FlushSpan(e: Event, f: Event) { e.FlushIssued? && f == FlushDone(e.id, true) }

  /** DATA starts only once the preflush of its request is durable. */
  ghost predicate DataAfterPreflush(log: seq<Event>)
  {
    forall b, j :: 0 <= b < j < |log| && log[b].Inserted? && log[j].DataQueued? && log[j].rq == log[b].rq && log[b].policy.pre
                   ==> Flushed(log, b, j)
  }

  /** What a successful end at position j owes a request inserted at position b. */
  ghost predicate Owed(log: seq<Event>, b: nat, j: nat)
    requires b < j < |log| && log[b].Inserted?
  {
    var p := log[b].policy;
    && (p.pre ==> Flushed(log, b, j))
    && (p.data ==> exists d :: b < d < j && log[d] == DataDone(log[b].rq, true) && (p.post ==> Flushed(log, d, j)))
    && (p.post && !p.data ==> Flushed(log, b, j))
  }

  ghost predicate EndsAreDurable(log: seq<Event>)
  {
    forall b, j :: 0 <= b < j < |log| && log[b].Inserted? && log[j] == Ended(log[b].rq, true) ==> Owed(log, b, j)
  }

  ghost predicate EndsOnce(log: seq<Event>)
  {
    forall i, j :: 0 <= i < j < |log| && log[i].Ended? && log[j].Ended? ==> log[i].rq != log[j].rq
  }

  ghost predicate Durable(log: seq<Event>)
  {
    DataAfterPreflush(log) && EndsAreDurable(log) && EndsOnce(log)
  }
}
