/**
 The blk_flush_queue object, updated in place as the source does, against the step functions of Flush
 and FlushRuns. The source's BUG_ON()s are preconditions of CompleteSeq or assertions.
 */
module FlushQueue {
  import opened Lists
  import opened Flush
  import opened FlushInvariant
  import opened FlushRuns

  class BlkFlushQueue {
    var reqs: map<Rq, Request>
    var queue0: seq<Rq>
    var queue1: seq<Rq>
    var dataInFlight: seq<Rq>
    var pendingIdx: bool
    var runningIdx: bool
    var pendingSince: int
    var queueDelayed: bool
    var dispatch: seq<Item>
    ghost var driver: set<Item>
    var flushes: nat
    var issuedAt: nat
    var log: seq<Event>             // the history; request records hold positions in it
    const hz: nat

    ghost function View(): State
      reads this
    {
      State(reqs, queue0, queue1, dataInFlight, pendingIdx, runningIdx, pendingSince, dispatch, driver, flushes, issuedAt, log)
    }

    constructor (hz: nat)
      ensures View() == Initial && Inv(View()) && this.hz == hz && !queueDelayed
    {
      this.hz := hz;
      reqs, queue0, queue1, dataInFlight := map[], [], [], [];
      pendingIdx, runningIdx, pendingSince, queueDelayed := false, false, 0, false;
      dispatch, driver, flushes, issuedAt, log := [], {}, 0, 0, [];
      EveryRunIsSafe([], hz);
    }

    function Pending(): seq<Rq>
      reads this
    {
      if pendingIdx then queue1 else queue0
    }

    method KickFlush(now: int) returns (kicked: bool)
      modifies this
      ensures View() == Kick(old(View()), now, hz) && queueDelayed == old(queueDelayed)
      ensures dispatch == old(dispatch) + if kicked then [FlushItem] else []
    {
      if pendingIdx != runningIdx || Pending() == [] {
        return false;
      }
      if dataInFlight != [] && now < pendingSince + TIMEOUT_SECONDS * hz {
        return false;
      }
      pendingIdx := !pendingIdx;
      dispatch := dispatch + [FlushItem];
      issuedAt, flushes, log := |log|, flushes + 1, log + [FlushIssued(flushes)];
      return true;
    }

    /** list_del() on whichever list holds r. */
    method Unlink(r: Rq)
      modifies `queue0, `queue1, `dataInFlight
      ensures View() == Detach(old(View()), r)
    {
      queue0, queue1, dataInFlight := Remove(queue0, r), Remove(queue1, r), Remove(dataInFlight, r);
    }

    /** The switch of blk_flush_complete_seq(). */
    method MoveTo(r: Rq, stage: Stage, ok: bool) returns (queued: bool)
      requires r in reqs
      requires DataItem(r) !in dispatch                      // BUG_ON(!list_empty(&rq->queuelist))
      modifies this
      ensures View() == Route(old(View()), r, stage, ok) && queueDelayed == old(queueDelayed)
      ensures dispatch == (if queued then [DataItem(r)] else []) + old(dispatch)
    {
      queued := false;
      match stage {
        case Preflush =>
          if pendingIdx { queue1 := queue1 + [r]; } else { queue0 := queue0 + [r]; }
        case Postflush =>
          if pendingIdx { queue1 := queue1 + [r]; } else { queue0 := queue0 + [r]; }
        case Payload =>
          dataInFlight := dataInFlight + [r];
          dispatch := [DataItem(r)] + dispatch;
          log := log + [DataQueued(r, DriverFlags(reqs[r].ask))];
          queued := true;
        case Done =>
          reqs := reqs[r := reqs[r].(status := Finished)];
          log := log + [Ended(r, ok)];
      }
    }

    method CompleteSeq(r: Rq, bits: Mask, ok: bool, now: int) returns (queued: bool)
      requires r in reqs
      requires Disjoint(reqs[r].done, bits)                  // BUG_ON(rq->flush.seq & seq)
      requires DataItem(r) !in dispatch
      modifies this
      ensures View() == Flush.CompleteSeq(old(View()), r, bits, ok, now, hz) && queueDelayed == old(queueDelayed)
      ensures |dispatch| >= |old(dispatch)| && (queued <==> |dispatch| > |old(dispatch)|)
    {
      hide Route, Kick, Stamp, Detach, MarkDone;
      var done := Or(reqs[r].done, bits);
      var stage := if ok then Current(done) else Done;
      StampSince(stage, now);
      Unlink(r);
      MarkSeq(r, bits);
      queued := MoveTo(r, stage, ok);
      var kicked := KickFlush(now);
      queued := kicked || queued;
    }

    /** The pending list gets its timestamp with its first entry. */
    method StampSince(stage: Stage, now: int)
      modifies `pendingSince
      ensures View() == Stamp(old(View()), stage, now)
    {
      if Waits(stage) && Pending() == [] {
        pendingSince := now;
      }
    }

    method MarkSeq(r: Rq, bits: Mask)
      requires r in reqs
      modifies `reqs
      ensures View() == MarkDone(old(View()), r, bits) && r in reqs
    {
      reqs := reqs[r := reqs[r].(done := Or(reqs[r].done, bits))];
    }

    /** flush_end_io(): the list is walked while blk_kick_flush() may turn it into the pending list. */
    method FlushEndIo(ok: bool, now: int) returns (runQueue: bool)
      requires Inv(View()) && FlushItem in driver
      modifies this
      ensures View() == FlushRuns.FlushEndIo(old(View()), ok, now, hz) && Inv(View())
      ensures runQueue <==> |dispatch| > |old(dispatch)| || old(queueDelayed)
      ensures !queueDelayed
    {
      hide Inv, Core, Weight, Kick, Route, Detach, MarkDone, Stamp, Flush.CompleteSeq, Threshold, Flushed, NoStall;
      ghost var s := View();
      FlushLandedServes(s, ok);
      FlushEndIoKeeps(s, ok, now, hz);
      assert pendingIdx != runningIdx;                       // BUG_ON(pending_idx == running_idx)
      var w := runningIdx;
      runningIdx := !runningIdx;
      driver, log := driver - {FlushItem}, log + [FlushDone(flushes - 1, ok)];
      var queued := false;
      var more := true;
      while more
        invariant more ==> WalkInv(View(), w, ok) && View().Queue(w) != []
        invariant more ==> Walk(View(), w, ok, now, hz) == FlushRuns.FlushEndIo(s, ok, now, hz)
        invariant !more ==> View() == FlushRuns.FlushEndIo(s, ok, now, hz)
        invariant |dispatch| >= |old(dispatch)| && (queued <==> |dispatch| > |old(dispatch)|)
        invariant queueDelayed == old(queueDelayed)
        decreases if more then 1 + Weight(reqs, View().Queue(w)) else 0
      {
        ghost var t := View();
        var list := if w then queue1 else queue0;
        var r := list[0];
        var last := |list| == 1;
        WalkStep(t, w, ok, now, hz);
        ServeHeadEarns(t, w, ok, r);
        ServeHeadLength(t, w, ok, now, hz);
        var stage := Current(reqs[r].done);
        assert stage == Preflush || stage == Postflush;      // BUG_ON(seq != PREFLUSH && seq != POSTFLUSH)
        WaiterNotQueued(t, r);
        var q := CompleteSeq(r, StageBit(stage), ok, now);
        queued := queued || q;
        more := !last;
      }
      runQueue := queued || queueDelayed;
      queueDelayed := false;
    }

    /** flush_data_end_io(). */
    method FlushDataEndIo(r: Rq, ok: bool, now: int) returns (runQueue: bool)
      requires Inv(View()) && DataItem(r) in driver
      modifies this
      ensures r in old(reqs) && View() == DataEndIo(old(View()), r, ok, now, hz) && Inv(View())
      ensures runQueue <==> |dispatch| > |old(dispatch)|
    {
      hide Core, Kick, Route, Detach, MarkDone, Stamp, Flush.CompleteSeq, NoStall;
      DataEndIoKeeps(View(), r, ok, now, hz);
      FetchedNotQueued(View(), DataItem(r));
      driver := driver - {DataItem(r)};
      reqs, log := reqs[r := reqs[r].(dataEnd := |log|)], log + [DataDone(r, ok)];
      runQueue := CompleteSeq(r, StageBit(Payload), ok, now);
    }

    /** blk_insert_flush(). */
    method InsertFlush(r: Rq, a: Ask, now: int)
      requires Inv(View()) && r !in reqs
      modifies this
      ensures View() == FlushRuns.InsertFlush(old(View()), r, a, now, hz) && Inv(View())
    {
      hide Core, Kick, Route, Detach, MarkDone, Stamp, Flush.CompleteSeq, NoStall;
      InsertFlushKeeps(View(), r, a, now, hz);
      var policy := Policy(a);
      if policy == NoSteps {
        reqs := reqs[r := Request(a, policy, NoSteps, |log|, |log|, Finished)];
        log := log + [Inserted(r, a, policy)] + [Ended(r, true)];
        return;
      }
      if policy.data && !(policy.pre || policy.post) {
        reqs := reqs[r := Request(a, policy, NoSteps, |log|, |log|, Direct)];
        dispatch := dispatch + [DirectItem(r)];
        log := log + [Inserted(r, a, policy)] + [DataQueued(r, DriverFlags(a))];
        return;
      }
      NewNotQueued(View(), r);
      reqs := reqs[r := Request(a, policy, NoSteps, |log|, |log|, Sequenced)];
      log := log + [Inserted(r, a, policy)];
      var queued := CompleteSeq(r, Not(policy), true, now);
    }
  }

  lemma WaiterNotQueued(s: State, r: Rq)
    requires Core(s, {}, {}) && r !in s.data
    ensures DataItem(r) !in s.dispatch
  {
    hide Durable, FlightOk, Chronicle, AllEarned, ListsOk;
  }

  lemma FetchedNotQueued(s: State, i: Item)
    requires Core(s, {}, {}) && i in s.driver
    ensures i !in s.dispatch
  {
    hide Durable, FlightOk, Chronicle, AllEarned, ListsOk;
  }

  lemma NewNotQueued(s: State, r: Rq)
    requires Core(s, {}, {}) && r !in s.reqs
    ensures DataItem(r) !in s.dispatch
  {
    hide Durable, FlightOk, Chronicle, AllEarned;
  }
}
