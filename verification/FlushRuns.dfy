/**
 flush_end_io(), the entry points of the sequencer, and every run of them.
 */
module FlushRuns {
  import opened Basics
  import opened Lists
  import opened Flush
  import opened FlushInvariant

  // ----- the walk of flush_end_io()

  /** During the walk of queue[w] the running index has moved off it; on success the flush just
      completed has served every request still on it. */
  ghost predicate WalkInv(s: State, w: bool, ok: bool)
  {
    && Core(s, {}, {})
    && s.runningIdx == !w
    && (ok ==> forall r :: r in s.Queue(w) && r in s.reqs ==> Flushed(s.log, Threshold(s.reqs[r]), |s.log|))
  }

  lemma FlushedPrefix(log: seq<Event>, log': seq<Event>, a: int)
    requires Flushed(log, a, |log|) && log <= log'
    ensures Flushed(log', a, |log'|)
  {
    var i, j :| a < i < j < |log| && 0 <= i && j < |log| && FlushSpan(log[i], log[j]);
    assert FlushSpan(log'[i], log'[j]);
  }

  lemma KickFrame(s: State, w: bool, now: int, hz: nat)
    ensures var t := Kick(s, now, hz);
            && t.runningIdx == s.runningIdx && t.reqs == s.reqs && t.Queue(w) == s.Queue(w) && t.since == s.since
            && s.log <= t.log
            && (!Busy(t) ==> t.pendingIdx == s.pendingIdx)
  {
  }

  lemma RouteFrame(s: State, w: bool, r: Rq, stage: Stage, ok: bool)
    requires r in s.reqs
    ensures var t := Route(s, r, stage, ok);
            && t.runningIdx == s.runningIdx && t.pendingIdx == s.pendingIdx && t.since == s.since
            && s.log <= t.log
            && t.reqs == (if stage == Done then s.reqs[r := s.reqs[r].(status := Finished)] else s.reqs)
            && t.Queue(w) == s.Queue(w) + (if Waits(stage) && s.pendingIdx == w then [r] else [])
  {
  }

  /** What one blk_flush_complete_seq() leaves alone, where the request goes on the walked list, and when waiting began: the
      time is taken when a request joins an empty pending list. */
  lemma CompleteSeqFrame(s: State, w: bool, r: Rq, bits: Mask, ok: bool, now: int, hz: nat)
    requires Live(s.reqs, r)
    ensures var t := CompleteSeq(s, r, bits, ok, now, hz);
            && t.runningIdx == s.runningIdx
            && s.log <= t.log
            && (!Busy(t) ==> t.pendingIdx == s.pendingIdx)
            && t.since == (if ok && Waits(Current(Or(s.reqs[r].done, bits))) && s.Queue(s.pendingIdx) == [] then now else s.since)
            && t.Queue(w) == Remove(s.Queue(w), r) +
                             (if ok && Waits(Current(Or(s.reqs[r].done, bits))) && s.pendingIdx == w then [r] else [])
    ensures var t := CompleteSeq(s, r, bits, ok, now, hz);
            t.reqs == s.reqs[r := s.reqs[r].(done := Or(s.reqs[r].done, bits),
                                             status := if NextStage(Or(s.reqs[r].done, bits), ok) == Done then Finished else Sequenced)]
  {
    hide Kick, Route;
    var stage := NextStage(Or(s.reqs[r].done, bits), ok);
    var s2 := MarkDone(Detach(Stamp(s, stage, now), r), r, bits);
    RouteFrame(s2, w, r, stage, ok);
    KickFrame(Route(s2, r, stage, ok), w, now, hz);
  }

  lemma ServeHeadEarns(s: State, w: bool, ok: bool, r: Rq)
    requires WalkInv(s, w, ok) && s.Queue(w) != [] && r == s.Queue(w)[0]
    ensures Live(s.reqs, r) && Waits(StageOf(s.reqs, r)) && r !in s.data && r !in s.Queue(!w)
    ensures ok ==> Earned(s.log, r, s.reqs[r].(done := Or(s.reqs[r].done, StageBit(StageOf(s.reqs, r)))))
  {
    hide Durable, FlightOk, Chronicle;
    assert r in s.Queue(w);
    assert Earned(s.log, r, s.reqs[r]);
  }

  lemma WeightFrame(reqs: Requests, reqs': Requests, l: seq<Rq>)
    requires forall p :: p in l ==> p in reqs && p in reqs' && reqs[p].done == reqs'[p].done
    ensures Weight(reqs, l) == Weight(reqs', l)
  {
    if l != [] {
      WeightFrame(reqs, reqs', l[1..]);
    }
  }

  lemma {:induction false} WeightAppend(reqs: Requests, l: seq<Rq>, r: Rq)
    ensures Weight(reqs, l + [r]) == Weight(reqs, l) + (if r in reqs && Current(reqs[r].done) == Preflush then 2 else 1)
  {
    if l != [] {
      WeightAppend(reqs, l[1..], r);
      assert (l + [r])[1..] == l[1..] + [r];
    }
  }

  lemma WalkStep(s: State, w: bool, ok: bool, now: int, hz: nat)
    requires WalkInv(s, w, ok) && s.Queue(w) != []
    ensures s.Queue(w)[0] in s.reqs
    ensures WalkInv(ServeHead(s, w, ok, now, hz), w, ok)
    ensures NoStall(ServeHead(s, w, ok, now, hz))
    ensures Weight(ServeHead(s, w, ok, now, hz).reqs, ServeHead(s, w, ok, now, hz).Queue(w)) < Weight(s.reqs, s.Queue(w))
    ensures |s.Queue(w)| == 1 && !Busy(ServeHead(s, w, ok, now, hz)) ==> ServeHead(s, w, ok, now, hz).Queue(w) == []
  {
    hide Core, Kick, Route, Detach, MarkDone, Stamp, NoStall, CompleteSeq, Earned;
    var r := s.Queue(w)[0];
    ServeHeadEarns(s, w, ok, r);
    var bits := StageBit(StageOf(s.reqs, r));
    CompleteSeqKeeps(s, r, bits, ok, now, hz, {}, {});
    CompleteSeqFrame(s, w, r, bits, ok, now, hz);
    WalkTail(s, w, ok, now, hz);
  }

  lemma WalkTail(s: State, w: bool, ok: bool, now: int, hz: nat)
    requires WalkInv(s, w, ok) && s.Queue(w) != []
    ensures s.Queue(w)[0] in s.reqs
    ensures var t := ServeHead(s, w, ok, now, hz);
            && (ok ==> forall p :: p in t.Queue(w) && p in t.reqs ==> Flushed(t.log, Threshold(t.reqs[p]), |t.log|))
            && Weight(t.reqs, t.Queue(w)) < Weight(s.reqs, s.Queue(w))
  {
    hide Kick, Route, Detach, MarkDone, Stamp, CompleteSeq, DeviceOk, Chronicle, FlightOk, Durable, Flushed;
    var l := s.Queue(w);
    var r := l[0];
    ServeHeadEarns(s, w, ok, r);
    var bits := StageBit(StageOf(s.reqs, r));
    CompleteSeqFrame(s, w, r, bits, ok, now, hz);
    var t := ServeHead(s, w, ok, now, hz);
    assert Remove(l, r) == l[1..];
    forall p | p in l[1..]
      ensures p in s.reqs && p != r
    {
      var i :| 1 <= i < |l| && l[i] == p;
      assert p in s.Queue(w);
    }
    assert l == [r] + l[1..];
    WeightFrame(s.reqs, t.reqs, l[1..]);
    WeightAppend(t.reqs, l[1..], r);
    assert l[1..] + [] == l[1..];
    assert Weight(s.reqs, l) == (if StageOf(s.reqs, r) == Preflush then 2 else 1) + Weight(s.reqs, l[1..]);
    assert Current(t.reqs[r].done) != Preflush;
    if ok {
      forall p | p in t.Queue(w) && p in t.reqs
        ensures Flushed(t.log, Threshold(t.reqs[p]), |t.log|)
      {
        assert p in l;
        FlushedPrefix(s.log, t.log, Threshold(s.reqs[p]));
      }
    }
  }

  /** The list_for_each_entry_safe() loop: the next entry is fixed before the body, every entry served
      leaves the front, so the walk ends after serving an entry that was alone on the list. */
  ghost function Walk(s: State, w: bool, ok: bool, now: int, hz: nat): State
    requires WalkInv(s, w, ok)
    decreases Weight(s.reqs, s.Queue(w))
  {
    if s.Queue(w) == [] then s
    else
      WalkStep(s, w, ok, now, hz);
      var t := ServeHead(s, w, ok, now, hz);
      if |s.Queue(w)| == 1 then t else Walk(t, w, ok, now, hz)
  }

  /** The walk ends with the step-end invariant. */
  lemma {:induction false} WalkKeeps(s: State, w: bool, ok: bool, now: int, hz: nat)
    requires WalkInv(s, w, ok) && s.Queue(w) != []
    ensures Inv(Walk(s, w, ok, now, hz))
    decreases Weight(s.reqs, s.Queue(w))
  {
    hide Core, Kick, Route, Detach, MarkDone, Stamp, ServeHead, CompleteSeq, Threshold, Flushed, Earned;
    WalkStep(s, w, ok, now, hz);
    var t := ServeHead(s, w, ok, now, hz);
    if |s.Queue(w)| > 1 {
      ServeHeadLength(s, w, ok, now, hz);
      WalkKeeps(t, w, ok, now, hz);
    } else if !Busy(t) {
      assert t.pendingIdx == !w;
    }
  }

  lemma ServeHeadLength(s: State, w: bool, ok: bool, now: int, hz: nat)
    requires WalkInv(s, w, ok) && s.Queue(w) != [] && s.Queue(w)[0] in s.reqs
    ensures |ServeHead(s, w, ok, now, hz).Queue(w)| >= |s.Queue(w)| - 1
  {
    hide Core, Kick, Route, Detach, MarkDone, Stamp, CompleteSeq, Threshold, Flushed, Earned;
    var r := s.Queue(w)[0];
    ServeHeadEarns(s, w, ok, r);
    CompleteSeqFrame(s, w, r, StageBit(StageOf(s.reqs, r)), ok, now, hz);
  }

  /** Bits of a over bits of b. */
  predicate Covers(a: Mask, b: Mask) { (b.pre ==> a.pre) && (b.data ==> a.data) && (b.post ==> a.post) }

  /** Served by a flush: the stage waited for is recorded, and on an error the request is over. */
  predicate Advanced(reqs: Requests, reqs': Requests, r: Rq, ok: bool)
  {
    && r in reqs && r in reqs'
    && Covers(reqs'[r].done, Or(reqs[r].done, StageBit(StageOf(reqs, r))))
    && (!ok ==> reqs'[r].status == Finished)
  }

  /** Every request that waited on the walked list has moved past the stage it waited for. */
  lemma {:induction false} WalkAdvances(s: State, w: bool, ok: bool, now: int, hz: nat, r: Rq)
    requires WalkInv(s, w, ok) && r in s.reqs
    ensures var t := Walk(s, w, ok, now, hz);
            && r in t.reqs && Covers(t.reqs[r].done, s.reqs[r].done)
            && (s.reqs[r].status == Finished ==> t.reqs[r].status == Finished)
            && (r in s.Queue(w) ==> Advanced(s.reqs, t.reqs, r, ok))
    decreases Weight(s.reqs, s.Queue(w))
  {
    hide Core, Kick, Route, Detach, MarkDone, Stamp, CompleteSeq, Threshold, Flushed, Earned;
    var l := s.Queue(w);
    if l != [] {
      WalkStep(s, w, ok, now, hz);
      ServeHeadEarns(s, w, ok, l[0]);
      CompleteSeqFrame(s, w, l[0], StageBit(StageOf(s.reqs, l[0])), ok, now, hz);
      var t := ServeHead(s, w, ok, now, hz);
      assert r in l && r != l[0] ==> r in l[1..];
      if |l| > 1 {
        WalkAdvances(t, w, ok, now, hz, r);
      }
    }
  }

  // ----- flush_end_io()

  function FlushLanded(s: State, ok: bool): State
    requires s.flushes > 0
  {
    s.(driver := s.driver - {FlushItem}, runningIdx := !s.runningIdx, log := s.log + [FlushDone(s.flushes - 1, ok)])
  }

  lemma FlushLandedServes(s: State, ok: bool)
    requires Inv(s) && FlushItem in s.driver
    ensures s.flushes > 0 && Busy(s) && s.Queue(s.runningIdx) != []
    ensures WalkInv(FlushLanded(s, ok), s.runningIdx, ok)
  {
    hide Durable, Earned, Chronicle, FlightOk;
    assert Busy(s);
    assert FlightOk(s.log, s.flushes, s.issuedAt, true);
    var e := InFlight(s.log, s.flushes, s.issuedAt, ok);
    var t := FlushLanded(s, ok);
    FlightLands(s.log, s.flushes, s.issuedAt, ok);
    ChronicleGrows(s.reqs, s.log, e);
    AllEarnedGrows(s.reqs, s.log, e, {});
    DurableGrows(s.log, e);
    if ok {
      forall r | r in t.Queue(s.runningIdx) && r in t.reqs
        ensures Flushed(t.log, Threshold(t.reqs[r]), |t.log|)
      {
        assert FlushSpan(t.log[s.issuedAt], t.log[|s.log|]);
      }
    }
  }

  lemma InFlight(log: seq<Event>, flushes: nat, issuedAt: nat, ok: bool) returns (e: Event)
    requires FlightOk(log, flushes, issuedAt, true)
    ensures flushes > 0 && issuedAt < |log| && log[issuedAt] == FlushIssued(flushes - 1) && e == FlushDone(flushes - 1, ok)
  {
    e := FlushDone(flushes - 1, ok);
  }

  ghost function FlushEndIo(s: State, ok: bool, now: int, hz: nat): State
    requires Inv(s) && FlushItem in s.driver
  {
    FlushLandedServes(s, ok);
    Walk(FlushLanded(s, ok), s.runningIdx, ok, now, hz)
  }

  /** The completion of a flush keeps the invariant and moves on every request it served. */
  lemma FlushEndIoKeeps(s: State, ok: bool, now: int, hz: nat)
    requires Inv(s) && FlushItem in s.driver
    ensures Inv(FlushEndIo(s, ok, now, hz))
    ensures forall r :: r in s.Queue(s.runningIdx) ==> Advanced(s.reqs, FlushEndIo(s, ok, now, hz).reqs, r, ok)
  {
    hide Core, Walk, Threshold, Flushed, NoStall;
    FlushLandedServes(s, ok);
    var t := FlushLanded(s, ok);
    WalkKeeps(t, s.runningIdx, ok, now, hz);
    forall r | r in s.Queue(s.runningIdx)
      ensures Advanced(s.reqs, FlushEndIo(s, ok, now, hz).reqs, r, ok)
    {
      WaitersKnown(s, r);
      WalkAdvances(t, s.runningIdx, ok, now, hz, r);
    }
  }

  lemma WaitersKnown(s: State, r: Rq)
    requires Core(s, {}, {}) && (r in s.q0 || r in s.q1)
    ensures r in s.reqs
  {
  }

  // ----- flush_data_end_io()

  function DataLanded(s: State, r: Rq, ok: bool): State
    requires r in s.reqs
  {
    s.(driver := s.driver - {DataItem(r)},
       reqs := s.reqs[r := s.reqs[r].(dataEnd := |s.log|)],
       log := s.log + [DataDone(r, ok)])
  }

  function DataEndIo(s: State, r: Rq, ok: bool, now: int, hz: nat): State
    requires r in s.reqs
  {
    CompleteSeq(DataLanded(s, r, ok), r, StageBit(Payload), ok, now, hz)
  }

  lemma DataLandedLists(reqs: Requests, q0: seq<Rq>, q1: seq<Rq>, data: seq<Rq>, r: Rq, n: nat)
    requires ListsOk(reqs, q0, q1, data, {}) && r in reqs
    ensures ListsOk(reqs[r := reqs[r].(dataEnd := n)], q0, q1, data, {})
  {
    var reqs' := reqs[r := reqs[r].(dataEnd := n)];
    assert forall p :: p in reqs' <==> p in reqs;
    assert forall p :: p in reqs ==> (Live(reqs', p) <==> Live(reqs, p)) && StageOf(reqs', p) == StageOf(reqs, p);
  }

  lemma DataLandedKeeps(s: State, r: Rq, ok: bool)
    requires Core(s, {}, {}) && DataItem(r) in s.driver && Live(s.reqs, r) && StageOf(s.reqs, r) == Payload && r in s.data
    ensures Core(DataLanded(s, r, ok), {}, {r})
    ensures ok ==> var q := DataLanded(s, r, ok).reqs[r];
                   Earned(DataLanded(s, r, ok).log, r, q.(done := Or(q.done, StageBit(Payload))))
  {
    hide Durable, FlightOk, Chronicle;
    var e := DataDone(r, ok);
    var t := DataLanded(s, r, ok);
    DataLandedLists(s.reqs, s.q0, s.q1, s.data, r, |s.log|);
    FlightGrows(s.log, s.flushes, s.issuedAt, Busy(s), e);
    DurableGrows(s.log, e);
    DataLandedChronicle(s.reqs, s.log, r, ok);
    assert Earned(s.log, r, s.reqs[r]);
    forall p | p in t.reqs && Live(t.reqs, p)
      ensures Earned(t.log, p, t.reqs[p])
    {
      EarnedGrows(s.log, e, p, s.reqs[p]);
    }
    assert t.log[|s.log|] == e;
    if Busy(s) {
      assert forall p :: p in s.Queue(s.runningIdx) ==> p != r;
    }
  }

  lemma DataLandedChronicle(reqs: Requests, log: seq<Event>, r: Rq, ok: bool)
    requires Chronicle(reqs, log) && r in reqs
    ensures Chronicle(reqs[r := reqs[r].(dataEnd := |log|)], log + [DataDone(r, ok)])
  {
    var reqs' := reqs[r := reqs[r].(dataEnd := |log|)];
    ChronicleGrows(reqs, log, DataDone(r, ok));
    EventsStayKnown(reqs, reqs', log + [DataDone(r, ok)]);
  }

  lemma DataEndIoKeeps(s: State, r: Rq, ok: bool, now: int, hz: nat)
    requires Inv(s) && DataItem(r) in s.driver
    ensures Live(s.reqs, r) && StageOf(s.reqs, r) == Payload
    ensures Inv(DataEndIo(s, r, ok, now, hz))
  {
    hide Core, Earned, CompleteSeq, NoStall;
    DataItemsLive(s, r);
    var t := DataLanded(s, r, ok);
    DataLandedKeeps(s, r, ok);
    CompleteSeqKeeps(t, r, StageBit(Payload), ok, now, hz, {}, {r});
    CompleteSeqFrame(t, !s.pendingIdx, r, StageBit(Payload), ok, now, hz);
    RemoveAbsent(t.Queue(!s.pendingIdx), r);
  }

  lemma DataItemsLive(s: State, r: Rq)
    requires Core(s, {}, {}) && DataItem(r) in s.driver
    ensures r in s.data && Live(s.reqs, r) && StageOf(s.reqs, r) == Payload && r !in s.q0 && r !in s.q1
  {
  }

  // ----- blk_insert_flush()

  function Admit(s: State, r: Rq, a: Ask): State
  {
    s.(reqs := s.reqs[r := Request(a, Policy(a), NoSteps, |s.log|, |s.log|, Sequenced)], log := s.log + [Inserted(r, a, Policy(a))])
  }

  function InsertFlush(s: State, r: Rq, a: Ask, now: int, hz: nat): State
  {
    var policy := Policy(a);
    if policy == NoSteps then
      s.(reqs := s.reqs[r := Request(a, policy, NoSteps, |s.log|, |s.log|, Finished)],
         log := s.log + [Inserted(r, a, policy)] + [Ended(r, true)])
    else if policy.data && !policy.pre && !policy.post then
      s.(reqs := s.reqs[r := Request(a, policy, NoSteps, |s.log|, |s.log|, Direct)],
         dispatch := s.dispatch + [DirectItem(r)],
         log := s.log + [Inserted(r, a, policy)] + [DataQueued(r, DriverFlags(a))])
    else
      CompleteSeq(Admit(s, r, a), r, Not(policy), true, now, hz)
  }

  /** A request that bypassed the sequence completes. */
  function DirectEndIo(s: State, r: Rq, ok: bool): State
    requires r in s.reqs
  {
    s.(driver := s.driver - {DirectItem(r)},
       reqs := s.reqs[r := s.reqs[r].(status := Finished)],
       log := s.log + [DataDone(r, ok)] + [Ended(r, ok)])
  }

  lemma NewLists(reqs: Requests, q0: seq<Rq>, q1: seq<Rq>, data: seq<Rq>, r: Rq, q: Request)
    requires ListsOk(reqs, q0, q1, data, {}) && r !in reqs
    ensures ListsOk(reqs[r := q], q0, q1, data, {r})
    ensures q.status != Sequenced ==> ListsOk(reqs[r := q], q0, q1, data, {})
  {
    var reqs' := reqs[r := q];
    assert forall p :: p in reqs' && p != r ==> p in reqs && reqs'[p] == reqs[p];
    assert ListsOk(reqs, q0, q1, data, {r});
    UpdateLists(reqs, q0, q1, data, r, q);
  }

  lemma NewChronicle(reqs: Requests, log: seq<Event>, r: Rq, q: Request)
    requires Chronicle(reqs, log) && r !in reqs && q.born == |log| && q.status == Sequenced
    ensures Chronicle(reqs[r := q], log + [Inserted(r, q.ask, q.policy)])
  {
    var reqs' := reqs[r := q];
    var e := Inserted(r, q.ask, q.policy);
    EventsStayKnown(reqs, reqs', log);
    assert (log + [e])[|log|] == e;
    forall p | p in reqs' && reqs'[p].status == Finished
      ensures HasEnded(log + [e], p)
    {
      HasEndedGrows(log, e, p);
    }
  }

  /** Adding a request that is on no list yet. */
  lemma NewKeeps(s: State, r: Rq, a: Ask, policy: Mask)
    requires Core(s, {}, {}) && r !in s.reqs
    ensures var q := Request(a, policy, NoSteps, |s.log|, |s.log|, Sequenced);
            Core(s.(reqs := s.reqs[r := q], log := s.log + [Inserted(r, a, policy)]), {r}, {r})
  {
    hide Durable, FlightOk, Chronicle, Earned;
    var q := Request(a, policy, NoSteps, |s.log|, |s.log|, Sequenced);
    var e := Inserted(r, a, policy);
    var t := s.(reqs := s.reqs[r := q], log := s.log + [e]);
    NewLists(s.reqs, s.q0, s.q1, s.data, r, q);
    NewChronicle(s.reqs, s.log, r, q);
    FlightGrows(s.log, s.flushes, s.issuedAt, Busy(s), e);
    DurableGrows(s.log, e);
    AllEarnedGrows(s.reqs, s.log, e, {});
    assert forall p :: p in t.reqs && p != r ==> p in s.reqs && t.reqs[p] == s.reqs[p];
    assert AllEarned(t.reqs, t.log, {r});
    NewDevice(s.reqs, s.dispatch, s.driver, s.data, Busy(s), r, q);
    if Busy(s) {
      assert forall p :: p in s.Queue(s.runningIdx) ==> p != r;
    }
  }

  lemma NewDevice(reqs: Requests, dispatch: seq<Item>, driver: set<Item>, data: seq<Rq>, busy: bool, r: Rq, q: Request)
    requires DeviceOk(reqs, dispatch, driver, data, busy, {}) && r !in reqs && r !in data && q.status != Direct
    ensures DeviceOk(reqs[r := q], dispatch, driver, data, busy, {r}) && DirectItem(r) !in dispatch && DirectItem(r) !in driver
  {
  }

  lemma InsertFlushKeeps(s: State, r: Rq, a: Ask, now: int, hz: nat)
    requires Inv(s) && r !in s.reqs
    ensures Inv(InsertFlush(s, r, a, now, hz))
  {
    var policy := Policy(a);
    if policy == NoSteps {
      InsertEmptyKeeps(s, r, a);
    } else if policy.data && !policy.pre && !policy.post {
      InsertDirectKeeps(s, r, a, policy);
    } else {
      InsertSequencedKeeps(s, r, a, now, hz);
    }
  }

  /** A request on no list that leaves the sequence keeps everything but the history in order. */
  lemma OffLists(u: State, t: State, r: Rq)
    requires Core(u, {r}, {r}) && Live(u.reqs, r)
    requires r in t.reqs && t.reqs == u.reqs[r := t.reqs[r]] && t.reqs[r].status != Sequenced
    requires t.q0 == u.q0 && t.q1 == u.q1 && t.data == u.data && t.pendingIdx == u.pendingIdx && t.runningIdx == u.runningIdx && t.issuedAt == u.issuedAt
    ensures ListsOk(t.reqs, t.q0, t.q1, t.data, {}) && AllEarned(t.reqs, u.log, {}) && r !in t.data
    ensures Busy(t) ==> ServesOk(t.reqs, t.Queue(t.runningIdx), t.issuedAt)
  {
    hide Durable, FlightOk, Chronicle, Earned, DeviceOk;
    UpdateLists(u.reqs, u.q0, u.q1, u.data, r, t.reqs[r]);
    EndLists(t.reqs, u.q0, u.q1, u.data, r);
    assert forall p :: p in t.reqs && p != r ==> p in u.reqs && t.reqs[p] == u.reqs[p];
    if Busy(u) {
      assert forall p :: p in u.Queue(u.runningIdx) ==> p != r;
    }
  }

  lemma InsertEmptyKeeps(s: State, r: Rq, a: Ask)
    requires Inv(s) && r !in s.reqs
    ensures Inv(s.(reqs := s.reqs[r := Request(a, NoSteps, NoSteps, |s.log|, |s.log|, Finished)],
                   log := s.log + [Inserted(r, a, NoSteps)] + [Ended(r, true)]))
  {
    hide Durable, FlightOk, Chronicle, Earned, ListsOk, ServesOk, AllEarned;
    NewKeeps(s, r, a, NoSteps);
    var q := Request(a, NoSteps, NoSteps, |s.log|, |s.log|, Sequenced);
    var u := s.(reqs := s.reqs[r := q], log := s.log + [Inserted(r, a, NoSteps)]);
    var q' := q.(status := Finished);
    var e := Ended(r, true);
    var t := u.(reqs := u.reqs[r := q'], log := u.log + [e]);
    assert t.reqs == s.reqs[r := q'];
    OffLists(u, t, r);
    EndChronicle(u.reqs, u.log, r, q', true);
    AllEarnedGrows(t.reqs, u.log, e, {});
    FlightGrows(u.log, u.flushes, u.issuedAt, Busy(u), e);
    EmptyOwed(u.reqs, u.log, r);
    DurableGrows(u.log, e);
  }

  lemma EmptyOwed(reqs: Requests, log: seq<Event>, r: Rq)
    requires Chronicle(reqs, log) && r in reqs && reqs[r].policy == NoSteps && reqs[r].status != Finished
    ensures !HasEnded(log, r)
    ensures forall b :: 0 <= b < |log| && log[b].Inserted? && log[b].rq == r ==> Owed(log + [Ended(r, true)], b, |log|)
  {
  }

  lemma InsertDirectKeeps(s: State, r: Rq, a: Ask, policy: Mask)
    requires Inv(s) && r !in s.reqs && policy == Mask(false, true, false)
    ensures Inv(s.(reqs := s.reqs[r := Request(a, policy, NoSteps, |s.log|, |s.log|, Direct)],
                   dispatch := s.dispatch + [DirectItem(r)],
                   log := s.log + [Inserted(r, a, policy)] + [DataQueued(r, DriverFlags(a))]))
  {
    hide Durable, FlightOk, Chronicle, Earned, ListsOk, ServesOk, AllEarned;
    NewKeeps(s, r, a, policy);
    var q := Request(a, policy, NoSteps, |s.log|, |s.log|, Sequenced);
    var u := s.(reqs := s.reqs[r := q], log := s.log + [Inserted(r, a, policy)]);
    var q' := q.(status := Direct);
    var e := DataQueued(r, DriverFlags(a));
    var t := u.(reqs := u.reqs[r := q'], dispatch := s.dispatch + [DirectItem(r)], log := u.log + [e]);
    assert t.reqs == s.reqs[r := q'];
    OffLists(u, t, r);
    StatusChronicle(u.reqs, u.log, r, q');
    ChronicleGrows(t.reqs, u.log, e);
    AllEarnedGrows(t.reqs, u.log, e, {});
    FlightGrows(u.log, u.flushes, u.issuedAt, Busy(u), e);
    NotPre(u.reqs, u.log, r);
    DurableGrows(u.log, e);
    DirectDevice(u.reqs, u.dispatch, u.driver, u.data, Busy(u), r, q');
  }

  lemma StatusChronicle(reqs: Requests, log: seq<Event>, r: Rq, q: Request)
    requires Chronicle(reqs, log) && r in reqs && reqs[r].status != Finished && q == reqs[r].(status := q.status)
    requires q.status == Direct && q.policy == Mask(false, true, false)
    ensures Chronicle(reqs[r := q], log)
  {
    EventsStayKnown(reqs, reqs[r := q], log);
  }

  lemma NotPre(reqs: Requests, log: seq<Event>, r: Rq)
    requires Chronicle(reqs, log) && r in reqs && !reqs[r].policy.pre
    ensures forall b :: 0 <= b < |log| && log[b].Inserted? && log[b].rq == r ==> !log[b].policy.pre
  {
  }

  lemma DirectDevice(reqs: Requests, dispatch: seq<Item>, driver: set<Item>, data: seq<Rq>, busy: bool, r: Rq, q: Request)
    requires DeviceOk(reqs, dispatch, driver, data, busy, {r}) && r in reqs && reqs[r].status != Direct && r !in data && q.status == Direct
    ensures DeviceOk(reqs[r := q], dispatch + [DirectItem(r)], driver, data, busy, {})
  {
    AppendMembers(dispatch, DirectItem(r));
  }

  lemma InsertSequencedKeeps(s: State, r: Rq, a: Ask, now: int, hz: nat)
    requires Inv(s) && r !in s.reqs && (Policy(a).pre || Policy(a).post)
    ensures Inv(CompleteSeq(Admit(s, r, a), r, Not(Policy(a)), true, now, hz))
  {
    hide Core, CompleteSeq, NoStall, Policy;
    NewKeeps(s, r, a, Policy(a));
    var t := Admit(s, r, a);
    AdmittedOffLists(s, r, a);
    CompleteSeqKeeps(t, r, Not(Policy(a)), true, now, hz, {r}, {r});
    CompleteSeqFrame(t, !s.pendingIdx, r, Not(Policy(a)), true, now, hz);
    RemoveAbsent(t.Queue(!s.pendingIdx), r);
  }

  lemma AdmittedOffLists(s: State, r: Rq, a: Ask)
    requires Core(Admit(s, r, a), {r}, {r})
    ensures r !in s.q0 && r !in s.q1
  {
  }

  // ----- requests that bypass the sequence

  lemma DirectEndIoKeeps(s: State, r: Rq, ok: bool)
    requires Inv(s) && DirectItem(r) in s.driver
    ensures r in s.reqs && s.reqs[r].status == Direct && Inv(DirectEndIo(s, r, ok))
  {
    hide Durable, FlightOk, Chronicle, Earned, ListsOk, ServesOk, AllEarned;
    assert r in s.reqs && s.reqs[r].status == Direct;
    var e, f := DataDone(r, ok), Ended(r, ok);
    var q := s.reqs[r].(status := Finished);
    var u := s.(log := s.log + [e]);
    var t := DirectEndIo(s, r, ok);
    assert t.log == u.log + [f];
    ChronicleGrows(s.reqs, s.log, e);
    FlightGrows(s.log, s.flushes, s.issuedAt, Busy(s), e);
    DurableGrows(s.log, e);
    AllEarnedGrows(s.reqs, s.log, e, {});
    EndChronicle(s.reqs, u.log, r, q, ok);
    FlightGrows(u.log, s.flushes, s.issuedAt, Busy(s), f);
    DirectOwed(s.reqs, s.log, r, ok);
    DurableGrows(u.log, f);
    DirectDone(s, r, q, u.log);
    AllEarnedGrows(t.reqs, u.log, f, {});
  }

  lemma DirectOwed(reqs: Requests, log: seq<Event>, r: Rq, ok: bool)
    requires Chronicle(reqs, log) && r in reqs && reqs[r].status == Direct
    ensures var l := log + [DataDone(r, ok)];
            && !HasEnded(l, r)
            && (ok ==> forall b :: 0 <= b < |l| && l[b].Inserted? && l[b].rq == r ==> Owed(l + [Ended(r, ok)], b, |l|))
  {
    var l := log + [DataDone(r, ok)];
    var m := l + [Ended(r, ok)];
    assert m[|log|] == DataDone(r, ok);
    forall i | 0 <= i < |l| && l[i].Ended?
      ensures l[i].rq != r
    {
      assert EventKnown(reqs, log[i]);
    }
  }

  /** Lists and waiters do not know the request. */
  lemma DirectDone(s: State, r: Rq, q: Request, log: seq<Event>)
    requires ListsOk(s.reqs, s.q0, s.q1, s.data, {}) && AllEarned(s.reqs, log, {})
    requires r in s.reqs && s.reqs[r].status == Direct && q == s.reqs[r].(status := Finished)
    requires DeviceOk(s.reqs, s.dispatch, s.driver, s.data, Busy(s), {}) && DirectItem(r) in s.driver
    requires Busy(s) ==> ServesOk(s.reqs, s.Queue(s.runningIdx), s.issuedAt)
    ensures ListsOk(s.reqs[r := q], s.q0, s.q1, s.data, {}) && AllEarned(s.reqs[r := q], log, {})
    ensures DeviceOk(s.reqs[r := q], s.dispatch, s.driver - {DirectItem(r)}, s.data, Busy(s), {})
    ensures Busy(s) ==> ServesOk(s.reqs[r := q], s.Queue(s.runningIdx), s.issuedAt)
  {
    hide Earned;
    assert ListsOk(s.reqs, s.q0, s.q1, s.data, {r});
    UpdateLists(s.reqs, s.q0, s.q1, s.data, r, q);
    EndLists(s.reqs[r := q], s.q0, s.q1, s.data, r);
    var reqs := s.reqs[r := q];
    forall p | p in reqs && Live(reqs, p)
      ensures Earned(log, p, reqs[p])
    {
      assert p != r && Live(s.reqs, p);
    }
  }

  // ----- every run

  datatype Action =
    | Insert(rq: Rq, ask: Ask)
    | Fetch                       // the driver takes the head of the dispatch queue
    | EndFlush(ok: bool)
    | EndData(rq: Rq, ok: bool)
    | EndDirect(rq: Rq, ok: bool)

  /** A submitter hands in each request once; the device completes only what it has fetched. */
  predicate Enabled(s: State, a: Action)
  {
    match a
    case Insert(r, _) => r !in s.reqs
    case Fetch => s.dispatch != []
    case EndFlush(_) => FlushItem in s.driver
    case EndData(r, _) => DataItem(r) in s.driver
    case EndDirect(r, _) => DirectItem(r) in s.driver
  }

  ghost function Step(s: State, a: Action, now: int, hz: nat): State
    requires Inv(s) && Enabled(s, a)
  {
    match a
    case Insert(r, a) => InsertFlush(s, r, a, now, hz)
    case Fetch => s.(dispatch := s.dispatch[1..], driver := s.driver + {s.dispatch[0]})
    case EndFlush(ok) => FlushEndIo(s, ok, now, hz)
    case EndData(r, ok) => DataEndIoKeeps(s, r, ok, now, hz); DataEndIo(s, r, ok, now, hz)
    case EndDirect(r, ok) => DirectEndIoKeeps(s, r, ok); DirectEndIo(s, r, ok)
  }

  lemma FetchDevice(reqs: Requests, dispatch: seq<Item>, driver: set<Item>, data: seq<Rq>, busy: bool)
    requires DeviceOk(reqs, dispatch, driver, data, busy, {}) && dispatch != []
    ensures DeviceOk(reqs, dispatch[1..], driver + {dispatch[0]}, data, busy, {})
  {
    var d, e := dispatch[1..], driver + {dispatch[0]};
    assert forall i :: i in dispatch || i in driver <==> i in d || i in e by {
      assert dispatch == [dispatch[0]] + d;
    }
    assert forall i :: i in d ==> i != dispatch[0] && i in dispatch;
  }

  lemma StepKeeps(s: State, a: Action, now: int, hz: nat)
    requires Inv(s) && Enabled(s, a)
    ensures Inv(Step(s, a, now, hz))
  {
    hide InsertFlush, DataEndIo, FlushEndIo, ListsOk, Chronicle, AllEarned, FlightOk, ServesOk, Durable;
    match a
    case Insert(r, a) => InsertFlushKeeps(s, r, a, now, hz);
    case Fetch => FetchDevice(s.reqs, s.dispatch, s.driver, s.data, Busy(s));
    case EndFlush(ok) => FlushEndIoKeeps(s, ok, now, hz);
    case EndData(r, ok) => DataEndIoKeeps(s, r, ok, now, hz);
    case EndDirect(r, ok) => DirectEndIoKeeps(s, r, ok);
  }

  const Initial := State(map[], [], [], [], false, false, 0, [], {}, 0, 0, [])

  /** The state after a run of actions, each with the clock it saw; None when some action is not enabled. */
  ghost function Run(s: State, acts: seq<(Action, int)>, hz: nat): Option<State>
    requires Inv(s)
    decreases |acts|
  {
    if acts == [] then Some(s)
    else if !Enabled(s, acts[0].0) then None
    else
      StepKeeps(s, acts[0].0, acts[0].1, hz);
      Run(Step(s, acts[0].0, acts[0].1, hz), acts[1..], hz)
  }

  /** Every run keeps the invariant. */
  lemma {:induction false} RunKeeps(s: State, acts: seq<(Action, int)>, hz: nat)
    requires Inv(s)
    ensures Run(s, acts, hz).Some? ==> Inv(Run(s, acts, hz).value)
    decreases |acts|
  {
    hide Inv;
    if acts != [] && Enabled(s, acts[0].0) {
      StepKeeps(s, acts[0].0, acts[0].1, hz);
      RunKeeps(Step(s, acts[0].0, acts[0].1, hz), acts[1..], hz);
    }
  }

  /** How many of the three lists hold r. */
  function ListsHolding(s: State, r: Rq): nat
  {
    (if r in s.q0 then 1 else 0) + (if r in s.q1 then 1 else 0) + (if r in s.data then 1 else 0)
  }

  /** The guarantees of the sequencer, in every state any run can reach. */
  lemma EveryRunIsSafe(acts: seq<(Action, int)>, hz: nat)
    ensures Inv(Initial)
    ensures Run(Initial, acts, hz).Some? ==>
              var s := Run(Initial, acts, hz).value;
              && Durable(s.log)
              && OneFlushAtATime(s.log)
              && (forall r :: r in s.reqs && Live(s.reqs, r) ==>
                    ListsHolding(s, r) == 1 && (r in s.data <==> StageOf(s.reqs, r) == Payload) && StageOf(s.reqs, r) != Done)
              && (FlushItem in s.dispatch || FlushItem in s.driver <==> s.pendingIdx != s.runningIdx)
              && (s.pendingIdx == s.runningIdx ==> s.Queue(!s.pendingIdx) == [] && NoStall(s))
              && (forall r :: r in s.reqs ==> (HasEnded(s.log, r) <==> s.reqs[r].status == Finished))
  {
    hide Run, Inv;
    InitialOk();
    RunKeeps(Initial, acts, hz);
    if Run(Initial, acts, hz).Some? {
      StateIsSafe(Run(Initial, acts, hz).value);
    }
  }

  lemma InitialOk()
    ensures Inv(Initial)
  {
    hide FlightOk, Durable, AllEarned;
    var z := Initial;
    assert z.log == [] && z.reqs == map[];
    assert Durable(z.log) by { EmptyDurable(); }
    assert FlightOk(z.log, 0, 0, false) by { EmptyFlight(); }
    assert AllEarned(z.reqs, z.log, {}) by { EmptyEarned(); }
  }

  lemma StateIsSafe(s: State)
    requires Inv(s)
    ensures Durable(s.log) && OneFlushAtATime(s.log)
    ensures forall r :: r in s.reqs && Live(s.reqs, r) ==>
              ListsHolding(s, r) == 1 && (r in s.data <==> StageOf(s.reqs, r) == Payload) && StageOf(s.reqs, r) != Done
    ensures FlushItem in s.dispatch || FlushItem in s.driver <==> s.pendingIdx != s.runningIdx
    ensures s.pendingIdx == s.runningIdx ==> s.Queue(!s.pendingIdx) == [] && NoStall(s)
    ensures forall r :: r in s.reqs ==> (HasEnded(s.log, r) <==> s.reqs[r].status == Finished)
  {
    hide FlightOk, Durable, AllEarned;
    FlightIsOne(s.log, s.flushes, s.issuedAt, Busy(s));
    forall r | r in s.reqs && HasEnded(s.log, r)
      ensures s.reqs[r].status == Finished
    {
      var i :| 0 <= i < |s.log| && s.log[i].Ended? && s.log[i].rq == r;
      assert EventKnown(s.reqs, s.log[i]);
    }
  }

  lemma EmptyDurable()
    ensures Durable([])
  {
  }

  lemma EmptyFlight()
    ensures FlightOk([], 0, 0, false)
  {
  }

  lemma EmptyEarned()
    ensures AllEarned(map[], [], {})
  {
  }

  lemma FlightIsOne(log: seq<Event>, flushes: nat, issuedAt: nat, busy: bool)
    requires FlightOk(log, flushes, issuedAt, busy)
    ensures OneFlushAtATime(log)
  {
  }

  lemma DataIsOutstanding(reqs: Requests, dispatch: seq<Item>, driver: set<Item>, data: seq<Rq>, busy: bool)
    requires DeviceOk(reqs, dispatch, driver, data, busy, {})
    ensures data != [] ==> dispatch != [] || driver != {}
  {
    if data != [] {
      assert data[0] in data;
    }
  }

  /** No request is ever stranded: once the device and its queue are idle, every sequenced request is over. */
  lemma IdleMeansFinished(acts: seq<(Action, int)>, hz: nat, r: Rq)
    requires Inv(Initial) && Run(Initial, acts, hz).Some?
    requires var s := Run(Initial, acts, hz).value; s.dispatch == [] && s.driver == {} && r in s.reqs
    ensures var s := Run(Initial, acts, hz).value;
            s.reqs[r].status == Finished && HasEnded(s.log, r)
  {
    hide Run, FlightOk, Durable, AllEarned;
    RunKeeps(Initial, acts, hz);
    var s := Run(Initial, acts, hz).value;
    assert !Busy(s);
    DataIsOutstanding(s.reqs, s.dispatch, s.driver, s.data, Busy(s));
  }
}
