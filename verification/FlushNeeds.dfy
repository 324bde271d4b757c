/**
 What the sequencer guarantees a submitter, in terms of the flags handed in: stable storage where it is asked for, and no
 waiting where it is not.
 */
module FlushNeeds {
  import opened Lists
  import opened Flush
  import opened FlushInvariant
  import opened FlushRuns

  // ----- the promise

  /** Writes completed before position `from` are on stable storage by `to`: there is no volatile cache, or it was flushed. */
  ghost predicate Stable(a: Ask, log: seq<Event>, from: int, to: int) { !a.queue.flush || Flushed(log, from, to) }

  /** Data goes out only if there is any, with FUA if the request asks for it and the device can, and after REQ_FLUSH has
      made earlier writes stable. */
  ghost predicate DataIsSafe(log: seq<Event>, b: nat, j: nat)
    requires b < j < |log| && log[b].Inserted?
  {
    log[j].DataQueued? && log[j].rq == log[b].rq ==>
      var a := log[b].ask;
      && a.sectors > 0 && log[j].flags == Flags(false, a.rq.fua && a.queue.fua)
      && (a.rq.flush ==> Stable(a, log, b, j))
  }

  /** The data went out at i and was done at d, and is stable by j if REQ_FUA asks for that. */
  ghost predicate DataIsThere(log: seq<Event>, b: nat, i: int, d: int, j: nat)
    requires b < j < |log| && log[b].Inserted?
  {
    && b < i < d < j && log[i].DataQueued? && log[i].rq == log[b].rq && log[d] == DataDone(log[b].rq, true)
    && (log[b].ask.rq.fua ==> log[i].flags.fua || Stable(log[b].ask, log, d, j))
  }

  /** A request ends well only when everything it asked for is so. */
  ghost predicate EndIsSafe(log: seq<Event>, b: nat, j: nat)
    requires b < j < |log| && log[b].Inserted?
  {
    log[j] == Ended(log[b].rq, true) ==>
      var a := log[b].ask;
      && (a.rq.flush ==> Stable(a, log, b, j))
      && (a.sectors > 0 ==> exists i, d :: DataIsThere(log, b, i, d, j))
      && (a.sectors == 0 && a.rq.fua ==> a.queue.fua || Stable(a, log, b, j))
  }

  /** There is a cache to flush before the data, or after it because the device cannot write through. */
  predicate WantsPre(a: Ask) { a.rq.flush && a.queue.flush }

  predicate WantsPost(a: Ask) { a.rq.fua && a.queue.flush && !a.queue.fua }

  /** A request that needs no flush is given to the device, or ended, at once. */
  ghost predicate GoesAtOnce(log: seq<Event>, b: nat)
    requires b < |log| && log[b].Inserted?
  {
    !WantsPre(log[b].ask) && !WantsPost(log[b].ask) ==>
      && b + 1 < |log|
      && if log[b].ask.sectors > 0 then log[b + 1].DataQueued? && log[b + 1].rq == log[b].rq else log[b + 1] == Ended(log[b].rq, true)
  }

  // ----- what the steps keep

  ghost predicate Sent(log: seq<Event>, r: Rq, to: int)
  {
    exists i :: 0 <= i < to && i < |log| && log[i].DataQueued? && log[i].rq == r
  }

  predicate Fits(q: Request)
  {
    && (q.policy.pre <==> WantsPre(q.ask)) && (q.policy.post <==> WantsPost(q.ask)) && (q.policy.data <==> q.ask.sectors > 0)
    && (q.status == Sequenced ==> WantsPre(q.ask) || WantsPost(q.ask))
  }

  ghost predicate EventTold(reqs: Requests, log: seq<Event>, i: nat)
    requires i < |log|
  {
    match log[i]
    case DataQueued(r, flags) =>
      && r in reqs && reqs[r].born < i && reqs[r].ask.sectors > 0
      && flags == Flags(false, reqs[r].ask.rq.fua && reqs[r].ask.queue.fua)
    case DataDone(r, _) => Sent(log, r, i)
    case Inserted(r, a, p) => GoesAtOnce(log, i)
    case _ => true
  }

  ghost predicate Told(reqs: Requests, data: seq<Rq>, log: seq<Event>)
  {
    && (forall r :: r in reqs ==> Fits(reqs[r]))
    && (forall i :: 0 <= i < |log| ==> EventTold(reqs, log, i))
    && (forall r :: r in data || (r in reqs && reqs[r].status == Direct) ==> Sent(log, r, |log|))
  }

  lemma SentGrows(log: seq<Event>, e: Event, r: Rq, to: int, to': int)
    requires Sent(log, r, to) && to <= to'
    ensures Sent(log + [e], r, to')
  {
    var i :| 0 <= i < to && i < |log| && log[i].DataQueued? && log[i].rq == r;
    assert (log + [e])[i] == log[i];
  }

  /** One more event. */
  lemma ToldGrows(reqs: Requests, data: seq<Rq>, log: seq<Event>, e: Event)
    requires Told(reqs, data, log) && EventTold(reqs, log + [e], |log|)
    ensures Told(reqs, data, log + [e])
  {
    var l := log + [e];
    forall i | 0 <= i < |l|
      ensures EventTold(reqs, l, i)
    {
      if i < |log| {
        assert l[i] == log[i] && EventTold(reqs, log, i);
        if l[i].DataDone? {
          SentGrows(log, e, l[i].rq, i, i);
        } else if l[i].Inserted? && i + 1 < |log| {
          assert l[i + 1] == log[i + 1];
        }
      }
    }
    forall r | r in data || (r in reqs && reqs[r].status == Direct)
      ensures Sent(l, r, |l|)
    {
      SentGrows(log, e, r, |log|, |l|);
    }
  }

  /** Asks and births stay; a request may move on or end, or join the data list once its data was sent. */
  lemma ToldMoves(reqs: Requests, reqs': Requests, data: seq<Rq>, data': seq<Rq>, log: seq<Event>)
    requires Told(reqs, data, log)
    requires forall r :: r in reqs ==> r in reqs' && reqs'[r].ask == reqs[r].ask && reqs'[r].born == reqs[r].born
    requires forall r :: r in reqs' ==> Fits(reqs'[r]) && (reqs'[r].status == Direct ==> Sent(log, r, |log|))
    requires forall r :: r in data' ==> r in data || Sent(log, r, |log|)
    ensures Told(reqs', data', log)
  {
    forall i | 0 <= i < |log|
      ensures EventTold(reqs', log, i)
    {
      assert EventTold(reqs, log, i);
    }
  }

  lemma RouteTold(s: State, r: Rq, stage: Stage, ok: bool)
    requires Told(s.reqs, s.data, s.log) && r in s.reqs && s.reqs[r].status == Sequenced && s.reqs[r].born < |s.log|
    requires stage == Payload ==> s.reqs[r].policy.data
    ensures var t := Route(s, r, stage, ok); Told(t.reqs, t.data, t.log)
  {
    var t := Route(s, r, stage, ok);
    assert Fits(s.reqs[r]);
    match stage {
      case Preflush =>
      case Postflush =>
      case Payload =>
        var e := DataQueued(r, DriverFlags(s.reqs[r].ask));
        assert t.log[|s.log|] == e;
        ToldGrows(s.reqs, s.data, s.log, e);
        hide EventTold, Fits;
        ToldMoves(s.reqs, s.reqs, s.data, t.data, t.log);
      case Done =>
        ToldGrows(s.reqs, s.data, s.log, Ended(r, ok));
        hide EventTold;
        ToldMoves(s.reqs, t.reqs, s.data, s.data, t.log);
    }
  }

  lemma KickTold(s: State, now: int, hz: nat)
    requires Told(s.reqs, s.data, s.log)
    ensures var t := Kick(s, now, hz); Told(t.reqs, t.data, t.log)
  {
    if Kick(s, now, hz) != s {
      ToldGrows(s.reqs, s.data, s.log, FlushIssued(s.flushes));
    }
  }

  lemma {:induction false} RemoveSubset(l: seq<Rq>, r: Rq)
    ensures forall x :: x in Remove(l, r) ==> x in l
  {
    if l != [] {
      RemoveSubset(l[1..], r);
    }
  }

  lemma CompleteSeqTold(s: State, r: Rq, bits: Mask, ok: bool, now: int, hz: nat)
    requires Told(s.reqs, s.data, s.log) && Live(s.reqs, r) && s.reqs[r].born < |s.log|
    requires ok ==> Earned(s.log, r, s.reqs[r].(done := Or(s.reqs[r].done, bits)))
    ensures var t := CompleteSeq(s, r, bits, ok, now, hz); Told(t.reqs, t.data, t.log)
  {
    hide Route, Kick, Told, MarkDone, Remove;
    var stage := NextStage(Or(s.reqs[r].done, bits), ok);
    var s2 := MarkDone(Detach(Stamp(s, stage, now), r), r, bits);
    MarkTold(s, r, stage, bits, now);
    NextHasData(s, r, bits, ok);
    RouteTold(s2, r, stage, ok);
    KickTold(Route(s2, r, stage, ok), now, hz);
  }

  lemma NextHasData(s: State, r: Rq, bits: Mask, ok: bool)
    requires r in s.reqs && (ok ==> Earned(s.log, r, s.reqs[r].(done := Or(s.reqs[r].done, bits))))
    ensures NextStage(Or(s.reqs[r].done, bits), ok) == Payload ==> s.reqs[r].policy.data
  {
    hide Flushed;
  }

  lemma MarkTold(s: State, r: Rq, stage: Stage, bits: Mask, now: int)
    requires Told(s.reqs, s.data, s.log) && Live(s.reqs, r)
    ensures var t := MarkDone(Detach(Stamp(s, stage, now), r), r, bits);
            && Told(t.reqs, t.data, t.log) && t.log == s.log && r in t.reqs
            && t.reqs[r] == s.reqs[r].(done := Or(s.reqs[r].done, bits))
  {
    hide EventTold, Sent;
    var t := MarkDone(Detach(Stamp(s, stage, now), r), r, bits);
    RemoveSubset(s.data, r);
    assert Fits(s.reqs[r]);
    ToldMoves(s.reqs, t.reqs, s.data, t.data, s.log);
  }

  lemma BornInLog(s: State, r: Rq, hole: set<Rq>, loose: set<Rq>)
    requires Core(s, hole, loose) && r in s.reqs
    ensures s.reqs[r].born < |s.log|
  {
    hide Durable, FlightOk, AllEarned, DeviceOk, ListsOk;
  }

  lemma {:induction false} WalkTold(s: State, w: bool, ok: bool, now: int, hz: nat)
    requires WalkInv(s, w, ok) && Told(s.reqs, s.data, s.log)
    ensures var t := Walk(s, w, ok, now, hz); Told(t.reqs, t.data, t.log)
    decreases Weight(s.reqs, s.Queue(w))
  {
    hide Core, CompleteSeq, Threshold, Flushed, Earned, Told;
    if s.Queue(w) != [] {
      WalkStep(s, w, ok, now, hz);
      var r := s.Queue(w)[0];
      ServeHeadEarns(s, w, ok, r);
      BornInLog(s, r, {}, {});
      CompleteSeqTold(s, r, StageBit(StageOf(s.reqs, r)), ok, now, hz);
      if |s.Queue(w)| > 1 {
        WalkTold(ServeHead(s, w, ok, now, hz), w, ok, now, hz);
      }
    }
  }

  lemma FlushEndIoTold(s: State, ok: bool, now: int, hz: nat)
    requires Inv(s) && FlushItem in s.driver && Told(s.reqs, s.data, s.log)
    ensures var t := FlushEndIo(s, ok, now, hz); Told(t.reqs, t.data, t.log)
  {
    hide Inv, Walk, Flushed;
    FlushLandedServes(s, ok);
    ToldGrows(s.reqs, s.data, s.log, FlushDone(s.flushes - 1, ok));
    hide Told;
    WalkTold(FlushLanded(s, ok), s.runningIdx, ok, now, hz);
  }

  lemma DataEndIoTold(s: State, r: Rq, ok: bool, now: int, hz: nat)
    requires Inv(s) && DataItem(r) in s.driver && Told(s.reqs, s.data, s.log)
    ensures r in s.reqs
    ensures var t := DataEndIo(s, r, ok, now, hz); Told(t.reqs, t.data, t.log)
  {
    hide Core, CompleteSeq, Earned;
    DataItemsLive(s, r);
    DataLandedKeeps(s, r, ok);
    var t := DataLanded(s, r, ok);
    var e := DataDone(r, ok);
    SentGrows(s.log, e, r, |s.log|, |s.log|);
    ToldGrows(s.reqs, s.data, s.log, e);
    assert Fits(s.reqs[r]);
    hide EventTold;
    ToldMoves(s.reqs, t.reqs, s.data, s.data, t.log);
    BornInLog(t, r, {}, {r});
    hide Told;
    CompleteSeqTold(t, r, StageBit(Payload), ok, now, hz);
  }

  /** A request that is over, or with the device, as soon as it is inserted. */
  lemma InsertAtOnce(reqs: Requests, data: seq<Rq>, log: seq<Event>, r: Rq, q: Request, e: Event)
    requires Told(reqs, data, log) && r !in reqs && q.born == |log| && Fits(q) && q.status != Sequenced
    requires e == if q.ask.sectors > 0 then DataQueued(r, Flags(false, q.ask.rq.fua && q.ask.queue.fua)) else Ended(r, true)
    requires q.status == Direct ==> q.ask.sectors > 0
    ensures Told(reqs[r := q], data, log + [Inserted(r, q.ask, q.policy)] + [e])
  {
    var f := Inserted(r, q.ask, q.policy);
    var l := log + [f] + [e];
    var reqs' := reqs[r := q];
    forall i | 0 <= i < |l|
      ensures EventTold(reqs', l, i)
    {
      if i < |log| {
        assert l[i] == log[i] && EventTold(reqs, log, i);
        if l[i].DataDone? {
          SentGrows(log, f, l[i].rq, i, i);
          SentGrows(log + [f], e, l[i].rq, i, i);
        } else if l[i].Inserted? && i + 1 < |log| {
          assert l[i + 1] == log[i + 1];
        }
      } else {
        assert l[|log|] == f && l[|log| + 1] == e;
      }
    }
    forall p | p in data || (p in reqs' && reqs'[p].status == Direct)
      ensures Sent(l, p, |l|)
    {
      if p == r && q.status == Direct {
        assert l[|log| + 1].DataQueued?;
      } else {
        SentGrows(log, f, p, |log|, |log| + 1);
        SentGrows(log + [f], e, p, |log| + 1, |l|);
      }
    }
  }

  lemma InsertTold(s: State, r: Rq, a: Ask, now: int, hz: nat)
    requires Inv(s) && r !in s.reqs && Told(s.reqs, s.data, s.log)
    ensures var t := InsertFlush(s, r, a, now, hz); Told(t.reqs, t.data, t.log)
  {
    hide Inv, CompleteSeq, Told;
    var p := Policy(a);
    if p == NoSteps {
      InsertAtOnce(s.reqs, s.data, s.log, r, Request(a, p, NoSteps, |s.log|, |s.log|, Finished), Ended(r, true));
    } else if p.data && !p.pre && !p.post {
      InsertAtOnce(s.reqs, s.data, s.log, r, Request(a, p, NoSteps, |s.log|, |s.log|, Direct), DataQueued(r, DriverFlags(a)));
    } else {
      AdmitTold(s, r, a);
      AdmitEarns(s, r, a);
      CompleteSeqTold(Admit(s, r, a), r, Not(p), true, now, hz);
    }
  }

  lemma AdmitTold(s: State, r: Rq, a: Ask)
    requires r !in s.reqs && Told(s.reqs, s.data, s.log) && (Policy(a).pre || Policy(a).post)
    ensures var t := Admit(s, r, a); Told(t.reqs, t.data, t.log)
  {
    var t := Admit(s, r, a);
    assert t.log[|s.log|] == Inserted(r, a, Policy(a));
    ToldGrows(s.reqs, s.data, s.log, Inserted(r, a, Policy(a)));
    hide EventTold;
    ToldMoves(s.reqs, t.reqs, s.data, s.data, t.log);
  }

  lemma AdmitEarns(s: State, r: Rq, a: Ask)
    requires Policy(a).pre || Policy(a).post
    ensures var t := Admit(s, r, a);
            Live(t.reqs, r) && t.reqs[r].born < |t.log| && Earned(t.log, r, t.reqs[r].(done := Or(t.reqs[r].done, Not(Policy(a)))))
  {
  }

  lemma DirectEndIoTold(s: State, r: Rq, ok: bool)
    requires r in s.reqs && s.reqs[r].status == Direct && Told(s.reqs, s.data, s.log)
    ensures var t := DirectEndIo(s, r, ok); Told(t.reqs, t.data, t.log)
  {
    var t := DirectEndIo(s, r, ok);
    SentGrows(s.log, DataDone(r, ok), r, |s.log|, |s.log|);
    ToldGrows(s.reqs, s.data, s.log, DataDone(r, ok));
    ToldGrows(s.reqs, s.data, s.log + [DataDone(r, ok)], Ended(r, ok));
    assert Fits(s.reqs[r]);
    hide EventTold;
    ToldMoves(s.reqs, t.reqs, s.data, s.data, t.log);
  }

  lemma StepTold(s: State, a: Action, now: int, hz: nat)
    requires Inv(s) && Enabled(s, a) && Told(s.reqs, s.data, s.log)
    ensures var t := Step(s, a, now, hz); Told(t.reqs, t.data, t.log)
  {
    hide Inv, Told, InsertFlush, DataEndIo, FlushEndIo, DirectEndIo;
    match a
    case Insert(r, ask) => InsertTold(s, r, ask, now, hz);
    case Fetch =>
    case EndFlush(ok) => FlushEndIoTold(s, ok, now, hz);
    case EndData(r, ok) => DataEndIoTold(s, r, ok, now, hz);
    case EndDirect(r, ok) =>
      DirectEndIoKeeps(s, r, ok);
      DirectEndIoTold(s, r, ok);
  }

  lemma {:induction false} RunTold(s: State, acts: seq<(Action, int)>, hz: nat)
    requires Inv(s) && Told(s.reqs, s.data, s.log)
    ensures Run(s, acts, hz).Some? ==> var t := Run(s, acts, hz).value; Inv(t) && Told(t.reqs, t.data, t.log)
    decreases |acts|
  {
    hide Inv, Told, Step;
    if acts != [] && Enabled(s, acts[0].0) {
      StepKeeps(s, acts[0].0, acts[0].1, hz);
      StepTold(s, acts[0].0, acts[0].1, hz);
      RunTold(Step(s, acts[0].0, acts[0].1, hz), acts[1..], hz);
    }
  }

  // ----- what follows

  lemma AskIs(reqs: Requests, log: seq<Event>, b: nat)
    requires Chronicle(reqs, log) && b < |log| && log[b].Inserted?
    ensures var r := log[b].rq; r in reqs && reqs[r].born == b && log[b] == Inserted(r, reqs[r].ask, reqs[r].policy)
  {
    assert EventKnown(reqs, log[b]);
  }

  lemma DataSafe(reqs: Requests, data: seq<Rq>, log: seq<Event>, b: nat, j: nat)
    requires Chronicle(reqs, log) && Told(reqs, data, log) && DataAfterPreflush(log) && b < j < |log| && log[b].Inserted?
    ensures DataIsSafe(log, b, j)
  {
    hide Flushed;
    AskIs(reqs, log, b);
    assert EventTold(reqs, log, j) && Fits(reqs[log[b].rq]);
  }

  lemma EndSafe(reqs: Requests, data: seq<Rq>, log: seq<Event>, b: nat, j: nat)
    requires Chronicle(reqs, log) && Told(reqs, data, log) && EndsAreDurable(log) && b < j < |log| && log[b].Inserted?
    ensures EndIsSafe(log, b, j)
  {
    hide Flushed;
    var r := log[b].rq;
    AskIs(reqs, log, b);
    assert Fits(reqs[r]);
    if log[j] == Ended(r, true) {
      assert Owed(log, b, j);
      var p := log[b].policy;
      if p.data {
        var d :| b < d < j && log[d] == DataDone(r, true) && (p.post ==> Flushed(log, d, j));
        assert EventTold(reqs, log, d);
        var i :| 0 <= i < d && i < |log| && log[i].DataQueued? && log[i].rq == r;
        assert EventTold(reqs, log, i);
        assert DataIsThere(log, b, i, d, j);
      }
    }
  }

  /**
   In every state any run can reach: data goes out and requests end well only as safely as their flags and the queue's
   ask; a request that needs no flush goes at once; and one waits for a flush only if it needs that flush.
   */
  lemma EveryRunKeepsItsWord(acts: seq<(Action, int)>, hz: nat)
    ensures Inv(Initial)
    ensures Run(Initial, acts, hz).Some? ==>
              var s := Run(Initial, acts, hz).value;
              && (forall b, j :: 0 <= b < j < |s.log| && s.log[b].Inserted? ==> DataIsSafe(s.log, b, j) && EndIsSafe(s.log, b, j))
              && (forall b :: 0 <= b < |s.log| && s.log[b].Inserted? ==> GoesAtOnce(s.log, b))
              && (forall r :: r in s.reqs && Live(s.reqs, r) ==>
                    && (StageOf(s.reqs, r) == Preflush ==> WantsPre(s.reqs[r].ask))
                    && (StageOf(s.reqs, r) == Payload ==> s.reqs[r].ask.sectors > 0)
                    && (StageOf(s.reqs, r) == Postflush ==> WantsPost(s.reqs[r].ask)))
  {
    hide Run, Core;
    InitialOk();
    assert Told(map[], [], []);
    RunTold(Initial, acts, hz);
    if Run(Initial, acts, hz).Some? {
      StateKeepsItsWord(Run(Initial, acts, hz).value);
    }
  }

  lemma StateKeepsItsWord(s: State)
    requires Inv(s) && Told(s.reqs, s.data, s.log)
    ensures forall b, j :: 0 <= b < j < |s.log| && s.log[b].Inserted? ==> DataIsSafe(s.log, b, j) && EndIsSafe(s.log, b, j)
    ensures forall b :: 0 <= b < |s.log| && s.log[b].Inserted? ==> GoesAtOnce(s.log, b)
    ensures forall r :: r in s.reqs && Live(s.reqs, r) ==>
              && (StageOf(s.reqs, r) == Preflush ==> WantsPre(s.reqs[r].ask))
              && (StageOf(s.reqs, r) == Payload ==> s.reqs[r].ask.sectors > 0)
              && (StageOf(s.reqs, r) == Postflush ==> WantsPost(s.reqs[r].ask))
  {
    hide FlightOk, ListsOk, DeviceOk, ServesOk, DataAfterPreflush, EndsAreDurable, EndsOnce, Chronicle, Flushed;
    forall b, j | 0 <= b < j < |s.log| && s.log[b].Inserted?
      ensures DataIsSafe(s.log, b, j) && EndIsSafe(s.log, b, j)
    {
      DataSafe(s.reqs, s.data, s.log, b, j);
      EndSafe(s.reqs, s.data, s.log, b, j);
    }
    forall b | 0 <= b < |s.log| && s.log[b].Inserted?
      ensures GoesAtOnce(s.log, b)
    {
      assert EventTold(s.reqs, s.log, b);
    }
    forall r | r in s.reqs && Live(s.reqs, r)
      ensures Earned(s.log, r, s.reqs[r]) && Fits(s.reqs[r])
    {
    }
  }

  // ----- the order the device gets it in

  /** What a completed stage queues: the request's data ahead of all, at most one flush behind all, and nothing else. */
  lemma DataJumpsTheQueue(s: State, r: Rq, bits: Mask, ok: bool, now: int, hz: nat)
    requires Live(s.reqs, r)
    ensures var t := CompleteSeq(s, r, bits, ok, now, hz);
            && s.flushes <= t.flushes <= s.flushes + 1
            && t.dispatch == (if ok && Current(Or(s.reqs[r].done, bits)) == Payload then [DataItem(r)] else [])
                             + s.dispatch + (if t.flushes > s.flushes then [FlushItem] else [])
  {
    hide Remove, Route, Kick;
    var stage := NextStage(Or(s.reqs[r].done, bits), ok);
    var u := MarkDone(Detach(Stamp(s, stage, now), r), r, bits);
    RouteQueues(u, r, stage, ok);
    KickQueues(Route(u, r, stage, ok), now, hz);
  }

  lemma RouteQueues(s: State, r: Rq, stage: Stage, ok: bool)
    requires r in s.reqs
    ensures var t := Route(s, r, stage, ok);
            t.flushes == s.flushes && t.dispatch == (if stage == Payload then [DataItem(r)] else []) + s.dispatch
  {
  }

  lemma KickQueues(s: State, now: int, hz: nat)
    ensures var t := Kick(s, now, hz);
            && s.flushes <= t.flushes <= s.flushes + 1
            && t.dispatch == s.dispatch + (if t.flushes > s.flushes then [FlushItem] else [])
  {
  }
}
