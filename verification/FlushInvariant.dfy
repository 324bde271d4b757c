/**
 What every step of the flush sequencer keeps, and what follows for every run.
 */
module FlushInvariant {
  import opened Lists
  import opened Flush

  predicate Waits(st: Stage) { st == Preflush || st == Postflush }

  type Requests = map<Rq, Request>

  predicate Live(reqs: Requests, r: Rq) { r in reqs && reqs[r].status == Sequenced }

  function StageOf(reqs: Requests, r: Rq): Stage
    requires r in reqs
  {
    Current(reqs[r].done)
  }

  /** Each sequenced request outside `hole` is on exactly the list its lowest unset bit names. */
  ghost predicate ListsOk(reqs: Requests, q0: seq<Rq>, q1: seq<Rq>, data: seq<Rq>, hole: set<Rq>)
  {
    && NoDup(q0) && NoDup(q1) && NoDup(data)
    && (forall r :: r in q0 ==> r !in q1)
    && (forall r :: r in q0 || r in q1 ==> r !in hole && Live(reqs, r) && Waits(StageOf(reqs, r)))
    && (forall r :: r in data ==> r !in hole && Live(reqs, r) && StageOf(reqs, r) == Payload)
    && (forall r :: r in reqs && Live(reqs, r) && r !in hole ==>
          && (Waits(StageOf(reqs, r)) ==> r in q0 || r in q1)
          && (StageOf(reqs, r) == Payload ==> r in data)
          && StageOf(reqs, r) != Done)
  }

  /** One flush is outstanding exactly while the indices differ; a data item exactly while on the data list. */
  ghost predicate DeviceOk(reqs: Requests, dispatch: seq<Item>, driver: set<Item>, data: seq<Rq>, busy: bool, loose: set<Rq>)
  {
    && NoDup(dispatch)
    && (forall i :: i in dispatch ==> i !in driver)
    && (FlushItem in dispatch || FlushItem in driver <==> busy)
    && (forall r :: r in loose ==> DataItem(r) !in dispatch && DataItem(r) !in driver)
    && (forall r :: r !in loose ==> (DataItem(r) in dispatch || DataItem(r) in driver <==> r in data))
    && (forall r :: DirectItem(r) in dispatch || DirectItem(r) in driver <==> r in reqs && reqs[r].status == Direct)
  }

  /** The log position after which a flush must be issued to serve a waiting request. */
  function Threshold(q: Request): nat { if Current(q.done) == Preflush then q.born else q.dataEnd }

  predicate EventKnown(reqs: Requests, e: Event)
  {
    match e
    case Inserted(r, _, _) => r in reqs
    case FlushIssued(_) => true
    case FlushDone(_, _) => true
    case DataQueued(r, _) => r in reqs
    case DataDone(r, _) => r in reqs
    case Ended(r, _) => r in reqs && reqs[r].status == Finished
  }

  ghost predicate HasEnded(log: seq<Event>, r: Rq)
  {
    exists i :: 0 <= i < |log| && log[i].Ended? && log[i].rq == r
  }

  /** The table of requests is the one the history tells. */
  ghost predicate Chronicle(reqs: Requests, log: seq<Event>)
  {
    && (forall i :: 0 <= i < |log| ==> EventKnown(reqs, log[i]))
    && (forall i :: 0 <= i < |log| && log[i].Inserted? ==> reqs[log[i].rq].born == i)
    && (forall r :: r in reqs ==> reqs[r].born < |log| && log[reqs[r].born] == Inserted(r, reqs[r].ask, reqs[r].policy))
    && (forall r :: r in reqs && reqs[r].status == Finished ==> HasEnded(log, r))
    && (forall r :: r in reqs && reqs[r].status == Direct ==> reqs[r].policy == Mask(false, true, false))
  }

  /** What the log must already show for the bits set in a live request. */
  ghost predicate Earned(log: seq<Event>, r: Rq, q: Request)
  {
    && (q.policy.pre || q.policy.post)
    && (q.policy.pre || q.done.pre) && (q.policy.data || q.done.data) && (q.policy.post || q.done.post)
    && q.born <= q.dataEnd < |log|
    && (!q.policy.data ==> q.dataEnd == q.born)
    && (q.policy.data && q.done.data ==> q.born < q.dataEnd && log[q.dataEnd] == DataDone(r, true))
    && (q.policy.data && q.done.data ==> q.done.pre)
    && (q.policy.post && q.done.post ==> q.done.data)
    && (q.policy.pre && q.done.pre ==> Flushed(log, q.born, |log|))
    && (q.policy.post && q.done.post ==> Flushed(log, q.dataEnd, |log|))
  }

  ghost predicate AllEarned(reqs: Requests, log: seq<Event>, hole: set<Rq>)
  {
    forall r :: r in reqs && Live(reqs, r) && r !in hole ==> Earned(log, r, reqs[r])
  }

  ghost predicate FlushDoneBefore(log: seq<Event>, id: nat, a: int, b: int)
  {
    exists d :: a < d < b && 0 <= d < |log| && log[d].FlushDone? && log[d].id == id
  }

  /** C1 on the history: flush numbers grow and each flush ends before the next is issued. */
  ghost predicate OneFlushAtATime(log: seq<Event>)
  {
    forall i, j :: 0 <= i < j < |log| && log[i].FlushIssued? && log[j].FlushIssued? ==>
      log[i].id < log[j].id && FlushDoneBefore(log, log[i].id, i, j)
  }

  /** The last flush issued is the one in flight, if any; all earlier ones have completed. */
  ghost predicate FlightOk(log: seq<Event>, flushes: nat, issuedAt: nat, busy: bool)
  {
    && OneFlushAtATime(log)
    && (forall i :: 0 <= i < |log| && log[i].FlushIssued? ==>
          log[i].id < flushes && ((busy && i == issuedAt) || FlushDoneBefore(log, log[i].id, i, |log|)))
    && (busy ==> flushes > 0 && issuedAt < |log| && log[issuedAt] == FlushIssued(flushes - 1))
  }

  /** A running flush serves a non-empty list, all of whose requests asked before it was issued. */
  ghost predicate ServesOk(reqs: Requests, running: seq<Rq>, issuedAt: nat)
  {
    running != [] && forall r :: r in running && r in reqs ==> Threshold(reqs[r]) < issuedAt
  }

  predicate Busy(s: State) { s.pendingIdx != s.runningIdx }

  /** `hole` holds a request in transit between lists, `loose` one whose data item is not outstanding. */
  ghost predicate Core(s: State, hole: set<Rq>, loose: set<Rq>)
  {
    && ListsOk(s.reqs, s.q0, s.q1, s.data, hole)
    && DeviceOk(s.reqs, s.dispatch, s.driver, s.data, Busy(s), loose)
    && Chronicle(s.reqs, s.log)
    && AllEarned(s.reqs, s.log, hole)
    && FlightOk(s.log, s.flushes, s.issuedAt, Busy(s))
    && (Busy(s) ==> ServesOk(s.reqs, s.Queue(s.runningIdx), s.issuedAt))
    && Durable(s.log)
  }

  /** Nothing waits unless a flush or some data is under way. */
  predicate NoStall(s: State)
  {
    !Busy(s) && s.Queue(s.pendingIdx) != [] ==> s.data != []
  }

  /** Who waits at time now waits for a flush under way, or for data in flight and less than the timeout. */
  predicate Timely(s: State, now: int, hz: nat)
  {
    !Busy(s) && s.Queue(s.pendingIdx) != [] ==> s.data != [] && now < s.since + 5 * hz
  }

  /** The invariant at the end of every locked step. */
  ghost predicate Inv(s: State)
  {
    && Core(s, {}, {})
    && (!Busy(s) ==> s.Queue(!s.pendingIdx) == [])
    && NoStall(s)
  }

  // ----- appending to the log

  lemma FlushedGrows(log: seq<Event>, e: Event, a: int, b: int, c: int)
    requires Flushed(log, a, b) && b <= c
    ensures Flushed(log + [e], a, c)
  {
    var i, j :| a < i < j < b && 0 <= i && j < |log| && FlushSpan(log[i], log[j]);
    assert FlushSpan((log + [e])[i], (log + [e])[j]);
  }

  lemma OwedGrows(log: seq<Event>, e: Event, b: nat, j: nat)
    requires b < j < |log| && log[b].Inserted? && Owed(log, b, j)
    ensures Owed(log + [e], b, j)
  {
    var l := log + [e];
    var p := log[b].policy;
    if p.pre {
      FlushedGrows(log, e, b, j, j);
    }
    if p.data {
      var d :| b < d < j && log[d] == DataDone(log[b].rq, true) && (p.post ==> Flushed(log, d, j));
      assert l[d] == DataDone(l[b].rq, true);
      if p.post {
        FlushedGrows(log, e, d, j, j);
      }
    } else if p.post {
      FlushedGrows(log, e, b, j, j);
    }
  }

  /** The conditions under which one more event keeps the history durable. */
  lemma DurableGrows(log: seq<Event>, e: Event)
    requires Durable(log)
    requires e.DataQueued? ==>
               forall b :: 0 <= b < |log| && log[b].Inserted? && log[b].rq == e.rq && log[b].policy.pre ==> Flushed(log, b, |log|)
    requires e.Ended? ==> !HasEnded(log, e.rq)
    requires e.Ended? && e.ok ==>
               forall b :: 0 <= b < |log| && log[b].Inserted? && log[b].rq == e.rq ==> Owed(log + [e], b, |log|)
    ensures Durable(log + [e])
  {
    var l := log + [e];
    forall b, j | 0 <= b < j < |l| && l[b].Inserted? && l[j].DataQueued? && l[j].rq == l[b].rq && l[b].policy.pre
      ensures Flushed(l, b, j)
    {
      assert l[b] == log[b];
      if j == |log| {
        FlushedGrows(log, e, b, |log|, j);
      } else {
        assert l[j] == log[j];
        FlushedGrows(log, e, b, j, j);
      }
    }
    forall b, j | 0 <= b < j < |l| && l[b].Inserted? && l[j] == Ended(l[b].rq, true)
      ensures Owed(l, b, j)
    {
      assert l[b] == log[b];
      if j < |log| {
        assert l[j] == log[j];
        OwedGrows(log, e, b, j);
      }
    }
  }

  lemma EarnedGrows(log: seq<Event>, e: Event, r: Rq, q: Request)
    requires Earned(log, r, q)
    ensures Earned(log + [e], r, q)
  {
    if q.policy.pre && q.done.pre {
      FlushedGrows(log, e, q.born, |log|, |log| + 1);
    }
    if q.policy.post && q.done.post {
      FlushedGrows(log, e, q.dataEnd, |log|, |log| + 1);
    }
  }

  lemma DoneBeforeGrows(log: seq<Event>, e: Event, id: nat, a: int, b: int, c: int)
    requires FlushDoneBefore(log, id, a, b) && b <= c
    ensures FlushDoneBefore(log + [e], id, a, c)
  {
    var d :| a < d < b && 0 <= d < |log| && log[d].FlushDone? && log[d].id == id;
    assert (log + [e])[d] == log[d];
  }

  /** Events other than flush issues extend the flight bookkeeping. */
  lemma FlightGrows(log: seq<Event>, flushes: nat, issuedAt: nat, busy: bool, e: Event)
    requires FlightOk(log, flushes, issuedAt, busy) && !e.FlushIssued?
    ensures FlightOk(log + [e], flushes, issuedAt, busy)
  {
    var l := log + [e];
    forall i, j | 0 <= i < j < |l| && l[i].FlushIssued? && l[j].FlushIssued?
      ensures l[i].id < l[j].id && FlushDoneBefore(l, l[i].id, i, j)
    {
      assert l[i] == log[i] && l[j] == log[j];
      DoneBeforeGrows(log, e, l[i].id, i, j, j);
    }
    forall i | 0 <= i < |l| && l[i].FlushIssued? && !(busy && i == issuedAt)
      ensures FlushDoneBefore(l, l[i].id, i, |l|)
    {
      assert l[i] == log[i];
      DoneBeforeGrows(log, e, l[i].id, i, |log|, |l|);
    }
  }

  /** Issuing a flush while none is in flight. */
  lemma FlightIssues(log: seq<Event>, flushes: nat, issuedAt: nat)
    requires FlightOk(log, flushes, issuedAt, false)
    ensures FlightOk(log + [FlushIssued(flushes)], flushes + 1, |log|, true)
  {
    var e := FlushIssued(flushes);
    var l := log + [e];
    forall i, j | 0 <= i < j < |l| && l[i].FlushIssued? && l[j].FlushIssued?
      ensures l[i].id < l[j].id && FlushDoneBefore(l, l[i].id, i, j)
    {
      assert l[i] == log[i];
      if j < |log| {
        assert l[j] == log[j];
      }
      DoneBeforeGrows(log, e, l[i].id, i, j, j);
    }
    forall i | 0 <= i < |log| && l[i].FlushIssued?
      ensures FlushDoneBefore(l, l[i].id, i, |l|)
    {
      assert l[i] == log[i];
      DoneBeforeGrows(log, e, l[i].id, i, |log|, |l|);
    }
  }

  /** Completing the flush in flight, with or without an error. */
  lemma FlightLands(log: seq<Event>, flushes: nat, issuedAt: nat, ok: bool)
    requires FlightOk(log, flushes, issuedAt, true)
    ensures FlightOk(log + [FlushDone(flushes - 1, ok)], flushes, issuedAt, false)
  {
    var e := FlushDone(flushes - 1, ok);
    FlightGrows(log, flushes, issuedAt, true, e);
    assert (log + [e])[|log|] == e;
  }

  lemma ChronicleGrows(reqs: Requests, log: seq<Event>, e: Event)
    requires Chronicle(reqs, log) && EventKnown(reqs, e) && !e.Inserted?
    ensures Chronicle(reqs, log + [e])
  {
    forall r | r in reqs && reqs[r].status == Finished
      ensures HasEnded(log + [e], r)
    {
      HasEndedGrows(log, e, r);
    }
  }

  lemma HasEndedGrows(log: seq<Event>, e: Event, r: Rq)
    requires HasEnded(log, r)
    ensures HasEnded(log + [e], r)
  {
    var i :| 0 <= i < |log| && log[i].Ended? && log[i].rq == r;
    assert (log + [e])[i] == log[i];
  }

  lemma AllEarnedGrows(reqs: Requests, log: seq<Event>, e: Event, hole: set<Rq>)
    requires AllEarned(reqs, log, hole)
    ensures AllEarned(reqs, log + [e], hole)
  {
    forall r | r in reqs && Live(reqs, r) && r !in hole
      ensures Earned(log + [e], r, reqs[r])
    {
      EarnedGrows(log, e, r, reqs[r]);
    }
  }

  // ----- the pieces of blk_flush_complete_seq()

  lemma DetachLists(reqs: Requests, q0: seq<Rq>, q1: seq<Rq>, data: seq<Rq>, hole: set<Rq>, r: Rq)
    requires ListsOk(reqs, q0, q1, data, hole) && hole <= {r}
    ensures ListsOk(reqs, Remove(q0, r), Remove(q1, r), Remove(data, r), {r})
  {
    RemoveMembers(q0, r);
    RemoveMembers(q1, r);
    RemoveMembers(data, r);
  }

  lemma DetachDevice(reqs: Requests, dispatch: seq<Item>, driver: set<Item>, data: seq<Rq>, busy: bool, loose: set<Rq>, r: Rq)
    requires DeviceOk(reqs, dispatch, driver, data, busy, loose) && loose <= {r} && NoDup(data)
    requires r !in loose ==> r !in data
    ensures DeviceOk(reqs, dispatch, driver, Remove(data, r), busy, {r})
  {
    RemoveMembers(data, r);
  }

  lemma DetachKeeps(s: State, r: Rq, hole: set<Rq>, loose: set<Rq>)
    requires Core(s, hole, loose) && hole <= {r} && loose <= {r}
    requires r !in loose ==> r !in s.data
    requires Busy(s) ==> r !in s.Queue(s.runningIdx)
    ensures Core(Detach(s, r), {r}, {r})
  {
    DetachLists(s.reqs, s.q0, s.q1, s.data, hole, r);
    DetachDevice(s.reqs, s.dispatch, s.driver, s.data, Busy(s), loose, r);
    if Busy(s) {
      RemoveAbsent(s.Queue(s.runningIdx), r);
      assert Detach(s, r).Queue(s.runningIdx) == s.Queue(s.runningIdx);
    }
  }

  lemma UpdateLists(reqs: Requests, q0: seq<Rq>, q1: seq<Rq>, data: seq<Rq>, r: Rq, q: Request)
    requires ListsOk(reqs, q0, q1, data, {r})
    ensures ListsOk(reqs[r := q], q0, q1, data, {r})
  {
    var reqs' := reqs[r := q];
    assert forall p :: p != r && p in reqs ==> p in reqs' && reqs'[p] == reqs[p];
    forall p | p in reqs' && Live(reqs', p) && p != r
      ensures p in reqs && Live(reqs, p) && StageOf(reqs', p) == StageOf(reqs, p)
    {
    }
  }

  lemma UpdateChronicle(reqs: Requests, log: seq<Event>, r: Rq, q: Request)
    requires Chronicle(reqs, log) && r in reqs
    requires reqs[r].(done := q.done) == q
    ensures Chronicle(reqs[r := q], log)
  {
    EventsStayKnown(reqs, reqs[r := q], log);
  }

  lemma MarkDoneKeeps(s: State, r: Rq, bits: Mask)
    requires Core(s, {r}, {r}) && Live(s.reqs, r)
    ensures Core(MarkDone(s, r, bits), {r}, {r})
  {
    hide Durable, FlightOk, Earned, Chronicle;
    var t := MarkDone(s, r, bits);
    UpdateLists(s.reqs, s.q0, s.q1, s.data, r, t.reqs[r]);
    UpdateChronicle(s.reqs, s.log, r, t.reqs[r]);
    if Busy(s) {
      forall p | p in s.Queue(s.runningIdx) && p in t.reqs
        ensures Threshold(t.reqs[p]) < s.issuedAt
      {
        assert p != r;
      }
    }
  }

  lemma EventsStayKnown(reqs: Requests, reqs': Requests, log: seq<Event>)
    requires forall i :: 0 <= i < |log| ==> EventKnown(reqs, log[i])
    requires forall r :: r in reqs ==> r in reqs' && (reqs[r].status == Finished ==> reqs'[r].status == Finished)
    ensures forall i :: 0 <= i < |log| ==> EventKnown(reqs', log[i])
  {
  }

  lemma JoinLists(reqs: Requests, q0: seq<Rq>, q1: seq<Rq>, data: seq<Rq>, r: Rq, i: bool)
    requires ListsOk(reqs, q0, q1, data, {r}) && Live(reqs, r) && Waits(StageOf(reqs, r))
    ensures ListsOk(reqs, if i then q0 else q0 + [r], if i then q1 + [r] else q1, data, {})
  {
    AppendMembers(if i then q1 else q0, r);
  }

  lemma RouteToQueueKeeps(s: State, r: Rq, ok: bool)
    requires Core(s, {r}, {r}) && Live(s.reqs, r) && Waits(StageOf(s.reqs, r)) && Earned(s.log, r, s.reqs[r])
    ensures Core(Route(s, r, StageOf(s.reqs, r), ok), {}, {})
  {
    hide Durable, FlightOk, Earned, Chronicle;
    JoinLists(s.reqs, s.q0, s.q1, s.data, r, s.pendingIdx);
    var t := Route(s, r, StageOf(s.reqs, r), ok);
    if Busy(s) {
      assert t.Queue(s.runningIdx) == s.Queue(s.runningIdx);
    }
  }

  lemma JoinData(reqs: Requests, q0: seq<Rq>, q1: seq<Rq>, data: seq<Rq>, r: Rq)
    requires ListsOk(reqs, q0, q1, data, {r}) && Live(reqs, r) && StageOf(reqs, r) == Payload
    ensures ListsOk(reqs, q0, q1, data + [r], {})
  {
    AppendMembers(data, r);
  }

  lemma QueueDataItem(reqs: Requests, dispatch: seq<Item>, driver: set<Item>, data: seq<Rq>, busy: bool, r: Rq)
    requires DeviceOk(reqs, dispatch, driver, data, busy, {r}) && NoDup(data) && r !in data
    ensures DeviceOk(reqs, [DataItem(r)] + dispatch, driver, data + [r], busy, {})
  {
    PrependMembers(dispatch, DataItem(r));
    AppendMembers(data, r);
  }

  lemma RouteToDataKeeps(s: State, r: Rq, ok: bool)
    requires Core(s, {r}, {r}) && Live(s.reqs, r) && StageOf(s.reqs, r) == Payload && Earned(s.log, r, s.reqs[r])
    ensures Core(Route(s, r, Payload, ok), {}, {})
  {
    hide FlightOk, Durable;
    var e := DataQueued(r, DriverFlags(s.reqs[r].ask));
    JoinData(s.reqs, s.q0, s.q1, s.data, r);
    QueueDataItem(s.reqs, s.dispatch, s.driver, s.data, Busy(s), r);
    ChronicleGrows(s.reqs, s.log, e);
    AllEarnedGrows(s.reqs, s.log, e, {});
    FlightGrows(s.log, s.flushes, s.issuedAt, Busy(s), e);
    DurableGrows(s.log, e);
  }

  lemma OwedAtEnd(log: seq<Event>, r: Rq, q: Request)
    requires Earned(log, r, q) && Current(q.done) == Done
    requires q.born < |log| && log[q.born] == Inserted(r, q.ask, q.policy)
    ensures Owed(log + [Ended(r, true)], q.born, |log|)
  {
    var e := Ended(r, true);
    var l := log + [e];
    assert l[q.born] == log[q.born];
    if q.policy.pre {
      FlushedGrows(log, e, q.born, |log|, |log|);
    }
    if q.policy.post {
      FlushedGrows(log, e, q.dataEnd, |log|, |log|);
    }
    if q.policy.data {
      assert l[q.dataEnd] == DataDone(r, true);
    }
  }

  lemma EndLists(reqs: Requests, q0: seq<Rq>, q1: seq<Rq>, data: seq<Rq>, r: Rq)
    requires ListsOk(reqs, q0, q1, data, {r}) && r in reqs && reqs[r].status != Sequenced
    ensures ListsOk(reqs, q0, q1, data, {}) && r !in data && r !in q0 && r !in q1
  {
  }

  lemma EndDevice(reqs: Requests, dispatch: seq<Item>, driver: set<Item>, data: seq<Rq>, busy: bool, r: Rq, q: Request)
    requires DeviceOk(reqs, dispatch, driver, data, busy, {r}) && r in reqs && reqs[r].status == Sequenced
    requires q.status == Finished && r !in data
    ensures DeviceOk(reqs[r := q], dispatch, driver, data, busy, {})
  {
  }

  lemma ServesOthers(reqs: Requests, l: seq<Rq>, issuedAt: nat, r: Rq, q: Request)
    requires ServesOk(reqs, l, issuedAt) && r !in l
    ensures ServesOk(reqs[r := q], l, issuedAt)
  {
  }

  lemma EndChronicle(reqs: Requests, log: seq<Event>, r: Rq, q: Request, ok: bool)
    requires Chronicle(reqs, log) && r in reqs
    requires q.status == Finished && q.born == reqs[r].born && q.ask == reqs[r].ask && q.policy == reqs[r].policy
    ensures Chronicle(reqs[r := q], log + [Ended(r, ok)])
  {
    var e := Ended(r, ok);
    var reqs' := reqs[r := q];
    EventsStayKnown(reqs, reqs', log);
    assert (log + [e])[|log|] == e;
    forall p | p in reqs' && reqs'[p].status == Finished && p != r
      ensures HasEnded(log + [e], p)
    {
      HasEndedGrows(log, e, p);
    }
  }

  /** Ending a request: successfully only when all its bits are set and earned; on an error at once. */
  lemma RouteToEndKeeps(s: State, r: Rq, ok: bool)
    requires Core(s, {r}, {r}) && Live(s.reqs, r)
    requires ok ==> StageOf(s.reqs, r) == Done && Earned(s.log, r, s.reqs[r])
    ensures Core(Route(s, r, Done, ok), {}, {})
  {
    hide ListsOk, DeviceOk, AllEarned, ServesOk, FlightOk, Durable, Earned, Owed;
    var e := Ended(r, ok);
    var t := Route(s, r, Done, ok);
    var q := s.reqs[r].(status := Finished);
    UpdateLists(s.reqs, s.q0, s.q1, s.data, r, q);
    EndLists(t.reqs, s.q0, s.q1, s.data, r);
    EndDevice(s.reqs, s.dispatch, s.driver, s.data, Busy(s), r, q);
    if Busy(s) {
      ServesOthers(s.reqs, s.Queue(s.runningIdx), s.issuedAt, r, q);
    }
    EndChronicle(s.reqs, s.log, r, q, ok);
    EndEarned(s.reqs, s.log, r, q);
    AllEarnedGrows(t.reqs, s.log, e, {});
    FlightGrows(s.log, s.flushes, s.issuedAt, Busy(s), e);
    if ok {
      OwedAtEnd(s.log, r, s.reqs[r]);
    }
    DurableGrows(s.log, e);
  }

  lemma EndEarned(reqs: map<Rq, Request>, log: seq<Event>, r: Rq, q: Request)
    requires r in reqs && q == reqs[r].(status := Finished) && AllEarned(reqs, log, {r})
    ensures AllEarned(reqs[r := q], log, {})
  {
    hide Earned;
    var reqs' := reqs[r := q];
    forall p | p in reqs' && Live(reqs', p)
      ensures Earned(log, p, reqs'[p])
    {
      assert p != r && Live(reqs, p);
    }
  }

  lemma RouteKeeps(s: State, r: Rq, stage: Stage, ok: bool)
    requires Core(s, {r}, {r}) && Live(s.reqs, r) && stage == NextStage(s.reqs[r].done, ok)
    requires ok ==> Earned(s.log, r, s.reqs[r])
    ensures Core(Route(s, r, stage, ok), {}, {})
  {
    hide Core, Earned;
    match stage
    case Preflush => RouteToQueueKeeps(s, r, ok);
    case Postflush => RouteToQueueKeeps(s, r, ok);
    case Payload => RouteToDataKeeps(s, r, ok);
    case Done => RouteToEndKeeps(s, r, ok);
  }

  lemma KickKeeps(s: State, now: int, hz: nat)
    requires Core(s, {}, {})
    ensures Core(Kick(s, now, hz), {}, {})
    ensures NoStall(Kick(s, now, hz)) && Timely(Kick(s, now, hz), now, hz)
    ensures Kick(s, now, hz) != s ==> !Busy(s) && s.Queue(s.pendingIdx) != [] && (s.data == [] || now >= s.since + 5 * hz)
  {
    hide FlightOk, Durable, Chronicle, AllEarned;
    var t := Kick(s, now, hz);
    if t != s {
      var e := FlushIssued(s.flushes);
      AppendMembers(s.dispatch, FlushItem);
      ChronicleGrows(s.reqs, s.log, e);
      AllEarnedGrows(s.reqs, s.log, e, {});
      FlightIssues(s.log, s.flushes, s.issuedAt);
      DurableGrows(s.log, e);
      KickServes(s);
    }
  }

  /** All who wait when a flush is issued asked before it. */
  lemma KickServes(s: State)
    requires AllEarned(s.reqs, s.log, {})
    requires forall r :: r in s.Queue(s.pendingIdx) ==> Live(s.reqs, r)
    requires s.Queue(s.pendingIdx) != []
    ensures ServesOk(s.reqs, s.Queue(s.pendingIdx), |s.log|)
  {
  }

  lemma StampKeeps(s: State, stage: Stage, now: int, hole: set<Rq>, loose: set<Rq>)
    requires Core(s, hole, loose)
    ensures Core(Stamp(s, stage, now), hole, loose)
  {
    hide FlightOk, Durable, Chronicle, AllEarned;
  }

  /** blk_flush_complete_seq() keeps the core invariant and never leaves a waiter without work under way. */
  lemma CompleteSeqKeeps(s: State, r: Rq, bits: Mask, ok: bool, now: int, hz: nat, hole: set<Rq>, loose: set<Rq>)
    requires Core(s, hole, loose) && hole <= {r} && loose <= {r} && Live(s.reqs, r)
    requires r !in loose ==> r !in s.data
    requires Busy(s) ==> r !in s.Queue(s.runningIdx)
    requires ok ==> Earned(s.log, r, s.reqs[r].(done := Or(s.reqs[r].done, bits)))
    ensures Core(CompleteSeq(s, r, bits, ok, now, hz), {}, {})
    ensures NoStall(CompleteSeq(s, r, bits, ok, now, hz)) && Timely(CompleteSeq(s, r, bits, ok, now, hz), now, hz)
  {
    hide Earned, Kick, Route, NoStall, Core, Timely;
    var stage := NextStage(Or(s.reqs[r].done, bits), ok);
    var s0 := Stamp(s, stage, now);
    StampKeeps(s, stage, now, hole, loose);
    DetachKeeps(s0, r, hole, loose);
    var s1 := Detach(s0, r);
    MarkDoneKeeps(s1, r, bits);
    var s2 := MarkDone(s1, r, bits);
    RouteKeeps(s2, r, stage, ok);
    KickKeeps(Route(s2, r, stage, ok), now, hz);
  }
}
