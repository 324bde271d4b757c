/**
 bio_endio() without a lock: completions on several processors, interleaved between the test of BIO_UPTODATE and the
 atomic decrement of bi_remaining.

 The counting holds for every interleaving; the error does not: it can be lost.
 */
module BioChainRaces {
  import opened Basics
  import opened BioChain

  /** A bio_endio() in progress: at which bio, its local error, and whether it is past the flag test. */
  datatype Thread = Thread(bio: nat, error: bool, tested: bool)

  datatype RaceState = RaceState(bios: Bios, threads: seq<Thread>, ends: seq<bool>)

  datatype Move =
    | ChainNew(parent: nat)
    | Begin(bio: nat, error: bool)      // an owner enters bio_endio()
    | TestFlag(thread: nat)
    | Decrement(thread: nat)

  predicate CanMove(s: RaceState, m: Move)
  {
    match m
    case ChainNew(p) => p < |s.bios| && !s.bios[p].ended
    case Begin(n, _) => n < |s.bios| && !s.bios[n].ended
    case TestFlag(i) => i < |s.threads| && s.threads[i].bio < |s.bios| && !s.threads[i].tested
    case Decrement(i) => i < |s.threads| && s.threads[i].bio < |s.bios| && s.threads[i].tested
  }

  function Drop(threads: seq<Thread>, i: nat): seq<Thread>
    requires i < |threads|
  {
    threads[..i] + threads[i + 1..]
  }

  function Go(s: RaceState, m: Move): RaceState
    requires CanMove(s, m)
  {
    match m
    case ChainNew(p) => s.(bios := Chain(s.bios, p))
    case Begin(n, error) => s.(bios := Claim(s.bios, n, error), threads := s.threads + [Thread(n, error, false)])
    case TestFlag(i) =>
      var t := s.threads[i];
      var b := s.bios[t.bio];
      s.(bios := s.bios[t.bio := b.(uptodate := b.uptodate && !t.error)],
         threads := s.threads[i := Thread(t.bio, t.error || !b.uptodate, true)])
    case Decrement(i) =>
      var t := s.threads[i];
      var b := s.bios[t.bio];
      var bios := s.bios[t.bio := b.(remaining := b.remaining - 1, done := b.remaining == 1)];
      if b.remaining != 1 then s.(bios := bios, threads := Drop(s.threads, i))
      else if t.bio == 0 then RaceState(bios, Drop(s.threads, i), s.ends + [t.error])
      else s.(bios := bios, threads := s.threads[i := Thread(b.parent, t.error, false)])
  }

  /** Threads at bio n. */
  function At(threads: seq<Thread>, n: nat): nat
  {
    if threads == [] then 0 else (if threads[0].bio == n then 1 else 0) + At(threads[1..], n)
  }

  /** Each bio waits for its owner, its unfinished children, and the completions under way at it. */
  ghost predicate CountOk(bios: Bios, threads: seq<Thread>, n: nat)
    requires n < |bios|
  {
    var b := bios[n];
    && b.remaining == (if b.ended then 0 else 1) + OpenKids(bios, n, |bios|, -1) + At(threads, n)
    && (b.done <==> b.remaining == 0)
  }

  ghost predicate RaceInv(s: RaceState)
  {
    && Shape(s.bios)
    && (forall n :: 0 <= n < |s.bios| ==> CountOk(s.bios, s.threads, n))
    && (forall i :: 0 <= i < |s.threads| ==> s.threads[i].bio < |s.bios|)
    && |s.ends| == (if s.bios[0].done then 1 else 0)
  }

  lemma {:induction false} AtUpdate(threads: seq<Thread>, i: nat, t: Thread, n: nat)
    requires i < |threads|
    ensures At(threads[i := t], n) == At(threads, n) - (if threads[i].bio == n then 1 else 0) + (if t.bio == n then 1 else 0)
  {
    if i > 0 {
      AtUpdate(threads[1..], i - 1, t, n);
      assert threads[i := t][1..] == threads[1..][i - 1 := t];
    } else {
      assert threads[i := t][1..] == threads[1..];
    }
  }

  lemma {:induction false} AtDrop(threads: seq<Thread>, i: nat, n: nat)
    requires i < |threads|
    ensures At(Drop(threads, i), n) == At(threads, n) - (if threads[i].bio == n then 1 else 0)
  {
    if i > 0 {
      AtDrop(threads[1..], i - 1, n);
      assert Drop(threads, i)[1..] == Drop(threads[1..], i - 1);
    } else {
      assert Drop(threads, i) == threads[1..];
    }
  }

  lemma {:induction false} AtAppend(threads: seq<Thread>, t: Thread, n: nat)
    ensures At(threads + [t], n) == At(threads, n) + (if t.bio == n then 1 else 0)
  {
    if threads != [] {
      AtAppend(threads[1..], t, n);
      assert (threads + [t])[1..] == threads[1..] + [t];
    }
  }

  lemma {:induction false} AtLeast(threads: seq<Thread>, i: nat)
    requires i < |threads|
    ensures At(threads, threads[i].bio) >= 1
  {
    if i > 0 {
      AtLeast(threads[1..], i - 1);
    }
  }

  lemma {:induction false} AtNone(threads: seq<Thread>, n: nat)
    requires forall i :: 0 <= i < |threads| ==> threads[i].bio < n
    ensures At(threads, n) == 0
  {
    if threads != [] {
      AtNone(threads[1..], n);
    }
  }

  lemma ChainNewKeeps(s: RaceState, p: nat)
    requires RaceInv(s) && CanMove(s, ChainNew(p))
    ensures RaceInv(Go(s, ChainNew(p)))
  {
    var bios' := Chain(s.bios, p);
    var last := |s.bios|;
    forall n | 0 <= n < |bios'|
      ensures CountOk(bios', s.threads, n)
    {
      assert OpenKids(bios', n, last + 1, -1) == OpenKids(bios', n, last, -1) + (if n == p then 1 else 0);
      if n < last {
        assert CountOk(s.bios, s.threads, n);
        OpenFrame(s.bios, bios', n, last, -1, -1);
      } else {
        OpenNever(bios', n, last);
        AtNone(s.threads, n);
      }
    }
    assert CountOk(s.bios, s.threads, 0) && CountOk(bios', s.threads, 0);
  }

  lemma BeginKeeps(s: RaceState, n: nat, error: bool)
    requires RaceInv(s) && CanMove(s, Begin(n, error))
    ensures RaceInv(Go(s, Begin(n, error)))
  {
    var t := Go(s, Begin(n, error));
    forall m | 0 <= m < |t.bios|
      ensures CountOk(t.bios, t.threads, m)
    {
      assert CountOk(s.bios, s.threads, m);
      AtAppend(s.threads, Thread(n, error, false), m);
      OpenFrame(s.bios, t.bios, m, |s.bios|, -1, -1);
    }
  }

  lemma TestKeeps(s: RaceState, i: nat)
    requires RaceInv(s) && CanMove(s, TestFlag(i))
    ensures RaceInv(Go(s, TestFlag(i)))
  {
    var t := Go(s, TestFlag(i));
    forall m | 0 <= m < |t.bios|
      ensures CountOk(t.bios, t.threads, m)
    {
      assert CountOk(s.bios, s.threads, m);
      AtUpdate(s.threads, i, t.threads[i], m);
      OpenFrame(s.bios, t.bios, m, |s.bios|, -1, -1);
    }
  }

  /** The decrement never finds bi_remaining at or below zero. */
  lemma DecrementSafe(s: RaceState, i: nat)
    requires RaceInv(s) && i < |s.threads|
    ensures s.bios[s.threads[i].bio].remaining > 0
  {
    assert CountOk(s.bios, s.threads, s.threads[i].bio);
    AtLeast(s.threads, i);
  }

  lemma DecrementKeeps(s: RaceState, i: nat)
    requires RaceInv(s) && CanMove(s, Decrement(i))
    ensures RaceInv(Go(s, Decrement(i)))
  {
    var t := Go(s, Decrement(i));
    var n := s.threads[i].bio;
    DecrementSafe(s, i);
    assert CountOk(s.bios, s.threads, 0) && CountOk(s.bios, s.threads, n);
    hide CountOk;
    forall m | 0 <= m < |t.bios|
      ensures CountOk(t.bios, t.threads, m)
    {
      DecrementCount(s, i, m);
    }
  }

  lemma DecrementCount(s: RaceState, i: nat, m: nat)
    requires RaceInv(s) && CanMove(s, Decrement(i)) && m < |s.bios|
    ensures CountOk(Go(s, Decrement(i)).bios, Go(s, Decrement(i)).threads, m)
  {
    var t := Go(s, Decrement(i));
    var n := s.threads[i].bio;
    assert CountOk(s.bios, s.threads, m);
    assert CountOk(s.bios, s.threads, n);
    DecrementSafe(s, i);
    if s.bios[n].remaining == 1 && n > 0 {
      AtUpdate(s.threads, i, t.threads[i], m);
      if m == s.bios[n].parent {
        OpenTold(t.bios, m, |t.bios|, n);
        OpenFrame(s.bios, t.bios, m, |s.bios|, -1, n);
      } else {
        OpenFrame(s.bios, t.bios, m, |s.bios|, -1, -1);
      }
    } else {
      AtDrop(s.threads, i, m);
      OpenFrame(s.bios, t.bios, m, |s.bios|, -1, -1);
    }
  }

  lemma MoveKeeps(s: RaceState, m: Move)
    requires RaceInv(s) && CanMove(s, m)
    ensures RaceInv(Go(s, m))
  {
    hide RaceInv, Go;
    match m
    case ChainNew(p) => ChainNewKeeps(s, p);
    case Begin(n, error) => BeginKeeps(s, n, error);
    case TestFlag(i) => TestKeeps(s, i);
    case Decrement(i) => DecrementKeeps(s, i);
  }

  function Race(s: RaceState, moves: seq<Move>): Option<RaceState>
    decreases |moves|
  {
    if moves == [] then Some(s)
    else if !CanMove(s, moves[0]) then None
    else Race(Go(s, moves[0]), moves[1..])
  }

  const Idle := RaceState([FreshRoot], [], [])

  lemma {:induction false} RaceKeeps(s: RaceState, moves: seq<Move>)
    requires RaceInv(s)
    ensures Race(s, moves).Some? ==> RaceInv(Race(s, moves).value)
    decreases |moves|
  {
    hide RaceInv, Go;
    if moves != [] && CanMove(s, moves[0]) {
      MoveKeeps(s, moves[0]);
      RaceKeeps(Go(s, moves[0]), moves[1..]);
    }
  }

  /** A bio whose remaining count is zero has an ended owner and finished children; so does everything below the root. */
  lemma {:induction false} RaceDoneMeansAll(s: RaceState, n: nat)
    requires RaceInv(s) && s.bios[0].done && n < |s.bios|
    ensures s.bios[n].done && s.bios[n].ended
    decreases n
  {
    assert CountOk(s.bios, s.threads, n);
    if n > 0 {
      var p := s.bios[n].parent;
      RaceDoneMeansAll(s, p);
      assert CountOk(s.bios, s.threads, p);
      OpenNone(s.bios, p, |s.bios|, -1);
      assert !Open(s.bios, p, n, -1);
    }
  }

  /** Once every owner has ended its bio and no completion is under way, every bio is done. */
  lemma {:induction false} RaceAllDone(s: RaceState, n: nat)
    requires RaceInv(s) && s.threads == [] && n < |s.bios| && forall m :: 0 <= m < |s.bios| ==> s.bios[m].ended
    ensures s.bios[n].done
    decreases |s.bios| - n
  {
    assert CountOk(s.bios, s.threads, n);
    forall c | 0 < c < |s.bios| && s.bios[c].parent == n
      ensures s.bios[c].done
    {
      RaceAllDone(s, c);
    }
    AllKidsDone(s.bios, n, |s.bios|);
  }

  /**
   Under every interleaving the root's bi_end_io runs at most once, and has run exactly when every bio has been ended by
   its owner and no completion is under way.
   */
  lemma RacesEndOnce(moves: seq<Move>)
    ensures Race(Idle, moves).Some? ==>
              var s := Race(Idle, moves).value;
              && |s.ends| <= 1
              && (|s.ends| == 1 <==> s.threads == [] && forall n :: 0 <= n < |s.bios| ==> s.bios[n].ended)
              && (|s.ends| == 1 ==> forall n :: 0 <= n < |s.bios| ==> s.bios[n].done)
              && (forall i :: 0 <= i < |s.threads| ==> s.threads[i].bio < |s.bios| && s.bios[s.threads[i].bio].remaining > 0)
  {
    hide Race, CountOk;
    IdleOk();
    RaceKeeps(Idle, moves);
    if Race(Idle, moves).Some? {
      var s := Race(Idle, moves).value;
      if s.bios[0].done {
        NoneLeft(s);
        forall n | 0 <= n < |s.bios|
          ensures s.bios[n].ended && s.bios[n].done
        {
          RaceDoneMeansAll(s, n);
        }
      } else if s.threads == [] && forall n :: 0 <= n < |s.bios| ==> s.bios[n].ended {
        RaceAllDone(s, 0);
      }
      forall i | 0 <= i < |s.threads|
        ensures s.bios[s.threads[i].bio].remaining > 0
      {
        DecrementSafe(s, i);
      }
    }
  }

  lemma IdleOk()
    ensures RaceInv(Idle)
  {
    assert OpenKids(Idle.bios, 0, 1, -1) == 0;
  }

  // ----- the error

  predicate SomeFailed(bios: Bios) { exists n :: 0 <= n < |bios| && bios[n].failed }

  /** No error out of nothing: a cleared flag, a thread's error or a reported one has a failed bio behind it. */
  ghost predicate NoFalseAlarm(s: RaceState)
  {
    SomeFailed(s.bios) ||
    (&& (forall n :: 0 <= n < |s.bios| ==> s.bios[n].uptodate)
     && (forall i :: 0 <= i < |s.threads| ==> !s.threads[i].error)
     && (forall i :: 0 <= i < |s.ends| ==> !s.ends[i]))
  }

  lemma MoveNoFalseAlarm(s: RaceState, m: Move)
    requires NoFalseAlarm(s) && CanMove(s, m) && (m.Begin? ==> !s.bios[m.bio].failed)
    ensures NoFalseAlarm(Go(s, m))
  {
    var t := Go(s, m);
    if SomeFailed(s.bios) {
      var n :| 0 <= n < |s.bios| && s.bios[n].failed;
      assert t.bios[n].failed;
    } else if m.Begin? && m.error {
      assert t.bios[m.bio].failed;
    }
  }

  /** Decrement(i) brings the count of its bio to zero. */
  predicate Finishes(s: RaceState, m: Move)
    requires CanMove(s, m)
  {
    m.Decrement? && s.bios[s.threads[m.thread].bio].remaining == 1
  }

  /** The completion that finishes a bio has its error, if the flag of the bio says there is one. */
  predicate Clean(s: RaceState, m: Move)
    requires CanMove(s, m)
  {
    Finishes(s, m) ==> s.threads[m.thread].error || s.bios[s.threads[m.thread].bio].uptodate
  }

  predicate CleanRun(s: RaceState, moves: seq<Move>)
    decreases |moves|
  {
    moves == [] || (CanMove(s, moves[0]) && Clean(s, moves[0]) && CleanRun(Go(s, moves[0]), moves[1..]))
  }

  ghost predicate Failing(threads: seq<Thread>) { exists i :: 0 <= i < |threads| && threads[i].error }

  ghost predicate Flagged(bios: Bios) { exists n :: 0 <= n < |bios| && !bios[n].done && !bios[n].uptodate }

  /** A failure is on its way: with a completion, on an unfinished bio, or already reported. */
  ghost predicate Evidence(s: RaceState)
  {
    SomeFailed(s.bios) ==> Failing(s.threads) || Flagged(s.bios) || true in s.ends
  }

  /** A completion past the test whose error is set has cleared the flag or found it cleared; only ended bios have failed. */
  ghost predicate Recorded(s: RaceState)
  {
    && (forall i :: 0 <= i < |s.threads| && s.threads[i].tested && s.threads[i].error && s.threads[i].bio < |s.bios| ==>
          !s.bios[s.threads[i].bio].uptodate)
    && (forall n :: 0 <= n < |s.bios| && s.bios[n].failed ==> s.bios[n].ended)
  }

  lemma RecordedKeeps(s: RaceState, m: Move)
    requires RaceInv(s) && Recorded(s) && CanMove(s, m)
    ensures Recorded(Go(s, m))
  {
    hide CountOk;
    var t := Go(s, m);
    forall i | 0 <= i < |t.threads| && t.threads[i].tested && t.threads[i].error && t.threads[i].bio < |t.bios|
      ensures !t.bios[t.threads[i].bio].uptodate
    {
      if m.Decrement? && i >= m.thread && i + 1 < |s.threads| && t.threads[i] == s.threads[i + 1] {
        assert s.threads[i + 1].tested;
      }
    }
  }

  lemma EvidenceKeeps(s: RaceState, m: Move)
    requires RaceInv(s) && Recorded(s) && Evidence(s) && CanMove(s, m) && Clean(s, m)
    ensures Evidence(Go(s, m))
  {
    hide CountOk;
    match m
    case ChainNew(p) => EvidenceChain(s, p);
    case Begin(n, error) => EvidenceBegin(s, n, error);
    case TestFlag(i) => EvidenceTest(s, i);
    case Decrement(i) => EvidenceDecrement(s, i);
  }

  lemma EvidenceChain(s: RaceState, p: nat)
    requires RaceInv(s) && Evidence(s) && CanMove(s, ChainNew(p))
    ensures Evidence(Go(s, ChainNew(p)))
  {
    var t := Go(s, ChainNew(p));
    if SomeFailed(t.bios) {
      var n :| 0 <= n < |t.bios| && t.bios[n].failed;
      assert s.bios[n].failed;
      if Flagged(s.bios) {
        var k :| 0 <= k < |s.bios| && !s.bios[k].done && !s.bios[k].uptodate;
        assert !t.bios[k].done && !t.bios[k].uptodate;
      }
    }
  }

  lemma EvidenceBegin(s: RaceState, n: nat, error: bool)
    requires RaceInv(s) && Recorded(s) && Evidence(s) && CanMove(s, Begin(n, error))
    ensures Evidence(Go(s, Begin(n, error)))
  {
    var t := Go(s, Begin(n, error));
    assert t.threads[|s.threads|].error == error;
    if SomeFailed(t.bios) && !error {
      var k :| 0 <= k < |t.bios| && t.bios[k].failed;
      assert s.bios[k].failed;
      if Flagged(s.bios) {
        var j :| 0 <= j < |s.bios| && !s.bios[j].done && !s.bios[j].uptodate;
        assert !t.bios[j].done && !t.bios[j].uptodate;
      }
      if Failing(s.threads) {
        var j :| 0 <= j < |s.threads| && s.threads[j].error;
        assert t.threads[j].error;
      }
    }
  }

  lemma EvidenceTest(s: RaceState, i: nat)
    requires RaceInv(s) && Evidence(s) && CanMove(s, TestFlag(i))
    ensures Evidence(Go(s, TestFlag(i)))
  {
    var t := Go(s, TestFlag(i));
    if SomeFailed(t.bios) {
      var k :| 0 <= k < |t.bios| && t.bios[k].failed;
      assert s.bios[k].failed;
      if Flagged(s.bios) {
        var j :| 0 <= j < |s.bios| && !s.bios[j].done && !s.bios[j].uptodate;
        assert !t.bios[j].done && !t.bios[j].uptodate;
      }
      if Failing(s.threads) {
        var j :| 0 <= j < |s.threads| && s.threads[j].error;
        assert t.threads[j].error;
      }
    }
  }

  lemma EvidenceDecrement(s: RaceState, i: nat)
    requires RaceInv(s) && Recorded(s) && Evidence(s) && CanMove(s, Decrement(i)) && Clean(s, Decrement(i))
    ensures Evidence(Go(s, Decrement(i)))
  {
    hide CountOk;
    var t := Go(s, Decrement(i));
    var n := s.threads[i].bio;
    var b := s.bios[n];
    if SomeFailed(t.bios) {
      var k :| 0 <= k < |t.bios| && t.bios[k].failed;
      assert s.bios[k].failed;
      if s.threads[i].error {
        assert !b.uptodate;
        if b.remaining != 1 {
          assert !t.bios[n].done && !t.bios[n].uptodate;
        } else if n == 0 {
          assert t.ends[|s.ends|];
        } else {
          assert t.threads[i].error;
        }
      } else {
        OtherEvidence(s, i);
      }
    }
  }

  /** A completion without error takes no evidence with it. */
  lemma OtherEvidence(s: RaceState, i: nat)
    requires CanMove(s, Decrement(i)) && Clean(s, Decrement(i)) && !s.threads[i].error
    requires Failing(s.threads) || Flagged(s.bios) || true in s.ends
    ensures var t := Go(s, Decrement(i)); Failing(t.threads) || Flagged(t.bios) || true in t.ends
  {
    var t := Go(s, Decrement(i));
    if Failing(s.threads) {
      var j :| 0 <= j < |s.threads| && s.threads[j].error;
      assert t.threads[if |t.threads| == |s.threads| || j < i then j else j - 1].error;
    } else if Flagged(s.bios) {
      var j :| 0 <= j < |s.bios| && !s.bios[j].done && !s.bios[j].uptodate;
      assert !t.bios[j].done && !t.bios[j].uptodate;
    }
  }

  lemma {:induction false} CleanRunKeeps(s: RaceState, moves: seq<Move>)
    requires RaceInv(s) && Recorded(s) && Evidence(s) && NoFalseAlarm(s) && CleanRun(s, moves)
    ensures Race(s, moves).Some?
    ensures var t := Race(s, moves).value; RaceInv(t) && Recorded(t) && Evidence(t) && NoFalseAlarm(t)
    decreases |moves|
  {
    hide RaceInv, Evidence, NoFalseAlarm, Go;
    if moves != [] {
      NotFailedYet(s, moves[0]);
      MoveKeeps(s, moves[0]);
      RecordedKeeps(s, moves[0]);
      EvidenceKeeps(s, moves[0]);
      MoveNoFalseAlarm(s, moves[0]);
      CleanRunKeeps(Go(s, moves[0]), moves[1..]);
    }
  }

  lemma NotFailedYet(s: RaceState, m: Move)
    requires Recorded(s) && CanMove(s, m)
    ensures m.Begin? ==> !s.bios[m.bio].failed
  {
  }

  lemma {:induction false} RaceHonest(s: RaceState, moves: seq<Move>)
    requires RaceInv(s) && Recorded(s) && NoFalseAlarm(s)
    ensures Race(s, moves).Some? ==> NoFalseAlarm(Race(s, moves).value)
    decreases |moves|
  {
    hide RaceInv, NoFalseAlarm, Go;
    if moves != [] && CanMove(s, moves[0]) {
      NotFailedYet(s, moves[0]);
      MoveKeeps(s, moves[0]);
      RecordedKeeps(s, moves[0]);
      MoveNoFalseAlarm(s, moves[0]);
      RaceHonest(Go(s, moves[0]), moves[1..]);
    }
  }

  /** No interleaving invents an error: a report, a completion's error or a cleared flag has a failed bio behind it. */
  lemma NoErrorInvented(moves: seq<Move>)
    ensures Race(Idle, moves).Some? ==>
              var s := Race(Idle, moves).value;
              (true in s.ends || (exists i :: 0 <= i < |s.threads| && s.threads[i].error)
               || exists n :: 0 <= n < |s.bios| && !s.bios[n].uptodate)
              ==> SomeFailed(s.bios)
  {
    hide Race, RaceInv;
    IdleOk();
    RaceHonest(Idle, moves);
  }

  /** Once the root has ended no completion is under way. */
  lemma NoneLeft(s: RaceState)
    requires RaceInv(s) && s.bios[0].done
    ensures s.threads == []
  {
    if s.threads != [] {
      var n := s.threads[0].bio;
      assert CountOk(s.bios, s.threads, n);
      AtLeast(s.threads, 0);
      RaceDoneMeansAll(s, n);
    }
  }

  /** Under every interleaving in which each bio is finished cleanly, the root reports an error exactly when some bio failed. */
  lemma CleanRacesExact(moves: seq<Move>)
    requires CleanRun(Idle, moves)
    ensures Race(Idle, moves).Some?
    ensures var s := Race(Idle, moves).value; |s.ends| == 1 ==> (s.ends[0] <==> SomeFailed(s.bios))
  {
    hide Race, CountOk, CleanRun;
    IdleOk();
    CleanRunKeeps(Idle, moves);
    var s := Race(Idle, moves).value;
    if |s.ends| == 1 {
      AllReported(s);
    }
  }

  /** Below the root all was clean and the root is about to end: the report is right if and only if this last step is clean. */
  lemma RootReportExact(moves: seq<Move>, i: nat)
    requires CleanRun(Idle, moves) && Race(Idle, moves).Some?
    requires var s := Race(Idle, moves).value;
             CanMove(s, Decrement(i)) && Finishes(s, Decrement(i)) && s.threads[i].bio == 0
    ensures var s := Race(Idle, moves).value;
            var t := Go(s, Decrement(i));
            && |t.ends| == 1
            && ((t.ends[0] <==> SomeFailed(t.bios)) <==> s.threads[i].error || s.bios[0].uptodate)
  {
    hide Race, CountOk, CleanRun;
    IdleOk();
    CleanRunKeeps(Idle, moves);
    var s := Race(Idle, moves).value;
    var t := Go(s, Decrement(i));
    MoveKeeps(s, Decrement(i));
    MoveNoFalseAlarm(s, Decrement(i));
    assert t.bios[0].done;
    if s.threads[i].error || s.bios[0].uptodate {
      EvidenceKeeps(s, Decrement(i));
      AllReported(t);
    }
  }

  lemma AllReported(s: RaceState)
    requires RaceInv(s) && Evidence(s) && NoFalseAlarm(s) && s.bios[0].done && |s.ends| == 1
    ensures s.ends[0] <==> SomeFailed(s.bios)
  {
    hide CountOk;
    NoneLeft(s);
    forall n | 0 <= n < |s.bios|
      ensures s.bios[n].done
    {
      RaceDoneMeansAll(s, n);
    }
  }

  /** Bio 1 is chained to the root and bio 2 to bio 1. The completion of bio 1 tests its flag before the failure of
      bio 2 clears it, and decrements after. */
  const LostRun := [
    ChainNew(0), ChainNew(1),
    Begin(0, false), TestFlag(0), Decrement(0),
    Begin(1, false), TestFlag(0),
    Begin(2, true), TestFlag(1), Decrement(1), TestFlag(1), Decrement(1),
    Decrement(0), TestFlag(0), Decrement(0)]

  lemma RaceStep(s: RaceState, moves: seq<Move>, m: Move, t: RaceState)
    requires moves != [] && moves[0] == m && CanMove(s, m) && Go(s, m) == t
    ensures Race(s, moves) == Race(t, moves[1..])
  {
  }

  /** The first three moves: the chain is built and the owner of the root enters. */
  lemma LostChain() returns (s: RaceState)
    ensures s == RaceState([Bio(0, 2, true, true, false, false), Bio(0, 2, true, false, false, false), Bio(1, 1, true, false, false, false)],
                           [Thread(0, false, false)], [])
    ensures Race(Idle, LostRun) == Race(s, LostRun[3..])
  {
    hide Race;
    var r := LostRun;
    var s1 := Go(Idle, ChainNew(0));
    assert s1.bios == [Bio(0, 2, true, false, false, false), Bio(0, 1, true, false, false, false)];
    RaceStep(Idle, r, ChainNew(0), s1);
    var s2 := Go(s1, ChainNew(1));
    assert s2.bios == [Bio(0, 2, true, false, false, false), Bio(0, 2, true, false, false, false), Bio(1, 1, true, false, false, false)];
    RaceStep(s1, r[1..], ChainNew(1), s2);
    assert r[1..][1..] == r[2..];
    s := Go(s2, Begin(0, false));
    assert s.threads == [Thread(0, false, false)];
    RaceStep(s2, r[2..], Begin(0, false), s);
    assert r[2..][1..] == r[3..];
  }

  /** After seven moves the completion of bio 1 is between its test and its decrement. */
  lemma LostSetup() returns (s: RaceState)
    ensures s == RaceState([Bio(0, 1, true, true, false, false), Bio(0, 2, true, true, false, false), Bio(1, 1, true, false, false, false)],
                           [Thread(1, false, true)], [])
    ensures Race(Idle, LostRun) == Race(s, LostRun[7..])
  {
    hide Race;
    var r := LostRun;
    var s3 := LostChain();
    var s4 := Go(s3, TestFlag(0));
    RaceStep(s3, r[3..], TestFlag(0), s4);
    assert r[3..][1..] == r[4..];
    var s5 := Go(s4, Decrement(0));
    assert s5.threads == [];
    RaceStep(s4, r[4..], Decrement(0), s5);
    assert r[4..][1..] == r[5..];
    var s6 := Go(s5, Begin(1, false));
    RaceStep(s5, r[5..], Begin(1, false), s6);
    assert r[5..][1..] == r[6..];
    s := Go(s6, TestFlag(0));
    RaceStep(s6, r[6..], TestFlag(0), s);
    assert r[6..][1..] == r[7..];
  }

  /** An error reported by a chained bio can vanish: the root ends without error and with its flag still set. */
  lemma ErrorCanBeLost()
    ensures Race(Idle, LostRun).Some?
    ensures var s := Race(Idle, LostRun).value;
            SomeFailed(s.bios) && s.ends == [false] && |s.bios| == 3 && s.bios[0].uptodate
  {
    hide Race;
    var r := LostRun;
    var s7 := LostSetup();
    var s8 := Go(s7, Begin(2, true));
    RaceStep(s7, r[7..], Begin(2, true), s8);
    assert r[7..][1..] == r[8..];
    var s9 := Go(s8, TestFlag(1));
    RaceStep(s8, r[8..], TestFlag(1), s9);
    assert r[8..][1..] == r[9..];
    var s10 := Go(s9, Decrement(1));
    RaceStep(s9, r[9..], Decrement(1), s10);
    assert r[9..][1..] == r[10..];
    var s11 := Go(s10, TestFlag(1));
    RaceStep(s10, r[10..], TestFlag(1), s11);
    assert r[10..][1..] == r[11..];
    var s12 := Go(s11, Decrement(1));
    assert s12.threads == [Thread(1, false, true)];
    RaceStep(s11, r[11..], Decrement(1), s12);
    assert r[11..][1..] == r[12..];
    LostFinish(s12);
  }

  lemma LostFinish(s: RaceState)
    requires s == RaceState([Bio(0, 1, true, true, false, false), Bio(0, 1, false, true, false, false), Bio(1, 0, false, true, true, true)],
                            [Thread(1, false, true)], [])
    ensures Race(s, LostRun[12..]).Some?
    ensures var t := Race(s, LostRun[12..]).value;
            SomeFailed(t.bios) && t.ends == [false] && |t.bios| == 3 && t.bios[0].uptodate
  {
    var r := LostRun;
    var s13 := Go(s, Decrement(0));
    RaceStep(s, r[12..], Decrement(0), s13);
    assert r[12..][1..] == r[13..];
    var s14 := Go(s13, TestFlag(0));
    RaceStep(s13, r[13..], TestFlag(0), s14);
    assert r[13..][1..] == r[14..];
    var s15 := Go(s14, Decrement(0));
    RaceStep(s14, r[14..], Decrement(0), s15);
    assert r[14..][1..] == [];
    assert s15.bios[2].failed;
  }
}
