/**
 Which outcomes of chained bios are reported rightly under every interleaving: those in which all bios fail or none does.
 */
module BioChainLoss {
  import opened Basics
  import opened BioChain
  import opened BioChainRaces

  /** A chain that has been built and whose completion has not begun. */
  ghost predicate Built(s: RaceState)
  {
    && RaceInv(s) && s.threads == [] && s.ends == []
    && forall n :: 0 <= n < |s.bios| ==> !s.bios[n].ended && !s.bios[n].failed && s.bios[n].uptodate
  }

  lemma {:induction false} ChainsBuild(s: RaceState, moves: seq<Move>)
    requires Built(s) && Race(s, moves).Some? && forall i :: 0 <= i < |moves| ==> moves[i].ChainNew?
    ensures Built(Race(s, moves).value)
    decreases |moves|
  {
    hide CountOk;
    if moves != [] {
      MoveKeeps(s, moves[0]);
      ChainsBuild(Go(s, moves[0]), moves[1..]);
    }
  }

  lemma IdleBuilt()
    ensures Built(Idle)
  {
    IdleOk();
  }

  /** No bio is added, and each owner ends its bio with the outcome given. */
  predicate Follows(moves: seq<Move>, err: seq<bool>)
  {
    forall i :: 0 <= i < |moves| ==> !moves[i].ChainNew? && (moves[i].Begin? ==> moves[i].bio < |err| && moves[i].error == err[moves[i].bio])
  }

  /** However the completions of these outcomes interleave, the root's report is right. */
  ghost predicate Reliable(s: RaceState, err: seq<bool>)
  {
    forall moves :: Follows(moves, err) && Race(s, moves).Some? && |Race(s, moves).value.ends| == 1 ==>
      (Race(s, moves).value.ends[0] <==> true in err)
  }

  // ----- all outcomes agree

  ghost predicate AllSame(s: RaceState, e: bool)
  {
    && (forall i :: 0 <= i < |s.threads| ==> s.threads[i].error == e)
    && (forall i :: 0 <= i < |s.ends| ==> s.ends[i] == e)
    && (!e ==> forall n :: 0 <= n < |s.bios| ==> s.bios[n].uptodate)
  }

  lemma {:induction false} SameRuns(s: RaceState, moves: seq<Move>, err: seq<bool>, e: bool)
    requires AllSame(s, e) && Follows(moves, err) && (forall b :: b in err ==> b == e)
    ensures Race(s, moves).Some? ==> AllSame(Race(s, moves).value, e)
    decreases |moves|
  {
    if moves != [] && CanMove(s, moves[0]) {
      var t := Go(s, moves[0]);
      assert AllSame(t, e) by {
        assert moves[0].Begin? ==> moves[0].error in err;
      }
      hide Go;
      SameRuns(t, moves[1..], err, e);
    }
  }

  // ----- running on

  lemma {:induction false} RaceConcat(s: RaceState, a: seq<Move>, b: seq<Move>)
    requires Race(s, a).Some?
    ensures Race(s, a + b) == Race(Race(s, a).value, b)
    decreases |a|
  {
    if a == [] {
      assert a + b == b;
    } else {
      assert (a + b)[1..] == a[1..] + b;
      RaceConcat(Go(s, a[0]), a[1..], b);
    }
  }

  /** t is reached from s by completions with these outcomes. */
  ghost predicate Reaches(s: RaceState, err: seq<bool>, t: RaceState)
  {
    exists moves :: Follows(moves, err) && Race(s, moves) == Some(t)
  }

  lemma ReachesSelf(s: RaceState, err: seq<bool>)
    ensures Reaches(s, err, s)
  {
    assert Follows([], err) && Race(s, []) == Some(s);
  }

  lemma ReachesThen(s: RaceState, err: seq<bool>, t: RaceState, u: RaceState)
    requires Reaches(s, err, t) && Reaches(t, err, u)
    ensures Reaches(s, err, u)
  {
    var a :| Follows(a, err) && Race(s, a) == Some(t);
    var b :| Follows(b, err) && Race(t, b) == Some(u);
    RaceConcat(s, a, b);
    assert Follows(a + b, err);
  }

  lemma ReachesStep(s: RaceState, err: seq<bool>, t: RaceState, m: Move)
    requires Reaches(s, err, t) && CanMove(t, m) && Follows([m], err)
    ensures Reaches(s, err, Go(t, m))
  {
    hide Go;
    var u := Go(t, m);
    assert [m][1..] == [];
    assert Race(u, []) == Some(u);
    assert Race(t, [m]) == Some(u);
    assert Reaches(t, err, u);
    ReachesThen(s, err, t, u);
  }

  // ----- a completion that waits between its test and its decrement

  /** m is n or chained to it, directly or not. */
  predicate Below(bios: Bios, n: nat, m: nat)
    requires Shape(bios) && m < |bios|
    decreases m
  {
    m == n || (m > n && Below(bios, n, bios[m].parent))
  }

  lemma {:induction false} BelowTrans(bios: Bios, n: nat, p: nat, m: nat)
    requires Shape(bios) && p < |bios| && m < |bios| && Below(bios, n, p) && Below(bios, p, m)
    ensures Below(bios, n, m) && n <= p <= m
    decreases m
  {
    if m != p {
      BelowTrans(bios, n, p, bios[m].parent);
    }
  }

  lemma {:induction false} BelowRoot(bios: Bios, m: nat)
    requires Shape(bios) && m < |bios|
    ensures Below(bios, 0, m)
    decreases m
  {
    if m > 0 {
      BelowRoot(bios, bios[m].parent);
    }
  }

  lemma {:induction false} BelowFrame(bios: Bios, bios': Bios, n: nat, m: nat)
    requires Shape(bios) && Shape(bios') && SameTree(bios, bios') && m < |bios|
    ensures Below(bios', n, m) == Below(bios, n, m)
    decreases m
  {
    if m > n {
      BelowFrame(bios, bios', n, bios[m].parent);
    }
  }

  predicate SameTree(bios: Bios, bios': Bios)
  {
    |bios'| == |bios| && forall n :: 0 <= n < |bios| ==> bios'[n].parent == bios[n].parent
  }

  /**
   One completion without error is under way, at n, past its test. Nothing has happened outside the bios below n, and
   whatever was ended below n is done.
   */
  ghost predicate Waiting(s: RaceState, n: nat)
  {
    && RaceInv(s) && n < |s.bios| && s.threads == [Thread(n, false, true)] && s.ends == []
    && (forall m :: 0 <= m < |s.bios| && !Below(s.bios, n, m) ==> !s.bios[m].ended && s.bios[m].uptodate)
    && (forall m :: 0 <= m < |s.bios| && Below(s.bios, n, m) && m != n && s.bios[m].ended ==> s.bios[m].done)
  }

  /** All bios below n from k on have been ended. */
  ghost predicate EndedFrom(bios: Bios, n: nat, k: nat)
    requires Shape(bios)
  {
    forall m :: k <= m < |bios| && Below(bios, n, m) ==> bios[m].ended
  }

  /** A bio whose children are done waits for its owner only. */
  lemma OwnerOnly(s: RaceState, n: nat, b: nat)
    requires Waiting(s, n) && b < |s.bios| && Below(s.bios, n, b) && EndedFrom(s.bios, n, b + 1)
    ensures s.bios[b].remaining == (if s.bios[b].ended then 0 else 1) + (if b == n then 1 else 0)
  {
    assert CountOk(s.bios, s.threads, b);
    forall c | 0 < c < |s.bios| && s.bios[c].parent == b
      ensures s.bios[c].done
    {
      BelowTrans(s.bios, n, b, b);
      assert Below(s.bios, b, c);
      BelowTrans(s.bios, n, b, c);
    }
    AllKidsDone(s.bios, b, |s.bios|);
    assert s.threads[1..] == [];
    assert At(s.threads, b) == (if b == n then 1 else 0) + At([], b);
  }

  /** The parent of an open bio waits for more than one. */
  lemma ParentWaits(s: RaceState, n: nat, b: nat)
    requires Waiting(s, n) && n < b < |s.bios| && Below(s.bios, n, b) && !s.bios[b].done
    ensures var p := s.bios[b].parent; Below(s.bios, n, p) && p < b && (p != n ==> !s.bios[p].ended && !s.bios[p].done)
  {
    var p := s.bios[b].parent;
    assert CountOk(s.bios, s.threads, p);
    OpenHas(s.bios, p, |s.bios|, b, -1);
  }

  /** What ending bio b and running its completion to its end has changed. */
  ghost predicate EndedOne(s: RaceState, t: RaceState, n: nat, b: nat)
    requires Shape(s.bios)
  {
    && RaceInv(t) && t.threads == s.threads && t.ends == s.ends && SameTree(s.bios, t.bios) && b < |s.bios|
    && (b != n ==> t.bios[b].done)
    && (forall m :: 0 <= m < |s.bios| ==> t.bios[m].ended == (s.bios[m].ended || m == b))
    && (forall m :: 0 <= m < |s.bios| && !Below(s.bios, n, m) ==> t.bios[m].uptodate == s.bios[m].uptodate)
    && (forall m :: 0 <= m < |s.bios| && s.bios[m].done && m != n ==> t.bios[m].done)
  }

  lemma EndedOneWaits(s: RaceState, t: RaceState, n: nat, b: nat)
    requires Waiting(s, n) && b < |s.bios| && Below(s.bios, n, b) && EndedFrom(s.bios, n, b + 1) && EndedOne(s, t, n, b)
    ensures Waiting(t, n) && EndedFrom(t.bios, n, b)
  {
    hide CountOk;
    forall m | 0 <= m < |s.bios|
      ensures Below(t.bios, n, m) == Below(s.bios, n, m)
    {
      BelowFrame(s.bios, t.bios, n, m);
    }
  }

  /** The owner of n itself: the completion finds the waiting one and goes no further. */
  lemma EndSelf(s: RaceState, err: seq<bool>, n: nat) returns (t: RaceState)
    requires Waiting(s, n) && |err| == |s.bios| && !s.bios[n].ended && EndedFrom(s.bios, n, n + 1)
    ensures Reaches(s, err, t) && EndedOne(s, t, n, n)
  {
    hide CountOk;
    OwnerOnly(s, n, n);
    var s1 := Go(s, Begin(n, err[n]));
    MoveKeeps(s, Begin(n, err[n]));
    ReachesSelf(s, err);
    ReachesStep(s, err, s, Begin(n, err[n]));
    var s2 := Go(s1, TestFlag(1));
    MoveKeeps(s1, TestFlag(1));
    ReachesStep(s, err, s1, TestFlag(1));
    t := Go(s2, Decrement(1));
    MoveKeeps(s2, Decrement(1));
    ReachesStep(s, err, s2, Decrement(1));
    assert t.threads == s.threads;
  }

  /** b is ended and done, and its completion is about to test the flag of its parent. */
  ghost predicate Climbing(s: RaceState, t: RaceState, b: nat)
  {
    && RaceInv(t) && b < |s.bios| == |t.bios| && t.ends == s.ends && |s.threads| == 1
    && (exists e :: t.threads == s.threads + [Thread(s.bios[b].parent, e, false)])
    && t.bios[b].done && t.bios[b].ended && t.bios[b].parent == s.bios[b].parent
    && forall m :: 0 <= m < |s.bios| && m != b ==> t.bios[m] == s.bios[m]
  }

  lemma EndLeaf(s: RaceState, err: seq<bool>, b: nat) returns (t: RaceState)
    requires RaceInv(s) && |s.threads| == 1 && |err| == |s.bios| && 0 < b < |s.bios| && !s.bios[b].ended && s.bios[b].remaining == 1
    ensures Reaches(s, err, t) && Climbing(s, t, b)
  {
    hide CountOk, Reaches;
    var s1 := Go(s, Begin(b, err[b]));
    MoveKeeps(s, Begin(b, err[b]));
    ReachesSelf(s, err);
    ReachesStep(s, err, s, Begin(b, err[b]));
    var s2 := Go(s1, TestFlag(1));
    MoveKeeps(s1, TestFlag(1));
    ReachesStep(s, err, s1, TestFlag(1));
    t := Go(s2, Decrement(1));
    MoveKeeps(s2, Decrement(1));
    ReachesStep(s, err, s2, Decrement(1));
    assert t.threads == s.threads + [Thread(s.bios[b].parent, s2.threads[1].error, false)];
  }

  /** The owner of another bio below n: the bio is done, and its parent goes on waiting. */
  lemma EndOther(s: RaceState, err: seq<bool>, n: nat, b: nat) returns (t: RaceState)
    requires Waiting(s, n) && |err| == |s.bios| && n < b < |s.bios| && Below(s.bios, n, b) && !s.bios[b].ended && EndedFrom(s.bios, n, b + 1)
    ensures Reaches(s, err, t) && EndedOne(s, t, n, b)
  {
    hide CountOk, Reaches, Below;
    OwnerOnly(s, n, b);
    assert !s.bios[b].done by { NotDone(s, b); }
    ParentWaits(s, n, b);
    var p := s.bios[b].parent;
    var s3 := EndLeaf(s, err, b);
    var s4 := Go(s3, TestFlag(1));
    MoveKeeps(s3, TestFlag(1));
    ReachesStep(s, err, s3, TestFlag(1));
    TwoAtLeast(s4, n, p);
    t := Go(s4, Decrement(1));
    MoveKeeps(s4, Decrement(1));
    ReachesStep(s, err, s4, Decrement(1));
    assert t.threads == s.threads;
  }

  lemma NotDone(s: RaceState, b: nat)
    requires RaceInv(s) && b < |s.bios| && !s.bios[b].ended
    ensures !s.bios[b].done
  {
    assert CountOk(s.bios, s.threads, b);
  }

  lemma TwoAtLeast(s: RaceState, n: nat, p: nat)
    requires RaceInv(s) && |s.threads| == 2 && s.threads[0].bio == n && s.threads[1].bio == p && (p != n ==> !s.bios[p].ended)
    ensures s.bios[p].remaining >= 2
  {
    assert CountOk(s.bios, s.threads, p);
    assert s.threads[1..][0] == s.threads[1];
    AtLeast(s.threads[1..], 0);
  }

  /** The owners of all bios below n end them, the highest first. */
  lemma {:induction false} EndBelow(s: RaceState, err: seq<bool>, n: nat, k: nat) returns (t: RaceState)
    requires Waiting(s, n) && |err| == |s.bios| && n <= k <= |s.bios| && EndedFrom(s.bios, n, k)
    ensures Reaches(s, err, t) && Waiting(t, n) && SameTree(s.bios, t.bios) && EndedFrom(t.bios, n, n)
    decreases k
  {
    hide CountOk;
    if k == n {
      t := s;
      ReachesSelf(s, err);
    } else {
      var b := k - 1;
      if !Below(s.bios, n, b) || s.bios[b].ended {
        t := EndBelow(s, err, n, b);
      } else {
        var u: RaceState;
        if b == n {
          u := EndSelf(s, err, n);
        } else {
          u := EndOther(s, err, n, b);
        }
        EndedOneWaits(s, u, n, b);
        t := EndBelow(u, err, n, b);
        ReachesThen(s, err, u, t);
      }
    }
  }

  /** With everything below n ended, the waiting completion goes on to the parent, whose flag it still finds set. */
  lemma GoUp(s: RaceState, err: seq<bool>, n: nat) returns (t: RaceState)
    requires Waiting(s, n) && n > 0 && EndedFrom(s.bios, n, n)
    ensures Reaches(s, err, t) && SameTree(s.bios, t.bios) && Waiting(t, s.bios[n].parent)
  {
    hide CountOk;
    OwnerOnly(s, n, n);
    var p := s.bios[n].parent;
    assert !Below(s.bios, n, p);
    var s1 := Go(s, Decrement(0));
    MoveKeeps(s, Decrement(0));
    ReachesSelf(s, err);
    ReachesStep(s, err, s, Decrement(0));
    t := Go(s1, TestFlag(0));
    MoveKeeps(s1, TestFlag(0));
    ReachesStep(s, err, s1, TestFlag(0));
    forall m | 0 <= m < |s.bios|
      ensures !Below(t.bios, p, m) ==> !t.bios[m].ended && t.bios[m].uptodate
      ensures Below(t.bios, p, m) && m != p && t.bios[m].ended ==> t.bios[m].done
    {
      BelowFrame(s.bios, t.bios, p, m);
      if Below(s.bios, n, m) {
        assert Below(s.bios, p, n);
        BelowTrans(s.bios, p, n, m);
      }
    }
  }

  /** From there the completion climbs to the root and reports no error. */
  lemma {:induction false} Loses(s: RaceState, err: seq<bool>, n: nat) returns (t: RaceState)
    requires Waiting(s, n) && |err| == |s.bios|
    ensures Reaches(s, err, t) && t.ends == [false]
    decreases n
  {
    hide CountOk;
    var u := EndBelow(s, err, n, |s.bios|);
    if n == 0 {
      OwnerOnly(u, 0, 0);
      ReachesStep(s, err, u, Decrement(0));
      t := Go(u, Decrement(0));
    } else {
      var v := GoUp(u, err, n);
      ReachesThen(s, err, u, v);
      t := Loses(v, err, v.threads[0].bio);
      ReachesThen(s, err, v, t);
    }
  }

  /** The first completion: a bio that does not fail tests its flag before anything else happens. */
  lemma FirstTest(s: RaceState, err: seq<bool>, x: nat) returns (t: RaceState)
    requires Built(s) && |err| == |s.bios| && x < |err| && !err[x]
    ensures Reaches(s, err, t) && Waiting(t, x) && |t.bios| == |s.bios|
  {
    hide CountOk;
    var s1 := Go(s, Begin(x, false));
    MoveKeeps(s, Begin(x, false));
    ReachesSelf(s, err);
    ReachesStep(s, err, s, Begin(x, false));
    t := Go(s1, TestFlag(0));
    MoveKeeps(s1, TestFlag(0));
    ReachesStep(s, err, s1, TestFlag(0));
  }

  /**
   On every chain and for every assignment of outcomes: the root's report is right under all interleavings if and only if
   all bios fail or none does.
   */
  lemma ReliableExact(s: RaceState, err: seq<bool>)
    requires Built(s) && |err| == |s.bios|
    ensures Reliable(s, err) <==> true !in err || false !in err
  {
    hide Race, CountOk, Go;
    if true !in err || false !in err {
      var e := true in err;
      forall moves | Follows(moves, err) && Race(s, moves).Some? && |Race(s, moves).value.ends| == 1
        ensures Race(s, moves).value.ends[0] <==> true in err
      {
        SameRuns(s, moves, err, e);
      }
    } else {
      var x :| 0 <= x < |err| && err[x] == false;
      var t := FirstTest(s, err, x);
      var u := Loses(t, err, x);
      ReachesThen(s, err, t, u);
      var moves :| Follows(moves, err) && Race(s, moves) == Some(u);
      assert !Reliable(s, err);
    }
  }

  /** The same for whatever chain bio_chain() builds from one bio. */
  lemma ReliableFromIdle(chains: seq<Move>, err: seq<bool>)
    requires (forall i :: 0 <= i < |chains| ==> chains[i].ChainNew?) && Race(Idle, chains).Some? && |err| == |Race(Idle, chains).value.bios|
    ensures Reliable(Race(Idle, chains).value, err) <==> true !in err || false !in err
  {
    hide Race, Built, Reliable;
    IdleBuilt();
    ChainsBuild(Idle, chains);
    ReliableExact(Race(Idle, chains).value, err);
  }
}
