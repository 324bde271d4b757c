/**
 A search for a tag may give up although a tag is free at every moment: each tag was busy when the search looked at it.
 */
module TagTight {
  import opened Tags
  import opened TagRaces

  /** Some tag is free in every state of the run, and at its end thread i has given up. */
  ghost predicate FailsThoughFree(s: Shared, run: seq<Move>, i: nat)
    decreases |run|
  {
    && SharedOk(s) && (exists t :: 0 <= t < s.depth && !Busy(s.words, s.tpw, t))
    && if run == [] then i < |s.threads| && s.threads[i] == Failed
       else Can(s, run[0]) && FailsThoughFree(StepShared(s, run[0]), run[1..], i)
  }

  lemma {:induction false} FailsInRun(s: Shared, run: seq<Move>, i: nat)
    requires FailsThoughFree(s, run, i)
    ensures SharedOk(s) && RunShared(s, run).Some?
    ensures var e := RunShared(s, run).value; i < |e.threads| && e.threads[i] == Failed
    decreases |run|
  {
    hide SharedOk, StepShared;
    if run != [] {
      FailsInRun(StepShared(s, run[0]), run[1..], i);
    }
  }

  /** Two tags in one word: their busy bits and three threads. */
  ghost predicate At(s: Shared, w: Word, threads: seq<Pc>)
  {
    SharedOk(s) && s.tpw == 64 && s.depth == 2 && |w| == 2 && s.words == [w] && s.threads == threads
  }

  lemma Then(s: Shared, w: Word, threads: seq<Pc>, a: Move, w': Word, pc: Pc) returns (t: Shared)
    requires At(s, w, threads) && Can(s, a) && |w'| == 2 && Acted(s, a) == ([w'], pc)
    ensures t == StepShared(s, a) && At(t, w', threads[a.i := pc])
  {
    hide SharedOk, Acted;
    StepSharedKeeps(s, a);
    t := StepShared(s, a);
  }

  lemma OneFree(s: Shared, w: Word, threads: seq<Pc>)
    requires At(s, w, threads) && !(w[0] && w[1])
    ensures exists t :: 0 <= t < s.depth && !Busy(s.words, s.tpw, t)
  {
    hide SharedOk;
    assert !Busy(s.words, s.tpw, if w[0] then 1 else 0);
  }

  lemma Back(s: Shared, w: Word, threads: seq<Pc>, a: Move, run: seq<Move>)
    requires At(s, w, threads) && !(w[0] && w[1]) && Can(s, a) && FailsThoughFree(StepShared(s, a), run, 1)
    ensures FailsThoughFree(s, [a] + run, 1)
  {
    hide SharedOk, StepShared;
    OneFree(s, w, threads);
    assert ([a] + run)[1..] == run;
  }

  const Early := Walk(0, 0, 0, 0, false, 2)
  const Late := Walk(0, 0, 0, 1, true, 2)

  /** Thread 1 finds tag 1 free while tag 0 is held; tag 0 comes back, tag 1 goes to thread 2, and thread 1 gives up. */
  lemma GivesUpThoughFree() returns (s: Shared, run: seq<Move>)
    ensures Fresh(s) && s.depth == 2 && FailsThoughFree(s, run, 1)
  {
    hide SharedOk, FailsThoughFree, StepShared, Acted;
    s := Shared([[false, false]], 64, 2, [Idle, Idle, Idle], [{}, {}, {}]);
    FreshOk(s);
    var s1 := Then(s, [false, false], s.threads, Enter(0, 0), [false, false], Look(Early, 0)) by { ActEnter(s, 0, 0); }
    var s2 := Then(s1, [false, false], s1.threads, Advance(0), [false, false], Tas(Early, 0)) by { ActLook(s1, 0); }
    var s3 := Then(s2, [false, false], s2.threads, Advance(0), [true, false], Got(0)) by {
      ActTas(s2, 0);
      assert [false, false][0 := true] == [true, false];
    }
    var s4 := Then(s3, [true, false], s3.threads, Enter(1, 0), [true, false], Look(Early, 0)) by { ActEnter(s3, 1, 0); }
    var s5 := Then(s4, [true, false], s4.threads, Advance(1), [true, false], Tas(Early, 1)) by { ActLook(s4, 1); }
    run := Rest(s5);
    Back(s4, [true, false], s4.threads, Advance(1), run);
    run := [Advance(1)] + run;
    Back(s3, [true, false], s3.threads, Enter(1, 0), run);
    run := [Enter(1, 0)] + run;
    Back(s2, [false, false], s2.threads, Advance(0), run);
    run := [Advance(0)] + run;
    Back(s1, [false, false], s1.threads, Advance(0), run);
    run := [Advance(0)] + run;
    Back(s, [false, false], s.threads, Enter(0, 0), run);
    run := [Enter(0, 0)] + run;
  }

  lemma Rest(s: Shared) returns (run: seq<Move>)
    requires At(s, [true, false], [Got(0), Tas(Early, 1), Idle])
    ensures FailsThoughFree(s, run, 1)
  {
    hide SharedOk, FailsThoughFree, StepShared, Acted;
    var s1 := Then(s, [true, false], s.threads, Release(0), [false, false], Idle) by {
      ActRelease(s, 0);
      assert [true, false][0 := false] == [false, false];
    }
    var s2 := Then(s1, [false, false], s1.threads, Enter(2, 1), [false, false], Look(Late, 1)) by { ActEnter(s1, 2, 1); }
    var s3 := Then(s2, [false, false], s2.threads, Advance(2), [false, false], Tas(Late, 1)) by { ActLook(s2, 2); }
    var s4 := Then(s3, [false, false], s3.threads, Advance(2), [false, true], Got(1)) by {
      ActTas(s3, 2);
      assert [false, false][1 := true] == [false, true];
    }
    var s5 := Then(s4, [false, true], s4.threads, Advance(1), [false, true], Look(Early, 2)) by { ActTas(s4, 1); }
    var s6 := Then(s5, [false, true], s5.threads, Advance(1), [false, true], Failed) by { ActLook(s5, 1); }
    OneFree(s6, [false, true], s6.threads);
    assert FailsThoughFree(s6, [], 1) by { Done(s6); }
    Back(s5, [false, true], s5.threads, Advance(1), []);
    Back(s4, [false, true], s4.threads, Advance(1), [Advance(1)] + []);
    run := [Advance(1)] + ([Advance(1)] + []);
    Back(s3, [false, false], s3.threads, Advance(2), run);
    run := [Advance(2)] + run;
    Back(s2, [false, false], s2.threads, Advance(2), run);
    run := [Advance(2)] + run;
    Back(s1, [false, false], s1.threads, Enter(2, 1), run);
    run := [Enter(2, 1)] + run;
    Back(s, [true, false], s.threads, Release(0), run);
    run := [Release(0)] + run;
  }

  lemma Done(s: Shared)
    requires SharedOk(s) && (exists t :: 0 <= t < s.depth && !Busy(s.words, s.tpw, t)) && |s.threads| > 1 && s.threads[1] == Failed
    ensures FailsThoughFree(s, [], 1)
  {
  }

  // ----- what the steps do

  lemma ActEnter(s: Shared, i: nat, hint: nat)
    requires SharedOk(s) && Can(s, Enter(i, hint)) && s.tpw == 64 && s.depth == 2 && |s.words| == 1 && |s.words[0]| == 2
    ensures Acted(s, Enter(i, hint)) == (s.words, Look(Walk(0, 0, 0, hint, hint != 0, 2), hint))
  {
  }

  lemma ActRelease(s: Shared, i: nat)
    requires SharedOk(s) && Can(s, Release(i)) && s.tpw == 64 && s.depth == 2 && |s.words| == 1 && |s.words[0]| == 2 && s.threads[i].tag < 2
    ensures Acted(s, Release(i)) == ([s.words[0][s.threads[i].tag := false]], Idle)
  {
    assert PcOk(s.words, s.tpw, s.depth, s.threads[i], s.since[i]);
    assert s.words[0 := s.words[0][s.threads[i].tag := false]] == [s.words[0][s.threads[i].tag := false]];
  }

  lemma ActLook(s: Shared, i: nat)
    requires SharedOk(s) && Can(s, Advance(i)) && s.threads[i].Look? && s.tpw == 64 && s.depth == 2 && |s.words| == 1 && |s.words[0]| == 2
    requires s.threads[i].walk == Early || s.threads[i].walk == Late
    ensures var k, from := s.threads[i].walk, s.threads[i].from;
            Acted(s, Advance(i)) == (s.words, if from < 2 && !s.words[0][from] then Tas(k, from)
                                              else if from == 0 && !s.words[0][1] then Tas(k, 1)
                                              else if k.wrap then Look(k.(wrap := false, end := 1), 0) else Failed)
  {
    assert PcOk(s.words, s.tpw, s.depth, s.threads[i], s.since[i]);
  }

  lemma ActTas(s: Shared, i: nat)
    requires SharedOk(s) && Can(s, Advance(i)) && s.threads[i].Tas? && s.tpw == 64 && s.depth == 2 && |s.words| == 1 && |s.words[0]| == 2
    requires s.threads[i].walk.index == 0 && s.threads[i].bit < 2
    ensures var k, bit := s.threads[i].walk, s.threads[i].bit;
            Acted(s, Advance(i)) == if s.words[0][bit] then (s.words, Look(k, bit + 1)) else ([s.words[0][bit := true]], Got(bit))
  {
    assert PcOk(s.words, s.tpw, s.depth, s.threads[i], s.since[i]);
    var bit := s.threads[i].bit;
    assert s.words[0 := s.words[0][bit := true]] == [s.words[0][bit := true]];
  }
}
