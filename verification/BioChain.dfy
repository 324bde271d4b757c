/**
 Chained bios, kernel/block/bio.c.

 bio_chain() makes a bio's completion count towards its parent's; bio_endio() decrements and climbs. Bio 0 is the
 root, whose bi_end_io is the submitter's; every other bio is chained to a lower-numbered one. `ended` and `failed`
 record what the bio's owner did; `done` that bi_remaining reached zero.
 */
module BioChain {
  import opened Basics

  datatype Bio = Bio(parent: nat, remaining: int, uptodate: bool, ended: bool, failed: bool, done: bool)

  type Bios = seq<Bio>

  predicate Shape(bios: Bios) { |bios| > 0 && forall n :: 0 < n < |bios| ==> bios[n].parent < n }

  const FreshRoot := Bio(0, 1, true, false, false, false)

  /** bio_init() and bio_chain(): a new bio behind p. */
  function Chain(bios: Bios, p: nat): Bios
    requires p < |bios|
  {
    bios[p := bios[p].(remaining := bios[p].remaining + 1)] + [Bio(p, 1, true, false, false, false)]
  }

  /** The owner of n ends it. */
  function Claim(bios: Bios, n: nat, error: bool): Bios
    requires n < |bios|
  {
    bios[n := bios[n].(ended := true, failed := error)]
  }

  /** One turn of the loop of bio_endio() at n. */
  function Hit(bios: Bios, n: nat, error: bool): Bios
    requires n < |bios|
  {
    var b := bios[n];
    bios[n := b.(uptodate := b.uptodate && !error, remaining := b.remaining - 1, done := b.remaining == 1)]
  }

  // ----- the invariant

  /** c is chained to n and n still waits for it; `late` is done but its parent has not been told. */
  predicate Open(bios: Bios, n: nat, c: nat, late: int)
    requires c < |bios|
  {
    c > 0 && bios[c].parent == n && (!bios[c].done || c == late)
  }

  function OpenKids(bios: Bios, n: nat, k: nat, late: int): nat
    requires k <= |bios|
  {
    if k == 0 then 0 else OpenKids(bios, n, k - 1, late) + (if Open(bios, n, k - 1, late) then 1 else 0)
  }

  /** c is a bio chained to n whose failure n has heard of. */
  predicate BadKid(bios: Bios, n: nat, c: nat, late: int)
    requires c < |bios|
  {
    c > 0 && bios[c].parent == n && bios[c].done && c != late && !bios[c].uptodate
  }

  ghost predicate NodeOk(bios: Bios, n: nat, late: int)
    requires n < |bios|
  {
    var b := bios[n];
    && b.remaining == (if b.ended then 0 else 1) + OpenKids(bios, n, |bios|, late)
    && (b.done <==> b.remaining == 0)
    && (!b.uptodate <==> (b.ended && b.failed) || exists c :: 0 < c < |bios| && BadKid(bios, n, c, late))
  }

  ghost predicate Inv(bios: Bios, late: int)
  {
    Shape(bios) && forall n :: 0 <= n < |bios| ==> NodeOk(bios, n, late)
  }

  // ----- counting

  lemma {:induction false} OpenFrame(bios: Bios, bios': Bios, n: nat, k: nat, late: int, late': int)
    requires k <= |bios| && k <= |bios'|
    requires forall c :: 0 <= c < k ==> (Open(bios, n, c, late) <==> Open(bios', n, c, late'))
    ensures OpenKids(bios', n, k, late') == OpenKids(bios, n, k, late)
  {
    if k > 0 {
      OpenFrame(bios, bios', n, k - 1, late, late');
    }
  }

  /** Telling n about the late child takes one off. */
  lemma {:induction false} OpenTold(bios: Bios, n: nat, k: nat, c: nat)
    requires k <= |bios| && 0 < c < |bios| && bios[c].parent == n && bios[c].done
    ensures OpenKids(bios, n, k, c) == OpenKids(bios, n, k, -1) + (if c < k then 1 else 0)
  {
    if k > 0 {
      OpenTold(bios, n, k - 1, c);
    }
  }

  lemma {:induction false} OpenHas(bios: Bios, n: nat, k: nat, c: nat, late: int)
    requires k <= |bios| && c < k && Open(bios, n, c, late)
    ensures OpenKids(bios, n, k, late) >= 1
  {
    if c < k - 1 {
      OpenHas(bios, n, k - 1, c, late);
    }
  }

  lemma {:induction false} OpenNone(bios: Bios, n: nat, k: nat, late: int)
    requires k <= |bios| && OpenKids(bios, n, k, late) == 0
    ensures forall c :: 0 <= c < k ==> !Open(bios, n, c, late)
  {
    if k > 0 {
      OpenNone(bios, n, k - 1, late);
    }
  }

  // ----- chaining

  lemma ChainKeeps(bios: Bios, p: nat)
    requires Inv(bios, -1) && p < |bios| && !bios[p].ended
    ensures Inv(Chain(bios, p), -1)
  {
    var bios' := Chain(bios, p);
    var last := |bios|;
    forall n | 0 <= n < |bios'|
      ensures NodeOk(bios', n, -1)
    {
      assert OpenKids(bios', n, last + 1, -1) == OpenKids(bios', n, last, -1) + (if n == p then 1 else 0);
      if n < last {
        assert NodeOk(bios, n, -1);
        OpenFrame(bios, bios', n, last, -1, -1);
        assert forall c :: 0 < c < last ==> (BadKid(bios, n, c, -1) <==> BadKid(bios', n, c, -1));
      } else {
        OpenNever(bios', n, last);
      }
    }
  }

  lemma {:induction false} OpenNever(bios: Bios, n: nat, k: nat)
    requires k <= |bios| && forall c :: 0 < c < |bios| ==> bios[c].parent != n
    ensures OpenKids(bios, n, k, -1) == 0
  {
    if k > 0 {
      OpenNever(bios, n, k - 1);
    }
  }

  // ----- bio_endio()

  /** The owner's turn: BUG_ON(bi_remaining <= 0) does not fire, and n owes its parent if it completes. */
  lemma HitOwner(bios: Bios, n: nat, error: bool)
    requires Inv(bios, -1) && n < |bios| && !bios[n].ended
    ensures bios[n].remaining > 0
    ensures var bios' := Hit(Claim(bios, n, error), n, error);
            Inv(bios', if bios'[n].done then n else -1)
  {
    var bios' := Hit(Claim(bios, n, error), n, error);
    var late := if bios'[n].done then n else -1;
    assert NodeOk(bios, n, -1);
    forall m | 0 <= m < |bios'|
      ensures NodeOk(bios', m, late)
    {
      assert NodeOk(bios, m, -1);
      OpenFrame(bios, bios', m, |bios|, -1, late);
      assert forall c :: 0 < c < |bios| ==> (BadKid(bios, m, c, -1) <==> BadKid(bios', m, c, late));
    }
  }

  /** A completed bio's turn at its parent. */
  lemma HitParent(bios: Bios, c: nat)
    requires Inv(bios, c) && 0 < c < |bios| && bios[c].done
    ensures bios[bios[c].parent].remaining > 0
    ensures var p := bios[c].parent;
            var bios' := Hit(bios, p, !bios[c].uptodate);
            Inv(bios', if bios'[p].done then p else -1)
  {
    var p := bios[c].parent;
    var bios' := Hit(bios, p, !bios[c].uptodate);
    var late := if bios'[p].done then p else -1;
    assert NodeOk(bios, p, c);
    OpenHas(bios, p, |bios|, c, c);
    forall m | 0 <= m < |bios'|
      ensures NodeOk(bios', m, late)
    {
      assert NodeOk(bios, m, c);
      if m == p {
        OpenTold(bios, p, |bios|, c);
        OpenFrame(bios, bios', p, |bios|, -1, late);
        assert forall x :: 0 < x < |bios| && x != c ==> (BadKid(bios, p, x, c) <==> BadKid(bios', p, x, late));
        assert BadKid(bios', p, c, late) <==> !bios[c].uptodate;
      } else {
        OpenFrame(bios, bios', m, |bios|, c, late);
        assert forall x :: 0 < x < |bios| ==> (BadKid(bios, m, x, c) <==> BadKid(bios', m, x, late));
      }
    }
  }

  /** The climb from n, which has just been hit: the final bios, and the error handed to the root's bi_end_io if it ran. */
  ghost function Climb(bios: Bios, n: nat): (Bios, Option<bool>)
    requires Shape(bios) && n < |bios|
    decreases n
  {
    if !bios[n].done then (bios, None)
    else if n == 0 then (bios, Some(!bios[0].uptodate))
    else Climb(Hit(bios, bios[n].parent, !bios[n].uptodate), bios[n].parent)
  }

  ghost function EndIo(bios: Bios, n: nat, error: bool): (Bios, Option<bool>)
    requires Shape(bios) && n < |bios|
  {
    Climb(Hit(Claim(bios, n, error), n, error), n)
  }

  /** No one but the climbing path changes who has ended, and the root completes exactly when reported. */
  lemma {:induction false} ClimbKeeps(bios: Bios, n: nat)
    requires Shape(bios) && n < |bios| && Inv(bios, if bios[n].done then n else -1)
    requires bios[0].done ==> n == 0
    ensures var r := Climb(bios, n);
            && |r.0| == |bios| && Inv(r.0, -1)
            && (forall m :: 0 <= m < |bios| ==> r.0[m].ended == bios[m].ended && r.0[m].failed == bios[m].failed && r.0[m].parent == bios[m].parent)
            && (r.1.Some? <==> r.0[0].done) && (r.1.Some? ==> r.1.value == !r.0[0].uptodate)
    decreases n
  {
    hide NodeOk;
    if bios[n].done {
      if n == 0 {
        RootNotLate(bios);
      } else {
        HitParent(bios, n);
        ClimbKeeps(Hit(bios, bios[n].parent, !bios[n].uptodate), bios[n].parent);
      }
    }
  }

  lemma RootNotLate(bios: Bios)
    requires Inv(bios, 0)
    ensures Inv(bios, -1)
  {
    forall n | 0 <= n < |bios|
      ensures NodeOk(bios, n, -1)
    {
      assert NodeOk(bios, n, 0);
      OpenFrame(bios, bios, n, |bios|, 0, -1);
      assert forall c :: 0 < c < |bios| ==> (BadKid(bios, n, c, 0) <==> BadKid(bios, n, c, -1));
    }
  }

  /** While some owner has yet to end its bio, the root is open. */
  lemma {:induction false} OpenOwnerKeepsRoot(bios: Bios, n: nat)
    requires Inv(bios, -1) && n < |bios| && !bios[n].done
    ensures !bios[0].done
    decreases n
  {
    if n > 0 {
      var p := bios[n].parent;
      assert NodeOk(bios, p, -1);
      OpenHas(bios, p, |bios|, n, -1);
      OpenOwnerKeepsRoot(bios, p);
    }
  }

  lemma EndIoKeeps(bios: Bios, n: nat, error: bool)
    requires Inv(bios, -1) && n < |bios| && !bios[n].ended
    ensures var r := EndIo(bios, n, error);
            && |r.0| == |bios| && Inv(r.0, -1) && !bios[0].done
            && (forall m :: 0 <= m < |bios| ==>
                  && r.0[m].parent == bios[m].parent
                  && r.0[m].ended == (bios[m].ended || m == n)
                  && r.0[m].failed == (if m == n then error else bios[m].failed))
            && (r.1.Some? <==> r.0[0].done) && (r.1.Some? ==> r.1.value == !r.0[0].uptodate)
  {
    hide Climb;
    HitOwner(bios, n, error);
    assert NodeOk(bios, n, -1);
    OpenOwnerKeepsRoot(bios, n);
    ClimbKeeps(Hit(Claim(bios, n, error), n, error), n);
  }

  // ----- what completion of the root means

  /** The root is done only when every bio is, and every owner has ended its own. */
  lemma {:induction false} RootDoneMeansAll(bios: Bios, n: nat)
    requires Inv(bios, -1) && bios[0].done && n < |bios|
    ensures bios[n].done && bios[n].ended
    decreases n
  {
    if n > 0 {
      var p := bios[n].parent;
      RootDoneMeansAll(bios, p);
      assert NodeOk(bios, p, -1);
      OpenNone(bios, p, |bios|, -1);
      assert !Open(bios, p, n, -1);
    }
    assert NodeOk(bios, n, -1);
  }

  /** Conversely, once every owner has ended its bio, every bio is done. */
  lemma {:induction false} AllEndedMeansDone(bios: Bios, n: nat)
    requires Inv(bios, -1) && n < |bios| && forall m :: 0 <= m < |bios| ==> bios[m].ended
    ensures bios[n].done
    decreases |bios| - n
  {
    assert NodeOk(bios, n, -1);
    forall c | 0 < c < |bios| && bios[c].parent == n
      ensures bios[c].done
    {
      AllEndedMeansDone(bios, c);
    }
    AllKidsDone(bios, n, |bios|);
  }

  lemma {:induction false} AllKidsDone(bios: Bios, n: nat, k: nat)
    requires k <= |bios| && forall c :: 0 < c < |bios| && bios[c].parent == n ==> bios[c].done
    ensures OpenKids(bios, n, k, -1) == 0
  {
    if k > 0 {
      AllKidsDone(bios, n, k - 1);
    }
  }

  /** A failure reaches the root... */
  lemma {:induction false} FailureClimbs(bios: Bios, n: nat)
    requires Inv(bios, -1) && bios[0].done && n < |bios| && !bios[n].uptodate
    ensures !bios[0].uptodate
    decreases n
  {
    if n > 0 {
      var p := bios[n].parent;
      RootDoneMeansAll(bios, n);
      assert BadKid(bios, p, n, -1);
      assert NodeOk(bios, p, -1);
      FailureClimbs(bios, p);
    }
  }

  /** ... and an error at n comes from a failure at or below n. */
  lemma {:induction false} ErrorHasCause(bios: Bios, n: nat) returns (m: nat)
    requires Inv(bios, -1) && n < |bios| && !bios[n].uptodate
    ensures m < |bios| && bios[m].ended && bios[m].failed
    decreases |bios| - n
  {
    assert NodeOk(bios, n, -1);
    if bios[n].ended && bios[n].failed {
      m := n;
    } else {
      var c :| 0 < c < |bios| && BadKid(bios, n, c, -1);
      m := ErrorHasCause(bios, c);
    }
  }

  lemma RootErrorExact(bios: Bios)
    requires Inv(bios, -1) && bios[0].done
    ensures !bios[0].uptodate <==> exists m :: 0 <= m < |bios| && bios[m].failed
  {
    if !bios[0].uptodate {
      var m := ErrorHasCause(bios, 0);
    }
    forall m | 0 <= m < |bios| && bios[m].failed
      ensures !bios[0].uptodate
    {
      RootDoneMeansAll(bios, m);
      assert NodeOk(bios, m, -1);
      FailureClimbs(bios, m);
    }
  }

  // ----- every run

  datatype Action = ChainTo(parent: nat) | End(bio: nat, error: bool)

  /** ends lists the errors the root's bi_end_io was called with. */
  datatype State = State(bios: Bios, ends: seq<bool>)

  /** Whoever chains to a bio, or ends it, has not ended it before. */
  predicate Enabled(s: State, a: Action)
  {
    match a
    case ChainTo(p) => p < |s.bios| && !s.bios[p].ended
    case End(n, _) => n < |s.bios| && !s.bios[n].ended
  }

  ghost function Step(s: State, a: Action): State
    requires Shape(s.bios) && Enabled(s, a)
  {
    match a
    case ChainTo(p) => State(Chain(s.bios, p), s.ends)
    case End(n, error) =>
      var r := EndIo(s.bios, n, error);
      State(r.0, s.ends + if r.1.Some? then [r.1.value] else [])
  }

  ghost predicate RunInv(s: State)
  {
    && Inv(s.bios, -1)
    && s.ends == if s.bios[0].done then [!s.bios[0].uptodate] else []
  }

  lemma StepKeeps(s: State, a: Action)
    requires RunInv(s) && Enabled(s, a)
    ensures RunInv(Step(s, a))
  {
    hide EndIo;
    match a
    case ChainTo(p) =>
      ChainKeeps(s.bios, p);
      assert NodeOk(s.bios, p, -1);
    case End(n, error) => EndIoKeeps(s.bios, n, error);
  }

  ghost function Run(s: State, acts: seq<Action>): (r: Option<State>)
    requires RunInv(s)
    ensures r.Some? ==> RunInv(r.value)
    decreases |acts|
  {
    if acts == [] then Some(s)
    else if !Enabled(s, acts[0]) then None
    else
      StepKeeps(s, acts[0]);
      Run(Step(s, acts[0]), acts[1..])
  }

  const Start := State([FreshRoot], [])

  lemma StartOk()
    ensures RunInv(Start)
  {
    assert OpenKids(Start.bios, 0, 1, -1) == 0;
  }

  /** Chain and end in any order: the root's bi_end_io runs at most once, exactly when every bio has been ended by its
      owner, and with an error exactly when some owner reported one. */
  lemma RootEndsOnce(acts: seq<Action>)
    ensures RunInv(Start)
    ensures Run(Start, acts).Some? ==>
              var s := Run(Start, acts).value;
              && |s.ends| <= 1
              && (|s.ends| == 1 <==> forall n :: 0 <= n < |s.bios| ==> s.bios[n].ended)
              && (|s.ends| == 1 ==> (s.ends[0] <==> exists n :: 0 <= n < |s.bios| && s.bios[n].failed))
              && (forall n :: 0 <= n < |s.bios| ==> s.bios[n].remaining >= 0)
  {
    hide Run, NodeOk;
    StartOk();
    if Run(Start, acts).Some? {
      var s := Run(Start, acts).value;
      if s.bios[0].done {
        RootErrorExact(s.bios);
        forall n | 0 <= n < |s.bios|
          ensures s.bios[n].ended
        {
          RootDoneMeansAll(s.bios, n);
        }
      } else if forall n :: 0 <= n < |s.bios| ==> s.bios[n].ended {
        AllEndedMeansDone(s.bios, 0);
      }
      forall n | 0 <= n < |s.bios|
        ensures s.bios[n].remaining >= 0
      {
        NeverNegative(s.bios, n);
      }
    }
  }

  lemma NeverNegative(bios: Bios, n: nat)
    requires Inv(bios, -1) && n < |bios|
    ensures bios[n].remaining >= 0
  {
    assert NodeOk(bios, n, -1);
  }

  // ----- in place

  /** A tree of chained bios and the record of its root's completions. */
  class BioTree {
    var bios: Bios
    var ends: seq<bool>

    constructor ()
      ensures RunInv(State(bios, ends)) && State(bios, ends) == Start
    {
      bios, ends := [FreshRoot], [];
      new;
      StartOk();
    }

    /** bio_chain(). */
    method ChainBio(p: nat)
      requires RunInv(State(bios, ends)) && Enabled(State(bios, ends), ChainTo(p))
      modifies this
      ensures RunInv(State(bios, ends)) && State(bios, ends) == Step(old(State(bios, ends)), ChainTo(p))
    {
      StepKeeps(State(bios, ends), ChainTo(p));
      bios := bios[p := bios[p].(remaining := bios[p].remaining + 1)] + [Bio(p, 1, true, false, false, false)];
    }

    /** bio_endio(): the loop up the chain of parents. */
    method EndBio(n: nat, error: bool)
      requires RunInv(State(bios, ends)) && Enabled(State(bios, ends), End(n, error))
      modifies this
      ensures RunInv(State(bios, ends)) && State(bios, ends) == Step(old(State(bios, ends)), End(n, error))
    {
      hide NodeOk;
      StepKeeps(State(bios, ends), End(n, error));
      ghost var final := EndIo(bios, n, error);
      HitOwner(bios, n, error);
      var cur: nat, err := n, error;
      bios := Claim(bios, n, error);
      while true
        invariant cur < |bios| && Shape(bios) && bios[cur].remaining > 0 && ends == old(ends)
        invariant Inv(Hit(bios, cur, err), if bios[cur].remaining == 1 then cur else -1)
        invariant Climb(Hit(bios, cur, err), cur) == final
        decreases cur
      {
        assert bios[cur].remaining > 0;                       // BUG_ON(bi_remaining <= 0)
        var b := bios[cur];
        if err {
          b := b.(uptodate := false);
        } else if !b.uptodate {
          err := true;
        }
        b := b.(remaining := b.remaining - 1, done := b.remaining == 1);
        bios := bios[cur := b];
        if b.remaining != 0 {
          return;
        }
        if cur == 0 {
          ends := ends + [err];
          return;
        }
        HitParent(bios, cur);
        cur := bios[cur].parent;
      }
    }
  }
}
