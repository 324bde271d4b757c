/**
 What cooperation is for, kernel/block/cfq-iosched.c:2444-2480 and 3495-3570, said of the io contexts: setting up a
 merge brings all processes of two chains under one root, each io context that goes on issuing requests arrives there,
 and one that splits off is alone on its queue.
 */
module CfqJoin {
  import opened Basics
  import opened CfqCoop

  /** The io contexts that reach q. */
  function Users(s: State, q: Q): set<Cic>
    requires Forest(s.queues, s.clock) && Known(s)
  {
    Reachers(s.queues, s.clock, s.cics, q)
  }

  function End(s: State, q: Q): Q
    requires Forest(s.queues, s.clock) && q in s.queues
  {
    Root(s.queues, s.clock, q)
  }

  /** Process references count users. */
  lemma RefsAreUsers(s: State, q: Q)
    requires Inv(s) && q in s.queues
    ensures Forest(s.queues, s.clock) && Known(s)
    ensures ProcessRefs(s.queues[q]) == |Users(s, q)|
    ensures ProcessRefs(s.queues[q]) == 0 <==> Users(s, q) == {}
  {
    hide Chain, Forest;
    if Users(s, q) != {} {
      var c :| c in Users(s, q);
      assert Users(s, q) == (Users(s, q) - {c}) + {c};
    }
  }

  /** Whoever reaches q reaches everything behind q. */
  lemma UsersGrow(s: State, n: Q, q: Q)
    requires Forest(s.queues, s.clock) && Known(s) && n in s.queues && q in Chain(s.queues, s.clock, n)
    ensures Users(s, n) <= Users(s, q)
  {
    hide Chain, Forest;
    forall c | c in Users(s, n)
      ensures c in Users(s, q)
    {
      ChainTrans(s.queues, s.clock, s.cics[c].value, n, q);
    }
  }

  /** After a link from root a to root b, what ended in a ends in b. */
  lemma LinkEnds(s: State, a: Q, b: Q, q: Q)
    requires Forest(s.queues, s.clock) && a in s.queues && b in s.queues && a != b && q in s.queues
    requires s.queues[a].next.None? && s.queues[b].next.None?
    ensures Forest(Link(s, a, b).queues, Link(s, a, b).clock)
    ensures End(Link(s, a, b), q) == if End(s, q) == a then b else End(s, q)
  {
    hide Chain, Forest;
    var t := Link(s, a, b);
    LinkForest(s, a, b);
    ChainLink(s.queues, t.queues, s.clock, a, b, q);
    RootEnds(s.queues, s.clock, q);
  }

  /** The queue of a and the end of n's chain, the one with more users being the one that stays; the other side's on a tie. */
  function Winner(s: State, a: Q, n: Q): Q
    requires Forest(s.queues, s.clock) && Known(s) && n in s.queues
  {
    if |Users(s, End(s, n))| >= |Users(s, a)| then End(s, n) else a
  }

  predicate Mergeable(s: State, a: Q, n: Q)
    requires Forest(s.queues, s.clock) && Known(s) && n in s.queues
  {
    Users(s, a) != {} && Users(s, n) != {} && a !in Chain(s.queues, s.clock, n)
  }

  /**
   A merge of a's queue with n's chain happens exactly when both are in use and a is not already on that chain. Then
   everything that ended in either ends in the one with more users, whose users are now those of both; everything else
   ends where it did, and no io context has moved yet.
   */
  lemma SetupMergeJoins(s: State, a: Q, n: Q)
    requires Inv(s) && a in s.queues && n in s.queues && a != n && s.queues[a].next.None?
    ensures Forest(s.queues, s.clock) && Known(s)
    ensures !Mergeable(s, a, n) ==> SetupMerge(s, a, n) == s
    ensures Mergeable(s, a, n) ==>
              var t := SetupMerge(s, a, n);
              && Inv(t) && Forest(t.queues, t.clock) && Known(t) && t.cics == s.cics && t.requests == s.requests
              && t.queues.Keys == s.queues.Keys
              && (forall q :: q in s.queues ==>
                   End(t, q) == if End(s, q) == a || End(s, q) == End(s, n) then Winner(s, a, n) else End(s, q))
              && Users(t, Winner(s, a, n)) == Users(s, a) + Users(s, End(s, n))
  {
    hide Inv, Chain, Forest, Link, Reachers;
    InvForest(s);
    SetupMergeKeeps(s, a, n);
    RootEnds(s.queues, s.clock, n);
    var b := End(s, n);
    RefsAreUsers(s, a);
    RefsAreUsers(s, b);
    RefsAreUsers(s, n);
    UsersGrow(s, n, b);
    var l := Chain(s.queues, s.clock, n);
    assert l == [n] + l[1..];
    assert a in l <==> a in l[1..];
    if Mergeable(s, a, n) {
      assert b != a;
      assert Users(s, b) != {};
      var w := Winner(s, a, n);
      var x := if w == b then a else b;
      var t := SetupMerge(s, a, n);
      assert t == Link(s, x, w);
      InvForest(t);
      LinkSame(s, x, w);
      LinkReachers(s, x, w, w);
      forall q | q in s.queues
        ensures End(t, q) == if End(s, q) == a || End(s, q) == b then w else End(s, q)
      {
        LinkEnds(s, x, w, q);
      }
    }
  }

  lemma LinkSame(s: State, a: Q, b: Q)
    requires a in s.queues && b in s.queues
    ensures Link(s, a, b).cics == s.cics && Link(s, a, b).requests == s.requests && Link(s, a, b).queues.Keys == s.queues.Keys
  {
  }

  /** Where a request finds io context c, when it does not split off: one step along the chain. */
  lemma FollowsOne(s: State, c: Cic)
    requires Inv(s) && c in s.cics && s.cics[c].Some?
    ensures Forest(s.queues, s.clock) && Known(s)
    ensures var t := Settle(s, c, false, 0);
            && Inv(t) && t.queues.Keys == s.queues.Keys && t.clock == s.clock && c in t.cics && t.cics[c].Some?
            && (forall q :: q in s.queues ==> t.queues[q].next == s.queues[q].next)
            && (forall x :: x in s.cics && x != c ==> x in t.cics && t.cics[x] == s.cics[x])
            && t.cics[c] == if s.queues[s.cics[c].value].next.Some? then s.queues[s.cics[c].value].next else s.cics[c]
  {
    hide Chain, Reachers, Owned;
    if s.queues[s.cics[c].value].next.Some? {
      MergeCfqqsKeeps(s, c);
    }
  }

  /** c issues n requests, none of which makes it split off. */
  function Follow(s: State, c: Cic, n: nat): State
    requires Inv(s) && c in s.cics && s.cics[c].Some?
    decreases n
  {
    if n == 0 then s
    else
      FollowsOne(s, c);
      Follow(Settle(s, c, false, 0), c, n - 1)
  }

  /** An io context that goes on issuing requests ends up on the root of its chain, and stays there. */
  lemma {:induction false} ArrivesAtTheRoot(s: State, c: Cic, n: nat)
    requires Inv(s) && c in s.cics && s.cics[c].Some?
    ensures Forest(s.queues, s.clock) && Known(s)
    ensures n >= |Chain(s.queues, s.clock, s.cics[c].value)| - 1 ==>
              c in Follow(s, c, n).cics && Follow(s, c, n).cics[c] == Some(End(s, s.cics[c].value))
    decreases n
  {
    hide Inv, Chain, Forest, Settle;
    FollowsOne(s, c);
    var h := s.cics[c].value;
    ChainHead(s.queues, s.clock, h);
    RootEnds(s.queues, s.clock, h);
    if s.queues[h].next.Some? {
      ChainNext(s.queues, s.clock, h);
    }
    if n > 0 {
      var t := Settle(s, c, false, 0);
      InvForest(t);
      ChainFrame(s.queues, t.queues, s.clock, t.clock, t.cics[c].value);
      RootEnds(s.queues, s.clock, t.cics[c].value);
      ArrivesAtTheRoot(t, c, n - 1);
    }
  }

  function Members(l: seq<Q>): set<Q> { set p | p in l }

  /** A chain is no longer than there are queues. */
  lemma {:induction false} ChainShort(queues: Queues, clock: nat, q: Q)
    requires Forest(queues, clock) && q in queues
    ensures |Members(Chain(queues, clock, q))| == |Chain(queues, clock, q)| <= |queues|
    decreases if queues[q].next.None? then 0 else clock - queues[q].stamp
  {
    var l := Chain(queues, clock, q);
    var m := Members(l);
    if queues[q].next.None? {
      assert m == {q};
    } else {
      ChainNext(queues, clock, q);
      ChainShort(queues, clock, queues[q].next.value);
      assert m == {q} + Members(Chain(queues, clock, queues[q].next.value));
    }
    SubsetSize(m, queues.Keys);
    assert |queues.Keys| == |queues|;
  }

  lemma {:induction false} SubsetSize(a: set<Q>, b: set<Q>)
    requires a <= b
    ensures |a| <= |b|
  {
    if a != {} {
      var x :| x in a;
      SubsetSize(a - {x}, b - {x});
    }
  }

  /**
   After a merge of a's queue with n's chain, any process of the one and any process of the other that go on issuing
   requests, at least as many as there are queues, share one queue.
   */
  lemma MergedShare(s: State, a: Q, n: Q, c: Cic, d: Cic, i: nat, j: nat)
    requires Inv(s) && a in s.queues && n in s.queues && a != n && s.queues[a].next.None?
    requires Forest(s.queues, s.clock) && Known(s)
    requires c in Users(s, a) && d in Users(s, n) && a !in Chain(s.queues, s.clock, n)
    requires i >= |s.queues| && j >= |s.queues|
    ensures var t := SetupMerge(s, a, n);
            && Inv(t) && t.cics == s.cics && s.cics[c].Some? && s.cics[d].Some?
            && c in Follow(t, c, i).cics && d in Follow(t, d, j).cics
            && Follow(t, c, i).cics[c] == Follow(t, d, j).cics[d] == Some(Winner(s, a, n))
  {
    hide Inv, Chain, Forest, Follow, SetupMerge;
    var t := SetupMerge(s, a, n);
    SetupMergeJoins(s, a, n);
    RootEnds(s.queues, s.clock, n);
    UsersGrow(s, n, End(s, n));
    UserEnds(s, c, a);
    UserEnds(s, d, End(s, n));
    SameCount(s.queues, t.queues);
    ChainShort(t.queues, t.clock, s.cics[c].value);
    ChainShort(t.queues, t.clock, s.cics[d].value);
    ArrivesAtTheRoot(t, c, i);
    ArrivesAtTheRoot(t, d, j);
  }

  lemma SameCount(a: Queues, b: Queues)
    requires a.Keys == b.Keys
    ensures |a| == |b|
  {
    assert |a| == |a.Keys| == |b.Keys| == |b|;
  }

  lemma UserEnds(s: State, c: Cic, a: Q)
    requires Forest(s.queues, s.clock) && Known(s) && a in s.queues && s.queues[a].next.None? && c in Users(s, a)
    ensures s.cics[c].Some? && End(s, s.cics[c].value) == a
  {
    RootEnds(s.queues, s.clock, s.cics[c].value);
  }

  /**
   A request of c splits c off exactly when asked to and c shares its queue: it gets the new queue for itself alone and
   leaves its whole old chain. A context without a queue gets a new one. Otherwise c follows the link, if there is one.
   Nobody else is moved, and no other queue changes hands.
   */
  lemma SettleMoves(s: State, c: Cic, split: bool, spare: Q)
    requires Inv(s) && spare !in s.queues
    ensures Forest(s.queues, s.clock) && Known(s)
    ensures var t := Settle(s, c, split, spare);
            && Inv(t) && Forest(t.queues, t.clock) && Known(t) && c in t.cics && t.cics[c].Some?
            && (forall x :: x in s.cics && x != c ==> x in t.cics && t.cics[x] == s.cics[x])
            && (if c !in s.cics || s.cics[c].None? || (split && Users(s, s.cics[c].value) != {c}) then
                  && t.cics[c] == Some(spare) && Users(t, spare) == {c}
                  && forall q :: q in s.queues ==> Users(t, q) == Users(s, q) - {c}
                else
                  var h := s.cics[c].value;
                  && t.cics[c] == (if s.queues[h].next.Some? then s.queues[h].next else Some(h))
                  && forall q :: q in s.queues ==> Users(t, q) == if q == h && s.queues[h].next.Some? then Users(s, q) - {c} else Users(s, q))
  {
    hide Inv, Chain, Forest, Reachers, LeaveChain, NewQueue, MergeCfqqs;
    InvForest(s);
    if c !in s.cics || s.cics[c].None? {
      NewMoves(s, c, spare);
    } else {
      OwnUser(s, c);
      var h := s.cics[c].value;
      RefsAreUsers(s, h);
      if split && Users(s, h) != {c} {
        LeaveMoves(s, c);
        NewMoves(LeaveChain(s, c), c, spare);
      } else if s.queues[h].next.Some? {
        FollowMoves(s, c);
      }
    }
  }

  lemma OwnUser(s: State, c: Cic)
    requires Forest(s.queues, s.clock) && Known(s) && c in s.cics && s.cics[c].Some?
    ensures c in Users(s, s.cics[c].value)
    ensures |Users(s, s.cics[c].value)| == 1 <==> Users(s, s.cics[c].value) == {c}
  {
    var u := Users(s, s.cics[c].value);
    assert c in u;
    if |u| == 1 {
      assert |u - {c}| == 0;
      assert u == {c};
    }
  }

  lemma NewMoves(s: State, c: Cic, q: Q)
    requires Inv(s) && Forest(s.queues, s.clock) && Known(s) && q !in s.queues && (c in s.cics ==> s.cics[c].None?)
    ensures var t := NewQueue(s, c, q);
            && Inv(t) && Forest(t.queues, t.clock) && Known(t) && t.cics == s.cics[c := Some(q)]
            && Users(t, q) == {c} && forall p :: p in s.queues ==> Users(t, p) == Users(s, p) == Users(s, p) - {c}
  {
    hide Inv, Chain, Reachers;
    NewQueueKeeps(s, c, q);
    var t := NewQueue(s, c, q);
    InvForest(t);
    NewReachers(s, c, q, q);
    forall p | p in s.queues
      ensures Users(t, p) == Users(s, p) == Users(s, p) - {c}
    {
      NewReachers(s, c, q, p);
      NotReacher(s.queues, s.clock, s.cics, c, p);
    }
  }

  lemma LeaveMoves(s: State, c: Cic)
    requires Inv(s) && Forest(s.queues, s.clock) && Known(s) && c in s.cics && s.cics[c].Some?
    ensures var t := LeaveChain(s, c);
            && Inv(t) && Forest(t.queues, t.clock) && Known(t) && t.cics == s.cics[c := None]
            && t.queues.Keys == s.queues.Keys && forall p :: p in s.queues ==> Users(t, p) == Users(s, p) - {c}
  {
    hide Inv, Chain, Reachers, PutAll;
    LeaveChainKeeps(s, c);
    var t := LeaveChain(s, c);
    InvForest(t);
    PutAllIs(s.queues, Chain(s.queues, s.clock, s.cics[c].value));
    forall p | p in s.queues
      ensures Users(t, p) == Users(s, p) - {c}
    {
      ReachersFrame(s.queues, t.queues, s.clock, t.cics, p);
      ReachersMove(s.queues, s.clock, s.cics, c, None, p);
    }
  }

  lemma FollowMoves(s: State, c: Cic)
    requires Inv(s) && Forest(s.queues, s.clock) && Known(s) && c in s.cics && s.cics[c].Some?
    requires s.queues[s.cics[c].value].next.Some?
    ensures var t := MergeCfqqs(s, c);
            && Inv(t) && Forest(t.queues, t.clock) && Known(t) && t.cics == s.cics[c := s.queues[s.cics[c].value].next]
            && forall p :: p in s.queues ==> Users(t, p) == if p == s.cics[c].value then Users(s, p) - {c} else Users(s, p)
  {
    hide Inv, Chain, Reachers, Forest, MergeCfqqs;
    MergeCfqqsKeeps(s, c);
    var h := s.cics[c].value;
    var n := s.queues[h].next;
    var t := MergeCfqqs(s, c);
    InvForest(t);
    MergeMoves(s, c);
    ChainNext(s.queues, s.clock, h);
    forall p | p in s.queues
      ensures Users(t, p) == if p == h then Users(s, p) - {c} else Users(s, p)
    {
      ReachersFrame(s.queues, t.queues, s.clock, t.cics, p);
      ReachersMove(s.queues, s.clock, s.cics, c, n, p);
      ReachersOwn(s.queues, s.clock, s.cics, c, p);
    }
  }
}
