/**
 Every run of the throttling hierarchy from an empty one: bios come in, climb and are issued, each once and in the order
 of its source.
 */
module ThrottleRuns {
  import opened Basics
  import opened Lists
  import opened ThrottleTree
  import opened ThrottleDrain

  // ----- the empty hierarchy

  const NoBios := DirQueue([], map[])

  const Idle := Node(NoBios, NoBios, 0, 0, [], None, 0, false, 0)

  function Base(parent: seq<nat>): State { State(seq(|parent|, _ => Idle), parent, 0, 0) }

  lemma {:induction false} BaseSum(parent: seq<nat>, rw: bool, k: nat)
    requires k <= |parent|
    ensures SumNr(Base(parent).nodes, rw, k) == 0
  {
    if k > 1 {
      BaseSum(parent, rw, k - 1);
    }
  }

  /** A hierarchy of groups without bios satisfies the invariant. */
  lemma BaseOk(parent: seq<nat>)
    requires IsTree(parent)
    ensures Inv(Base(parent), {}) && Unique(Base(parent)) && forall d, b :: !Somewhere(Base(parent), d, b)
  {
    BaseSum(parent, false, |parent|);
    BaseSum(parent, true, |parent|);
  }

  // ----- steps

  datatype Out = Out(d: bool, b: Bio)

  /** The hierarchy, the group being dispatched if any, what came in and what went out. */
  datatype Sys = Sys(s: State, busy: Option<Tg>, log: seq<Entry>, issued: seq<Out>)

  datatype Step =
    | Queue(e: Entry)              // blk_throtl_bio() finds a limit
    | Look(p: nat)                 // throtl_rb_first() refills its cache
    | Pick(g: Tg)                  // a child is taken off its tree to be dispatched or rescheduled
    | Give(rw: bool)               // tg_dispatch_one_bio()
    | Back(disptime: int)          // it re-enters the tree with bios left
    | Rest                         // it has none left
    | Issue(rw: bool)              // a bio leaves throtl_data

  ghost predicate Can(y: Sys, a: Step)
    requires Shape(y.s)
  {
    match a
    case Queue(e) => y.busy.None? && 0 < e.g < |y.s.nodes| && SourceOk(y.s, e.g, e.src) && forall i :: 0 <= i < |y.log| ==> y.log[i].b != e.b
    case Look(p) => y.busy.None? && p < |y.s.nodes| && y.s.nodes[p].pending != []
    case Pick(g) => y.busy.None? && 0 < g < |y.s.nodes| && y.s.nodes[g].onTree
    case Give(rw) => y.busy.Some? && 0 < y.busy.value < |y.s.nodes| && y.s.nodes[y.busy.value].Queue(rw).order != []
    case Back(_) => y.busy.Some? && 0 < y.busy.value < |y.s.nodes| && Holds(y.s.nodes[y.busy.value])
    case Rest => y.busy.Some? && 0 < y.busy.value < |y.s.nodes| && !Holds(y.s.nodes[y.busy.value])
    case Issue(rw) => y.busy.None? && y.s.nodes[0].Queue(rw).order != []
  }

  ghost predicate Sound(y: Sys) { Inv(y.s, if y.busy.Some? then {y.busy.value} else {}) }

  function Looked(s: State, p: nat): State
    requires p < |s.nodes| && s.nodes[p].pending != []
  {
    if s.nodes[p].first == None then s.(nodes := s.nodes[p := s.nodes[p].(first := Some(s.nodes[p].pending[0]))]) else s
  }

  /** throtl_pop_queued() on throtl_data. */
  function Issued(s: State, rw: bool): State
    requires |s.nodes| > 0 && s.nodes[0].Queue(rw).order != [] && s.nodes[0].Queue(rw).Get(s.nodes[0].Queue(rw).order[0]) != []
  {
    s.(nodes := s.nodes[0 := s.nodes[0].SetQueue(rw, Pop(s.nodes[0].Queue(rw)))])
  }

  ghost function Next(y: Sys, a: Step): Sys
    requires Sound(y) && Can(y, a)
  {
    match a
    case Queue(e) => y.(s := QueueBio(y.s, e.g, e.src, e.d, e.b), log := y.log + [e])
    case Look(p) => y.(s := Looked(y.s, p))
    case Pick(g) => DequeueBusy(y.s, g); y.(s := Dequeue(y.s, g), busy := Some(g))
    case Give(rw) => y.(s := DispatchOne(y.s, y.busy.value, rw))
    case Back(t) => y.(s := Reschedule(y.s, y.busy.value, t), busy := None)
    case Rest => y.(busy := None)
    case Issue(rw) =>
      TopReady(y.s, rw);
      y.(s := Issued(y.s, rw), issued := y.issued + [Out(rw, HeadBio(y.s.nodes[0].Queue(rw)))])
  }

  lemma TopReady(s: State, rw: bool)
    requires Shape(s) && QueuesOk(s) && s.nodes[0].Queue(rw).order != []
    ensures s.nodes[0].Queue(rw).Get(s.nodes[0].Queue(rw).order[0]) != []
  {
    assert NodeQueueOk(s, 0, rw);
    assert s.nodes[0].Queue(rw).order[0] in s.nodes[0].Queue(rw).order;
  }

  // ----- the invariant of the hierarchy

  lemma IssueKeeps(s: State, rw: bool)
    requires Inv(s, {}) && s.nodes[0].Queue(rw).order != []
    ensures s.nodes[0].Queue(rw).Get(s.nodes[0].Queue(rw).order[0]) != []
    ensures Inv(Issued(s, rw), {})
  {
    hide QueueOk, Held, Pop, NodeTreeOk;
    TopReady(s, rw);
    var q := s.nodes[0].Queue(rw);
    var t := Issued(s, rw);
    assert NodeQueueOk(s, 0, rw);
    PopKeeps(q);
    PopSources(q);
    SumNrUpdate(s.nodes, t.nodes, false, |s.nodes|, 0);
    SumNrUpdate(s.nodes, t.nodes, true, |s.nodes|, 0);
    TreesIgnoreQueues(s, t);
    forall n, d | 0 <= n < |t.nodes|
      ensures NodeQueueOk(t, n, d)
    {
      assert NodeQueueOk(s, n, d);
    }
  }

  lemma LookKeeps(s: State, p: nat)
    requires Inv(s, {}) && p < |s.nodes| && s.nodes[p].pending != []
    ensures Inv(Looked(s, p), {}) && SameQueues(s, Looked(s, p))
  {
    hide QueuesOk, TreesOk, CountsOk;
    CacheKeeps(s, Looked(s, p), p);
    QueuesFrame(s, Looked(s, p));
    CountsFrame(s, Looked(s, p));
  }

  lemma RestKeeps(s: State, g: Tg)
    requires Inv(s, {g}) && 0 < g < |s.nodes| && !Holds(s.nodes[g])
    ensures Inv(s, {})
  {
    hide QueuesOk, TreesOk, CountsOk;
  }

  lemma NextSound(y: Sys, a: Step)
    requires Sound(y) && Can(y, a)
    ensures Sound(Next(y, a))
  {
    hide Inv, QueueBio, Dequeue, DispatchOne, Reschedule, Issued, Looked;
    match a
    case Queue(e) => QueueBioKeeps(y.s, e.g, e.src, e.d, e.b);
    case Look(p) => LookKeeps(y.s, p);
    case Pick(g) => DequeueBusy(y.s, g);
    case Give(rw) => DispatchOneKeeps(y.s, y.busy.value, rw);
    case Back(t) => RescheduleKeeps(y.s, y.busy.value, t);
    case Rest => RestKeeps(y.s, y.busy.value);
    case Issue(rw) => IssueKeeps(y.s, rw);
  }

  // ----- what became of the bios

  ghost predicate Logged(log: seq<Entry>, d: bool, b: Bio) { exists i :: 0 <= i < |log| && log[i].d == d && log[i].b == b }

  /** Exactly the bios that came in are held or have been issued. */
  ghost predicate Accounted(s: State, log: seq<Entry>, issued: seq<Out>)
  {
    forall d, b :: Somewhere(s, d, b) || Out(d, b) in issued <==> Logged(log, d, b)
  }

  /** No bio is held twice, issued twice, or held and issued. */
  ghost predicate Once(s: State, issued: seq<Out>)
  {
    && Unique(s)
    && (forall i, j :: 0 <= i < j < |issued| ==> issued[i].b != issued[j].b)
    && (forall i, d :: 0 <= i < |issued| ==> !Somewhere(s, d, issued[i].b))
  }

  /** The bios handed to one list of one group, in order. */
  function Fed(log: seq<Entry>, n: Tg, d: bool, x: Source): seq<Bio>
  {
    if log == [] then []
    else
      var e := log[|log| - 1];
      Fed(log[..|log| - 1], n, d, x) + if e.g == n && e.d == d && e.src == x then [e.b] else []
  }

  /** The bios issued in one direction, in order. */
  function Sent(issued: seq<Out>, d: bool): seq<Bio>
  {
    if issued == [] then []
    else
      var o := issued[|issued| - 1];
      Sent(issued[..|issued| - 1], d) + if o.d == d then [o.b] else []
  }

  /** What was handed to a list is issued, and then still on its way up, in the order it came. */
  ghost predicate InOrder(s: State, log: seq<Entry>, issued: seq<Out>)
    requires Shape(s)
  {
    forall n, d, x :: 0 <= n < |s.nodes| ==> Within(Fed(log, n, d, x), Sent(issued, d) + Flow(s, n, d, x))
  }

  ghost predicate History(y: Sys)
  {
    Shape(y.s) && Accounted(y.s, y.log, y.issued) && Once(y.s, y.issued) && InOrder(y.s, y.log, y.issued)
  }

  lemma WithinPrepend<T(!new)>(c: seq<T>, a: seq<T>, b: seq<T>)
    requires Within(a, b)
    ensures Within(c + a, c + b)
  {
    var f :| Embeds(a, b, f);
    var h := seq(|c|, i => i) + seq(|a|, i requires 0 <= i < |a| => |c| + f[i]);
    forall i | 0 <= i < |c + a|
      ensures h[i] < |c + b| && (c + b)[h[i]] == (c + a)[i]
    {
      if i >= |c| {
        assert h[i] == |c| + f[i - |c|];
      }
    }
    assert Embeds(c + a, c + b, h);
  }

  // ----- moves within the hierarchy

  lemma PreservedHistory(y: Sys, t: State, busy: Option<Tg>)
    requires History(y) && Preserved(y.s, t)
    ensures History(y.(s := t, busy := busy))
  {
    hide Unique, Somewhere, Within, Flow, Fed, Sent;
    forall n, d, x | 0 <= n < |t.nodes|
      ensures Within(Fed(y.log, n, d, x), Sent(y.issued, d) + Flow(t, n, d, x))
    {
      WithinPrepend(Sent(y.issued, d), Flow(y.s, n, d, x), Flow(t, n, d, x));
      WithinTrans(Fed(y.log, n, d, x), Sent(y.issued, d) + Flow(y.s, n, d, x), Sent(y.issued, d) + Flow(t, n, d, x));
    }
  }

  // ----- a bio comes in

  lemma {:induction false} AddedFlow(s: State, t: State, e: Entry, n: nat, d: bool, x: Source)
    requires Added(s, t, e) && n < |s.nodes|
    ensures n < e.g ==> Flow(t, n, d, x) == Flow(s, n, d, x)
    ensures n == e.g && d == e.d && x == e.src ==> Flow(t, n, d, x) == Flow(s, n, d, x) + [e.b]
    ensures Within(Flow(s, n, d, x), Flow(t, n, d, x))
    decreases n
  {
    if n == 0 {
      WithinSelf(Flow(s, n, d, x));
    } else {
      var p := s.parent[n];
      AddedFlow(s, t, e, p, d, Child(n));
      if n == e.g && d == e.d && x == e.src {
        assert Flow(t, n, d, x) == Flow(s, n, d, x) + [e.b];
        WithinPrefix(Flow(s, n, d, x), [e.b]);
      } else {
        WithinAppend(Flow(s, p, d, Child(n)), Flow(t, p, d, Child(n)), Bios(s, n, d, x));
      }
    }
  }

  lemma LoggedSnoc(log: seq<Entry>, e: Entry, d: bool, b: Bio)
    ensures Logged(log + [e], d, b) <==> Logged(log, d, b) || (d == e.d && b == e.b)
  {
    if Logged(log, d, b) {
      var i :| 0 <= i < |log| && log[i].d == d && log[i].b == b;
      assert (log + [e])[i] == log[i];
    }
    if d == e.d && b == e.b {
      assert (log + [e])[|log|] == e;
    }
    if Logged(log + [e], d, b) && !(d == e.d && b == e.b) {
      var i :| 0 <= i < |log + [e]| && (log + [e])[i].d == d && (log + [e])[i].b == b;
      assert log[i] == (log + [e])[i];
    }
  }

  lemma FedSnoc(log: seq<Entry>, e: Entry, n: Tg, d: bool, x: Source)
    ensures Fed(log + [e], n, d, x) == Fed(log, n, d, x) + if e.g == n && e.d == d && e.src == x then [e.b] else []
  {
    assert (log + [e])[..|log|] == log;
  }

  lemma FreshIsNowhere(y: Sys, b: Bio)
    requires History(y) && forall i :: 0 <= i < |y.log| ==> y.log[i].b != b
    ensures (forall d :: !Somewhere(y.s, d, b)) && (forall i :: 0 <= i < |y.issued| ==> y.issued[i].b != b)
  {
    hide Somewhere, Unique, Within, InOrder;
    forall d
      ensures !Somewhere(y.s, d, b) && Out(d, b) !in y.issued
    {
      assert !Logged(y.log, d, b);
    }
    forall i | 0 <= i < |y.issued|
      ensures y.issued[i].b != b
    {
      assert Out(y.issued[i].d, y.issued[i].b) in y.issued;
    }
  }

  lemma AddedHistory(y: Sys, t: State, e: Entry)
    requires History(y) && Added(y.s, t, e) && forall i :: 0 <= i < |y.log| ==> y.log[i].b != e.b
    ensures History(y.(s := t, log := y.log + [e]))
  {
    hide Unique, Somewhere, Within, Flow, Fed, Sent, Logged;
    FreshIsNowhere(y, e.b);
    AddedUnique(y.s, t, e);
    forall d, b
      ensures Somewhere(t, d, b) <==> Somewhere(y.s, d, b) || (d == e.d && b == e.b)
      ensures Logged(y.log + [e], d, b) <==> Logged(y.log, d, b) || (d == e.d && b == e.b)
    {
      AddedSomewhere(y.s, t, e, d, b);
      LoggedSnoc(y.log, e, d, b);
    }
    AddedOrder(y, t, e);
  }

  lemma AddedOrder(y: Sys, t: State, e: Entry)
    requires Shape(y.s) && InOrder(y.s, y.log, y.issued) && Added(y.s, t, e)
    ensures InOrder(t, y.log + [e], y.issued)
  {
    hide Within, Flow, Fed, Sent;
    forall n, d, x | 0 <= n < |t.nodes|
      ensures Within(Fed(y.log + [e], n, d, x), Sent(y.issued, d) + Flow(t, n, d, x))
    {
      var a, i, f := Fed(y.log, n, d, x), Sent(y.issued, d), Flow(y.s, n, d, x);
      FedSnoc(y.log, e, n, d, x);
      AddedFlow(y.s, t, e, n, d, x);
      if n == e.g && d == e.d && x == e.src {
        WithinAppend(a, i + f, [e.b]);
        assert i + f + [e.b] == i + (f + [e.b]);
      } else {
        WithinPrepend(i, f, Flow(t, n, d, x));
        WithinTrans(a, i + f, i + Flow(t, n, d, x));
        assert a + [] == a;
      }
    }
  }

  // ----- a bio goes out

  /** t is s without the first bio of src on throtl_data. */
  ghost predicate Gone(s: State, t: State, rw: bool, src: Source)
  {
    && Shape(s) && Shape(t) && t.parent == s.parent && Bios(s, 0, rw, src) != []
    && Bios(t, 0, rw, src) == Bios(s, 0, rw, src)[1..]
    && forall n, d, x :: 0 <= n < |s.nodes| && !(n == 0 && d == rw && x == src) ==> Bios(t, n, d, x) == Bios(s, n, d, x)
  }

  lemma IssuedGone(s: State, rw: bool)
    requires Shape(s) && QueuesOk(s) && s.nodes[0].Queue(rw).order != []
    ensures s.nodes[0].Queue(rw).Get(s.nodes[0].Queue(rw).order[0]) != []
    ensures Gone(s, Issued(s, rw), rw, s.nodes[0].Queue(rw).order[0])
  {
    hide Pop;
    TopReady(s, rw);
    PopGets(s.nodes[0].Queue(rw));
  }

  lemma GoneSomewhere(s: State, t: State, rw: bool, src: Source, d: bool, b: Bio)
    requires Gone(s, t, rw, src) && Unique(s)
    ensures Somewhere(t, d, b) <==> Somewhere(s, d, b) && b != Bios(s, 0, rw, src)[0]
  {
    var l := Bios(s, 0, rw, src);
    assert NoDup(l) && l[0] in l;
    if Somewhere(t, d, b) {
      var n, x :| 0 <= n < |t.nodes| && b in Bios(t, n, d, x);
      assert b in Bios(s, n, d, x);
    }
    if Somewhere(s, d, b) && b != l[0] {
      var n, x :| 0 <= n < |s.nodes| && b in Bios(s, n, d, x);
      assert l == [l[0]] + l[1..];
      assert b in Bios(t, n, d, x);
    }
  }

  lemma GoneUnique(s: State, t: State, rw: bool, src: Source)
    requires Gone(s, t, rw, src) && Unique(s)
    ensures Unique(t)
  {
    forall n, d, x | 0 <= n < |t.nodes|
      ensures NoDup(Bios(t, n, d, x)) && forall b :: b in Bios(t, n, d, x) ==> b in Bios(s, n, d, x)
    {
      assert NoDup(Bios(s, n, d, x));
    }
  }

  lemma {:induction false} GoneFlow(s: State, t: State, rw: bool, src: Source, n: nat, d: bool, x: Source)
    requires Gone(s, t, rw, src) && n < |s.nodes|
    ensures Flow(t, n, d, x) == Flow(s, n, d, x) || (d == rw && Flow(s, n, d, x) == [Bios(s, 0, rw, src)[0]] + Flow(t, n, d, x))
    decreases n
  {
    if n > 0 {
      GoneFlow(s, t, rw, src, s.parent[n], d, Child(n));
      var b := Bios(s, 0, rw, src)[0];
      var f, l := Flow(t, s.parent[n], d, Child(n)), Bios(s, n, d, x);
      assert [b] + f + l == [b] + (f + l);
    }
  }

  lemma SentSnoc(issued: seq<Out>, o: Out, d: bool)
    ensures Sent(issued + [o], d) == Sent(issued, d) + if o.d == d then [o.b] else []
  {
    assert (issued + [o])[..|issued|] == issued;
  }

  lemma GoneHistory(y: Sys, t: State, rw: bool, src: Source)
    requires History(y) && Gone(y.s, t, rw, src)
    ensures History(y.(s := t, issued := y.issued + [Out(rw, Bios(y.s, 0, rw, src)[0])]))
  {
    hide Unique, Somewhere, Within, Flow, Fed, Sent, Logged, InOrder;
    var o := Out(rw, Bios(y.s, 0, rw, src)[0]);
    GoneUnique(y.s, t, rw, src);
    HeadSomewhere(y.s, rw, src, t);
    forall d, b
      ensures Somewhere(t, d, b) <==> Somewhere(y.s, d, b) && b != o.b
    {
      GoneSomewhere(y.s, t, rw, src, d, b);
    }
    GoneOrder(y, t, rw, src);
  }

  /** The head is held in its own direction only. */
  lemma HeadSomewhere(s: State, rw: bool, src: Source, t: State)
    requires Gone(s, t, rw, src) && Unique(s)
    ensures forall d :: Somewhere(s, d, Bios(s, 0, rw, src)[0]) <==> d == rw
  {
    assert Bios(s, 0, rw, src)[0] in Bios(s, 0, rw, src);
  }

  lemma GoneOrder(y: Sys, t: State, rw: bool, src: Source)
    requires Shape(y.s) && InOrder(y.s, y.log, y.issued) && Gone(y.s, t, rw, src)
    ensures InOrder(t, y.log, y.issued + [Out(rw, Bios(y.s, 0, rw, src)[0])])
  {
    hide Within, Flow, Fed, Sent;
    var o := Out(rw, Bios(y.s, 0, rw, src)[0]);
    forall n, d, x | 0 <= n < |t.nodes|
      ensures Within(Fed(y.log, n, d, x), Sent(y.issued + [o], d) + Flow(t, n, d, x))
    {
      var a, i, f, g := Fed(y.log, n, d, x), Sent(y.issued, d), Flow(y.s, n, d, x), Flow(t, n, d, x);
      SentSnoc(y.issued, o, d);
      GoneFlow(y.s, t, rw, src, n, d, x);
      if d != rw {
        assert i + [] == i;
      } else if f == [o.b] + g {
        assert i + [o.b] + g == i + ([o.b] + g);
      } else {
        WithinPrefix(i, [o.b]);
        WithinAppend(i, i + [o.b], g);
        WithinTrans(a, i + f, i + [o.b] + g);
      }
    }
  }

  // ----- every run

  lemma NextHistory(y: Sys, a: Step)
    requires Sound(y) && Can(y, a) && History(y)
    ensures History(Next(y, a))
  {
    hide History, QueueBio, Dequeue, DispatchOne, Reschedule, Issued, Looked, Preserved, QueuesOk, TreesOk, CountsOk;
    match a
    case Queue(e) =>
      QueueBioKeeps(y.s, e.g, e.src, e.d, e.b);
      AddedHistory(y, QueueBio(y.s, e.g, e.src, e.d, e.b), e);
    case Look(p) =>
      LookKeeps(y.s, p);
      SamePreserved(y.s, Looked(y.s, p));
      PreservedHistory(y, Looked(y.s, p), y.busy);
    case Pick(g) =>
      DequeueBusy(y.s, g);
      SamePreserved(y.s, Dequeue(y.s, g));
      PreservedHistory(y, Dequeue(y.s, g), Some(g));
    case Give(rw) =>
      var g := y.busy.value;
      DispatchOneMoves(y.s, g, rw);
      MovedPreserves(y.s, DispatchOne(y.s, g, rw), g, rw, y.s.nodes[g].Queue(rw).order[0]);
      PreservedHistory(y, DispatchOne(y.s, g, rw), y.busy);
    case Back(t) =>
      var g := y.busy.value;
      RescheduleKeeps(y.s, g, t);
      SamePreserved(y.s, Reschedule(y.s, g, t));
      PreservedHistory(y, Reschedule(y.s, g, t), None);
    case Rest =>
      PreservedSelf(y.s);
      PreservedHistory(y, y.s, None);
    case Issue(rw) =>
      IssuedGone(y.s, rw);
      GoneHistory(y, Issued(y.s, rw), rw, y.s.nodes[0].Queue(rw).order[0]);
  }

  ghost function Run(y: Sys, run: seq<Step>): Option<Sys>
    requires Sound(y)
    decreases |run|
  {
    if run == [] then Some(y)
    else if !Can(y, run[0]) then None
    else
      NextSound(y, run[0]);
      Run(Next(y, run[0]), run[1..])
  }

  lemma {:induction false} RunKeeps(y: Sys, run: seq<Step>)
    requires Sound(y) && History(y)
    ensures Run(y, run).Some? ==> Sound(Run(y, run).value) && History(Run(y, run).value)
    decreases |run|
  {
    if run != [] && Can(y, run[0]) {
      NextSound(y, run[0]);
      NextHistory(y, run[0]);
      hide Sound, History, Next;
      RunKeeps(Next(y, run[0]), run[1..]);
    }
  }

  function Start(parent: seq<nat>): Sys { Sys(Base(parent), None, [], []) }

  lemma StartOk(parent: seq<nat>)
    requires IsTree(parent)
    ensures Sound(Start(parent)) && History(Start(parent))
  {
    BaseOk(parent);
    var y := Start(parent);
    hide Inv, Somewhere, Unique, Within, Flow;
    forall n, d, x | 0 <= n < |y.s.nodes|
      ensures Within(Fed([], n, d, x), Sent([], d) + Flow(y.s, n, d, x))
    {
      WithinPrefix<Bio>([], Flow(y.s, n, d, x));
      assert [] + Flow(y.s, n, d, x) == Flow(y.s, n, d, x);
    }
  }

  /**
   After every run of an initially empty hierarchy the counts, trees and marks are right, and every bio that came in is
   held in exactly one place or has been issued once, and those handed to one list keep their order up to the issue.
   */
  lemma EveryRunConserves(parent: seq<nat>, run: seq<Step>)
    requires IsTree(parent)
    ensures Sound(Start(parent))
    ensures Run(Start(parent), run).Some? ==>
              var y := Run(Start(parent), run).value;
              && Inv(y.s, if y.busy.Some? then {y.busy.value} else {})
              && Accounted(y.s, y.log, y.issued) && Once(y.s, y.issued) && InOrder(y.s, y.log, y.issued)
  {
    StartOk(parent);
    hide Accounted, Once, InOrder, Inv, Run;
    RunKeeps(Start(parent), run);
  }

  /** Draining after any run: the bios that have not been issued are all on throtl_data, once, in the order of their source. */
  method DrainAfter(parent: seq<nat>, ghost run: seq<Step>, ghost y: Sys, s: State, walk: seq<Tg>) returns (t: State)
    requires IsTree(parent) && Sound(Start(parent)) && Run(Start(parent), run) == Some(y) && y.busy == None && y.s == s && Shape(s) && PostOrder(s, walk)
    ensures Shape(t) && t.parent == s.parent
    ensures forall n, d, x :: 0 < n < |t.nodes| ==> Bios(t, n, d, x) == []
    ensures Accounted(t, y.log, y.issued) && Once(t, y.issued)
    ensures forall n, d, x :: 0 < n < |t.nodes| ==> Within(Fed(y.log, n, d, x), Sent(y.issued, d) + Bios(t, 0, d, Child(Top(t, n))))
  {
    EveryRunConserves(parent, run);
    hide Run, Fed, Sent, Within, Somewhere, Unique, Inv, Flow;
    t := Drain(s, walk);
    PreservedHistory(y, t, None);
    forall n, d, x | 0 < n < |t.nodes|
      ensures Within(Fed(y.log, n, d, x), Sent(y.issued, d) + Bios(t, 0, d, Child(Top(t, n))))
    {
      FlowWhenEmpty(t, n, d, x);
    }
  }
}
