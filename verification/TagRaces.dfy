/**
 __bt_get() by many threads at once: any interleaving of looking, test_and_set_bit() and bt_clear_tag() over all words of
 the map.
 */
module TagRaces {
  import opened Basics
  import opened Tags

  /**
   The walk of a search: it began at word `first`, is at its turn-th word `index`, which it entered at bit `org`, and looks
   below `end`; `wrap` while the bits before org are still to come.
   */
  datatype Walk = Walk(first: nat, turn: nat, index: nat, org: nat, wrap: bool, end: nat)

  /** About to look from a bit on, about to test_and_set a bit found clear, holding a tag, or given up. */
  datatype Pc = Idle | Look(walk: Walk, from: nat) | Tas(walk: Walk, bit: nat) | Got(tag: nat) | Failed

  /** since[i]: the tags that were busy at some moment since thread i began to search. */
  datatype Shared = Shared(words: seq<Word>, tpw: nat, depth: nat, threads: seq<Pc>, since: seq<set<nat>>)

  datatype Move = Enter(i: nat, hint: nat) | Advance(i: nat) | Release(i: nat)

  predicate Can(s: Shared, a: Move)
  {
    && a.i < |s.threads|
    && match a
       case Enter(i, hint) => (s.threads[i].Idle? || s.threads[i].Failed?) && hint < s.depth
       case Advance(i) => s.threads[i].Look? || s.threads[i].Tas?
       case Release(i) => s.threads[i].Got?
  }

  // ----- where a search is and what it has seen

  predicate WalkOk(words: seq<Word>, k: Walk)
  {
    && k.first < |words| && k.turn < |words|
    && k.index == k.first + k.turn - (if k.first + k.turn < |words| then 0 else |words|)
    && k.org < |words[k.index]| && (k.wrap ==> k.org != 0)
    && k.end == if !k.wrap && k.org != 0 then k.org else |words[k.index]|
  }

  /** The bits lo to hi of word i were busy at some moment. */
  ghost predicate BitsSeen(tpw: nat, since: set<nat>, i: nat, lo: nat, hi: nat)
  {
    forall b: nat :: lo <= b < hi ==> Number(tpw, i, b) in since
  }

  function Number(tpw: nat, i: nat, b: nat): nat { i * tpw + b }

  /** A walk that looks from bit `from` on has seen everything it left behind busy. */
  ghost predicate Seen(words: seq<Word>, tpw: nat, since: set<nat>, k: Walk, from: nat)
    requires WalkOk(words, k)
  {
    && (forall j :: 0 <= j < |words| && Visited(j, k.first, k.turn, |words|) ==> BitsSeen(tpw, since, j, 0, |words[j]|))
    && BitsSeen(tpw, since, k.index, if k.wrap then k.org else 0, from)
    && (!k.wrap && k.org != 0 ==> BitsSeen(tpw, since, k.index, k.org, |words[k.index]|))
  }

  ghost predicate PcOk(words: seq<Word>, tpw: nat, depth: nat, pc: Pc, since: set<nat>)
    requires tpw > 0
  {
    match pc
    case Idle => true
    case Look(k, from) => WalkOk(words, k) && from <= k.end && (k.wrap ==> k.org <= from) && Seen(words, tpw, since, k, from)
    case Tas(k, bit) => WalkOk(words, k) && bit < k.end && (k.wrap ==> k.org <= bit) && Seen(words, tpw, since, k, bit)
    case Got(tag) => tag in Taken(words, tpw, depth)
    case Failed => AllTaken(since, depth)
  }

  /** The busy bits are exactly the tags held, each by one thread. */
  ghost predicate Owned(taken: set<nat>, threads: seq<Pc>)
  {
    && (forall i, j :: 0 <= i < j < |threads| && threads[i].Got? && threads[j].Got? ==> threads[i].tag != threads[j].tag)
    && (forall t :: t in taken <==> exists i :: 0 <= i < |threads| && threads[i] == Got(t))
  }

  ghost predicate SharedOk(s: Shared)
  {
    && s.tpw > 0 && Layout(s.words, s.tpw, s.depth) && |s.since| == |s.threads|
    && Owned(Taken(s.words, s.tpw, s.depth), s.threads)
    && forall i :: 0 <= i < |s.threads| ==> PcOk(s.words, s.tpw, s.depth, s.threads[i], s.since[i])
  }

  // ----- steps

  /** Nothing found below end: the bits before org, then the next word, and after all words give up. */
  function Onward(words: seq<Word>, k: Walk): Pc
    requires WalkOk(words, k)
  {
    if k.wrap then Look(k.(wrap := false, end := k.org), 0)
    else if k.turn + 1 >= |words| then Failed
    else
      var i := if k.index + 1 >= |words| then 0 else k.index + 1;
      Look(Walk(k.first, k.turn + 1, i, 0, false, |words[i]|), 0)
  }

  function SetTag(words: seq<Word>, i: nat, b: nat, v: bool): seq<Word>
    requires i < |words| && b < |words[i]|
  {
    words[i := words[i][b := v]]
  }

  function Begun(words: seq<Word>, tpw: nat, depth: nat, hint: nat): Pc
    requires Layout(words, tpw, depth) && hint < depth
  {
    TakenBit(words, tpw, depth, hint);
    var i, b := hint / tpw, hint % tpw;
    Look(Walk(i, 0, i, b, b != 0, |words[i]|), b)
  }

  function Looked(words: seq<Word>, k: Walk, from: nat): Pc
    requires WalkOk(words, k)
  {
    var t := NextZero(words[k.index], k.end, from);
    if t < k.end then Tas(k, t) else Onward(words, k)
  }

  function Tested(words: seq<Word>, tpw: nat, k: Walk, bit: nat): (seq<Word>, Pc)
    requires WalkOk(words, k) && bit < k.end
  {
    if words[k.index][bit] then (words, Look(k, bit + 1)) else (SetTag(words, k.index, bit, true), Got(Number(tpw, k.index, bit)))
  }

  function Cleared(words: seq<Word>, tpw: nat, depth: nat, tag: nat): seq<Word>
    requires Layout(words, tpw, depth) && tag < depth
  {
    TakenBit(words, tpw, depth, tag);
    SetTag(words, tag / tpw, tag % tpw, false)
  }

  /** The words and the thread after its own step. */
  ghost function Acted(s: Shared, a: Move): (seq<Word>, Pc)
    requires SharedOk(s) && Can(s, a)
  {
    assert PcOk(s.words, s.tpw, s.depth, s.threads[a.i], s.since[a.i]);
    match a
    case Enter(_, hint) => (s.words, Begun(s.words, s.tpw, s.depth, hint))
    case Release(i) => (Cleared(s.words, s.tpw, s.depth, s.threads[i].tag), Idle)
    case Advance(i) =>
      match s.threads[i]
      case Look(k, from) => (s.words, Looked(s.words, k, from))
      case Tas(k, bit) => Tested(s.words, s.tpw, k, bit)
  }

  /** Every search that goes on has now seen what is busy now; a search that begins has seen only that. */
  ghost function StepShared(s: Shared, a: Move): Shared
    requires SharedOk(s) && Can(s, a)
  {
    var (words, pc) := Acted(s, a);
    var now := Taken(s.words, s.tpw, s.depth);
    s.(words := words, threads := s.threads[a.i := pc],
       since := seq(|s.since|, j requires 0 <= j < |s.since| => (if a.Enter? && j == a.i then {} else s.since[j]) + now))
  }

  // ----- what a step keeps

  lemma SeenMore(words: seq<Word>, words': seq<Word>, tpw: nat, depth: nat, pc: Pc, since: set<nat>, since': set<nat>)
    requires tpw > 0 && PcOk(words, tpw, depth, pc, since) && since <= since' && !pc.Got?
    requires |words'| == |words| && forall i :: 0 <= i < |words| ==> |words'[i]| == |words[i]|
    ensures PcOk(words', tpw, depth, pc, since')
  {
  }

  /** The busy bits a look passes over. */
  lemma Passed(s: Shared, i: nat, lo: nat, from: nat, to: nat, since: set<nat>)
    requires s.tpw > 0 && Layout(s.words, s.tpw, s.depth) && i < |s.words| && lo <= from <= to <= |s.words[i]|
    requires BitsSeen(s.tpw, since, i, lo, from) && forall b :: from <= b < to ==> s.words[i][b]
    ensures BitsSeen(s.tpw, since + Taken(s.words, s.tpw, s.depth), i, lo, to)
  {
    forall b: nat | lo <= b < to
      ensures Number(s.tpw, i, b) in since + Taken(s.words, s.tpw, s.depth)
    {
      if from <= b {
        BitTaken(s.words, s.tpw, s.depth, i, b);
      }
    }
  }

  lemma SeenPassed(s: Shared, k: Walk, from: nat, to: nat, since: set<nat>)
    requires s.tpw > 0 && Layout(s.words, s.tpw, s.depth) && WalkOk(s.words, k) && (k.wrap ==> k.org <= from) && from <= to <= k.end
    requires Seen(s.words, s.tpw, since, k, from) && forall b :: from <= b < to ==> s.words[k.index][b]
    ensures Seen(s.words, s.tpw, since + Taken(s.words, s.tpw, s.depth), k, to)
  {
    hide Taken, Layout;
    Passed(s, k.index, if k.wrap then k.org else 0, from, to, since);
  }

  /** A word searched to its end on both sides has been seen busy, and so have all words after the last. */
  lemma OnwardOk(words: seq<Word>, tpw: nat, depth: nat, k: Walk, since: set<nat>)
    requires tpw > 0 && Layout(words, tpw, depth) && WalkOk(words, k) && Seen(words, tpw, since, k, k.end)
    ensures PcOk(words, tpw, depth, Onward(words, k), since) && !Onward(words, k).Got?
  {
    hide Layout, Taken;
    NoEmptyWord(words, tpw, depth);
    if !k.wrap {
      assert BitsSeen(tpw, since, k.index, 0, |words[k.index]|);
      forall j | 0 <= j < |words| && Visited(j, k.first, k.turn + 1, |words|)
        ensures BitsSeen(tpw, since, j, 0, |words[j]|)
      {
        assert j == k.index || Visited(j, k.first, k.turn, |words|);
      }
      if k.turn + 1 >= |words| {
        AllSeen(words, tpw, depth, k.first, since);
      }
    }
  }

  lemma AllSeen(words: seq<Word>, tpw: nat, depth: nat, first: nat, since: set<nat>)
    requires tpw > 0 && Layout(words, tpw, depth) && first < |words|
    requires forall j :: 0 <= j < |words| && Visited(j, first, |words|, |words|) ==> BitsSeen(tpw, since, j, 0, |words[j]|)
    ensures AllTaken(since, depth)
  {
    forall t | 0 <= t < depth
      ensures t in since
    {
      TakenBit(words, tpw, depth, t);
      assert Visited(t / tpw, first, |words|, |words|);
      assert Number(tpw, t / tpw, t % tpw) in since;
    }
  }

  /** The thread that moves: its own state is in order, and the words keep their lengths. */
  lemma ActedOk(s: Shared, a: Move)
    requires SharedOk(s) && Can(s, a)
    ensures var (words, pc) := Acted(s, a);
            && Layout(words, s.tpw, s.depth) && |words| == |s.words| && (forall i :: 0 <= i < |words| ==> |words[i]| == |s.words[i]|)
            && PcOk(words, s.tpw, s.depth, pc, (if a.Enter? then {} else s.since[a.i]) + Taken(s.words, s.tpw, s.depth))
            && Taken(words, s.tpw, s.depth) ==
               (if pc.Got? then Taken(s.words, s.tpw, s.depth) + {pc.tag}
                else if a.Release? then Taken(s.words, s.tpw, s.depth) - {s.threads[a.i].tag}
                else Taken(s.words, s.tpw, s.depth))
            && (pc.Got? ==> !s.threads[a.i].Got? && pc.tag !in Taken(s.words, s.tpw, s.depth))
            && (s.threads[a.i].Got? <==> a.Release?)
  {
    hide Taken, Layout, Owned, Begun, Cleared, Looked, Tested;
    assert PcOk(s.words, s.tpw, s.depth, s.threads[a.i], s.since[a.i]);
    hide PcOk;
    match a
    case Enter(i, hint) => BegunOk(s.words, s.tpw, s.depth, hint, {} + Taken(s.words, s.tpw, s.depth));
    case Release(i) => ClearedOk(s.words, s.tpw, s.depth, s.threads[i].tag, s.since[i] + Taken(s.words, s.tpw, s.depth));
    case Advance(i) =>
      if s.threads[i].Look? {
        LookOk(s, i);
      } else {
        TasOk(s, i);
      }
  }

  lemma BegunOk(words: seq<Word>, tpw: nat, depth: nat, hint: nat, since: set<nat>)
    requires tpw > 0 && Layout(words, tpw, depth) && hint < depth
    ensures PcOk(words, tpw, depth, Begun(words, tpw, depth, hint), since) && !Begun(words, tpw, depth, hint).Got?
  {
    hide Layout, Taken;
    TakenBit(words, tpw, depth, hint);
  }

  lemma ClearedOk(words: seq<Word>, tpw: nat, depth: nat, tag: nat, since: set<nat>)
    requires tpw > 0 && Layout(words, tpw, depth) && tag in Taken(words, tpw, depth)
    ensures tag < depth
    ensures var words' := Cleared(words, tpw, depth, tag);
            && Layout(words', tpw, depth) && |words'| == |words| && (forall i :: 0 <= i < |words| ==> |words'[i]| == |words[i]|)
            && Taken(words', tpw, depth) == Taken(words, tpw, depth) - {tag} && PcOk(words', tpw, depth, Idle, since)
  {
    hide Layout, Taken;
    TakenBelow(words, tpw, depth, tag);
    TakenBit(words, tpw, depth, tag);
    SetBit(words, tpw, depth, tag / tpw, tag % tpw, false);
  }

  lemma TakenBelow(words: seq<Word>, tpw: nat, depth: nat, tag: nat)
    requires tpw > 0 && tag in Taken(words, tpw, depth)
    ensures tag < depth
  {
  }

  lemma LookOk(s: Shared, i: nat)
    requires SharedOk(s) && i < |s.threads| && s.threads[i].Look?
    ensures PcOk(s.words, s.tpw, s.depth, Acted(s, Advance(i)).1, s.since[i] + Taken(s.words, s.tpw, s.depth))
    ensures Acted(s, Advance(i)).0 == s.words && !Acted(s, Advance(i)).1.Got?
  {
    hide Taken, Layout, Owned, Onward;
    assert PcOk(s.words, s.tpw, s.depth, s.threads[i], s.since[i]);
    var k, from := s.threads[i].walk, s.threads[i].from;
    var t := NextZero(s.words[k.index], k.end, from);
    SeenPassed(s, k, from, t, s.since[i]);
    if t >= k.end {
      OnwardOk(s.words, s.tpw, s.depth, k, s.since[i] + Taken(s.words, s.tpw, s.depth));
    }
  }

  lemma TasOk(s: Shared, i: nat)
    requires SharedOk(s) && i < |s.threads| && s.threads[i].Tas?
    ensures var (words, pc) := Acted(s, Advance(i));
            && PcOk(words, s.tpw, s.depth, pc, s.since[i] + Taken(s.words, s.tpw, s.depth))
            && Layout(words, s.tpw, s.depth) && |words| == |s.words| && (forall i :: 0 <= i < |words| ==> |words[i]| == |s.words[i]|)
            && Taken(words, s.tpw, s.depth) == Taken(s.words, s.tpw, s.depth) + (if pc.Got? then {pc.tag} else {})
            && (pc.Got? ==> pc.tag !in Taken(s.words, s.tpw, s.depth))
  {
    hide Taken, Layout, Owned;
    assert PcOk(s.words, s.tpw, s.depth, s.threads[i], s.since[i]);
    var k, bit := s.threads[i].walk, s.threads[i].bit;
    if s.words[k.index][bit] {
      SeenPassed(s, k, bit, bit + 1, s.since[i]);
    } else {
      BitTaken(s.words, s.tpw, s.depth, k.index, bit);
      SetBit(s.words, s.tpw, s.depth, k.index, bit, true);
    }
  }

  /** One thread took a free tag, gave back its own, or neither. */
  lemma OwnedAfter(taken: set<nat>, threads: seq<Pc>, i: nat, pc: Pc)
    requires Owned(taken, threads) && i < |threads|
    requires pc.Got? ==> !threads[i].Got? && pc.tag !in taken
    ensures Owned(if pc.Got? then taken + {pc.tag} else if threads[i].Got? then taken - {threads[i].tag} else taken, threads[i := pc])
  {
    var ts := threads[i := pc];
    var taken' := if pc.Got? then taken + {pc.tag} else if threads[i].Got? then taken - {threads[i].tag} else taken;
    forall t
      ensures t in taken' <==> exists j :: 0 <= j < |ts| && ts[j] == Got(t)
    {
      if t in taken' {
        if pc == Got(t) {
          assert ts[i] == Got(t);
        } else {
          var j :| 0 <= j < |threads| && threads[j] == Got(t);
          assert ts[j] == Got(t);
        }
      }
      if j :| 0 <= j < |ts| && ts[j] == Got(t) {
        if j != i {
          assert threads[j] == Got(t);
        }
      }
    }
    forall j | 0 <= j < |ts| && j != i && ts[j].Got?
      ensures ts[j].tag in taken
    {
      assert threads[j] == Got(ts[j].tag);
    }
  }

  lemma StepSharedKeeps(s: Shared, a: Move)
    requires SharedOk(s) && Can(s, a)
    ensures SharedOk(StepShared(s, a))
    ensures StepShared(s, a).tpw == s.tpw && StepShared(s, a).depth == s.depth && |StepShared(s, a).threads| == |s.threads|
  {
    hide Taken, Layout, Acted, Owned;
    ActedOk(s, a);
    var (words, pc) := Acted(s, a);
    var taken, taken' := Taken(s.words, s.tpw, s.depth), Taken(words, s.tpw, s.depth);
    OwnedAfter(taken, s.threads, a.i, pc);
    var t := StepShared(s, a);
    forall j | 0 <= j < |t.threads|
      ensures PcOk(t.words, t.tpw, t.depth, t.threads[j], t.since[j])
    {
      assert PcOk(s.words, s.tpw, s.depth, s.threads[j], s.since[j]);
      if j != a.i {
        if s.threads[j].Got? {
          StaysHeld(taken, taken', s.threads, a, j, pc);
        } else {
          SeenMore(s.words, words, s.tpw, s.depth, s.threads[j], s.since[j], t.since[j]);
        }
      }
    }
  }

  lemma StaysHeld(taken: set<nat>, taken': set<nat>, threads: seq<Pc>, a: Move, j: nat, pc: Pc)
    requires Owned(taken, threads) && j < |threads| && a.i < |threads| && j != a.i && threads[j].Got? && threads[j].tag in taken
    requires threads[a.i].Got? <==> a.Release?
    requires taken' == if pc.Got? then taken + {pc.tag} else if a.Release? then taken - {threads[a.i].tag} else taken
    ensures threads[j].tag in taken'
  {
  }

  // ----- every run

  ghost function RunShared(s: Shared, run: seq<Move>): Option<Shared>
    requires SharedOk(s)
    decreases |run|
  {
    if run == [] then Some(s)
    else if !Can(s, run[0]) then None
    else
      StepSharedKeeps(s, run[0]);
      RunShared(StepShared(s, run[0]), run[1..])
  }

  lemma {:induction false} RunSharedKeeps(s: Shared, run: seq<Move>)
    requires SharedOk(s)
    ensures RunShared(s, run).Some? ==>
              var e := RunShared(s, run).value; SharedOk(e) && e.tpw == s.tpw && e.depth == s.depth && |e.threads| == |s.threads|
    decreases |run|
  {
    if run != [] && Can(s, run[0]) {
      StepSharedKeeps(s, run[0]);
      hide SharedOk, StepShared;
      RunSharedKeeps(StepShared(s, run[0]), run[1..]);
    }
  }

  /** A map of free tags, as bt_alloc() leaves it, and users that have not begun. */
  ghost predicate Fresh(s: Shared)
  {
    && s.tpw > 0 && Layout(s.words, s.tpw, s.depth) && Blank(s.words) && |s.since| == |s.threads|
    && forall i :: 0 <= i < |s.threads| ==> s.threads[i] == Idle
  }

  lemma FreshOk(s: Shared)
    requires Fresh(s)
    ensures SharedOk(s)
  {
    BlankIsFree(s.words, s.tpw, s.depth);
  }

  /** However the searches interleave: a tag below the depth has at most one holder, and is marked busy while it has one. */
  lemma NoTagTwice(s: Shared, run: seq<Move>)
    requires Fresh(s)
    ensures SharedOk(s)
    ensures RunShared(s, run).Some? ==>
              var e := RunShared(s, run).value;
              && e.tpw == s.tpw > 0 && e.depth == s.depth && Layout(e.words, s.tpw, s.depth)
              && (forall i, j :: 0 <= i < j < |e.threads| && e.threads[i].Got? && e.threads[j].Got? ==> e.threads[i].tag != e.threads[j].tag)
              && (forall i :: 0 <= i < |e.threads| && e.threads[i].Got? ==> e.threads[i].tag < s.depth)
              && (forall t :: 0 <= t < s.depth ==> (Busy(e.words, s.tpw, t) <==> exists i :: 0 <= i < |e.threads| && e.threads[i] == Got(t)))
  {
    FreshOk(s);
    hide RunShared, Layout, Busy;
    RunSharedKeeps(s, run);
    if RunShared(s, run).Some? {
      var e := RunShared(s, run).value;
      forall i | 0 <= i < |e.threads| && e.threads[i].Got?
        ensures e.threads[i].tag < s.depth
      {
        assert PcOk(e.words, e.tpw, e.depth, e.threads[i], e.since[i]);
      }
      forall t | 0 <= t < s.depth
        ensures Busy(e.words, s.tpw, t) <==> t in Taken(e.words, s.tpw, s.depth)
      {
      }
    }
  }

  /** A search gives up only if every tag has been busy at some moment since it began. */
  lemma GivesUpOnlyIfAllBusy(s: Shared, run: seq<Move>, i: nat)
    requires Fresh(s) && i < |s.threads|
    ensures SharedOk(s)
    ensures RunShared(s, run).Some? && i < |RunShared(s, run).value.threads| && RunShared(s, run).value.threads[i] == Failed ==>
              var e := RunShared(s, run).value;
              i < |e.since| && forall t :: 0 <= t < s.depth ==> t in e.since[i]
  {
    FreshOk(s);
    hide RunShared, Layout, Taken;
    RunSharedKeeps(s, run);
    if RunShared(s, run).Some? {
      var e := RunShared(s, run).value;
      if i < |e.threads| {
        assert PcOk(e.words, e.tpw, e.depth, e.threads[i], e.since[i]);
      }
    }
  }
}
