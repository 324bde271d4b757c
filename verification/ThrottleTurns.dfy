/**
 The sources of a group take turns: self and the children are served round robin.
 */
module ThrottleTurns {
  import opened Lists
  import opened ThrottleTree

  /** throtl_pop_queued() k times. */
  function Turns(q: DirQueue, k: nat): DirQueue
  {
    if k == 0 then q
    else
      var t := Turns(q, k - 1);
      if t.order == [] || t.Get(t.order[0]) == [] then t else Pop(t)
  }

  lemma {:induction false} TurnsKeep(q: DirQueue, k: nat)
    requires QueueOk(q) && k <= |q.order|
    ensures var t := Turns(q, k);
            && QueueOk(t) && q.order[k..] <= t.order && forall src :: src in q.order[k..] ==> t.Get(src) == q.Get(src)
  {
    if k > 0 {
      TurnsKeep(q, k - 1);
      var t := Turns(q, k - 1);
      var rest := q.order[k - 1..];
      assert rest[0] == q.order[k - 1] && rest[1..] == q.order[k..] && rest[0] in rest;
      assert t.order[0] == rest[0] && t.order[0] in t.order;
      PopKeeps(t);
      assert q.order[k..] <= t.order[1..];
      forall src | src in q.order[k..]
        ensures Turns(q, k).Get(src) == q.Get(src)
      {
        assert src in rest;
        NotAgain(q.order, k - 1, src);
      }
    }
  }

  lemma NotAgain(l: seq<Source>, k: nat, src: Source)
    requires NoDup(l) && k < |l| && src in l[k + 1..]
    ensures src != l[k]
  {
    var i :| 0 <= i < |l[k + 1..]| && l[k + 1..][i] == src;
    assert l[k + 1 + i] == src;
  }

  /** In the next |order| turns every source that waits gives its first bio, once, in the order they wait. */
  lemma RoundRobin(q: DirQueue, k: nat)
    requires QueueOk(q) && k < |q.order|
    ensures var t := Turns(q, k);
            && t.order != [] && t.order[0] == q.order[k] && t.Get(q.order[k]) == q.Get(q.order[k]) != []
  {
    TurnsKeep(q, k);
    var rest := q.order[k..];
    assert rest[0] == q.order[k] && rest[0] in rest && q.order[k] in q.order;
  }

  /** A source that joins waits behind those already waiting, and a bio behind those of its source. */
  lemma JoinsBehind(q: DirQueue, src: Source, b: Bio)
    requires QueueOk(q)
    ensures var t := AddBio(q, src, b);
            && q.order <= t.order && |t.order| == |q.order| + (if src in q.order then 0 else 1) && src in t.order
            && t.Get(src) == q.Get(src) + [b]
  {
  }
}
