/**
 The elevator's request queue, updated in place: the merge paths as the source takes them. Answers that come from
 limits, flags, settings and the I/O scheduler are arguments.
 */
module ElevatorQueue {
  import opened Basics
  import opened Elevator

  /** Positive lengths keep a request from ending where it begins. */
  lemma NotItself(s: State, h: nat -> nat, stale: Option<Rq>, a: Rq, b: Rq)
    requires Mid(s, h, stale) && a in s.reqs && b in s.reqs && s.reqs[a].End() == s.reqs[b].pos
    ensures a != b
  {
    assert RequestOk(s.reqs[a]);
    LengthPositive(s.reqs[a].bios);
  }

  class ElvQueue {
    var reqs: Requests
    var buckets: Buckets
    var last: Option<Rq>
    var nrSorted: int
    const h: nat -> nat

    ghost function View(): State
      reads this
    {
      State(reqs, buckets, last, nrSorted)
    }

    ghost predicate Valid()
      reads this
    {
      Inv(View(), h)
    }

    constructor (h: nat -> nat)
      ensures Valid() && reqs == map[] && this.h == h
    {
      this.h := h;
      reqs, buckets, last, nrSorted := map[], map[], None, 0;
    }

    /** elv_rqhash_find(). */
    method RqhashFind(off: nat) returns (found: Option<Rq>)
      requires Valid()
      modifies this
      ensures Valid() && (View(), found) == Find(old(View()), h, off)
      ensures SameBut(old(reqs), reqs) && Conserved(old(reqs), reqs, {}) && last == old(last)
      ensures found.Some? ==> EndsAt(reqs, found.value, off)
      ensures found.None? ==> forall r :: !EndsAt(reqs, r, off)
    {
      hide Mid, HashDel;
      FindAgrees(View(), h, off);
      ChainKnown(View(), h, off);
      ghost var target := Find(View(), h, off);
      var chain := Bucket(buckets, h(off));
      var i := 0;
      assert chain[0..] == chain;
      while i < |chain|
        invariant 0 <= i <= |chain| && reqs.Keys == old(reqs).Keys
        invariant FindIn(View(), chain[i..], off) == target
        invariant forall r :: r in chain ==> r in reqs
      {
        var r := chain[i];
        assert chain[i..][0] == r && chain[i..][1..] == chain[i + 1..];
        if !reqs[r].mergeable {
          reqs, buckets := reqs[r := reqs[r].(hashed := false)], HashDel(buckets, r);
        } else if reqs[r].End() == off {
          return Some(r);
        }
        i := i + 1;
      }
      assert chain[|chain|..] == [];
      EndsAtSame(old(reqs), reqs, off);
      return None;
    }

    /** attempt_merge(): req takes over next if both allow it and next starts where req ends. */
    method AttemptMerge(req: Rq, next: Rq, permit: bool) returns (ok: bool)
      requires (Valid() || Mid(View(), h, Some(req))) && req in reqs && next in reqs
      modifies this
      ensures ok <==> old(reqs)[req].mergeable && old(reqs)[next].mergeable && old(reqs)[req].End() == old(reqs)[next].pos &&
                      old(reqs)[req].write == old(reqs)[next].write && permit
      ensures !ok ==> View() == old(View())
      ensures ok ==> Valid() && req != next && View() == Absorb(old(View()), h, req, next)
      ensures Conserved(old(reqs), reqs, {})
    {
      hide Mid, HashDel, HashAdd;
      ConservedSelf(reqs);
      if !reqs[req].mergeable || !reqs[next].mergeable || reqs[req].End() != reqs[next].pos
         || reqs[req].write != reqs[next].write || !permit {
        return false;
      }
      NotItself(View(), h, if Mid(View(), h, None) then None else Some(req), req, next);
      AbsorbKeeps(View(), h, req, next);
      var q := reqs[req].(bios := reqs[req].bios + reqs[next].bios, len := reqs[req].len + reqs[next].len);
      reqs := reqs[req := q][req := q.(hashed := true)];
      buckets := HashAdd(HashDel(buckets, req), h, q.End(), req);
      reqs, buckets, nrSorted, last := reqs - {next}, HashDel(buckets, next), nrSorted - 1, Some(req);
      return true;
    }

    /** blk_attempt_req_merge() of a request that is not queued yet into r. */
    method AttemptMergeNew(r: Rq, q: Request, permit: bool) returns (ok: bool)
      requires Valid() && r in reqs && RequestOk(q) && forall b :: b in q.bios ==> !Held(reqs, b)
      modifies this
      ensures ok <==> old(reqs)[r].mergeable && q.mergeable && old(reqs)[r].End() == q.pos && old(reqs)[r].write == q.write && permit
      ensures Valid() && reqs.Keys == old(reqs).Keys
      ensures !ok ==> View() == old(View())
      ensures ok ==> View() == AbsorbNew(old(View()), h, r, q)
      ensures Conserved(old(reqs), reqs, if ok then set b | b in q.bios else {})
    {
      hide Mid, HashDel, HashAdd, RequestOk;
      ConservedSelf(reqs);
      if !reqs[r].mergeable || !q.mergeable || reqs[r].End() != q.pos || reqs[r].write != q.write || !permit {
        return false;
      }
      AbsorbNewKeeps(View(), h, r, q);
      var j := reqs[r].(bios := reqs[r].bios + q.bios, len := reqs[r].len + q.len);
      reqs := reqs[r := j][r := j.(hashed := true)];
      buckets := HashAdd(HashDel(buckets, r), h, j.End(), r);
      last := Some(r);
      return true;
    }

    /** elv_attempt_insert_merge(): append to a queued request, then keep folding that one into its predecessor. */
    method AttemptInsertMerge(q: Request, nox: bool, permitLast: bool, permit: nat -> bool) returns (merged: bool)
      requires Valid() && RequestOk(q) && forall b :: b in q.bios ==> !Held(reqs, b)
      modifies this
      ensures Valid() && Conserved(old(reqs), reqs, if merged then set b | b in q.bios else {})
      ensures reqs.Keys <= old(reqs).Keys && (!merged ==> SameBut(old(reqs), reqs))
      ensures merged ==> q.mergeable
      ensures !merged && !nox && q.mergeable && permit(0) ==>
                forall r :: r in old(reqs) && old(reqs)[r].write == q.write ==> !UniqueEnd(old(reqs), r, q.pos)
    {
      hide Mid, RequestOk, EndsAt, Conserved, Held, UniqueEnd;
      ConservedSelf(reqs);
      if last.Some? {
        LastKnown(View(), h);
        var ok := AttemptMergeNew(last.value, q, permitLast);
        if ok {
          return true;
        }
      }
      if nox {
        return false;
      }
      ghost var start := reqs;
      var found := RqhashFind(q.pos);
      ConservedTrans(start, start, reqs, {}, {});
      NothingUnique(reqs, found, q.write, q.pos);
      UniqueSame(start, reqs, q.write, q.pos);
      if found.None? {
        return false;
      }
      FoundKnown(reqs, found.value, q.pos);
      HeldSame(start, reqs, q.bios);
      ghost var mid := reqs;
      merged := AttemptMergeNew(found.value, q, permit(0));
      ConservedTrans(start, mid, reqs, {}, if merged then set b | b in q.bios else {});
      if !merged {
        return false;
      }
      ghost var now := reqs;
      var grown := FoldBack(found.value, permit);
      ConservedTrans(start, now, reqs, set b | b in q.bios, {});
    }

    /** The rest of the loop: the grown request may in turn fit behind another one, and so on until none is left. */
    method FoldBack(rq: Rq, permit: nat -> bool) returns (cur: Rq)
      requires Valid() && rq in reqs
      modifies this
      ensures Valid() && Conserved(old(reqs), reqs, {}) && reqs.Keys <= old(reqs).Keys && cur in reqs
      ensures forall b :: b in old(reqs)[rq].bios ==> b in reqs[cur].bios
      ensures (forall i :: permit(i)) && reqs[cur].mergeable ==>
                forall r :: r in reqs && reqs[r].write == reqs[cur].write ==> !UniqueEnd(reqs, r, reqs[cur].pos)
    {
      hide Mid, EndsAt, Conserved, Absorb, UniqueEnd;
      ConservedSelf(reqs);
      cur := rq;
      var i := 1;
      while true
        invariant Valid() && cur in reqs && Conserved(old(reqs), reqs, {}) && reqs.Keys <= old(reqs).Keys
        invariant forall b :: b in old(reqs)[rq].bios ==> b in reqs[cur].bios
        decreases |reqs|
      {
        ghost var before := reqs;
        var found := RqhashFind(reqs[cur].pos);
        SameSize(before, reqs);
        ConservedTrans(old(reqs), before, reqs, {}, {});
        NothingUnique(reqs, found, reqs[cur].write, reqs[cur].pos);
        if found.None? {
          break;
        }
        FoundKnown(reqs, found.value, reqs[cur].pos);
        ghost var here := reqs;
        ghost var v := View();
        var ok := AttemptMerge(found.value, cur, permit(i));
        ConservedTrans(old(reqs), here, reqs, {}, {});
        if !ok {
          break;
        }
        AbsorbShrinks(v, h, found.value, cur);
        AbsorbHolds(v, h, found.value, cur);
        cur, i := found.value, i + 1;
      }
    }

    /** __elv_add_request() with ELEVATOR_INSERT_SORT or ELEVATOR_INSERT_SORT_MERGE: every bio of the new request ends
        up in exactly one queued request. */
    method AddRequest(r: Rq, q: Request, tryMerge: bool, nox: bool, permitLast: bool, permit: nat -> bool)
      requires Valid() && r !in reqs && RequestOk(q) && q.hashed == q.mergeable
      requires forall b :: b in q.bios ==> !Held(reqs, b)
      modifies this
      ensures Valid() && Conserved(old(reqs), reqs, set b | b in q.bios)
      ensures r in reqs ==> reqs[r] == q && reqs.Keys == old(reqs).Keys + {r}
      ensures !tryMerge || !q.mergeable ==> r in reqs
      ensures tryMerge && !nox && q.mergeable && permit(0) && r in reqs ==>
                forall x :: x in old(reqs) && old(reqs)[x].write == q.write ==> !UniqueEnd(old(reqs), x, q.pos)
    {
      hide Mid, RequestOk, HashAdd, UniqueEnd;
      ghost var start := reqs;
      ConservedSelf(reqs);
      if tryMerge {
        var merged := AttemptInsertMerge(q, nox, permitLast, permit);
        if merged {
          return;
        }
        HeldSame(start, reqs, q.bios);
      }
      InsertKeeps(View(), h, r, q);
      ConservedTrans(start, reqs, reqs[r := q], {}, set b | b in q.bios);
      nrSorted := nrSorted + 1;
      if q.mergeable {
        buckets := HashAdd(buckets, h, q.End(), r);
        if last.None? {
          last := Some(r);
        }
      }
      reqs := reqs[r := q];
    }

    /** bio_attempt_back_merge(), attempt_back_merge() with the scheduler's next request, elv_merged_request(). */
    method BackMergeBio(req: Rq, b: Bio, fits: bool, next: Option<Rq>, permit: bool) returns (ok: bool)
      requires Valid() && req in reqs && reqs[req].End() == b.sector && b.sectors > 0 && !Held(reqs, b)
      requires next.Some? ==> next.value in reqs
      modifies this
      ensures Valid() && ok == fits && Conserved(old(reqs), reqs, if ok then {b} else {}) && reqs.Keys <= old(reqs).Keys
      ensures !ok ==> reqs == old(reqs)[req := old(reqs)[req].(mergeable := false)]
      ensures ok ==> req in reqs && b in reqs[req].bios
      ensures ok && next.Some? && next.value != req
              && Joins(old(reqs)[req].(len := old(reqs)[req].len + b.sectors), old(reqs)[next.value], permit) ==>
                reqs.Keys == old(reqs).Keys - {next.value}
      ensures ok && (next.None? || next.value == req) ==> reqs.Keys == old(reqs).Keys
      ensures ok && next.Some? && next.value != req
              && !Joins(old(reqs)[req].(len := old(reqs)[req].len + b.sectors), old(reqs)[next.value], permit) ==>
                reqs.Keys == old(reqs).Keys
    {
      hide Mid, Held, HashAdd, HashDel, Conserved;
      ghost var start := reqs;
      if !fits {
        ForbidKeeps(View(), h, req);
        reqs, last := reqs[req := reqs[req].(mergeable := false)], if last == Some(req) then None else last;
        return false;
      }
      AppendKeeps(View(), h, req, b);
      reqs := reqs[req := reqs[req].(bios := reqs[req].bios + [b], len := reqs[req].len + b.sectors)];
      ghost var mid := reqs;
      ghost var v := View();
      if next.Some? {
        var merged := AttemptMerge(req, next.value, permit);
        if merged {
          ConservedTrans(start, mid, reqs, {b}, {});
          AbsorbShrinks(v, h, req, next.value);
          return true;
        }
      }
      RehashKeeps(View(), h, req);
      ConservedTrans(start, mid, Rehash(View(), h, req).reqs, {b}, {});
      buckets := HashAdd(HashDel(buckets, req), h, reqs[req].End(), req);
      reqs, last := reqs[req := reqs[req].(hashed := true)], Some(req);
      return true;
    }

    /** bio_attempt_front_merge(), attempt_front_merge() with the scheduler's previous request, elv_merged_request(). */
    method FrontMergeBio(req: Rq, b: Bio, fits: bool, prev: Option<Rq>, permit: bool) returns (ok: bool)
      requires Valid() && req in reqs && reqs[req].pos == b.sector + b.sectors && b.sectors > 0 && !Held(reqs, b)
      requires prev.Some? ==> prev.value in reqs
      modifies this
      ensures Valid() && ok == fits && Conserved(old(reqs), reqs, if ok then {b} else {}) && reqs.Keys <= old(reqs).Keys
      ensures !ok ==> reqs == old(reqs)[req := old(reqs)[req].(mergeable := false)]
      ensures ok && prev.Some? && prev.value != req && Joins(old(reqs)[prev.value], old(reqs)[req].(pos := b.sector), permit) ==>
                reqs.Keys == old(reqs).Keys - {req}
      ensures ok && (prev.None? || prev.value == req) ==> reqs.Keys == old(reqs).Keys
      ensures ok && prev.Some? && prev.value != req && !Joins(old(reqs)[prev.value], old(reqs)[req].(pos := b.sector), permit) ==>
                reqs.Keys == old(reqs).Keys
      ensures ok ==> if req in reqs then b in reqs[req].bios else prev.Some? && prev.value in reqs && b in reqs[prev.value].bios
    {
      hide Mid, Held, HashAdd, HashDel, Conserved;
      ghost var start := reqs;
      if !fits {
        ForbidKeeps(View(), h, req);
        reqs, last := reqs[req := reqs[req].(mergeable := false)], if last == Some(req) then None else last;
        return false;
      }
      PrependKeeps(View(), h, req, b);
      reqs := reqs[req := reqs[req].(bios := [b] + reqs[req].bios, pos := b.sector, len := reqs[req].len + b.sectors)];
      ghost var mid := reqs;
      ghost var v := View();
      if prev.Some? {
        var merged := AttemptMerge(prev.value, req, permit);
        if merged {
          ConservedTrans(start, mid, reqs, {b}, {});
          AbsorbShrinks(v, h, prev.value, req);
          return true;
        }
      }
      LastFree(View(), h, req);
      last := Some(req);
      return true;
    }

    /** elv_merge(): the one-hit cache, then the hash for a back merge, then the scheduler for a front merge. */
    method ElvMerge(b: Bio, write: bool, a: Answers) returns (target: Option<Rq>, back: bool)
      requires Valid() && a.Fitting(reqs, b, write)
      modifies this
      ensures Valid() && SameBut(old(reqs), reqs) && Conserved(old(reqs), reqs, {}) && a.Fitting(reqs, b, write)
      ensures target.Some? ==> target.value in reqs && reqs[target.value].mergeable && reqs[target.value].write == write
      ensures target.Some? && back ==> reqs[target.value].End() == b.sector
      ensures target.Some? && !back ==> reqs[target.value].pos == b.sector + b.sectors
      ensures !a.noMerges && !a.noXMerges && a.allowHash && target.None? ==>
                a.front.None? && forall r :: r in reqs && reqs[r].write == write ==> !UniqueEnd(reqs, r, b.sector)
      ensures a.noMerges ==> target.None?
    {
      hide Mid, Conserved, EndsAt;
      ConservedSelf(reqs);
      if a.noMerges {
        return None, false;
      }
      if last.Some? {
        LastKnown(View(), h);
        var l := reqs[last.value];
        if l.mergeable && l.write == write && a.allowLast {
          if l.End() == b.sector {
            return last, true;
          } else if l.pos == b.sector + b.sectors {
            return last, false;
          }
        }
      }
      if a.noXMerges {
        return None, false;
      }
      ghost var start := reqs;
      var found := RqhashFind(b.sector);
      if found.Some? {
        FoundKnown(reqs, found.value, b.sector);
        if a.allowHash && reqs[found.value].write == write {
          return found, true;
        }
      }
      NothingUnique(reqs, found, write, b.sector);
      return a.front, false;
    }

    /** blk_queue_bio() under the queue lock: merge the bio if possible, else queue a new request; either way it ends up
        in exactly one queued request. */
    method QueueBio(b: Bio, write: bool, fresh_: Rq, a: Answers)
      requires Valid() && b.sectors > 0 && !Held(reqs, b) && fresh_ !in reqs
      requires a.Fitting(reqs, b, write)
      modifies this
      ensures Valid() && Conserved(old(reqs), reqs, {b}) && reqs.Keys <= old(reqs).Keys + {fresh_}
      ensures fresh_ in reqs ==> reqs[fresh_] == Single(b, write, a.mergeable)
      ensures fresh_ !in reqs ==> a.fits && !a.noMerges
      ensures !a.noMerges && !a.noXMerges && a.allowHash && a.fits && fresh_ in reqs ==>
                a.front.None? && forall r :: r in old(reqs) && old(reqs)[r].write == write ==> !UniqueEnd(old(reqs), r, b.sector)
    {
      hide Mid, Held, Conserved, SameBut, UniqueEnd;
      ghost var start := reqs;
      var target, back := ElvMerge(b, write, a);
      UniqueSame(start, reqs, write, b.sector);
      ghost var mid := reqs;
      SameKeys(start, mid);
      HeldSameOne(start, mid, b);
      var done := false;
      if target.Some? {
        if back {
          done := BackMergeBio(target.value, b, a.fits, a.neighbour, a.permit);
        } else {
          done := FrontMergeBio(target.value, b, a.fits, a.neighbour, a.permit);
        }
        ConservedTrans(start, mid, reqs, {}, if done then {b} else {});
      }
      if !done {
        HeldSameOne(start, reqs, b);
        SingleOk(b, write, a.mergeable);
        SingleHolds(b, write, a.mergeable);
        ghost var now := reqs;
        AddRequest(fresh_, Single(b, write, a.mergeable), false, false, false, _ => false);
        ConservedTrans(start, now, reqs, {}, {b});
      }
    }

    /** elv_dispatch_add_tail(). */
    method Dispatch(r: Rq)
      requires Valid() && r in reqs
      modifies this
      ensures Valid() && View() == DispatchRq(old(View()), r)
      ensures forall b :: Held(reqs, b) <==> Held(old(reqs), b) && b !in old(reqs)[r].bios
    {
      hide Mid, HashDel, Held;
      DispatchKeeps(View(), h, r);
      if last == Some(r) {
        last := None;
      }
      buckets := HashDel(buckets, r);
      nrSorted := nrSorted - 1;
      reqs := reqs - {r};
    }
  }

  /** What the queue settings, limits and the I/O scheduler answer while one bio is queued. */
  datatype Answers = Answers(
    noMerges: bool, noXMerges: bool,      // queue settings
    allowLast: bool, allowHash: bool,     // elv_rq_merge_ok() beyond direction and mergeability
    front: Option<Rq>,                    // elevator_merge_fn's front merge candidate
    fits: bool,                           // ll_back_merge_fn() or ll_front_merge_fn()
    neighbour: Option<Rq>, permit: bool,  // the request next to the grown one, and whether limits allow joining them
    mergeable: bool)                      // of a newly made request
  {
    /** A front merge candidate starts where the bio ends (the scheduler's BUG_ON) and passes elv_rq_merge_ok(); candidates are queued. */
    predicate Fitting(reqs: Requests, b: Bio, write: bool)
    {
      && (front.Some? ==> front.value in reqs && reqs[front.value].pos == b.sector + b.sectors
                          && reqs[front.value].write == write && reqs[front.value].mergeable)
      && (neighbour.Some? ==> neighbour.value in reqs)
    }
  }

  /** Two neighbouring requests become one. */
  predicate Joins(a: Request, b: Request, permit: bool)
  {
    a.mergeable && b.mergeable && a.End() == b.pos && a.write == b.write && permit
  }

  /** r is the one mergeable request that ends at off. */
  predicate UniqueEnd(reqs: Requests, r: Rq, off: nat)
  {
    EndsAt(reqs, r, off) && forall x :: x in reqs && EndsAt(reqs, x, off) ==> x == r
  }

  lemma NothingUnique(reqs: Requests, found: Option<Rq>, write: bool, off: nat)
    requires found.Some? ==> EndsAt(reqs, found.value, off)
    requires found.None? ==> forall r :: !EndsAt(reqs, r, off)
    ensures found.None? || reqs[found.value].write != write ==>
              forall r :: r in reqs && reqs[r].write == write ==> !UniqueEnd(reqs, r, off)
  {
  }

  lemma UniqueSame(a: Requests, b: Requests, write: bool, off: nat)
    requires SameBut(a, b)
    ensures (forall r :: r in a && a[r].write == write ==> !UniqueEnd(a, r, off)) <==>
            (forall r :: r in b && b[r].write == write ==> !UniqueEnd(b, r, off))
  {
    forall r | r in a
      ensures UniqueEnd(a, r, off) <==> UniqueEnd(b, r, off)
      ensures b[r].write == a[r].write
    {
      EndsAtSame(a, b, off);
    }
  }

  lemma AbsorbHolds(s: State, h: nat -> nat, r: Rq, n: Rq)
    requires r in s.reqs && n in s.reqs && r != n
    ensures r in Absorb(s, h, r, n).reqs
    ensures Absorb(s, h, r, n).reqs[r].bios == s.reqs[r].bios + s.reqs[n].bios
  {
  }

  lemma SameKeys(a: Requests, b: Requests)
    requires SameBut(a, b)
    ensures a.Keys == b.Keys
  {
  }

  lemma HeldSameOne(a: Requests, b: Requests, x: Bio)
    requires Conserved(a, b, {}) && !Held(a, x)
    ensures !Held(b, x)
  {
  }

  lemma LastFree(s: State, h: nat -> nat, r: Rq)
    requires Inv(s, h) && r in s.reqs
    ensures Inv(s.(last := Some(r)), h)
  {
  }

  lemma SingleHolds(b: Bio, write: bool, mergeable: bool)
    ensures (set x | x in Single(b, write, mergeable).bios) == {b}
  {
  }

  lemma ChainKnown(s: State, h: nat -> nat, off: nat)
    requires Inv(s, h)
    ensures forall r :: r in Bucket(s.buckets, h(off)) ==> r in s.reqs
  {
  }

  lemma EndsAtSame(a: Requests, b: Requests, off: nat)
    requires SameBut(a, b)
    ensures forall r :: EndsAt(a, r, off) <==> EndsAt(b, r, off)
  {
    forall r
      ensures EndsAt(a, r, off) <==> EndsAt(b, r, off)
    {
    }
  }

  lemma LastKnown(s: State, h: nat -> nat)
    requires Inv(s, h) && s.last.Some?
    ensures s.last.value in s.reqs
  {
  }

  lemma FoundKnown(reqs: Requests, r: Rq, off: nat)
    requires EndsAt(reqs, r, off)
    ensures r in reqs && reqs[r].mergeable && reqs[r].End() == off
  {
  }

  lemma HeldSame(a: Requests, b: Requests, l: seq<Bio>)
    requires Conserved(a, b, {}) && forall x :: x in l ==> !Held(a, x)
    ensures forall x :: x in l ==> !Held(b, x)
  {
  }

  lemma AbsorbShrinks(s: State, h: nat -> nat, r: Rq, n: Rq)
    requires r in s.reqs && n in s.reqs && r != n
    ensures |Absorb(s, h, r, n).reqs| < |s.reqs| && r in Absorb(s, h, r, n).reqs && Absorb(s, h, r, n).reqs.Keys <= s.reqs.Keys
  {
    var t := Absorb(s, h, r, n);
    assert t.reqs.Keys == s.reqs.Keys - {n};
    assert |t.reqs.Keys| == |s.reqs.Keys| - 1;
  }

  lemma SameSize(a: Requests, b: Requests)
    requires SameBut(a, b)
    ensures |a| == |b|
  {
    assert |a.Keys| == |b.Keys|;
  }
}
