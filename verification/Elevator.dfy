/**
 Merging of bios and requests and the back-merge hash: kernel/block/elevator.c, the merge paths of
 kernel/block/blk-core.c and kernel/block/blk-merge.c.

 Positions and lengths are in sectors. Whether limits, flags, the I/O scheduler or the queue settings allow a merge is
 left open: the operations take the answers as arguments and the guarantees hold for all of them.
 */
module Elevator {
  import opened Basics
  import opened Lists

  type Rq = nat

  datatype Bio = Bio(id: nat, sector: nat, sectors: nat)

  datatype Request = Request(pos: nat, len: nat, write: bool, bios: seq<Bio>, mergeable: bool, hashed: bool)
  {
    /** rq_hash_key(): the sector after the request. */
    function End(): nat { pos + len }
  }

  type Requests = map<Rq, Request>
  type Buckets = map<nat, seq<Rq>>

  function Bucket(buckets: Buckets, b: nat): seq<Rq> { if b in buckets then buckets[b] else [] }

  // ----- requests carry contiguous bios

  function Length(bios: seq<Bio>): nat { if bios == [] then 0 else Length(bios[..|bios| - 1]) + bios[|bios| - 1].sectors }

  predicate Contiguous(bios: seq<Bio>)
  {
    forall i :: 0 < i < |bios| ==> bios[i].sector == bios[i - 1].sector + bios[i - 1].sectors
  }

  ghost predicate RequestOk(q: Request)
  {
    && q.bios != [] && Contiguous(q.bios) && NoDup(q.bios)
    && q.pos == q.bios[0].sector && q.len == Length(q.bios)
    && (forall i :: 0 <= i < |q.bios| ==> q.bios[i].sectors > 0)
    && (q.mergeable ==> q.hashed)
  }

  /** A contiguous list ends where its last bio ends. */
  lemma {:induction false} ContiguousEnd(bios: seq<Bio>)
    requires bios != [] && Contiguous(bios)
    ensures bios[0].sector + Length(bios) == bios[|bios| - 1].sector + bios[|bios| - 1].sectors
  {
    if |bios| > 1 {
      ContiguousEnd(bios[..|bios| - 1]);
    }
  }

  lemma {:induction false} LengthConcat(a: seq<Bio>, b: seq<Bio>)
    ensures Length(a + b) == Length(a) + Length(b)
  {
    if b == [] {
      assert a + b == a;
    } else {
      LengthConcat(a, b[..|b| - 1]);
      assert (a + b)[..|a + b| - 1] == a + b[..|b| - 1];
    }
  }

  lemma LengthPositive(bios: seq<Bio>)
    requires bios != [] && forall i :: 0 <= i < |bios| ==> bios[i].sectors > 0
    ensures Length(bios) > 0
  {
  }

  /** Two requests joined where the first ends and the second begins. */
  lemma JoinOk(a: Request, b: Request, q: Request)
    requires RequestOk(a) && RequestOk(b) && a.End() == b.pos
    requires forall x :: x in a.bios ==> x !in b.bios
    requires q == a.(bios := a.bios + b.bios, len := a.len + b.len)
    ensures RequestOk(q)
  {
    hide Contiguous, NoDup, Length;
    ContiguousEnd(a.bios);
    LengthConcat(a.bios, b.bios);
    ConcatMembers(a.bios, b.bios);
    ContiguousJoin(a.bios, b.bios);
  }

  lemma ContiguousJoin(a: seq<Bio>, b: seq<Bio>)
    requires Contiguous(a) && Contiguous(b) && a != [] && b != []
    requires b[0].sector == a[|a| - 1].sector + a[|a| - 1].sectors
    ensures Contiguous(a + b)
  {
    var l := a + b;
    forall i | 0 < i < |l|
      ensures l[i].sector == l[i - 1].sector + l[i - 1].sectors
    {
      if i > |a| {
        assert l[i] == b[i - |a|] && l[i - 1] == b[i - 1 - |a|];
      }
    }
  }

  function Single(b: Bio, write: bool, mergeable: bool): Request
  {
    Request(b.sector, b.sectors, write, [b], mergeable, mergeable)
  }

  lemma SingleOk(b: Bio, write: bool, mergeable: bool)
    requires b.sectors > 0
    ensures RequestOk(Single(b, write, mergeable))
  {
    assert [b][..0] == [];
    assert Length([b]) == b.sectors;
  }

  // ----- each bio in one request

  ghost predicate Held(reqs: Requests, b: Bio)
  {
    exists r :: r in reqs && b in reqs[r].bios
  }

  ghost predicate BiosApart(reqs: Requests)
  {
    forall r, t, b :: r in reqs && t in reqs && b in reqs[r].bios && b in reqs[t].bios ==> r == t
  }

  ghost predicate RequestsOk(reqs: Requests)
  {
    (forall r :: r in reqs ==> RequestOk(reqs[r])) && BiosApart(reqs)
  }

  /** The same bios are held before and after, plus the listed ones. */
  ghost predicate Conserved(reqs: Requests, reqs': Requests, extra: set<Bio>)
  {
    forall b :: Held(reqs', b) <==> Held(reqs, b) || b in extra
  }

  // ----- the hash

  /** Every hashed request other than `stale` is on exactly the chain of its current end sector. */
  ghost predicate IndexOk(reqs: Requests, buckets: Buckets, h: nat -> nat, stale: Option<Rq>)
  {
    && (forall b :: NoDup(Bucket(buckets, b)))
    && (forall b, r :: Some(r) != stale ==>
          (r in Bucket(buckets, b) <==> r in reqs && reqs[r].hashed && h(reqs[r].End()) == b))
  }

  /** hash_del(): off whatever chain holds r. */
  function HashDel(buckets: Buckets, r: Rq): Buckets
  {
    map b | b in buckets :: Remove(buckets[b], r)
  }

  /** hash_add(): to the head of the chain of key. */
  function HashAdd(buckets: Buckets, h: nat -> nat, key: nat, r: Rq): Buckets
  {
    buckets[h(key) := [r] + Bucket(buckets, h(key))]
  }

  lemma HashDelMembers(buckets: Buckets, r: Rq, b: nat)
    requires NoDup(Bucket(buckets, b))
    ensures NoDup(Bucket(HashDel(buckets, r), b))
    ensures forall x :: x in Bucket(HashDel(buckets, r), b) <==> x in Bucket(buckets, b) && x != r
  {
    RemoveMembers(Bucket(buckets, b), r);
  }

  /** Taking the stale request off the hash. */
  lemma HashDelKeeps(reqs: Requests, reqs': Requests, buckets: Buckets, h: nat -> nat, r: Rq)
    requires IndexOk(reqs, buckets, h, Some(r))
    requires r in reqs' ==> !reqs'[r].hashed
    requires forall x :: x != r ==> (x in reqs <==> x in reqs') && (x in reqs ==> reqs'[x] == reqs[x])
    ensures IndexOk(reqs', HashDel(buckets, r), h, None)
  {
    hide HashDel;
    forall b
      ensures NoDup(Bucket(HashDel(buckets, r), b))
      ensures forall x :: x in Bucket(HashDel(buckets, r), b) <==> x in reqs' && reqs'[x].hashed && h(reqs'[x].End()) == b
    {
      HashDelMembers(buckets, r, b);
    }
  }

  lemma HashAddKeeps(reqs: Requests, reqs': Requests, buckets: Buckets, h: nat -> nat, r: Rq)
    requires IndexOk(reqs, buckets, h, None) && (r in reqs ==> !reqs[r].hashed)
    requires r in reqs' && reqs'[r].hashed
    requires forall x :: x != r ==> (x in reqs <==> x in reqs') && (x in reqs ==> reqs'[x] == reqs[x])
    ensures IndexOk(reqs', HashAdd(buckets, h, reqs'[r].End(), r), h, None)
  {
    var key := reqs'[r].End();
    var buckets' := HashAdd(buckets, h, key, r);
    forall b
      ensures NoDup(Bucket(buckets', b))
      ensures forall x :: x in Bucket(buckets', b) <==> x in reqs' && reqs'[x].hashed && h(reqs'[x].End()) == b
    {
      assert r !in Bucket(buckets, b);
      if b == h(key) {
        PrependMembers(Bucket(buckets, b), r);
      }
    }
  }

  /** An index is fine for everyone but r if only r changed. */
  lemma IndexStale(reqs: Requests, reqs': Requests, buckets: Buckets, h: nat -> nat, r: Rq)
    requires IndexOk(reqs, buckets, h, None) || IndexOk(reqs, buckets, h, Some(r))
    requires forall x :: x != r ==> (x in reqs <==> x in reqs') && (x in reqs ==> reqs'[x] == reqs[x])
    ensures IndexOk(reqs', buckets, h, Some(r))
  {
  }

  /** The index only looks at end sectors and hash flags. */
  lemma IndexSame(reqs: Requests, reqs': Requests, buckets: Buckets, h: nat -> nat)
    requires IndexOk(reqs, buckets, h, None) && reqs'.Keys == reqs.Keys
    requires forall x :: x in reqs ==> reqs'[x].hashed == reqs[x].hashed && reqs'[x].End() == reqs[x].End()
    ensures IndexOk(reqs', buckets, h, None)
  {
  }

  /** elv_rqhash_reposition(). */
  lemma RepositionKeeps(reqs: Requests, buckets: Buckets, h: nat -> nat, r: Rq)
    requires IndexOk(reqs, buckets, h, Some(r)) && r in reqs
    ensures IndexOk(reqs[r := reqs[r].(hashed := true)], HashAdd(HashDel(buckets, r), h, reqs[r].End(), r), h, None)
  {
    hide IndexOk, HashAdd, HashDel;
    var off := reqs[r := reqs[r].(hashed := false)];
    HashDelKeeps(reqs, off, buckets, h, r);
    HashAddKeeps(off, reqs[r := reqs[r].(hashed := true)], HashDel(buckets, r), h, r);
  }

  // ----- the queue

  datatype State = State(reqs: Requests, buckets: Buckets, last: Option<Rq>, nrSorted: int)

  /** `stale` is a request whose end sector changed and that has not been rehashed yet. */
  ghost predicate Mid(s: State, h: nat -> nat, stale: Option<Rq>)
  {
    && RequestsOk(s.reqs)
    && IndexOk(s.reqs, s.buckets, h, stale)
    && s.nrSorted == |s.reqs|
    && (s.last.Some? ==> s.last.value in s.reqs)
  }

  /** What holds at the end of every locked step. */
  ghost predicate Inv(s: State, h: nat -> nat) { Mid(s, h, None) }

  function AppendBio(s: State, r: Rq, b: Bio): State
    requires r in s.reqs
  {
    var q := s.reqs[r];
    s.(reqs := s.reqs[r := q.(bios := q.bios + [b], len := q.len + b.sectors)])
  }

  function PrependBio(s: State, r: Rq, b: Bio): State
    requires r in s.reqs
  {
    var q := s.reqs[r];
    s.(reqs := s.reqs[r := q.(bios := [b] + q.bios, pos := b.sector, len := q.len + b.sectors)])
  }

  /** elv_merged_request() after a back merge. */
  function Rehash(s: State, h: nat -> nat, r: Rq): State
    requires r in s.reqs
  {
    s.(reqs := s.reqs[r := s.reqs[r].(hashed := true)],
       buckets := HashAdd(HashDel(s.buckets, r), h, s.reqs[r].End(), r),
       last := Some(r))
  }

  /** attempt_merge() and elv_merge_requests(): r takes over the bios of the sorted request n. */
  function Absorb(s: State, h: nat -> nat, r: Rq, n: Rq): State
    requires r in s.reqs && n in s.reqs && r != n
  {
    var q := s.reqs[r].(bios := s.reqs[r].bios + s.reqs[n].bios, len := s.reqs[r].len + s.reqs[n].len);
    var t := Rehash(s.(reqs := s.reqs[r := q]), h, r);
    t.(reqs := t.reqs - {n}, buckets := HashDel(t.buckets, n), nrSorted := t.nrSorted - 1)
  }

  /** The same with a request n that is not in the queue yet. */
  function AbsorbNew(s: State, h: nat -> nat, r: Rq, n: Request): State
    requires r in s.reqs
  {
    var q := s.reqs[r].(bios := s.reqs[r].bios + n.bios, len := s.reqs[r].len + n.len);
    Rehash(s.(reqs := s.reqs[r := q]), h, r)
  }

  /** ELEVATOR_INSERT_SORT. */
  function InsertSort(s: State, h: nat -> nat, r: Rq, q: Request): State
  {
    s.(reqs := s.reqs[r := q],
       buckets := if q.mergeable then HashAdd(s.buckets, h, q.End(), r) else s.buckets,
       last := if q.mergeable && s.last.None? then Some(r) else s.last,
       nrSorted := s.nrSorted + 1)
  }

  /** ll_new_hw_segment() and its callers refusing: REQ_NOMERGE, and no longer the one-hit cache. */
  function Forbid(s: State, r: Rq): State
    requires r in s.reqs
  {
    s.(reqs := s.reqs[r := s.reqs[r].(mergeable := false)], last := if s.last == Some(r) then None else s.last)
  }

  /** elv_rqhash_find() drops an unmergeable request it passes. */
  function Unhash(s: State, r: Rq): State
    requires r in s.reqs
  {
    s.(reqs := s.reqs[r := s.reqs[r].(hashed := false)], buckets := HashDel(s.buckets, r))
  }

  /** elv_dispatch_add_tail(): r leaves the scheduler. */
  function DispatchRq(s: State, r: Rq): State
    requires r in s.reqs
  {
    State(s.reqs - {r}, HashDel(s.buckets, r), if s.last == Some(r) then None else s.last, s.nrSorted - 1)
  }

  // ----- what each keeps

  /** Replacing one request by one that is well formed, holding its own bios and fresh ones. */
  lemma ReplaceOk(reqs: Requests, r: Rq, q: Request, extra: set<Bio>)
    requires RequestsOk(reqs) && RequestOk(q)
    requires forall b :: b in q.bios <==> (r in reqs && b in reqs[r].bios) || b in extra
    requires forall b :: b in extra ==> !Held(reqs, b)
    ensures RequestsOk(reqs[r := q]) && Conserved(reqs, reqs[r := q], extra)
  {
    hide RequestOk;
    var reqs' := reqs[r := q];
    forall x, t, b | x in reqs' && t in reqs' && b in reqs'[x].bios && b in reqs'[t].bios
      ensures x == t
    {
      if b in extra {
        assert x != r ==> Held(reqs, b);
        assert t != r ==> Held(reqs, b);
      }
    }
    forall b
      ensures Held(reqs', b) <==> Held(reqs, b) || b in extra
    {
      if Held(reqs, b) {
        var x :| x in reqs && b in reqs[x].bios;
        assert b in reqs'[x].bios;
      }
      if b in extra {
        assert b in reqs'[r].bios;
      }
    }
  }

  lemma AppendKeeps(s: State, h: nat -> nat, r: Rq, b: Bio)
    requires Inv(s, h) && r in s.reqs && s.reqs[r].End() == b.sector && b.sectors > 0 && !Held(s.reqs, b)
    ensures Mid(AppendBio(s, r, b), h, Some(r)) && Conserved(s.reqs, AppendBio(s, r, b).reqs, {b})
  {
    hide IndexOk, RequestOk;
    var q := AppendBio(s, r, b).reqs[r];
    SingleOk(b, false, false);
    assert b !in s.reqs[r].bios;
    JoinOk(s.reqs[r], Single(b, false, false), q);
    ReplaceOk(s.reqs, r, q, {b});
    IndexStale(s.reqs, AppendBio(s, r, b).reqs, s.buckets, h, r);
  }

  lemma PrependKeeps(s: State, h: nat -> nat, r: Rq, b: Bio)
    requires Inv(s, h) && r in s.reqs && s.reqs[r].pos == b.sector + b.sectors && b.sectors > 0 && !Held(s.reqs, b)
    ensures Inv(PrependBio(s, r, b), h) && Conserved(s.reqs, PrependBio(s, r, b).reqs, {b})
    ensures PrependBio(s, r, b).reqs[r].End() == s.reqs[r].End()
  {
    hide IndexOk, RequestsOk, RequestOk, Conserved, Held;
    var a := s.reqs[r];
    var q := PrependBio(s, r, b).reqs[r];
    RequestIsOk(s.reqs, r);
    NotHeld(s.reqs, r, b);
    PrependRequestOk(a, b, q);
    ReplaceOk(s.reqs, r, q, {b});
    IndexSame(s.reqs, s.reqs[r := q], s.buckets, h);
  }

  lemma RequestIsOk(reqs: Requests, r: Rq)
    requires RequestsOk(reqs) && r in reqs
    ensures RequestOk(reqs[r])
  {
  }

  lemma NotHeld(reqs: Requests, r: Rq, b: Bio)
    requires !Held(reqs, b) && r in reqs
    ensures b !in reqs[r].bios
  {
  }

  lemma PrependRequestOk(a: Request, b: Bio, q: Request)
    requires RequestOk(a) && a.pos == b.sector + b.sectors && b.sectors > 0 && b !in a.bios
    requires q == a.(bios := [b] + a.bios, pos := b.sector, len := a.len + b.sectors)
    ensures RequestOk(q) && q.End() == a.End()
  {
    var single := Single(b, a.write, a.mergeable).(hashed := a.hashed);
    SingleOk(b, a.write, a.mergeable);
    JoinOk(single, a, single.(bios := single.bios + a.bios, len := single.len + a.len));
  }

  lemma HashFlagOk(reqs: Requests, r: Rq, hashed: bool)
    requires RequestsOk(reqs) && r in reqs && (hashed || !reqs[r].mergeable)
    ensures RequestsOk(reqs[r := reqs[r].(hashed := hashed)]) && Conserved(reqs, reqs[r := reqs[r].(hashed := hashed)], {})
  {
    ReplaceOk(reqs, r, reqs[r].(hashed := hashed), {});
  }

  lemma RehashKeeps(s: State, h: nat -> nat, r: Rq)
    requires Mid(s, h, Some(r)) && r in s.reqs
    ensures Inv(Rehash(s, h, r), h) && Conserved(s.reqs, Rehash(s, h, r).reqs, {})
  {
    hide IndexOk, RequestsOk, Conserved, HashAdd, HashDel;
    HashFlagOk(s.reqs, r, true);
    RepositionKeeps(s.reqs, s.buckets, h, r);
  }

  lemma RemoveOk(reqs: Requests, r: Rq)
    requires RequestsOk(reqs) && r in reqs
    ensures RequestsOk(reqs - {r})
    ensures forall b :: Held(reqs - {r}, b) <==> Held(reqs, b) && b !in reqs[r].bios
  {
    hide RequestOk;
    forall b
      ensures Held(reqs - {r}, b) <==> Held(reqs, b) && b !in reqs[r].bios
    {
      if Held(reqs, b) && b !in reqs[r].bios {
        var x :| x in reqs && b in reqs[x].bios;
        assert x in reqs - {r} && b in (reqs - {r})[x].bios;
      }
      if Held(reqs - {r}, b) {
        var x :| x in reqs - {r} && b in (reqs - {r})[x].bios;
        assert b in reqs[x].bios;
      }
    }
  }

  lemma DispatchKeeps(s: State, h: nat -> nat, r: Rq)
    requires Inv(s, h) && r in s.reqs
    ensures Inv(DispatchRq(s, r), h)
    ensures forall b :: Held(DispatchRq(s, r).reqs, b) <==> Held(s.reqs, b) && b !in s.reqs[r].bios
  {
    hide IndexOk, RequestOk, HashDel;
    RemoveOk(s.reqs, r);
    IndexStale(s.reqs, s.reqs, s.buckets, h, r);
    HashDelKeeps(s.reqs, s.reqs - {r}, s.buckets, h, r);
    MapMinus(s.reqs, r);
  }

  lemma MapMinus(reqs: Requests, r: Rq)
    requires r in reqs
    ensures |reqs - {r}| == |reqs| - 1
  {
    assert (reqs - {r}).Keys == reqs.Keys - {r};
  }

  lemma AbsorbRequests(reqs: Requests, r: Rq, n: Rq, q: Request)
    requires RequestsOk(reqs) && r in reqs && n in reqs && r != n && reqs[r].End() == reqs[n].pos
    requires q == reqs[r].(bios := reqs[r].bios + reqs[n].bios, len := reqs[r].len + reqs[n].len, hashed := true)
    ensures RequestsOk(reqs[r := q] - {n}) && Conserved(reqs, reqs[r := q] - {n}, {})
  {
    var rest := reqs - {n};
    RemoveOk(reqs, n);
    var moved := set b | b in reqs[n].bios;
    JoinOk(reqs[r], reqs[n], q.(hashed := reqs[r].hashed));
    assert reqs[r := q] - {n} == rest[r := q];
    ReplaceOk(rest, r, q, moved);
    forall b
      ensures Held(rest[r := q], b) <==> Held(reqs, b)
    {
      if b in moved {
        assert b in reqs[n].bios;
      }
    }
  }

  lemma AbsorbIndex(reqs: Requests, buckets: Buckets, h: nat -> nat, r: Rq, n: Rq, q: Request)
    requires (IndexOk(reqs, buckets, h, Some(r)) || IndexOk(reqs, buckets, h, None)) && r in reqs && n in reqs && r != n
    ensures IndexOk(reqs[r := q][r := q.(hashed := true)] - {n}, HashDel(HashAdd(HashDel(buckets, r), h, q.End(), r), n), h, None)
  {
    hide IndexOk, HashDel, HashAdd;
    var reqs1 := reqs[r := q];
    var reqs2 := reqs1[r := q.(hashed := true)];
    var buckets2 := HashAdd(HashDel(buckets, r), h, q.End(), r);
    IndexStale(reqs, reqs1, buckets, h, r);
    RepositionKeeps(reqs1, buckets, h, r);
    IndexStale(reqs2, reqs2, buckets2, h, n);
    HashDelKeeps(reqs2, reqs2 - {n}, buckets2, h, n);
  }

  lemma AbsorbKeeps(s: State, h: nat -> nat, r: Rq, n: Rq)
    requires Mid(s, h, Some(r)) || Inv(s, h)
    requires r in s.reqs && n in s.reqs && r != n && s.reqs[r].End() == s.reqs[n].pos
    ensures Inv(Absorb(s, h, r, n), h) && Conserved(s.reqs, Absorb(s, h, r, n).reqs, {})
  {
    hide IndexOk, RequestsOk, HashDel, HashAdd, Conserved;
    var q := s.reqs[r].(bios := s.reqs[r].bios + s.reqs[n].bios, len := s.reqs[r].len + s.reqs[n].len);
    var reqs2 := s.reqs[r := q][r := q.(hashed := true)];
    assert reqs2 == s.reqs[r := q.(hashed := true)];
    AbsorbRequests(s.reqs, r, n, q.(hashed := true));
    AbsorbIndex(s.reqs, s.buckets, h, r, n, q);
    assert reqs2.Keys == s.reqs.Keys;
    MapMinus(reqs2, n);
  }

  lemma AbsorbNewRequests(reqs: Requests, r: Rq, n: Request, q: Request)
    requires RequestsOk(reqs) && r in reqs && RequestOk(n) && reqs[r].End() == n.pos
    requires forall b :: b in n.bios ==> !Held(reqs, b)
    requires q == reqs[r].(bios := reqs[r].bios + n.bios, len := reqs[r].len + n.len)
    ensures RequestsOk(reqs[r := q]) && Conserved(reqs, reqs[r := q], set b | b in n.bios)
  {
    hide RequestOk;
    forall b | b in reqs[r].bios
      ensures b !in n.bios
    {
      assert Held(reqs, b);
    }
    JoinOk(reqs[r], n, q);
    ReplaceOk(reqs, r, q, set b | b in n.bios);
  }

  lemma AbsorbNewKeeps(s: State, h: nat -> nat, r: Rq, n: Request)
    requires Inv(s, h) && r in s.reqs && RequestOk(n) && s.reqs[r].End() == n.pos
    requires forall b :: b in n.bios ==> !Held(s.reqs, b)
    ensures Inv(AbsorbNew(s, h, r, n), h) && Conserved(s.reqs, AbsorbNew(s, h, r, n).reqs, set b | b in n.bios)
  {
    hide IndexOk, RequestsOk, RequestOk, HashDel, HashAdd, Held;
    var q := s.reqs[r].(bios := s.reqs[r].bios + n.bios, len := s.reqs[r].len + n.len);
    AbsorbNewRequests(s.reqs, r, n, q);
    IndexStale(s.reqs, s.reqs[r := q], s.buckets, h, r);
    RehashKeeps(s.(reqs := s.reqs[r := q]), h, r);
  }

  lemma InsertKeeps(s: State, h: nat -> nat, r: Rq, q: Request)
    requires Inv(s, h) && r !in s.reqs && RequestOk(q) && q.hashed == q.mergeable
    requires forall b :: b in q.bios ==> !Held(s.reqs, b)
    ensures Inv(InsertSort(s, h, r, q), h) && Conserved(s.reqs, InsertSort(s, h, r, q).reqs, set b | b in q.bios)
  {
    hide RequestOk, HashAdd;
    ReplaceOk(s.reqs, r, q, set b | b in q.bios);
    if q.mergeable {
      HashAddKeeps(s.reqs, s.reqs[r := q], s.buckets, h, r);
    }
  }

  lemma ForbidKeeps(s: State, h: nat -> nat, r: Rq)
    requires Inv(s, h) && r in s.reqs
    ensures Inv(Forbid(s, r), h) && Conserved(s.reqs, Forbid(s, r).reqs, {})
  {
    hide IndexOk, RequestsOk, RequestOk, Conserved;
    var q := s.reqs[r].(mergeable := false);
    RequestIsOk(s.reqs, r);
    ForbiddenOk(s.reqs[r]);
    ReplaceOk(s.reqs, r, q, {});
    IndexSame(s.reqs, s.reqs[r := q], s.buckets, h);
  }

  lemma ForbiddenOk(q: Request)
    requires RequestOk(q)
    ensures RequestOk(q.(mergeable := false))
  {
  }

  lemma UnhashKeeps(s: State, h: nat -> nat, r: Rq)
    requires Inv(s, h) && r in s.reqs && !s.reqs[r].mergeable
    ensures Inv(Unhash(s, r), h) && Conserved(s.reqs, Unhash(s, r).reqs, {})
  {
    hide IndexOk, RequestOk, HashDel, Conserved;
    HashFlagOk(s.reqs, r, false);
    IndexStale(s.reqs, s.reqs, s.buckets, h, r);
    HashDelKeeps(s.reqs, Unhash(s, r).reqs, s.buckets, h, r);
  }

  // ----- elv_rqhash_find()

  /** The walk along a chain: unmergeable requests are dropped from the hash, the first request ending at off is taken. */
  function FindIn(s: State, chain: seq<Rq>, off: nat): (State, Option<Rq>)
    decreases |chain|
  {
    if chain == [] then (s, None)
    else
      var r := chain[0];
      if r !in s.reqs then (s, None)
      else if !s.reqs[r].mergeable then FindIn(Unhash(s, r), chain[1..], off)
      else if s.reqs[r].End() == off then (s, Some(r))
      else FindIn(s, chain[1..], off)
  }

  function Find(s: State, h: nat -> nat, off: nat): (State, Option<Rq>)
  {
    FindIn(s, Bucket(s.buckets, h(off)), off)
  }

  /** r is a mergeable request that ends at off. */
  predicate EndsAt(reqs: Requests, r: Rq, off: nat) { r in reqs && reqs[r].mergeable && reqs[r].End() == off }

  /** Only hash membership changes. */
  predicate SameBut(reqs: Requests, reqs': Requests)
  {
    reqs'.Keys == reqs.Keys && forall r :: r in reqs ==> reqs'[r] == reqs[r].(hashed := reqs'[r].hashed)
  }

  lemma {:induction false} FindInAgrees(s: State, h: nat -> nat, chain: seq<Rq>, off: nat)
    requires Inv(s, h) && (forall r :: r in chain ==> r in s.reqs)
    requires forall r :: EndsAt(s.reqs, r, off) ==> r in chain
    ensures var f := FindIn(s, chain, off);
            && Inv(f.0, h) && SameBut(s.reqs, f.0.reqs) && Conserved(s.reqs, f.0.reqs, {}) && f.0.last == s.last
            && (f.1.Some? ==> EndsAt(s.reqs, f.1.value, off))
            && (f.1.None? ==> forall r :: !EndsAt(s.reqs, r, off))
    decreases |chain|
  {
    hide Inv, Conserved, Unhash;
    if chain != [] {
      var r := chain[0];
      assert chain == [r] + chain[1..];
      if !s.reqs[r].mergeable {
        UnhashKeeps(s, h, r);
        UnhashSame(s, r, off);
        var u := Unhash(s, r);
        FindInAgrees(u, h, chain[1..], off);
        ConservedTrans(s.reqs, u.reqs, FindIn(u, chain[1..], off).0.reqs, {}, {});
      } else if s.reqs[r].End() != off {
        FindInAgrees(s, h, chain[1..], off);
      } else {
        ConservedSelf(s.reqs);
      }
    } else {
      ConservedSelf(s.reqs);
    }
  }

  lemma UnhashSame(s: State, r: Rq, off: nat)
    requires r in s.reqs && !s.reqs[r].mergeable
    ensures var u := Unhash(s, r); SameBut(s.reqs, u.reqs) && u.last == s.last
    ensures forall x :: EndsAt(Unhash(s, r).reqs, x, off) <==> EndsAt(s.reqs, x, off)
    ensures !EndsAt(s.reqs, r, off)
  {
    hide HashDel;
  }

  lemma ConservedTrans(a: Requests, b: Requests, c: Requests, x: set<Bio>, y: set<Bio>)
    requires Conserved(a, b, x) && Conserved(b, c, y)
    ensures x == {} ==> Conserved(a, c, y)
    ensures y == {} ==> Conserved(a, c, x)
  {
  }

  lemma ConservedSelf(a: Requests)
    ensures Conserved(a, a, {})
  {
  }

  /** The hash answers as a scan of all queued requests would: it finds a mergeable request ending at the sector
      exactly when there is one. */
  lemma FindAgrees(s: State, h: nat -> nat, off: nat)
    requires Inv(s, h)
    ensures var f := Find(s, h, off);
            && Inv(f.0, h) && SameBut(s.reqs, f.0.reqs) && Conserved(s.reqs, f.0.reqs, {}) && f.0.last == s.last
            && (f.1.Some? ==> EndsAt(s.reqs, f.1.value, off))
            && (f.1.None? ==> forall r :: !EndsAt(s.reqs, r, off))
  {
    var chain := Bucket(s.buckets, h(off));
    forall r | EndsAt(s.reqs, r, off)
      ensures r in chain
    {
      assert RequestOk(s.reqs[r]);
    }
    FindInAgrees(s, h, chain, off);
  }
}
