/**
 Splitting a discard, kernel/block/blk-lib.c.

 A long range goes out as several bios: none larger than the device takes, and each one after the first starting at
 the device's granularity. A counter that starts at one lets the issuer wait for them all.
 */
module Discard {
  import opened Arith
  import opened Basics

  /** What the loop needs to know of the queue's limits; sizes and offsets in bytes but for maxSectors. */
  datatype Limits = Limits(discard: bool, secure: bool, granularityBytes: nat, alignmentBytes: nat, maxSectors: nat)

  datatype Piece = Piece(start: nat, len: nat)

  datatype Result = Done | NoDevice | NotSupported | NoMemory

  const UINT_MAX_SECTORS: nat := 8388607 // UINT_MAX >> 9

  function Granularity(l: Limits): (g: nat)
    ensures g > 0
  {
    if l.granularityBytes / 512 > 1 then l.granularityBytes / 512 else 1
  }

  function Alignment(l: Limits): (a: nat)
    ensures a < Granularity(l)
  {
    (l.alignmentBytes / 512) % Granularity(l)
  }

  /** The largest piece, a multiple of the granularity. */
  function MaxPiece(l: Limits): (m: nat)
    ensures m % Granularity(l) == 0 && m <= l.maxSectors
  {
    var m := Min(l.maxSectors, UINT_MAX_SECTORS);
    DivFloor(m, Granularity(l));
    MultipleMod(m / Granularity(l), Granularity(l));
    m - m % Granularity(l)
  }

  predicate Aligned(l: Limits, sector: nat) { sector % Granularity(l) == Alignment(l) }

  // ----- one piece

  /** Where the piece from `sector` ends, with n sectors to go. */
  function EndOf(l: Limits, sector: nat, n: nat): int
  {
    var req := Min(n, MaxPiece(l));
    var end := sector + req;
    if req < n && !Aligned(l, end) then (end - Alignment(l)) / Granularity(l) * Granularity(l) + Alignment(l) else end
  }

  /** A piece is never empty; when more is to come it ends aligned, and it is as long as that allows. */
  lemma EndBounds(l: Limits, sector: nat, n: nat)
    requires n > 0 && MaxPiece(l) > 0
    ensures sector < EndOf(l, sector, n) <= sector + Min(n, MaxPiece(l))
    ensures EndOf(l, sector, n) < sector + n ==> Aligned(l, EndOf(l, sector, n))
    ensures EndOf(l, sector, n) < sector + n ==> EndOf(l, sector, n) > sector + MaxPiece(l) - Granularity(l)
    ensures n <= MaxPiece(l) ==> EndOf(l, sector, n) == sector + n
    ensures n > MaxPiece(l) && Aligned(l, sector) ==> EndOf(l, sector, n) == sector + MaxPiece(l)
  {
    hide Granularity, Alignment, MaxPiece;
    var g, a, m := Granularity(l), Alignment(l), MaxPiece(l);
    AtLeastOne(m, g);
    AlignDown(sector + m - a, g, a);
    StaysAligned(sector, m, g);
  }

  lemma AlignDown(x: nat, g: nat, a: nat)
    requires a < g
    ensures x < x / g * g + g && x / g * g <= x && (x / g * g + a) % g == a
  {
    DivFloor(x, g);
    QuotientUnique(x / g * g + a, g, x / g, a);
  }

  lemma StaysAligned(s: nat, m: nat, g: nat)
    requires g > 0 && m % g == 0
    ensures (s + m) % g == s % g
  {
    assert s == s / g * g + s % g && m == m / g * g;
    assert (s / g + m / g) * g == s / g * g + m / g * g;
    QuotientUnique(s + m, g, s / g + m / g, s % g);
  }

  lemma AtLeastOne(m: nat, g: nat)
    requires g > 0 && m > 0 && m % g == 0
    ensures m >= g
  {
    assert m == m / g * g + m % g;
    if m / g >= 1 {
      MulMono(1, m / g, g);
    }
  }

  // ----- the whole range

  /** The pieces follow on from `from` without gap or overlap up to `to`. */
  predicate Consecutive(ps: seq<Piece>, from: nat, to: nat)
  {
    && (ps != [] ==> ps[0].start == from)
    && (forall i :: 0 < i < |ps| ==> ps[i].start == ps[i - 1].start + ps[i - 1].len)
    && to == if ps == [] then from else ps[|ps| - 1].start + ps[|ps| - 1].len
  }

  /** What the device asks of the pieces; `last` says that the final one may fall short. */
  predicate Fits(l: Limits, ps: seq<Piece>, last: bool)
  {
    && (forall i :: 0 <= i < |ps| ==> 0 < ps[i].len <= MaxPiece(l))
    && (forall i :: 0 < i < |ps| ==> Aligned(l, ps[i].start))
    && (forall i :: 0 < i < |ps| && (i < |ps| - 1 || !last) ==> ps[i].len == MaxPiece(l))
    && (|ps| > 0 && (|ps| > 1 || !last) ==> ps[0].len > MaxPiece(l) - Granularity(l))
  }

  /** No piece is followed by another unless what was left exceeded the maximum. */
  predicate Needed(l: Limits, ps: seq<Piece>, end: nat, last: bool)
  {
    forall i :: 0 <= i < |ps| && (i < |ps| - 1 || !last) ==> end - ps[i].start > MaxPiece(l)
  }

  /** The split of n sectors from `from` on. */
  predicate Split(l: Limits, ps: seq<Piece>, from: nat, n: nat)
  {
    Consecutive(ps, from, from + n) && Fits(l, ps, true) && Needed(l, ps, from + n, true)
  }

  /** Two aligned sectors less than a granule apart are the same. */
  lemma AlignedUnique(l: Limits, x: nat, y: nat)
    requires Aligned(l, x) && Aligned(l, y) && x < y + Granularity(l) && y < x + Granularity(l)
    ensures x == y
  {
    var g, a := Granularity(l), Alignment(l);
    assert x == x / g * g + a && y == y / g * g + a;
    var d := x / g - y / g;
    assert d * g == x / g * g - y / g * g;
    SmallMultiple(d, g);
  }

  lemma FirstPiece(l: Limits, ps: seq<Piece>, from: nat, n: nat)
    requires Split(l, ps, from, n)
    ensures |ps| == 0 <==> n == 0
    ensures |ps| > 1 <==> n > MaxPiece(l)
    ensures |ps| == 1 ==> ps[0] == Piece(from, n)
    ensures |ps| > 1 ==> ps[0].start == from && ps[1].start == from + ps[0].len
    ensures |ps| > 1 ==> Aligned(l, ps[1].start) && MaxPiece(l) - Granularity(l) < ps[0].len <= MaxPiece(l)
    ensures |ps| > 1 ==> ps[0].len < n && Split(l, ps[1..], from + ps[0].len, n - ps[0].len)
  {
    hide Granularity, MaxPiece, Aligned;
    if |ps| > 1 {
      Rises(ps, 1, |ps| - 1);
      TailConsecutive(ps, from, from + n);
      TailFits(l, ps);
    }
  }

  lemma TailConsecutive(ps: seq<Piece>, from: nat, to: nat)
    requires |ps| > 1 && Consecutive(ps, from, to)
    ensures Consecutive(ps[1..], from + ps[0].len, to)
  {
    var rest := ps[1..];
    assert forall i :: 0 <= i < |rest| ==> rest[i] == ps[i + 1];
    assert rest[|rest| - 1] == ps[|ps| - 1];
    forall i | 0 < i < |rest|
      ensures rest[i].start == rest[i - 1].start + rest[i - 1].len
    {
      assert ps[i + 1].start == ps[i].start + ps[i].len;
    }
  }

  lemma TailFits(l: Limits, ps: seq<Piece>)
    requires |ps| > 1 && Fits(l, ps, true)
    ensures Fits(l, ps[1..], true)
  {
    hide Granularity, MaxPiece, Aligned;
    var rest := ps[1..];
    assert forall i :: 0 <= i < |rest| ==> rest[i] == ps[i + 1];
  }

  lemma {:induction false} Rises(ps: seq<Piece>, i: nat, j: nat)
    requires i <= j < |ps| && forall i :: 0 < i < |ps| ==> ps[i].start == ps[i - 1].start + ps[i - 1].len
    ensures ps[i].start <= ps[j].start
  {
    if i < j {
      Rises(ps, i, j - 1);
    }
  }

  /** These clauses leave no choice: they describe exactly one split. */
  lemma {:induction false} SplitUnique(l: Limits, ps: seq<Piece>, qs: seq<Piece>, from: nat, n: nat)
    requires Split(l, ps, from, n) && Split(l, qs, from, n)
    ensures ps == qs
    decreases |ps|
  {
    hide Split, Consecutive, Fits, Needed, Granularity, MaxPiece, Aligned;
    FirstPiece(l, ps, from, n);
    FirstPiece(l, qs, from, n);
    if |ps| > 1 {
      AlignedUnique(l, ps[1].start, qs[1].start);
      SplitUnique(l, ps[1..], qs[1..], from + ps[0].len, n - ps[0].len);
      assert ps == [ps[0]] + ps[1..] && qs == [qs[0]] + qs[1..];
    }
  }

  /** The state of the loop: `at` reached, n sectors to go. */
  predicate Reached(l: Limits, ps: seq<Piece>, from: nat, at: nat, n: nat)
  {
    && Consecutive(ps, from, at) && Fits(l, ps, n == 0)
    && (ps != [] && n > 0 ==> Aligned(l, at))
    && Needed(l, ps, at + n, n == 0)
  }

  lemma Nothing(l: Limits, from: nat, n: nat)
    ensures Reached(l, [], from, from, n)
  {
  }

  lemma AddConsecutive(ps: seq<Piece>, from: nat, at: nat, len: nat)
    requires Consecutive(ps, from, at)
    ensures Consecutive(ps + [Piece(at, len)], from, at + len)
  {
  }

  lemma AddFits(l: Limits, ps: seq<Piece>, p: Piece, last: bool)
    requires Fits(l, ps, false) && 0 < p.len <= MaxPiece(l) && (ps != [] ==> Aligned(l, p.start))
    requires !last && ps != [] ==> p.len == MaxPiece(l)
    requires !last && ps == [] ==> p.len > MaxPiece(l) - Granularity(l)
    ensures Fits(l, ps + [p], last)
  {
    hide Granularity, MaxPiece, Aligned;
  }

  lemma AddNeeded(l: Limits, ps: seq<Piece>, p: Piece, end: nat, last: bool)
    requires Needed(l, ps, end, false) && (!last ==> end - p.start > MaxPiece(l))
    ensures Needed(l, ps + [p], end, last)
  {
    hide MaxPiece;
  }

  lemma AddPiece(l: Limits, ps: seq<Piece>, from: nat, at: nat, n: nat)
    requires Reached(l, ps, from, at, n) && n > 0 && MaxPiece(l) > 0
    ensures var end := EndOf(l, at, n);
            at < end <= at + n && Reached(l, ps + [Piece(at, end - at)], from, end, at + n - end)
  {
    hide Granularity, MaxPiece, Aligned, EndOf, Consecutive, Fits, Needed;
    EndBounds(l, at, n);
    var end := EndOf(l, at, n);
    var p := Piece(at, end - at);
    AddConsecutive(ps, from, at, end - at);
    AddFits(l, ps, p, end == at + n);
    AddNeeded(l, ps, p, at + n, end == at + n);
  }

  lemma {:induction false} Forward(l: Limits, ps: seq<Piece>, from: nat, at: nat, n: nat)
    requires Reached(l, ps, from, at, n)
    ensures from <= at
  {
    for i := 0 to |ps|
      invariant i > 0 ==> from <= ps[i - 1].start
    {
    }
  }

  /** blkdev_issue_discard() up to the wait: which bios are submitted. `alloc(k)` says whether the k-th bio_alloc() succeeds. */
  method IssueDiscard(device: bool, l: Limits, sector: nat, nrSects: nat, secure: bool, alloc: nat -> bool)
    returns (ret: Result, ps: seq<Piece>)
    ensures ret == NoDevice <==> !device
    ensures ret == NotSupported <==> device && (!l.discard || MaxPiece(l) == 0 || (secure && !l.secure))
    ensures ret == NoDevice || ret == NotSupported ==> ps == []
    ensures ret == Done ==> Split(l, ps, sector, nrSects)
    ensures ret == NoMemory ==> !alloc(|ps|) && Fits(l, ps, false) && exists to :: sector <= to < sector + nrSects && Consecutive(ps, sector, to)
    ensures forall k :: 0 <= k < |ps| ==> alloc(k)
  {
    hide Consecutive, Fits, Needed, Aligned, EndOf, Granularity, MaxPiece;
    ps := [];
    if !device {
      return NoDevice, ps;
    }
    if !l.discard || MaxPiece(l) == 0 || (secure && !l.secure) {
      return NotSupported, ps;
    }
    ret := Done;
    assert Reached(l, [], sector, sector, nrSects) by {
      Nothing(l, sector, nrSects);
    }
    var at: nat, n: nat := sector, nrSects;
    while n != 0
      invariant at + n == sector + nrSects && Reached(l, ps, sector, at, n)
      invariant forall k :: 0 <= k < |ps| ==> alloc(k)
      invariant ret == Done
    {
      if !alloc(|ps|) {
        assert sector <= at by {
          Forward(l, ps, sector, at, n);
        }
        ret := NoMemory;
        break;
      }
      AddPiece(l, ps, sector, at, n);
      var end := EndOf(l, at, n);
      ps := ps + [Piece(at, end - at)];
      at, n := end, n - (end - at);
    }
  }

  // ----- waiting for the bios

  /** How the device answered: with err, which may be that it does not support the operation. */
  datatype Answer = Answer(err: bool, unsupported: bool)

  /** A submitted bio: running, past the flag update of bio_batch_end_io(), or counted out. */
  datatype Bio = Running | Marked(answer: Answer) | Ended(answer: Answer)

  /** struct bio_batch, the bios that point to it, and where the issuer is. signals counts calls of complete(). */
  datatype Batch = Batch(done: int, uptodate: bool, bios: seq<Bio>, issuer: Issuer, signals: nat)

  datatype Issuer = Submitting | Waiting | Returned(ok: bool)

  datatype Event = Submit | Mark(i: nat, answer: Answer) | CountOut(i: nat) | Finish | Wake

  function Pending(bios: seq<Bio>): nat
  {
    if bios == [] then 0 else (if bios[0].Ended? then 0 else 1) + Pending(bios[1..])
  }

  /** A device that does not support discard has not failed. */
  predicate Failed(b: Bio) { !b.Running? && b.answer == Answer(true, false) }

  predicate AnyFailed(bios: seq<Bio>) { exists i :: 0 <= i < |bios| && Failed(bios[i]) }

  predicate AllEnded(bios: seq<Bio>) { forall i :: 0 <= i < |bios| ==> bios[i].Ended? }

  predicate Can(b: Batch, e: Event)
  {
    match e
    case Submit => b.issuer.Submitting?
    case Mark(i, _) => i < |b.bios| && b.bios[i].Running?
    case CountOut(i) => i < |b.bios| && b.bios[i].Marked?
    case Finish => b.issuer.Submitting?
    case Wake => b.issuer.Waiting? && b.signals > 0
  }

  function Next(b: Batch, e: Event): Batch
    requires Can(b, e)
  {
    match e
    case Submit => b.(done := b.done + 1, bios := b.bios + [Running])
    case Mark(i, a) => b.(uptodate := if a.err && !a.unsupported then false else b.uptodate, bios := b.bios[i := Marked(a)])
    case CountOut(i) =>
      b.(done := b.done - 1, bios := b.bios[i := Ended(b.bios[i].answer)], signals := b.signals + if b.done == 1 then 1 else 0)
    case Finish =>
      b.(done := b.done - 1, issuer := if b.done == 1 then Returned(b.uptodate) else Waiting)
    case Wake => b.(issuer := Returned(b.uptodate))
  }

  predicate Ok(b: Batch)
  {
    && b.done == Pending(b.bios) + (if b.issuer.Submitting? then 1 else 0)
    && (b.uptodate <==> !AnyFailed(b.bios))
    && (b.issuer.Submitting? ==> b.signals == 0)
    && (b.issuer.Waiting? ==> b.signals == if Pending(b.bios) == 0 then 1 else 0)
    && (b.issuer.Returned? ==> b.signals <= 1 && Pending(b.bios) == 0 && (b.issuer.ok <==> !AnyFailed(b.bios)))
  }

  lemma {:induction false} PendingAppend(bios: seq<Bio>, x: Bio)
    ensures Pending(bios + [x]) == Pending(bios) + Pending([x])
  {
    if bios == [] {
      assert bios + [x] == [x];
    } else {
      assert (bios + [x])[1..] == bios[1..] + [x];
      PendingAppend(bios[1..], x);
    }
  }

  lemma {:induction false} PendingUpdate(bios: seq<Bio>, i: nat, x: Bio)
    requires i < |bios|
    ensures Pending(bios[i := x]) == Pending(bios) - Pending([bios[i]]) + Pending([x])
  {
    if i == 0 {
      assert bios[i := x][1..] == bios[1..];
    } else {
      assert bios[i := x][1..] == bios[1..][i - 1 := x];
      PendingUpdate(bios[1..], i - 1, x);
    }
  }

  lemma {:induction false} PendingZero(bios: seq<Bio>)
    ensures Pending(bios) == 0 <==> AllEnded(bios)
  {
    if bios != [] {
      PendingZero(bios[1..]);
      if AllEnded(bios[1..]) && bios[0].Ended? {
        forall i | 0 <= i < |bios|
          ensures bios[i].Ended?
        {
          assert i > 0 ==> bios[i] == bios[1..][i - 1];
        }
      }
      if AllEnded(bios) {
        assert forall i :: 0 <= i < |bios[1..]| ==> bios[1..][i] == bios[i + 1];
      }
    }
  }

  lemma FailedAfter(bios: seq<Bio>, i: nat, x: Bio)
    requires i < |bios| && !x.Running? && (bios[i].Running? || bios[i].answer == x.answer)
    ensures AnyFailed(bios[i := x]) <==> AnyFailed(bios) || Failed(x)
  {
    if AnyFailed(bios) {
      var k :| 0 <= k < |bios| && Failed(bios[k]);
      assert Failed(bios[i := x][k]);
    }
    if Failed(x) {
      assert Failed(bios[i := x][i]);
    }
  }

  lemma NextKeeps(b: Batch, e: Event)
    requires Ok(b) && Can(b, e)
    ensures Ok(Next(b, e))
  {
    match e
    case Submit =>
      PendingAppend(b.bios, Running);
      assert AnyFailed(b.bios) ==> AnyFailed(b.bios + [Running]) by {
        if AnyFailed(b.bios) {
          var k :| 0 <= k < |b.bios| && Failed(b.bios[k]);
          assert (b.bios + [Running])[k] == b.bios[k];
        }
      }
    case Mark(i, a) =>
      PendingUpdate(b.bios, i, Marked(a));
      PendingZero(b.bios);
      FailedAfter(b.bios, i, Marked(a));
    case CountOut(i) =>
      PendingUpdate(b.bios, i, Ended(b.bios[i].answer));
      PendingZero(b.bios);
      FailedAfter(b.bios, i, Ended(b.bios[i].answer));
    case Finish =>
    case Wake =>
  }

  ghost function Run(b: Batch, es: seq<Event>): (r: Batch)
    requires Ok(b)
    ensures Ok(r)
    decreases |es|
  {
    if es == [] || !Can(b, es[0]) then b
    else
      NextKeeps(b, es[0]);
      Run(Next(b, es[0]), es[1..])
  }

  /**
   However submissions and completions interleave, the issuer returns only once every bio has ended, with an error just
   when one of them failed; a waiting issuer is woken just when all have ended; complete() is never called twice.
   */
  lemma WaitIsExact(es: seq<Event>)
    ensures var b := Run(Batch(1, true, [], Submitting, 0), es);
            && b.signals <= 1
            && (b.issuer.Returned? ==> AllEnded(b.bios) && (b.issuer.ok <==> !AnyFailed(b.bios)))
            && (b.issuer.Waiting? ==> (b.signals == 1 <==> AllEnded(b.bios)))
  {
    hide Run;
    PendingZero(Run(Batch(1, true, [], Submitting, 0), es).bios);
  }
}
