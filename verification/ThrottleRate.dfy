/**
 The token bucket of kernel/block/blk-throttle.c: one direction of one throttled group.

 A slice [start, end] carries the bytes and I/Os charged to it. A bio may go when what was charged plus
 the bio stays within rate * (elapsed time rounded up to a slice); each dispatch trims the used part of
 the slice; an expired slice is replaced by a fresh one. Time is in jiffies; integers do not wrap.
 */
module ThrottleRate {
  import opened Arith
  import opened Basics

  const BPS_NONE: nat := 0xFFFF_FFFF_FFFF_FFFF
  const IOPS_NONE: nat := 0xFFFF_FFFF
  const UINT_MAX: nat := 0xFFFF_FFFF

  datatype Limits = Limits(bps: nat, iops: nat, hz: nat, slice: nat)
  {
    predicate Valid() { hz > 0 && slice > 0 && bps > 0 && iops > 0 }

    predicate Unlimited() { bps == BPS_NONE && iops == IOPS_NONE }
  }

  datatype Slice = Slice(bytes: nat, ios: nat, start: nat, end: nat)

  // ----- slices

  predicate SliceUsed(s: Slice, now: nat) { !(s.start <= now <= s.end) }

  function NewSlice(lim: Limits, now: nat): Slice { Slice(0, 0, now, now + lim.slice) }

  function SetEnd(s: Slice, lim: Limits, end: nat): Slice
    requires lim.Valid()
  {
    RoundUpBounds(end, lim.slice);
    s.(end := RoundUp(end, lim.slice))
  }

  /** throtl_trim_slice(). */
  function Trim(s: Slice, lim: Limits, now: nat): Slice
    requires lim.Valid()
  {
    if SliceUsed(s, now) then s
    else
      var s1 := SetEnd(s, lim, now + lim.slice);
      var nr := (now - s.start) / lim.slice;
      if nr == 0 then s1
      else
        var bytesTrim := lim.bps * lim.slice * nr / lim.hz;
        var ioTrim := lim.iops * lim.slice * nr / lim.hz;
        if bytesTrim == 0 && ioTrim == 0 then s1
        else
          s1.(bytes := if s.bytes >= bytesTrim then s.bytes - bytesTrim else 0,
              ios := if s.ios >= ioTrim then s.ios - ioTrim else 0,
              start := s.start + nr * lim.slice)
  }

  // ----- the two tests

  function Rounded(s: Slice, lim: Limits, now: nat): int
    requires lim.Valid() && s.start <= now
  {
    RoundUp(if now == s.start then lim.slice else now - s.start, lim.slice)
  }

  function BytesAllowed(s: Slice, lim: Limits, now: nat): int
    requires lim.Valid() && s.start <= now
  {
    lim.bps * Rounded(s, lim, now) / lim.hz
  }

  function IosAllowed(s: Slice, lim: Limits, now: nat): int
    requires lim.Valid() && s.start <= now
  {
    Min(lim.iops * Rounded(s, lim, now) / lim.hz, UINT_MAX)
  }

  predicate BytesFit(s: Slice, lim: Limits, size: nat, now: nat)
    requires lim.Valid() && s.start <= now
  {
    s.bytes + size <= BytesAllowed(s, lim, now)
  }

  predicate IosFit(s: Slice, lim: Limits, now: nat)
    requires lim.Valid() && s.start <= now
  {
    s.ios + 1 <= IosAllowed(s, lim, now)
  }

  /** Whole jiffies the excess bytes take at the configured rate, at least one. */
  function ExcessJiffies(s: Slice, lim: Limits, size: nat, now: nat): int
    requires lim.Valid() && s.start <= now && !BytesFit(s, lim, size, now)
  {
    Max(1, (s.bytes + size - BytesAllowed(s, lim, now)) * lim.hz / lim.bps)
  }

  /** *wait of tg_with_in_bps_limit() when it refuses. */
  function BytesWait(s: Slice, lim: Limits, size: nat, now: nat): int
    requires lim.Valid() && s.start <= now && !BytesFit(s, lim, size, now)
  {
    ExcessJiffies(s, lim, size, now) + (Rounded(s, lim, now) - (now - s.start))
  }

  /** *wait of tg_with_in_iops_limit() when it refuses. */
  function IosWait(s: Slice, lim: Limits, now: nat): int
    requires lim.Valid() && s.start <= now && !IosFit(s, lim, now)
  {
    var w := (s.ios + 1) * lim.hz / lim.iops + 1;
    if w > now - s.start then w - (now - s.start) else 1
  }

  // ----- waiting is enough

  /** A bio refused by the I/O test passes it at any time at least *wait jiffies later. */
  lemma IosWaitSuffices(s: Slice, lim: Limits, now: nat, later: nat)
    requires lim.Valid() && s.start <= now && !IosFit(s, lim, now)
    requires s.ios + 1 <= UINT_MAX
    requires later >= now + IosWait(s, lim, now)
    ensures s.start <= later && IosFit(s, lim, later)
  {
    var need := (s.ios + 1) * lim.hz;
    var w := need / lim.iops + 1;
    var e := later - s.start;
    assert e >= w;
    DivFloor(need, lim.iops);
    assert w * lim.iops == need / lim.iops * lim.iops + lim.iops;
    MulMono(w, e, lim.iops);
    assert lim.iops * e >= need;
    RoundUpBounds(e, lim.slice);
    var rnd := Rounded(s, lim, later);
    assert rnd >= e;
    MulMono(e, rnd, lim.iops);
    DivAtLeast(lim.iops * rnd, lim.hz, s.ios + 1);
  }

  /** What the byte test allows after rounded elapsed time d more than the refusing test saw. */
  lemma BytesAfter(bps: nat, hz: nat, rnd: nat, d: nat, want: nat)
    requires hz > 0 && bps > 0
    requires want > bps * rnd / hz
    requires d > (want - bps * rnd / hz) * hz / bps
    ensures want <= bps * (rnd + d) / hz
  {
    var allowed := bps * rnd / hz;
    var extra := want - allowed;
    DivFloor(extra * hz, bps);
    var q := extra * hz / bps;
    MulMono(q + 1, d, bps);
    assert (q + 1) * bps == q * bps + bps;
    assert d * bps >= extra * hz;
    assert bps * (rnd + d) == bps * rnd + d * bps;
    DivFloor(bps * rnd, hz);
    assert want * hz == allowed * hz + extra * hz;
    DivAtLeast(bps * (rnd + d), hz, want);
  }

  /** A bio refused by the byte test passes it at any time at least *wait + 1 jiffies later. */
  lemma BytesWaitSuffices(s: Slice, lim: Limits, size: nat, now: nat, later: nat)
    requires lim.Valid() && s.start <= now && !BytesFit(s, lim, size, now)
    requires later >= now + BytesWait(s, lim, size, now) + 1
    ensures s.start <= later && BytesFit(s, lim, size, later)
  {
    hide Rounded, BytesWait, RoundUp;
    LaterRounds(s, lim, size, now, later);
    var rnd := Rounded(s, lim, now);
    var d := ExcessJiffies(s, lim, size, now) + 1;
    BytesAfter(lim.bps, lim.hz, rnd, d, s.bytes + size);
    MoreTimeMoreBytes(lim.bps, lim.hz, rnd + d, Rounded(s, lim, later));
  }

  lemma LaterRounds(s: Slice, lim: Limits, size: nat, now: nat, later: nat)
    requires lim.Valid() && s.start <= now && !BytesFit(s, lim, size, now)
    requires later >= now + BytesWait(s, lim, size, now) + 1
    ensures s.start <= later && Rounded(s, lim, now) >= 0
    ensures Rounded(s, lim, later) >= Rounded(s, lim, now) + ExcessJiffies(s, lim, size, now) + 1
  {
    hide BytesFit, BytesAllowed, RoundUp;
    assert ExcessJiffies(s, lim, size, now) >= 1;
    hide ExcessJiffies;
    RoundUpBounds(if now == s.start then lim.slice else now - s.start, lim.slice);
    RoundUpBounds(later - s.start, lim.slice);
  }

  lemma MoreTimeMoreBytes(rate: nat, hz: nat, a: int, b: int)
    requires hz > 0 && a <= b
    ensures rate * a / hz <= rate * b / hz
  {
    MulMono(a, b, rate);
    DivMono(rate * a, rate * b, hz);
  }

  lemma RoundUpShift(a: nat, b: nat, y: nat)
    requires y > 0 && a % y == 0
    ensures RoundUp(a + b, y) == a + RoundUp(b, y)
  {
    var q := a / y;
    assert a == q * y;
    var z := b + (y - 1);
    DivFloor(z, y);
    assert (q + z / y) * y == q * y + z / y * y;
    QuotientUnique(a + z, y, q + z / y, z % y);
    assert a + b + (y - 1) == a + z;
  }

  /** The bytes by which a bio exceeds what the byte test allows. */
  function Excess(s: Slice, lim: Limits, size: nat, now: nat): nat
    requires lim.Valid() && s.start <= now && !BytesFit(s, lim, size, now)
  {
    s.bytes + size - BytesAllowed(s, lim, now)
  }

  /**
   Exactly *wait jiffies later the byte test fails if and only if the excess takes whole slices and the division that
   turned it into jiffies dropped more than the division that computed the allowance.
   */
  lemma BytesWaitExact(s: Slice, lim: Limits, size: nat, now: nat)
    requires lim.Valid() && s.start <= now && !BytesFit(s, lim, size, now)
    ensures s.start <= now + BytesWait(s, lim, size, now)
    ensures var due := Excess(s, lim, size, now) * lim.hz;
            !BytesFit(s, lim, size, now + BytesWait(s, lim, size, now)) <==>
            && due / lim.bps >= 1 && due / lim.bps % lim.slice == 0
            && due % lim.bps > lim.bps * Rounded(s, lim, now) % lim.hz
  {
    hide RoundUp, Rounded;
    var rnd := Rounded(s, lim, now);
    var q := Excess(s, lim, size, now) * lim.hz / lim.bps;
    RoundedAfter(s, lim, size, now);
    if q >= 1 && q % lim.slice == 0 {
      RemaindersDecide(lim.bps, lim.hz, rnd, s.bytes + size, q);
    } else {
      BytesAfter(lim.bps, lim.hz, rnd, RoundUp(Max(1, q), lim.slice), s.bytes + size);
    }
  }

  /** The rounded elapsed time that the test sees *wait jiffies later. */
  lemma RoundedAfter(s: Slice, lim: Limits, size: nat, now: nat)
    requires lim.Valid() && s.start <= now && !BytesFit(s, lim, size, now)
    ensures s.start <= now + BytesWait(s, lim, size, now) && Rounded(s, lim, now) >= 0
    ensures var jw := ExcessJiffies(s, lim, size, now);
            && Rounded(s, lim, now + BytesWait(s, lim, size, now)) == Rounded(s, lim, now) + RoundUp(jw, lim.slice)
            && RoundUp(jw, lim.slice) >= jw >= 1 && (jw % lim.slice == 0 <==> RoundUp(jw, lim.slice) == jw)
  {
    hide BytesFit, BytesAllowed, RoundUp;
    assert ExcessJiffies(s, lim, size, now) >= 1;
    hide ExcessJiffies;
    var jw, rnd := ExcessJiffies(s, lim, size, now), Rounded(s, lim, now);
    RoundUpBounds(if now == s.start then lim.slice else now - s.start, lim.slice);
    RoundUpShift(rnd, jw, lim.slice);
    RoundUpBounds(jw, lim.slice);
    RoundUpWhole(jw, lim.slice);
  }

  lemma RoundUpWhole(x: nat, y: nat)
    requires y > 0
    ensures x % y == 0 <==> RoundUp(x, y) == x
  {
    RoundUpBounds(x, y);
    if x % y == 0 {
      RoundUpShift(x, 0, y);
      QuotientUnique(y - 1, y, 0, y - 1);
    }
  }

  /** After q more whole jiffies the allowance reaches what is wanted just when the two dropped remainders allow it. */
  lemma RemaindersDecide(bps: nat, hz: nat, rnd: nat, want: nat, q: nat)
    requires hz > 0 && bps > 0 && want > bps * rnd / hz && q == (want - bps * rnd / hz) * hz / bps
    ensures want <= bps * (rnd + q) / hz <==> (want - bps * rnd / hz) * hz % bps <= bps * rnd % hz
  {
    var allowed := bps * rnd / hz;
    var extra := want - allowed;
    assert bps * rnd == allowed * hz + bps * rnd % hz;
    assert extra * hz == q * bps + extra * hz % bps;
    assert want * hz == allowed * hz + extra * hz;
    assert bps * (rnd + q) == bps * rnd + q * bps;
    Reaches(bps * (rnd + q), hz, want);
  }

  lemma Reaches(a: nat, d: nat, w: nat)
    requires d > 0
    ensures w <= a / d <==> w * d <= a
  {
    DivFloor(a, d);
    if w * d <= a {
      DivAtLeast(a, d, w);
    } else if w <= a / d {
      MulMono(w, a / d, d);
    }
  }

  /** A refusal whose *wait is one jiffy short: HZ = 10, 30 bytes/s, a fresh slice, a bio of 7 bytes. */
  lemma BytesWaitCanFallShort()
    ensures var lim, s := Limits(30, 1, 10, 1), Slice(0, 0, 0, 1);
            !BytesFit(s, lim, 7, 0) && BytesWait(s, lim, 7, 0) == 2
    ensures var lim, s := Limits(30, 1, 10, 1), Slice(0, 0, 0, 1);
            !BytesFit(s, lim, 7, 2) && BytesFit(s, lim, 7, 3)
  {
  }

  // ----- tg_may_dispatch()

  datatype Verdict = Verdict(slice: Slice, ok: bool, wait: int)

  /** Start a new slice if the old one expired, else make it reach at least one slice past now. */
  function Refresh(s: Slice, lim: Limits, now: nat): Slice
    requires lim.Valid()
  {
    if SliceUsed(s, now) then NewSlice(lim, now)
    else if s.end < now + lim.slice then SetEnd(s, lim, now + lim.slice)
    else s
  }

  function MayDispatch(s: Slice, lim: Limits, size: nat, now: nat): Verdict
    requires lim.Valid()
  {
    if lim.Unlimited() then Verdict(s, true, 0)
    else
      var s1 := Refresh(s, lim, now);
      if !BytesFit(s1, lim, size, now) then Refuse(s1, lim, now, BytesWait(s1, lim, size, now))
      else if !IosFit(s1, lim, now) then Refuse(s1, lim, now, IosWait(s1, lim, now))
      else Verdict(s1, true, 0)
  }

  function Refuse(s: Slice, lim: Limits, now: nat, wait: int): Verdict
    requires lim.Valid()
  {
    Verdict(if s.end < now + wait then SetEnd(s, lim, now + wait) else s, false, wait)
  }

  function Charge(s: Slice, size: nat): Slice { s.(bytes := s.bytes + size, ios := s.ios + 1) }

  // ----- every run: the rate bound

  /** What happens to one direction of a group: its bios are examined (tg_update_disptime()), examined and
      charged if allowed, its slice is trimmed, and a child that dispatched into it may restart its expired slice
      from the child's own slice start. Each at its own time. */
  datatype Op = Probe(size: nat) | Dispatch(size: nat) | TrimSlice | Credit(childStart: nat)

  /** bytes and ios count all that was ever charged, charged is when that last happened, and credit adds up
      how far back restarts on behalf of children reached. */
  datatype Meter = Meter(slice: Slice, bytes: nat, ios: nat, charged: nat, credit: nat, clock: nat)

  function Begin(lim: Limits, now: nat): Meter { Meter(NewSlice(lim, now), 0, 0, now, 0, now) }

  /** throtl_start_new_slice_with_credit(). */
  function NewSliceWithCredit(s: Slice, lim: Limits, childStart: nat, now: nat): Slice
  {
    Slice(0, 0, if childStart >= s.start then childStart else s.start, now + lim.slice)
  }

  function Act(m: Meter, lim: Limits, op: Op, now: nat): Meter
    requires lim.Valid()
  {
    match op
    case Probe(size) => m.(slice := MayDispatch(m.slice, lim, size, now).slice, clock := now)
    case Dispatch(size) =>
      var v := MayDispatch(m.slice, lim, size, now);
      if v.ok then Meter(Charge(v.slice, size), m.bytes + size, m.ios + 1, now, m.credit, now)
      else m.(slice := v.slice, clock := now)
    case TrimSlice => m.(slice := Trim(m.slice, lim, now), clock := now)
    case Credit(childStart) =>
      if SliceUsed(m.slice, now) then
        var s := NewSliceWithCredit(m.slice, lim, childStart, now);
        m.(slice := s, credit := m.credit + if s.start <= now then now - s.start else 0, clock := now)
      else m.(clock := now)
  }

  function Run(m: Meter, lim: Limits, ops: seq<(Op, nat)>): Meter
    requires lim.Valid()
    decreases |ops|
  {
    if ops == [] then m else Run(Act(m, lim, ops[0].0, ops[0].1), lim, ops[1..])
  }

  /** Times do not run backwards, and a child's slice has started before it gives credit. */
  predicate Ordered(from: nat, ops: seq<(Op, nat)>)
    decreases |ops|
  {
    ops == [] || (from <= ops[0].1 && (ops[0].0.Credit? ==> ops[0].0.childStart <= ops[0].1) && Ordered(ops[0].1, ops[1..]))
  }

  /** One counter against one rate: `total` was charged in all, `cur` of it stands in the current slice.
      Credit counts as if the first slice had started earlier, so s0 may be negative. */
  predicate Bounded(rate: nat, hz: nat, total: nat, cur: nat, s0: int, start: nat, charged: nat, slice: nat)
  {
    && total * hz <= cur * hz + rate * (start - s0)
    && total * hz <= rate * (charged - s0 + slice)
  }

  ghost predicate RateInv(m: Meter, lim: Limits, s0: nat)
  {
    && s0 <= m.slice.start <= m.clock && s0 <= m.charged <= m.clock
    && m.slice.start <= m.slice.end && m.charged + lim.slice <= m.slice.end
    && Bounded(lim.bps, lim.hz, m.bytes, m.slice.bytes, s0 - m.credit, m.slice.start, m.charged, lim.slice)
    && Bounded(lim.iops, lim.hz, m.ios, m.slice.ios, s0 - m.credit, m.slice.start, m.charged, lim.slice)
  }

  /** Replacing an expired slice forgets its charges, which the elapsed time has paid for. */
  lemma RestartBounded(rate: nat, hz: nat, total: nat, cur: nat, s0: int, start: nat, charged: nat, slice: nat, now: nat)
    requires Bounded(rate, hz, total, cur, s0, start, charged, slice)
    requires charged + slice <= now && s0 <= charged
    ensures Bounded(rate, hz, total, 0, s0, now, charged, slice)
  {
    MulMono(charged - s0 + slice, now - s0, rate);
  }

  /** A charge that passed the test. */
  lemma ChargeBounded(rate: nat, hz: nat, total: nat, cur: nat, s0: int, start: nat, charged: nat, slice: nat, n: nat, rnd: int, now: nat)
    requires hz > 0 && slice > 0 && s0 <= start <= now
    requires Bounded(rate, hz, total, cur, s0, start, charged, slice)
    requires rnd == RoundUp(if now == start then slice else now - start, slice)
    requires cur + n <= rate * rnd / hz
    ensures Bounded(rate, hz, total + n, cur + n, s0, start, now, slice)
  {
    hide RoundUp;
    assert rnd <= now - start + slice by {
      RoundUpBounds(if now == start then slice else now - start, slice);
      RoundUpSelf(slice);
    }
    WithinBudget(rate, hz, cur + n, rnd, now - start + slice);
    assert (total + n) * hz == total * hz + n * hz;
    assert (cur + n) * hz == cur * hz + n * hz;
    assert rate * (now - s0 + slice) == rate * (now - start + slice) + rate * (start - s0);
  }

  lemma RoundUpSelf(y: nat)
    requires y > 0
    ensures RoundUp(y, y) == y
  {
    QuotientUnique(y + (y - 1), y, 1, y - 1);
  }

  lemma WithinBudget(rate: nat, hz: nat, used: nat, a: int, b: int)
    requires hz > 0 && used <= rate * a / hz && a <= b
    ensures used * hz <= rate * b
  {
    DivFloor(rate * a, hz);
    MulMono(used, rate * a / hz, hz);
    MulMono(a, b, rate);
  }

  /** Trimming gives back no more than the time that moves out of the slice is worth. */
  lemma TrimBounded(rate: nat, hz: nat, total: nat, cur: nat, s0: int, start: nat, charged: nat, slice: nat, nr: nat)
    requires hz > 0 && s0 <= start && Bounded(rate, hz, total, cur, s0, start, charged, slice)
    ensures var trim := rate * slice * nr / hz;
            Bounded(rate, hz, total, if cur >= trim then cur - trim else 0, s0, start + nr * slice, charged, slice)
  {
    var paid := rate * slice * nr;
    var trim := paid / hz;
    DivFloor(paid, hz);
    assert paid == rate * (nr * slice);
    assert rate * (start + nr * slice - s0) == rate * (start - s0) + rate * (nr * slice);
    if cur >= trim {
      assert (cur - trim) * hz == cur * hz - trim * hz;
    } else {
      MulMono(cur, trim, hz);
    }
  }

  lemma RefreshKeeps(m: Meter, lim: Limits, s0: nat, now: nat)
    requires lim.Valid() && RateInv(m, lim, s0) && m.clock <= now
    ensures RateInv(m.(slice := Refresh(m.slice, lim, now), clock := now), lim, s0)
    ensures !SliceUsed(Refresh(m.slice, lim, now), now) && Refresh(m.slice, lim, now).end >= now + lim.slice
  {
    hide Bounded;
    var s := m.slice;
    RoundUpBounds(now + lim.slice, lim.slice);
    if SliceUsed(s, now) {
      RestartBounded(lim.bps, lim.hz, m.bytes, s.bytes, s0 - m.credit, s.start, m.charged, lim.slice, now);
      RestartBounded(lim.iops, lim.hz, m.ios, s.ios, s0 - m.credit, s.start, m.charged, lim.slice, now);
    }
  }

  /** Looking at a bio never costs anything: whatever the verdict, only the slice's reach changes. */
  lemma MayDispatchKeeps(m: Meter, lim: Limits, s0: nat, size: nat, now: nat)
    requires lim.Valid() && !lim.Unlimited() && RateInv(m, lim, s0) && m.clock <= now
    ensures RateInv(m.(slice := MayDispatch(m.slice, lim, size, now).slice, clock := now), lim, s0)
    ensures var v := MayDispatch(m.slice, lim, size, now);
            v.ok ==> v.slice == Refresh(m.slice, lim, now) && v.slice.start <= now && BytesFit(v.slice, lim, size, now) && IosFit(v.slice, lim, now)
  {
    hide Bounded, Refresh, BytesFit, IosFit, BytesWait, IosWait;
    RefreshKeeps(m, lim, s0, now);
    var s := Refresh(m.slice, lim, now);
    var v := MayDispatch(m.slice, lim, size, now);
    if !v.ok && s.end < now + v.wait {
      RoundUpBounds(now + v.wait, lim.slice);
    }
  }

  lemma DispatchKeeps(m: Meter, lim: Limits, s0: nat, size: nat, now: nat)
    requires lim.Valid() && !lim.Unlimited() && RateInv(m, lim, s0) && m.clock <= now
    ensures RateInv(Act(m, lim, Dispatch(size), now), lim, s0)
  {
    hide Bounded, Refresh, MayDispatch, Rounded;
    MayDispatchKeeps(m, lim, s0, size, now);
    RefreshKeeps(m, lim, s0, now);
    var v := MayDispatch(m.slice, lim, size, now);
    if v.ok {
      var s := v.slice;
      var rnd := Rounded(s, lim, now);
      assert rnd == RoundUp(if now == s.start then lim.slice else now - s.start, lim.slice) by { RoundedIs(s, lim, now); }
      ChargeBounded(lim.bps, lim.hz, m.bytes, s.bytes, s0 - m.credit, s.start, m.charged, lim.slice, size, rnd, now);
      ChargeBounded(lim.iops, lim.hz, m.ios, s.ios, s0 - m.credit, s.start, m.charged, lim.slice, 1, rnd, now);
    }
  }

  lemma RoundedIs(s: Slice, lim: Limits, now: nat)
    requires lim.Valid() && s.start <= now
    ensures Rounded(s, lim, now) == RoundUp(if now == s.start then lim.slice else now - s.start, lim.slice)
  {
  }

  /** The time of nr whole slices, and what it pays for at a rate. */
  function Moved(slice: nat, nr: nat): nat { nr * slice }

  function Paid(rate: nat, hz: nat, slice: nat, nr: nat): nat
    requires hz > 0
  {
    rate * slice * nr / hz
  }

  /** A trim keeps the slice, or moves its start by whole slices and takes off what they pay for. */
  lemma TrimCases(s: Slice, lim: Limits, now: nat) returns (nr: nat)
    requires lim.Valid() && !SliceUsed(s, now) && s.start <= now
    ensures var t := Trim(s, lim, now);
            var bytes, ios := Paid(lim.bps, lim.hz, lim.slice, nr), Paid(lim.iops, lim.hz, lim.slice, nr);
            && t.end >= now + lim.slice && s.start + Moved(lim.slice, nr) <= now
            && (|| (t.start == s.start && t.bytes == s.bytes && t.ios == s.ios)
                || (&& t.start == s.start + Moved(lim.slice, nr)
                    && t.bytes == (if s.bytes >= bytes then s.bytes - bytes else 0)
                    && t.ios == (if s.ios >= ios then s.ios - ios else 0)))
  {
    RoundUpBounds(now + lim.slice, lim.slice);
    DivFloor(now - s.start, lim.slice);
    nr := (now - s.start) / lim.slice;
  }

  lemma TrimPays(rate: nat, hz: nat, total: nat, cur: nat, s0: int, start: nat, charged: nat, slice: nat, nr: nat)
    requires hz > 0 && s0 <= start && Bounded(rate, hz, total, cur, s0, start, charged, slice)
    ensures var trim := Paid(rate, hz, slice, nr);
            Bounded(rate, hz, total, if cur >= trim then cur - trim else 0, s0, start + Moved(slice, nr), charged, slice)
  {
    hide Bounded;
    TrimBounded(rate, hz, total, cur, s0, start, charged, slice, nr);
  }

  lemma ActTrims(m: Meter, lim: Limits, now: nat)
    requires lim.Valid()
    ensures Act(m, lim, TrimSlice, now) == m.(slice := Trim(m.slice, lim, now), clock := now)
  {
  }

  lemma TrimUsed(s: Slice, lim: Limits, now: nat)
    requires lim.Valid() && SliceUsed(s, now)
    ensures Trim(s, lim, now) == s
  {
  }

  lemma TrimKeeps(m: Meter, lim: Limits, s0: nat, now: nat)
    requires lim.Valid() && RateInv(m, lim, s0) && m.clock <= now
    ensures RateInv(Act(m, lim, TrimSlice, now), lim, s0)
  {
    hide Bounded, Trim, Paid, Moved, Act;
    ActTrims(m, lim, now);
    var s := m.slice;
    if SliceUsed(s, now) {
      TrimUsed(s, lim, now);
    } else {
      var nr := TrimCases(s, lim, now);
      TrimPays(lim.bps, lim.hz, m.bytes, s.bytes, s0 - m.credit, s.start, m.charged, lim.slice, nr);
      TrimPays(lim.iops, lim.hz, m.ios, s.ios, s0 - m.credit, s.start, m.charged, lim.slice, nr);
    }
  }

  lemma {:induction false} RunKeeps(m: Meter, lim: Limits, s0: nat, ops: seq<(Op, nat)>)
    requires lim.Valid() && !lim.Unlimited() && RateInv(m, lim, s0) && Ordered(m.clock, ops)
    ensures RateInv(Run(m, lim, ops), lim, s0)
    decreases |ops|
  {
    hide RateInv, Act;
    if ops != [] {
      var op, now := ops[0].0, ops[0].1;
      ActKeeps(m, lim, s0, op, now);
      RunKeeps(Act(m, lim, op, now), lim, s0, ops[1..]);
    }
  }

  lemma ActKeeps(m: Meter, lim: Limits, s0: nat, op: Op, now: nat)
    requires lim.Valid() && !lim.Unlimited() && RateInv(m, lim, s0) && m.clock <= now
    requires op.Credit? ==> op.childStart <= now
    ensures RateInv(Act(m, lim, op, now), lim, s0) && Act(m, lim, op, now).clock == now
  {
    hide RateInv, Trim, Bounded;
    match op
    case Probe(size) => MayDispatchKeeps(m, lim, s0, size, now);
    case Dispatch(size) => DispatchKeeps(m, lim, s0, size, now);
    case TrimSlice => TrimKeeps(m, lim, s0, now);
    case Credit(childStart) => CreditKeeps(m, lim, s0, childStart, now);
  }

  /** Restarting at an earlier start is worth exactly the time it reaches back. */
  lemma CreditBounded(rate: nat, hz: nat, total: nat, cur: nat, s0: int, start: nat, charged: nat, slice: nat, from: nat, now: nat)
    requires Bounded(rate, hz, total, cur, s0, start, charged, slice)
    requires charged + slice <= now && from <= now
    ensures Bounded(rate, hz, total, 0, s0 - (now - from), from, charged, slice)
  {
    MulMono(charged - s0 + slice, now - s0, rate);
    assert from - (s0 - (now - from)) == now - s0;
    MulMono(charged - s0 + slice, charged - (s0 - (now - from)) + slice, rate);
  }

  lemma CreditKeeps(m: Meter, lim: Limits, s0: nat, childStart: nat, now: nat)
    requires lim.Valid() && RateInv(m, lim, s0) && m.clock <= now && childStart <= now
    ensures RateInv(Act(m, lim, Credit(childStart), now), lim, s0)
  {
    hide Bounded;
    var s := m.slice;
    if SliceUsed(s, now) {
      var from := NewSliceWithCredit(s, lim, childStart, now).start;
      CreditBounded(lim.bps, lim.hz, m.bytes, s.bytes, s0 - m.credit, s.start, m.charged, lim.slice, from, now);
      CreditBounded(lim.iops, lim.hz, m.ios, s.ios, s0 - m.credit, s.start, m.charged, lim.slice, from, now);
    }
  }

  /** The rate bound. Whatever is examined, dispatched and trimmed, and whenever: by time t the group has been
      charged at most its rate times the time since its first slice, plus one slice, plus the credit received. */
  lemma RateBoundWithCredit(lim: Limits, s0: nat, ops: seq<(Op, nat)>, t: nat)
    requires lim.Valid() && !lim.Unlimited() && Ordered(s0, ops)
    requires Run(Begin(lim, s0), lim, ops).clock <= t
    ensures s0 <= t
    ensures var m := Run(Begin(lim, s0), lim, ops);
            && m.bytes <= lim.bps * (t - s0 + lim.slice + m.credit) / lim.hz
            && m.ios <= lim.iops * (t - s0 + lim.slice + m.credit) / lim.hz
  {
    hide Run;
    RunKeeps(Begin(lim, s0), lim, s0, ops);
    var m := Run(Begin(lim, s0), lim, ops);
    var span := t - s0 + lim.slice + m.credit;
    MulMono(m.charged - (s0 - m.credit) + lim.slice, span, lim.bps);
    MulMono(m.charged - (s0 - m.credit) + lim.slice, span, lim.iops);
    DivAtLeast(lim.bps * span, lim.hz, m.bytes);
    DivAtLeast(lim.iops * span, lim.hz, m.ios);
  }

  predicate NoCredit(ops: seq<(Op, nat)>) { forall i :: 0 <= i < |ops| ==> !ops[i].0.Credit? }

  lemma {:induction false} NoCreditRuns(m: Meter, lim: Limits, ops: seq<(Op, nat)>)
    requires lim.Valid() && NoCredit(ops)
    ensures Run(m, lim, ops).credit == m.credit
    decreases |ops|
  {
    hide MayDispatch, Trim;
    if ops != [] {
      NoCreditRuns(Act(m, lim, ops[0].0, ops[0].1), lim, ops[1..]);
    }
  }

  /** A group no child dispatches into keeps to its rate with one slice of slack. */
  lemma RateBound(lim: Limits, s0: nat, ops: seq<(Op, nat)>, t: nat)
    requires lim.Valid() && !lim.Unlimited() && Ordered(s0, ops) && NoCredit(ops)
    requires Run(Begin(lim, s0), lim, ops).clock <= t
    ensures s0 <= t
    ensures Run(Begin(lim, s0), lim, ops).bytes <= lim.bps * (t - s0 + lim.slice) / lim.hz
    ensures Run(Begin(lim, s0), lim, ops).ios <= lim.iops * (t - s0 + lim.slice) / lim.hz
  {
    hide Run;
    RateBoundWithCredit(lim, s0, ops, t);
    NoCreditRuns(Begin(lim, s0), lim, ops);
  }

  // ----- credit

  /** By the clock of the run, bytes and I/Os keep to the plain bound. */
  predicate WithinPlain(lim: Limits, s0: nat, m: Meter)
    requires lim.Valid() && s0 <= m.clock
  {
    && m.bytes <= lim.bps * (m.clock - s0 + lim.slice) / lim.hz
    && m.ios <= lim.iops * (m.clock - s0 + lim.slice) / lim.hz
  }

  /** The plain bound holds for every run, with or without credit from children. */
  ghost predicate PlainBound(lim: Limits, s0: nat, credits: bool)
    requires lim.Valid()
  {
    forall ops :: Ordered(s0, ops) && (credits || NoCredit(ops)) ==>
      var m := Run(Begin(lim, s0), lim, ops); s0 <= m.clock && WithinPlain(lim, s0, m)
  }

  /** For every limit and start, the plain bound is kept if and only if no child gives credit. */
  lemma PlainBoundExact(lim: Limits, s0: nat, credits: bool)
    requires lim.Valid() && !lim.Unlimited()
    ensures PlainBound(lim, s0, credits) <==> !credits
  {
    hide Run, Ordered;
    if credits {
      var ops := CreditBreaksPlainBound(lim, s0);
      assert !PlainBound(lim, s0, credits);
    } else {
      forall ops | Ordered(s0, ops) && NoCredit(ops)
        ensures var m := Run(Begin(lim, s0), lim, ops); s0 <= m.clock && WithinPlain(lim, s0, m)
      {
        RateBound(lim, s0, ops, Run(Begin(lim, s0), lim, ops).clock);
      }
    }
  }

  /** What a slice that began k slice lengths ago allows. */
  function Budget(lim: Limits, k: nat): nat
    requires lim.Valid()
  {
    lim.bps * (k * lim.slice) / lim.hz
  }

  /** With credit every limit is exceeded: the budget since the first start is used up twice. */
  lemma CreditBreaksPlainBound(lim: Limits, s0: nat) returns (ops: seq<(Op, nat)>)
    requires lim.Valid() && !lim.Unlimited()
    ensures Ordered(s0, ops)
    ensures var m := Run(Begin(lim, s0), lim, ops); m.clock >= s0 && m.bytes > lim.bps * (m.clock - s0 + lim.slice) / lim.hz
  {
    hide Run, Begin, Ordered, Act, Budget;
    var k := 4 * lim.hz;
    var t1, t2 := s0 + k * lim.slice, s0 + (k + 2) * lim.slice;
    SliceTimes(lim.slice, k, s0);
    ops := [(Credit(s0), t1), (Dispatch(Budget(lim, k)), t1), (Credit(s0), t2), (Dispatch(Budget(lim, k + 2)), t2)];
    OrderedFour(s0, ops);
    RunFour(Begin(lim, s0), lim, ops);
    var m0 := Begin(lim, s0);
    assert m0.slice == NewSlice(lim, s0) && m0.bytes == 0 by { BeginIs(lim, s0); }
    Refilled(m0, lim, s0, k);
    var m1 := Act(Act(m0, lim, Credit(s0), t1), lim, Dispatch(Budget(lim, k)), t1);
    Refilled(m1, lim, s0, k + 2);
    TwiceExceeds(lim);
    assert (k + 2) * lim.slice + lim.slice == (k + 3) * lim.slice;
  }

  lemma BeginIs(lim: Limits, s0: nat)
    ensures Begin(lim, s0) == Meter(NewSlice(lim, s0), 0, 0, s0, 0, s0)
  {
  }

  lemma SliceTimes(slice: nat, k: nat, s0: nat)
    requires slice > 0 && k >= 4
    ensures s0 + slice < s0 + k * slice && s0 + k * slice + slice < s0 + (k + 2) * slice
  {
    MulMono(4, k, slice);
    assert (k + 2) * slice == k * slice + 2 * slice;
  }

  /** An expired slice restarted from s0 on behalf of a child allows the whole budget since s0 again. */
  lemma Refilled(m: Meter, lim: Limits, s0: nat, k: nat)
    requires lim.Valid() && !lim.Unlimited() && k >= 4 * lim.hz
    requires m.slice.start == s0 && m.slice.end < s0 + k * lim.slice
    ensures var now := s0 + k * lim.slice;
            var m' := Act(Act(m, lim, Credit(s0), now), lim, Dispatch(Budget(lim, k)), now);
            && m'.slice.start == s0 && m'.slice.end == now + lim.slice && m'.bytes == m.bytes + Budget(lim, k) && m'.clock == now
  {
    hide Budget;
    var now := s0 + k * lim.slice;
    var m1 := Act(m, lim, Credit(s0), now);
    assert m1.slice == Slice(0, 0, s0, now + lim.slice) && m1.bytes == m.bytes;
    hide SetEnd, BytesWait, IosWait;
    FreshAllows(lim, s0, k);
  }

  lemma FreshAllows(lim: Limits, s0: nat, k: nat)
    requires lim.Valid() && k >= 4 * lim.hz
    ensures var now, s := s0 + k * lim.slice, Slice(0, 0, s0, s0 + k * lim.slice + lim.slice);
            s0 <= now && BytesFit(s, lim, Budget(lim, k), now) && IosFit(s, lim, now)
  {
    var now, s := s0 + k * lim.slice, Slice(0, 0, s0, s0 + k * lim.slice + lim.slice);
    MulMono(1, k, lim.slice);
    RoundUpMultiple(k, lim.slice);
    assert Rounded(s, lim, now) == k * lim.slice;
    MulMono(1, lim.slice, k);
    MulMono(1, lim.iops, k * lim.slice);
    DivAtLeast(lim.iops * (k * lim.slice), lim.hz, 1);
  }

  lemma RoundUpMultiple(k: nat, y: nat)
    requires y > 0
    ensures RoundUp(k * y, y) == k * y
  {
    QuotientUnique(k * y + (y - 1), y, k, y - 1);
  }

  /** Both budgets together are more than the plain bound. */
  lemma TwiceExceeds(lim: Limits)
    requires lim.Valid()
    ensures var k := 4 * lim.hz; Budget(lim, k) + Budget(lim, k + 2) > lim.bps * ((k + 3) * lim.slice) / lim.hz
  {
    var k, x := 4 * lim.hz, lim.bps * lim.slice;
    MulMono(1, lim.slice, lim.bps);
    assert lim.bps * (k * lim.slice) == 4 * x * lim.hz;
    MultipleMod(4 * x, lim.hz);
    var small, large := lim.bps * ((k + 2) * lim.slice), lim.bps * ((k + 3) * lim.slice);
    assert large == small + x;
    DivMono(small + x, small + x * lim.hz, lim.hz) by { MulMono(1, lim.hz, x); }
    DivFloor(small, lim.hz);
    QuotientUnique(small + x * lim.hz, lim.hz, small / lim.hz + x, small % lim.hz);
  }

  lemma RunFour(m: Meter, lim: Limits, ops: seq<(Op, nat)>)
    requires lim.Valid() && |ops| == 4
    ensures Run(m, lim, ops) ==
            Act(Act(Act(Act(m, lim, ops[0].0, ops[0].1), lim, ops[1].0, ops[1].1), lim, ops[2].0, ops[2].1), lim, ops[3].0, ops[3].1)
  {
    hide Run, Act;
    var a, b, c := ops[1..], ops[2..], ops[3..];
    assert a[1..] == b && b[1..] == c && c[1..] == [];
    var m1 := Act(m, lim, ops[0].0, ops[0].1);
    var m2 := Act(m1, lim, ops[1].0, ops[1].1);
    var m3 := Act(m2, lim, ops[2].0, ops[2].1);
    RunStep(m, lim, ops);
    RunStep(m1, lim, a);
    RunStep(m2, lim, b);
    RunStep(m3, lim, c);
    RunNothing(Act(m3, lim, ops[3].0, ops[3].1), lim);
  }

  lemma RunStep(m: Meter, lim: Limits, ops: seq<(Op, nat)>)
    requires lim.Valid() && ops != []
    ensures Run(m, lim, ops) == Run(Act(m, lim, ops[0].0, ops[0].1), lim, ops[1..])
  {
  }

  lemma RunNothing(m: Meter, lim: Limits)
    requires lim.Valid()
    ensures Run(m, lim, []) == m
  {
  }

  lemma OrderedFour(s0: nat, ops: seq<(Op, nat)>)
    requires |ops| == 4 && s0 <= ops[0].1 <= ops[1].1 <= ops[2].1 <= ops[3].1
    requires forall i :: 0 <= i < 4 && ops[i].0.Credit? ==> ops[i].0.childStart <= ops[i].1
    ensures Ordered(s0, ops)
  {
    var a, b, c := ops[1..], ops[2..], ops[3..];
    assert a[1..] == b && b[1..] == c && c[1..] == [];
    assert Ordered(ops[2].1, c) && Ordered(ops[1].1, b) && Ordered(ops[0].1, a);
  }
}
