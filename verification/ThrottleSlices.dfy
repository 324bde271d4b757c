/**
 What trimming a slice does to the budget of a group, and what the wait of a refusal is worth.
 */
module ThrottleSlices {
  import opened Arith
  import opened Basics
  import opened ThrottleRate

  /** What a stretch of time pays for at a rate. */
  function Worth(rate: nat, hz: nat, time: int): int
    requires hz > 0
  {
    rate * time / hz
  }

  /** Whole slices of a stretch of time. */
  function Whole(time: nat, slice: nat): nat
    requires slice > 0
  {
    time / slice * slice
  }

  lemma WholeBounds(time: nat, slice: nat)
    requires slice > 0
    ensures Whole(time, slice) <= time < Whole(time, slice) + slice && Whole(time, slice) % slice == 0
  {
    DivFloor(time, slice);
    MultipleMod(time / slice, slice);
  }

  /**
   Trimming a live slice cuts off all whole slices that have passed, and takes off the charges what they pay for; it leaves
   start and charges alone only if they pay for nothing.
   */
  lemma TrimExact(s: Slice, lim: Limits, now: nat)
    requires lim.Valid() && s.start <= now <= s.end
    ensures var t := Trim(s, lim, now);
            var cut, whole := t.start - s.start, Whole(now - s.start, lim.slice);
            && t.end % lim.slice == 0 && now + lim.slice <= t.end < now + 2 * lim.slice
            && (cut == whole || (cut == 0 && Worth(lim.bps, lim.hz, whole) == 0 && Worth(lim.iops, lim.hz, whole) == 0))
            && t.bytes == Max(0, s.bytes - Worth(lim.bps, lim.hz, cut)) && t.ios == Max(0, s.ios - Worth(lim.iops, lim.hz, cut))
            && (cut == whole ==> 0 <= now - t.start < lim.slice)
  {
    hide Trim, Worth, Whole, RoundUp;
    RoundUpBounds(now + lim.slice, lim.slice);
    WholeBounds(now - s.start, lim.slice);
    TrimForm(s, lim, now, Whole(now - s.start, lim.slice));
    WorthNothing(lim.bps, lim.hz);
    WorthNothing(lim.iops, lim.hz);
  }

  lemma WorthNothing(rate: nat, hz: nat)
    requires hz > 0
    ensures Worth(rate, hz, 0) == 0
  {
  }

  lemma WorthOfSlices(rate: nat, hz: nat, slice: nat, nr: nat)
    requires hz > 0
    ensures rate * slice * nr / hz == Worth(rate, hz, nr * slice)
  {
    assert rate * slice * nr == rate * (nr * slice);
  }

  lemma TrimForm(s: Slice, lim: Limits, now: nat, whole: nat)
    requires lim.Valid() && s.start <= now <= s.end && whole == Whole(now - s.start, lim.slice)
    ensures RoundUp(now + lim.slice, lim.slice) >= 0
    ensures var p, q, end := Worth(lim.bps, lim.hz, whole), Worth(lim.iops, lim.hz, whole), RoundUp(now + lim.slice, lim.slice);
            var t := Trim(s, lim, now);
            && t.end == end
            && if p == 0 && q == 0 then t.start == s.start && t.bytes == s.bytes && t.ios == s.ios
               else t.start == s.start + whole && t.bytes == Max(0, s.bytes - p) && t.ios == Max(0, s.ios - q)
  {
    hide Worth, RoundUp;
    RoundUpBounds(now + lim.slice, lim.slice);
    WorthNothing(lim.bps, lim.hz);
    WorthNothing(lim.iops, lim.hz);
    var nr := (now - s.start) / lim.slice;
    WorthOfSlices(lim.bps, lim.hz, lim.slice, nr);
    WorthOfSlices(lim.iops, lim.hz, lim.slice, nr);
  }

  /** Within one slice length of its start, a slice allows what one slice is worth. */
  lemma OneSliceLeft(t: Slice, lim: Limits, size: nat, now: nat)
    requires lim.Valid() && t.start <= now < t.start + lim.slice
    ensures BytesFit(t, lim, size, now) <==> t.bytes + size <= Worth(lim.bps, lim.hz, lim.slice)
    ensures IosFit(t, lim, now) <==> t.ios + 1 <= Min(Worth(lim.iops, lim.hz, lim.slice), UINT_MAX)
  {
    var x := if now == t.start then lim.slice else now - t.start;
    QuotientUnique(x + (lim.slice - 1), lim.slice, 1, x - 1);
  }

  /** After a trim that cut, what goes at the same jiffy is worth at most one slice. */
  lemma TrimLeavesOneSlice(s: Slice, lim: Limits, size: nat, now: nat)
    requires lim.Valid() && s.start <= now <= s.end
    requires Worth(lim.bps, lim.hz, Whole(now - s.start, lim.slice)) > 0 || Worth(lim.iops, lim.hz, Whole(now - s.start, lim.slice)) > 0
    ensures var t := Trim(s, lim, now);
            && t.start <= now && (BytesFit(t, lim, size, now) ==> size <= Worth(lim.bps, lim.hz, lim.slice))
            && (IosFit(t, lim, now) ==> t.ios < Worth(lim.iops, lim.hz, lim.slice))
  {
    hide Trim, Worth, Whole, BytesFit, IosFit;
    TrimExact(s, lim, now);
    OneSliceLeft(Trim(s, lim, now), lim, size, now);
  }

  /** Rounding three products of one rate. */
  lemma WorthSplits(rate: nat, hz: nat, a: nat, b: nat)
    requires hz > 0
    ensures Worth(rate, hz, a) + Worth(rate, hz, b) <= Worth(rate, hz, a + b) <= Worth(rate, hz, a) + Worth(rate, hz, b) + 1
  {
    var x, y := rate * a, rate * b;
    assert rate * (a + b) == x + y;
    DivFloor(x, hz);
    DivFloor(y, hz);
    assert (x / hz + y / hz) * hz == x / hz * hz + y / hz * hz;
    DivAtLeast(x + y, hz, x / hz + y / hz);
    assert (x / hz + y / hz + 2) * hz == x / hz * hz + y / hz * hz + 2 * hz;
    if (x + y) / hz > x / hz + y / hz + 1 {
      DivFloor(x + y, hz);
      MulMono(x / hz + y / hz + 2, (x + y) / hz, hz);
    }
  }

  lemma RoundedCut(s: Slice, t: Slice, lim: Limits, later: nat)
    requires lim.Valid() && s.start <= t.start < later && (t.start - s.start) % lim.slice == 0
    ensures Rounded(s, lim, later) == Rounded(t, lim, later) + (t.start - s.start)
  {
    hide RoundUp;
    RoundUpShift(later - t.start, t.start - s.start, lim.slice);
  }

  lemma RoundUpShift(x: nat, cut: nat, y: nat)
    requires y > 0 && cut % y == 0
    ensures RoundUp(x + cut, y) == RoundUp(x, y) + cut
  {
    var n, z := cut / y, x + (y - 1);
    var k, r := z / y, z % y;
    assert cut == n * y && z == k * y + r;
    assert (k + n) * y == k * y + n * y;
    QuotientUnique(z + cut, y, k + n, r);
  }

  /** If the charges covered the time cut off, trimming changes what may go at any later time by at most one byte. */
  lemma TrimIsNeutral(s: Slice, lim: Limits, now: nat, later: nat)
    requires lim.Valid() && s.start <= now <= s.end && later > now
    requires s.bytes >= Worth(lim.bps, lim.hz, Whole(now - s.start, lim.slice))
    ensures Trim(s, lim, now).start <= now
    ensures var t := Trim(s, lim, now);
            var before, after := BytesAllowed(s, lim, later) - s.bytes, BytesAllowed(t, lim, later) - t.bytes;
            before - 1 <= after <= before
  {
    hide Trim, Rounded, RoundUp, Whole;
    WholeBounds(now - s.start, lim.slice);
    TrimExact(s, lim, now);
    var t := Trim(s, lim, now);
    var cut := t.start - s.start;
    assert Worth(lim.bps, lim.hz, 0) == 0;
    assert cut % lim.slice == 0;
    RoundedCut(s, t, lim, later);
    RoundedIs(t, lim, later);
    WorthSplits(lim.bps, lim.hz, cut, Rounded(t, lim, later));
  }

  lemma RoundedIs(t: Slice, lim: Limits, now: nat)
    requires lim.Valid() && t.start <= now
    ensures Rounded(t, lim, now) >= 0
  {
    RoundUpBounds(if now == t.start then lim.slice else now - t.start, lim.slice);
  }

  /** What may have gone since the start of a slice: at least the time passed is worth, at most one slice more. */
  lemma AllowedBounds(s: Slice, lim: Limits, now: nat)
    requires lim.Valid() && s.start <= now
    ensures Worth(lim.bps, lim.hz, now - s.start) <= BytesAllowed(s, lim, now) <= Worth(lim.bps, lim.hz, now - s.start + lim.slice)
    ensures Min(Worth(lim.iops, lim.hz, now - s.start), UINT_MAX) <= IosAllowed(s, lim, now) <= Worth(lim.iops, lim.hz, now - s.start + lim.slice)
  {
    var rnd := Rounded(s, lim, now);
    RoundUpBounds(if now == s.start then lim.slice else now - s.start, lim.slice);
    RoundUpMultiple(1, lim.slice);
    assert now - s.start <= rnd <= now - s.start + lim.slice;
    WorthMono(lim.bps, lim.hz, now - s.start, rnd);
    WorthMono(lim.bps, lim.hz, rnd, now - s.start + lim.slice);
    WorthMono(lim.iops, lim.hz, now - s.start, rnd);
    WorthMono(lim.iops, lim.hz, rnd, now - s.start + lim.slice);
  }

  lemma WorthMono(rate: nat, hz: nat, a: int, b: int)
    requires hz > 0 && a <= b
    ensures Worth(rate, hz, a) <= Worth(rate, hz, b)
  {
    MulMono(a, b, rate);
    DivMono(rate * a, rate * b, hz);
  }

  /** A slice is never charged for more than has gone through. */
  predicate Honest(m: Meter) { m.slice.bytes <= m.bytes && m.slice.ios <= m.ios }

  lemma ActHonest(m: Meter, lim: Limits, op: Op, now: nat)
    requires lim.Valid() && Honest(m)
    ensures Honest(Act(m, lim, op, now))
  {
    hide BytesFit, IosFit, BytesWait, IosWait, RoundUp;
    if op.TrimSlice? && !SliceUsed(m.slice, now) {
      hide Trim;
      TrimExact(m.slice, lim, now);
      TrimTakesOff(m.slice, lim, now);
    }
  }

  lemma TrimTakesOff(s: Slice, lim: Limits, now: nat)
    requires lim.Valid() && s.start <= now <= s.end
    ensures Trim(s, lim, now).bytes <= s.bytes && Trim(s, lim, now).ios <= s.ios
  {
    hide RoundUp;
    WholeBounds(now - s.start, lim.slice);
    WorthMono(lim.bps, lim.hz, 0, Whole(now - s.start, lim.slice));
    WorthMono(lim.iops, lim.hz, 0, Whole(now - s.start, lim.slice));
    hide Worth, Whole, Trim;
    WorthNothing(lim.bps, lim.hz);
    WorthNothing(lim.iops, lim.hz);
    TrimForm(s, lim, now, Whole(now - s.start, lim.slice));
  }

  /** So in every run a refusal is for bytes or I/Os that did go, or for the one at hand. */
  lemma {:induction false} RunHonest(m: Meter, lim: Limits, ops: seq<(Op, nat)>)
    requires lim.Valid() && Honest(m)
    ensures Honest(Run(m, lim, ops))
    decreases |ops|
  {
    if ops != [] {
      ActHonest(m, lim, ops[0].0, ops[0].1);
      hide Act;
      RunHonest(Act(m, lim, ops[0].0, ops[0].1), lim, ops[1..]);
    }
  }

  // ----- the wait of a refusal

  /**
   A refusal says how long to wait: one jiffy after that the byte test passes, and if only the I/O test refused, both tests
   pass then, as long as the slice the refusal left lasts, which is at least that long.
   */
  lemma VerdictWaits(s: Slice, lim: Limits, size: nat, now: nat, later: nat)
    requires lim.Valid() && !lim.Unlimited() && !MayDispatch(s, lim, size, now).ok
    requires Refresh(s, lim, now).ios + 1 <= UINT_MAX
    ensures var v, s1 := MayDispatch(s, lim, size, now), Refresh(s, lim, now);
            && v.slice == s1.(end := v.slice.end) && v.slice.start <= now < now + v.wait <= v.slice.end
            && (!BytesFit(s1, lim, size, now) && later >= now + v.wait + 1 ==> BytesFit(v.slice, lim, size, later))
            && (BytesFit(s1, lim, size, now) && now + v.wait <= later <= v.slice.end ==> MayDispatch(v.slice, lim, size, later).ok)
  {
    hide BytesFit, IosFit, BytesWait, IosWait, Rounded, BytesAllowed, IosAllowed;
    var v, s1 := MayDispatch(s, lim, size, now), Refresh(s, lim, now);
    RoundUpBounds(now + lim.slice, lim.slice);
    SameTests(s1, v.slice, lim, size, now);
    WaitsPositive(s1, lim, size, now);
    RoundUpBounds(now + v.wait, lim.slice);
    if !BytesFit(s1, lim, size, now) {
      if later >= now + v.wait + 1 {
        BytesWaitSuffices(s1, lim, size, now, later);
        SameTests(s1, v.slice, lim, size, later);
      }
    } else if now + v.wait <= later <= v.slice.end {
      IosWaitSuffices(s1, lim, now, later);
      FitsLater(s1, lim, size, now, later);
      var s2 := Refresh(v.slice, lim, later);
      RoundUpBounds(later + lim.slice, lim.slice);
      SameTests(s1, s2, lim, size, later);
    }
  }

  lemma SameTests(s: Slice, t: Slice, lim: Limits, size: nat, now: nat)
    requires lim.Valid() && s.start <= now && t == s.(end := t.end)
    ensures BytesFit(t, lim, size, now) == BytesFit(s, lim, size, now) && IosFit(t, lim, now) == IosFit(s, lim, now)
  {
  }

  lemma WaitsPositive(s: Slice, lim: Limits, size: nat, now: nat)
    requires lim.Valid() && s.start <= now
    ensures !BytesFit(s, lim, size, now) ==> BytesWait(s, lim, size, now) > 0
    ensures !IosFit(s, lim, now) ==> IosWait(s, lim, now) > 0
  {
    RoundUpBounds(if now == s.start then lim.slice else now - s.start, lim.slice);
  }

  /** What fits now fits later in the same slice. */
  lemma FitsLater(s: Slice, lim: Limits, size: nat, now: nat, later: nat)
    requires lim.Valid() && s.start <= now <= later && BytesFit(s, lim, size, now)
    ensures BytesFit(s, lim, size, later)
  {
    var a := if now == s.start then lim.slice else now - s.start;
    var b := if later == s.start then lim.slice else later - s.start;
    if a <= b {
      DivMono(a + (lim.slice - 1), b + (lim.slice - 1), lim.slice);
    } else {
      QuotientUnique(a + (lim.slice - 1), lim.slice, 1, lim.slice - 1);
      DivAtLeast(b + (lim.slice - 1), lim.slice, 1);
    }
    MulMono((a + (lim.slice - 1)) / lim.slice, (b + (lim.slice - 1)) / lim.slice, lim.slice);
    MulMono(Rounded(s, lim, now), Rounded(s, lim, later), lim.bps);
    DivMono(lim.bps * Rounded(s, lim, now), lim.bps * Rounded(s, lim, later), lim.hz);
  }
}
