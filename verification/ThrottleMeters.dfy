/**
 The token buckets of a hierarchy: one direction of one group each, with the rate bound kept by every operation.
 */
module ThrottleMeters {
  import opened Arith
  import opened ThrottleRate

  /** One direction of one group, metered since s0. */
  datatype Side = Side(meter: Meter, lim: Limits, s0: nat)
  {
    ghost predicate Ok()
    {
      && lim.Valid() && meter.slice.start <= meter.clock
      && (lim.Unlimited() || RateInv(meter, lim, s0))
    }

    /** tg_may_dispatch(). */
    function Test(size: nat, now: nat): Verdict
      requires lim.Valid()
    {
      MayDispatch(meter.slice, lim, size, now)
    }

    function Do(op: Op, now: nat): Side
      requires lim.Valid()
    {
      this.(meter := Act(meter, lim, op, now))
    }
  }

  lemma FreshSide(lim: Limits, now: nat)
    requires lim.Valid()
    ensures Side(Begin(lim, now), lim, now).Ok()
  {
  }

  /** Every operation keeps the rate invariant, and an unlimited side keeps its slice in the past. */
  lemma DoKeeps(x: Side, op: Op, now: nat)
    requires x.Ok() && x.meter.clock <= now && (op.Credit? ==> op.childStart <= now)
    ensures x.Do(op, now).Ok() && x.Do(op, now).meter.clock == now
  {
    if x.lim.Unlimited() {
      UnlimitedKeeps(x.meter, x.lim, op, now);
    } else {
      hide RateInv, Act;
      ActKeeps(x.meter, x.lim, x.s0, op, now);
      StartsBefore(Act(x.meter, x.lim, op, now), x.lim, x.s0);
    }
  }

  lemma StartsBefore(m: Meter, lim: Limits, s0: nat)
    requires RateInv(m, lim, s0)
    ensures m.slice.start <= m.clock
  {
    hide Bounded;
  }

  lemma UnlimitedKeeps(m: Meter, lim: Limits, op: Op, now: nat)
    requires lim.Valid() && lim.Unlimited() && m.slice.start <= m.clock <= now && (op.Credit? ==> op.childStart <= now)
    ensures Act(m, lim, op, now).slice.start <= now && Act(m, lim, op, now).clock == now
  {
    if op.TrimSlice? && !SliceUsed(m.slice, now) {
      hide Trim;
      var nr := TrimCases(m.slice, lim, now);
    }
  }

  /** Only a dispatch that passes the test is charged. */
  lemma DoCounts(x: Side, op: Op, now: nat)
    requires x.lim.Valid()
    ensures var y := x.Do(op, now);
            if op.Dispatch? && x.Test(op.size, now).ok then y.meter.bytes == x.meter.bytes + op.size && y.meter.ios == x.meter.ios + 1
            else y.meter.bytes == x.meter.bytes && y.meter.ios == x.meter.ios
  {
    hide MayDispatch, Trim;
  }

  /** The tests see start and charges of a slice, not its end. */
  lemma TestsIgnoreEnd(s: Slice, t: Slice, lim: Limits, size: nat, now: nat)
    requires lim.Valid() && s.start <= now && t == s.(end := t.end)
    ensures BytesFit(t, lim, size, now) == BytesFit(s, lim, size, now) && IosFit(t, lim, now) == IosFit(s, lim, now)
    ensures !BytesFit(s, lim, size, now) ==> BytesWait(t, lim, size, now) == BytesWait(s, lim, size, now) > 0
    ensures !IosFit(s, lim, now) ==> IosWait(t, lim, now) == IosWait(s, lim, now) > 0
  {
    assert Rounded(t, lim, now) == Rounded(s, lim, now);
    RoundUpBounds(if now == s.start then lim.slice else now - s.start, lim.slice);
  }

  /** A slice that reaches a slice length past now is not refreshed again. */
  lemma RefreshOnce(s: Slice, lim: Limits, now: nat, end: nat)
    requires lim.Valid()
    ensures var t := Refresh(s, lim, now);
            t.start <= now && t.end >= now + lim.slice && (end >= t.end ==> Refresh(t.(end := end), lim, now) == t.(end := end))
  {
    RoundUpBounds(now + lim.slice, lim.slice);
  }

  /** Asking twice at the same time gives the same answer, and a refusal a wait. */
  lemma TestAgain(x: Side, size: nat, now: nat)
    requires x.lim.Valid()
    ensures var v, w := x.Test(size, now), x.Do(Probe(size), now).Test(size, now);
            w.ok == v.ok && w.wait == v.wait && (if v.ok then v.wait == 0 else v.wait > 0)
  {
    hide BytesFit, IosFit, BytesWait, IosWait, Refresh;
    if !x.lim.Unlimited() {
      var s := Refresh(x.meter.slice, x.lim, now);
      RefreshOnce(x.meter.slice, x.lim, now, s.end);
      var t := x.Test(size, now).slice;
      TestsIgnoreEnd(s, t, x.lim, size, now);
      RoundUpBounds(now + (if x.Test(size, now).wait > 0 then x.Test(size, now).wait else 0), x.lim.slice);
      RefreshOnce(x.meter.slice, x.lim, now, t.end);
    }
  }

  /** What a limited side has let through by time t. */
  lemma SideBound(x: Side, t: nat)
    requires x.Ok() && !x.lim.Unlimited() && x.meter.clock <= t
    ensures x.s0 <= t
    ensures x.meter.bytes <= x.lim.bps * (t - x.s0 + x.lim.slice + x.meter.credit) / x.lim.hz
    ensures x.meter.ios <= x.lim.iops * (t - x.s0 + x.lim.slice + x.meter.credit) / x.lim.hz
  {
    var m, lim := x.meter, x.lim;
    var span := t - x.s0 + lim.slice + m.credit;
    MulMono(m.charged - (x.s0 - m.credit) + lim.slice, span, lim.bps);
    MulMono(m.charged - (x.s0 - m.credit) + lim.slice, span, lim.iops);
    DivAtLeast(lim.bps * span, lim.hz, m.bytes);
    DivAtLeast(lim.iops * span, lim.hz, m.ios);
  }
}
