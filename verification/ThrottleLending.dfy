/**
 What a dispatch does to the slices of a group and its parent, kernel/block/blk-throttle.c:693-715 and 1044-1112: time is
 lent at most once, slices only move forward, and a group is due as soon as its first bio may go.
 */
module ThrottleLending {
  import opened Basics
  import opened Arith
  import opened ThrottleRate
  import opened ThrottleSlices
  import opened ThrottleMeters
  import opened ThrottleTree
  import opened ThrottleDispatch

  // ----- slices move forward

  /** After a test of a limited group, its slice lasts for at least one more slice. */
  lemma TestCovers(s: Slice, lim: Limits, size: nat, now: nat)
    requires lim.Valid() && !lim.Unlimited()
    ensures var v := MayDispatch(s, lim, size, now);
            v.slice.start <= now && now + lim.slice <= v.slice.end && (SliceUsed(s, now) ==> v.slice.start == now)
  {
    hide BytesFit, IosFit, BytesWait, IosWait;
    RoundUpBounds(now + lim.slice, lim.slice);
    var v := MayDispatch(s, lim, size, now);
    if !v.ok && now + v.wait >= 0 {
      RoundUpBounds(now + v.wait, lim.slice);
    }
  }

  lemma ActForward(m: Meter, lim: Limits, op: Op, now: nat)
    requires lim.Valid() && m.slice.start <= m.clock <= now && (op.Credit? ==> op.childStart <= now)
    ensures m.slice.start <= Act(m, lim, op, now).slice.start <= Act(m, lim, op, now).clock == now
  {
    hide BytesFit, IosFit, BytesWait, IosWait;
    match op
    case Probe(size) =>
    case Dispatch(size) =>
    case TrimSlice =>
      if !SliceUsed(m.slice, now) {
        TrimExact(m.slice, lim, now);
        WholeBounds(now - m.slice.start, lim.slice);
      }
    case Credit(_) =>
  }

  /** In every run, no slice ever starts before an earlier one did: time once given back does not count again. */
  lemma {:induction false} NeverBack(m: Meter, lim: Limits, ops: seq<(Op, nat)>)
    requires lim.Valid() && m.slice.start <= m.clock && Ordered(m.clock, ops)
    ensures m.slice.start <= Run(m, lim, ops).slice.start <= Run(m, lim, ops).clock
    decreases |ops|
  {
    hide Act;
    if ops != [] {
      ActForward(m, lim, ops[0].0, ops[0].1);
      NeverBack(Act(m, lim, ops[0].0, ops[0].1), lim, ops[1..]);
    }
  }

  // ----- a dispatch

  /**
   A dispatch leaves less than a whole slice of the group's time untrimmed, unless that is worth nothing. A parent whose
   slice has expired begins one that reaches back to where both its own and the group's slice had begun, no further.
   */
  lemma GiveSlices(rates: Rates, g: Tg, p: Tg, rw: bool, size: nat, now: nat)
    requires Dir(g, rw) in rates && rates[Dir(g, rw)].lim.Valid() && !rates[Dir(g, rw)].lim.Unlimited() && g != p
    requires p > 0 ==> Dir(p, rw) in rates && rates[Dir(p, rw)].lim.Valid()
    requires rates[Dir(g, rw)].Test(size, now).ok
    ensures var lim, v := rates[Dir(g, rw)].lim, rates[Dir(g, rw)].Test(size, now).slice;
            var t := Give(rates, g, p, rw, size, now)[Dir(g, rw)].meter.slice;
            && v.start <= t.start <= now
            && (now < t.start + lim.slice ||
                (t.start == v.start && Worth(lim.bps, lim.hz, Whole(now - v.start, lim.slice)) == 0
                                    && Worth(lim.iops, lim.hz, Whole(now - v.start, lim.slice)) == 0))
    ensures p > 0 ==>
              var x, y := rates[Dir(p, rw)].meter.slice, Give(rates, g, p, rw, size, now)[Dir(p, rw)].meter.slice;
              if SliceUsed(x, now) then
                && y.bytes == 0 && y.ios == 0 && y.end > now
                && y.start == Max(x.start, rates[Dir(g, rw)].Test(size, now).slice.start)
              else y == x
  {
    hide MayDispatch, Trim;
    var lim := rates[Dir(g, rw)].lim;
    TestCovers(rates[Dir(g, rw)].meter.slice, lim, size, now);
    var v := rates[Dir(g, rw)].Test(size, now).slice;
    TrimExact(Charge(v, size), lim, now);
    WholeBounds(now - v.start, lim.slice);
  }

  // ----- when a group is due

  /**
   The wait of tg_update_disptime() is no longer than that of either direction with bios, and there is none just when
   the first bio of one of them may go.
   */
  lemma DueWhenFirstMayGo(rates: Rates, groups: nat, g: Tg, n: Node, size: Sizes, now: nat)
    requires RatesOk(rates, groups, now) && 0 < g < groups && Holds(n)
    ensures forall rw :: Dir(g, rw) in rates && rates[Dir(g, rw)].lim.Valid()
    ensures forall rw :: n.Nr(rw) > 0 ==> HeadWait(rates, g, n, size, now) <= rates[Dir(g, rw)].Test(size(FirstBio(n.Queue(rw))), now).wait
    ensures HeadWait(rates, g, n, size, now) >= 0
    ensures HeadWait(rates, g, n, size, now) == 0 <==>
              exists rw :: n.Nr(rw) > 0 && rates[Dir(g, rw)].Test(size(FirstBio(n.Queue(rw))), now).ok
  {
    hide RatesOk, Side.Ok, MayDispatch;
    RatesKnown(rates, groups, g, false, now);
    RatesKnown(rates, groups, g, true, now);
    AskKeeps(rates, groups, Dir(g, false), size(FirstBio(n.Queue(false))), now);
    AskKeeps(rates, groups, Dir(g, true), size(FirstBio(n.Queue(true))), now);
    assert n.Nr(false) == n.nrReads && n.Nr(true) == n.nrWrites;
  }
}
