/**
 The throtl_grp object: the fields tg_may_dispatch(), throtl_charge_bio() and throtl_trim_slice() update in
 place for one direction, against the functions of ThrottleRate.
 */
module ThrottleGroup {
  import opened Arith
  import opened Basics
  import opened ThrottleRate
  import opened ThrottleSlices

  class ThrotlGrp {
    var bytesDisp: nat
    var ioDisp: nat
    var sliceStart: nat
    var sliceEnd: nat
    const lim: Limits

    ghost function View(): Slice
      reads this
    {
      Slice(bytesDisp, ioDisp, sliceStart, sliceEnd)
    }

    constructor (lim: Limits, now: nat)
      requires lim.Valid()
      ensures this.lim == lim && View() == NewSlice(lim, now)
    {
      this.lim := lim;
      bytesDisp, ioDisp, sliceStart, sliceEnd := 0, 0, now, now + lim.slice;
    }

    /** throtl_set_slice_end(): the first whole slice at or after the time asked for. */
    method SetSliceEnd(jiffyEnd: nat)
      requires lim.Valid()
      modifies `sliceEnd
      ensures View() == SetEnd(old(View()), lim, jiffyEnd)
      ensures sliceEnd % lim.slice == 0 && jiffyEnd <= sliceEnd < jiffyEnd + lim.slice
    {
      RoundUpBounds(jiffyEnd, lim.slice);
      sliceEnd := RoundUp(jiffyEnd, lim.slice);
    }

    /** throtl_trim_slice(): whole slices that have passed are cut off a live slice, with the charges they pay for. */
    method TrimSlice(now: nat)
      requires lim.Valid()
      requires sliceStart <= sliceEnd                        // BUG_ON(time_before(slice_end, slice_start))
      modifies this
      ensures View() == Trim(old(View()), lim, now)
      ensures !(old(sliceStart) <= now <= old(sliceEnd)) ==> View() == old(View())
      ensures old(sliceStart) <= now <= old(sliceEnd) ==>
                var cut, whole := sliceStart - old(sliceStart), Whole(now - old(sliceStart), lim.slice);
                && (cut == whole || (cut == 0 && Worth(lim.bps, lim.hz, whole) == 0 && Worth(lim.iops, lim.hz, whole) == 0))
                && bytesDisp == Max(0, old(bytesDisp) - Worth(lim.bps, lim.hz, cut))
                && ioDisp == Max(0, old(ioDisp) - Worth(lim.iops, lim.hz, cut))
    {
      hide Whole, Worth;
      if sliceStart <= now <= sliceEnd {
        TrimExact(View(), lim, now);
      }
      if !(sliceStart <= now <= sliceEnd) {
        return;
      }
      SetSliceEnd(now + lim.slice);
      var nrSlices := (now - sliceStart) / lim.slice;
      if nrSlices == 0 {
        return;
      }
      var bytesTrim := lim.bps * lim.slice * nrSlices / lim.hz;
      var ioTrim := lim.iops * lim.slice * nrSlices / lim.hz;
      if bytesTrim == 0 && ioTrim == 0 {
        return;
      }
      if bytesDisp >= bytesTrim {
        bytesDisp := bytesDisp - bytesTrim;
      } else {
        bytesDisp := 0;
      }
      if ioDisp >= ioTrim {
        ioDisp := ioDisp - ioTrim;
      } else {
        ioDisp := 0;
      }
      sliceStart := sliceStart + nrSlices * lim.slice;
    }

    method WithinBpsLimit(size: nat, now: nat) returns (ok: bool, wait: int)
      requires lim.Valid() && sliceStart <= now
      ensures ok <==> BytesFit(View(), lim, size, now)
      ensures wait == if ok then 0 else BytesWait(View(), lim, size, now)
    {
      var elapsed := now - sliceStart;
      var rnd := RoundUp(if elapsed == 0 then lim.slice else elapsed, lim.slice);
      var allowed := lim.bps * rnd / lim.hz;
      if bytesDisp + size <= allowed {
        return true, 0;
      }
      var extra := bytesDisp + size - allowed;
      wait := extra * lim.hz / lim.bps;
      assert extra * lim.hz >= 0;
      DivAtLeast(extra * lim.hz, lim.bps, 0);
      if wait == 0 {
        wait := 1;
      }
      return false, wait + (rnd - elapsed);
    }

    method WithinIopsLimit(now: nat) returns (ok: bool, wait: int)
      requires lim.Valid() && sliceStart <= now
      ensures ok <==> IosFit(View(), lim, now)
      ensures wait == if ok then 0 else IosWait(View(), lim, now)
    {
      var elapsed := now - sliceStart;
      var rnd := RoundUp(if elapsed == 0 then lim.slice else elapsed, lim.slice);
      var tmp := lim.iops * rnd / lim.hz;
      var allowed := if tmp > UINT_MAX then UINT_MAX else tmp;
      if ioDisp + 1 <= allowed {
        return true, 0;
      }
      wait := (ioDisp + 1) * lim.hz / lim.iops + 1;
      if wait > elapsed {
        wait := wait - elapsed;
      } else {
        wait := 1;
      }
      return false, wait;
    }

    method MayDispatch(size: nat, now: nat) returns (ok: bool, wait: int)
      requires lim.Valid()
      modifies this
      ensures var v := ThrottleRate.MayDispatch(old(View()), lim, size, now);
              View() == v.slice && ok == v.ok && wait == v.wait
    {
      hide BytesFit, IosFit, BytesWait, IosWait, SetEnd;
      if lim.bps == BPS_NONE && lim.iops == IOPS_NONE {
        return true, 0;
      }
      if !(sliceStart <= now <= sliceEnd) {
        bytesDisp, ioDisp, sliceStart, sliceEnd := 0, 0, now, now + lim.slice;
      } else if sliceEnd < now + lim.slice {
        SetSliceEnd(now + lim.slice);
      }
      assert View() == Refresh(old(View()), lim, now);
      var bytesOk, bpsWait := WithinBpsLimit(size, now);
      var iosOk, iopsWait := false, 0;
      if bytesOk {
        iosOk, iopsWait := WithinIopsLimit(now);
        if iosOk {
          return true, 0;
        }
      }
      WaitsPositive(View(), lim, size, now);
      var maxWait := if bpsWait > iopsWait then bpsWait else iopsWait;
      if sliceEnd < now + maxWait {
        SetSliceEnd(now + maxWait);
      }
      return false, maxWait;
    }

    /** throtl_charge_bio(). */
    method ChargeBio(size: nat)
      modifies `bytesDisp, `ioDisp
      ensures View() == Charge(old(View()), size)
    {
      bytesDisp := bytesDisp + size;
      ioDisp := ioDisp + 1;
    }

    /** The body of the climb in blk_throtl_bio() at one group: test, charge and trim. */
    method TryCharge(size: nat, now: nat) returns (ok: bool)
      requires lim.Valid() && sliceStart <= sliceEnd
      modifies this
      ensures var v := ThrottleRate.MayDispatch(old(View()), lim, size, now);
              ok == v.ok && View() == if ok then Trim(Charge(v.slice, size), lim, now) else v.slice
    {
      hide Trim, ThrottleRate.MayDispatch;
      VerdictOrdered(View(), lim, size, now);
      var wait;
      ok, wait := MayDispatch(size, now);
      if ok {
        ChargeBio(size);
        TrimSlice(now);
      }
    }
  }

  /** A verdict never leaves a slice that ends before it starts. */
  lemma VerdictOrdered(s: Slice, lim: Limits, size: nat, now: nat)
    requires lim.Valid() && s.start <= s.end
    ensures var v := ThrottleRate.MayDispatch(s, lim, size, now); v.slice.start <= v.slice.end
  {
    hide BytesFit, IosFit, BytesWait, IosWait;
    var s1 := Refresh(s, lim, now);
    RoundUpBounds(now + lim.slice, lim.slice);
    if !lim.Unlimited() {
      var v := ThrottleRate.MayDispatch(s, lim, size, now);
      if !v.ok && s1.end < now + v.wait {
        RoundUpBounds(now + v.wait, lim.slice);
      }
    }
  }
}
