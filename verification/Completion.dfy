/**
 Partial completion of requests, blk_update_request() of kernel/block/blk-core.c.

 A request carries a list of bios; the driver reports completed bytes in chunks, each with or without an error, and
 every bio is ended when its last byte completes.
 */
module Completion {
  import opened Basics

  datatype Bio = Bio(id: nat, size: nat, uptodate: bool)

  /** A bio handed back to its submitter. */
  datatype Ended = Ended(id: nat, error: bool)

  datatype Progress = Progress(ended: seq<Ended>, left: seq<Bio>)

  predicate Positive(bios: seq<Bio>) { forall i :: 0 <= i < |bios| ==> bios[i].size > 0 }

  function Total(bios: seq<Bio>): nat { if bios == [] then 0 else bios[0].size + Total(bios[1..]) }

  // ----- what should happen, byte by byte

  predicate Any(errs: seq<bool>) { exists i :: 0 <= i < |errs| && errs[i] }

  /** The bytes of the request complete in order, byte i with an error iff errs[i]: a bio is handed back when all its
      bytes are covered, with an error iff one of them had one. */
  ghost function Bytewise(bios: seq<Bio>, errs: seq<bool>): Progress
  {
    if bios == [] then Progress([], [])
    else
      var b := bios[0];
      if |errs| >= b.size then
        var p := Bytewise(bios[1..], errs[b.size..]);
        Progress([Ended(b.id, !b.uptodate || Any(errs[..b.size]))] + p.ended, p.left)
      else Progress([], [b.(size := b.size - |errs|, uptodate := b.uptodate && !Any(errs))] + bios[1..])
  }

  lemma AnyConcat(a: seq<bool>, b: seq<bool>)
    ensures Any(a + b) <==> Any(a) || Any(b)
  {
    if Any(b) {
      var i :| 0 <= i < |b| && b[i];
      assert (a + b)[|a| + i];
    }
    if Any(a) {
      var i :| 0 <= i < |a| && a[i];
      assert (a + b)[i];
    }
  }

  /** The same when the first part ends inside the first bio. */
  lemma BytewiseInside(bios: seq<Bio>, e1: seq<bool>, e2: seq<bool>)
    requires Positive(bios) && bios != [] && |e1| < bios[0].size
    ensures var p := Bytewise(bios, e1);
            var q := Bytewise(p.left, e2);
            Bytewise(bios, e1 + e2) == Progress(p.ended + q.ended, q.left)
  {
    hide Any;
    var b, e, p := bios[0], e1 + e2, Bytewise(bios, e1);
    var b' := p.left[0];
    assert p.left[1..] == bios[1..];
    var k := b.size - |e1|;
    if |e2| >= k {
      assert e[..b.size] == e1 + e2[..k];
      assert e[b.size..] == e2[k..];
      AnyConcat(e1, e2[..k]);
    } else {
      AnyConcat(e1, e2);
    }
  }

  /** Completing more bytes later is completing them all at once. */
  lemma {:induction false} BytewiseComposes(bios: seq<Bio>, e1: seq<bool>, e2: seq<bool>)
    requires Positive(bios)
    ensures var p := Bytewise(bios, e1);
            var q := Bytewise(p.left, e2);
            Bytewise(bios, e1 + e2) == Progress(p.ended + q.ended, q.left)
    decreases |bios|
  {
    hide Any;
    if bios != [] {
      var b := bios[0];
      var e := e1 + e2;
      var p := Bytewise(bios, e1);
      if |e1| >= b.size {
        BytewiseComposes(bios[1..], e1[b.size..], e2);
        assert e[..b.size] == e1[..b.size];
        assert e[b.size..] == e1[b.size..] + e2;
      } else {
        BytewiseInside(bios, e1, e2);
      }
    }
  }

  // ----- what blk_update_request() does

  /** The loop of blk_update_request(). */
  function Consume(bios: seq<Bio>, n: nat, error: bool): Progress
    decreases |bios|
  {
    if bios == [] then Progress([], [])
    else
      var b := bios[0];
      if n < b.size then Progress([], [b.(size := b.size - n, uptodate := b.uptodate && !error)] + bios[1..])
      else
        var done := [Ended(b.id, error || !b.uptodate)];
        if n == b.size then Progress(done, bios[1..])
        else
          var p := Consume(bios[1..], n - b.size, error);
          Progress(done + p.ended, p.left)
  }

  function Repeat(n: nat, error: bool): (r: seq<bool>)
    ensures |r| == n
  {
    seq(n, i => error)
  }

  lemma RepeatAny(n: nat, error: bool)
    ensures Any(Repeat(n, error)) <==> n > 0 && error
  {
    if n > 0 && error {
      assert Repeat(n, error)[0];
    }
  }

  lemma BytewiseNothing(bios: seq<Bio>)
    requires Positive(bios)
    ensures Bytewise(bios, []) == Progress([], bios)
  {
  }

  /** A chunk of n bytes is n bytes with the chunk's error. */
  lemma {:induction false} ConsumeIsBytewise(bios: seq<Bio>, n: nat, error: bool)
    requires Positive(bios) && n > 0
    ensures Consume(bios, n, error) == Bytewise(bios, Repeat(n, error))
    decreases |bios|
  {
    if bios != [] {
      var b := bios[0];
      var e := Repeat(n, error);
      RepeatAny(n, error);
      if n >= b.size {
        assert e[..b.size] == Repeat(b.size, error);
        assert e[b.size..] == Repeat(n - b.size, error);
        RepeatAny(b.size, error);
        if n == b.size {
          BytewiseNothing(bios[1..]);
        } else {
          ConsumeIsBytewise(bios[1..], n - b.size, error);
        }
      }
    }
  }

  /** Completing n bytes and then m leaves the request and its submitters where completing n + m does. */
  lemma {:induction false} ConsumeComposes(bios: seq<Bio>, n: nat, m: nat, error: bool)
    requires Positive(bios) && n > 0 && m > 0
    ensures var p := Consume(bios, n, error);
            var q := Consume(p.left, m, error);
            Consume(bios, n + m, error) == Progress(p.ended + q.ended, q.left)
  {
    hide Consume, Bytewise, Positive, Total;
    ConsumeIsBytewise(bios, n, error);
    ConsumeIsBytewise(bios, n + m, error);
    LeftPositive(bios, n, error);
    ConsumeIsBytewise(Consume(bios, n, error).left, m, error);
    BytewiseComposes(bios, Repeat(n, error), Repeat(m, error));
    assert Repeat(n + m, error) == Repeat(n, error) + Repeat(m, error);
  }

  lemma {:induction false} LeftPositive(bios: seq<Bio>, n: nat, error: bool)
    requires Positive(bios)
    ensures Positive(Consume(bios, n, error).left)
    ensures Total(Consume(bios, n, error).left) == (if n <= Total(bios) then Total(bios) - n else 0)
    ensures Consume(bios, n, error).left == [] <==> n >= Total(bios)
    decreases |bios|
  {
    if bios != [] && n > bios[0].size {
      LeftPositive(bios[1..], n - bios[0].size, error);
    } else if bios != [] && n < bios[0].size {
      var left := Consume(bios, n, error).left;
      assert left[1..] == bios[1..];
    } else if bios != [] {
      TotalZero(bios[1..]);
    }
  }

  lemma TotalZero(bios: seq<Bio>)
    requires Positive(bios)
    ensures Total(bios) == 0 <==> bios == []
  {
  }

  // ----- whole runs

  datatype Chunk = Chunk(bytes: nat, error: bool)

  function Errors(chunks: seq<Chunk>): seq<bool>
  {
    if chunks == [] then [] else Repeat(chunks[0].bytes, chunks[0].error) + Errors(chunks[1..])
  }

  function RunChunks(bios: seq<Bio>, chunks: seq<Chunk>): Progress
    decreases |chunks|
  {
    if chunks == [] then Progress([], bios)
    else
      var p := Consume(bios, chunks[0].bytes, chunks[0].error);
      var q := RunChunks(p.left, chunks[1..]);
      Progress(p.ended + q.ended, q.left)
  }

  /** However the completion is cut into chunks, each bio is handed back once, in order, when its last byte completes,
      with an error iff one of the chunks that touched it had one. */
  lemma {:induction false} RunIsBytewise(bios: seq<Bio>, chunks: seq<Chunk>)
    requires Positive(bios) && forall i :: 0 <= i < |chunks| ==> chunks[i].bytes > 0
    ensures RunChunks(bios, chunks) == Bytewise(bios, Errors(chunks))
    decreases |chunks|
  {
    if chunks == [] {
      BytewiseNothing(bios);
    } else {
      var c := chunks[0];
      ConsumeIsBytewise(bios, c.bytes, c.error);
      LeftPositive(bios, c.bytes, c.error);
      RunIsBytewise(Consume(bios, c.bytes, c.error).left, chunks[1..]);
      BytewiseComposes(bios, Repeat(c.bytes, c.error), Errors(chunks[1..]));
    }
  }

  /** The bios handed back are the first ones of the list, in order, each once. */
  lemma {:induction false} EndedInOrder(bios: seq<Bio>, errs: seq<bool>)
    requires Positive(bios)
    ensures var p := Bytewise(bios, errs);
            && |p.ended| + |p.left| == |bios|
            && (forall i :: 0 <= i < |p.ended| ==> p.ended[i].id == bios[i].id)
            && (forall i :: 0 <= i < |p.left| ==> p.left[i].id == bios[|p.ended| + i].id)
            && (|errs| >= Total(bios) ==> p.left == [])
    decreases |bios|
  {
    if bios != [] && |errs| >= bios[0].size {
      EndedInOrder(bios[1..], errs[bios[0].size..]);
      assert forall i :: 0 < i < |bios| ==> bios[i] == bios[1..][i - 1];
    }
  }

  // ----- the request

  /** struct request as far as completion goes, and the bios handed back so far. */
  datatype Rq = Rq(bios: seq<Bio>, dataLen: nat, sector: nat, ended: seq<Ended>)
  {
    predicate Valid() { Positive(bios) && dataLen == Total(bios) }
  }

  /** blk_update_request() for a filesystem request outside a flush sequence. */
  function Updated(r: Rq, n: nat, error: bool): Rq
    requires r.Valid()
  {
    var p := Consume(r.bios, n, error);
    if p.left == [] || n >= r.dataLen then Rq(p.left, 0, r.sector, r.ended + p.ended)
    else Rq(p.left, r.dataLen - n, r.sector + n / 512, r.ended + p.ended)
  }

  lemma UpdatedValid(r: Rq, n: nat, error: bool)
    requires r.Valid()
    ensures Updated(r, n, error).Valid()
    ensures Updated(r, n, error).bios != [] <==> n < r.dataLen
  {
    LeftPositive(r.bios, n, error);
  }

  /** A request that is not finished moves on: where it starts and how long it is move against each other, in whole sectors. */
  lemma UpdatedAdvances(r: Rq, n: nat, error: bool)
    requires r.Valid()
    ensures var t := Updated(r, n, error);
            if n >= r.dataLen then t.dataLen == 0 && t.sector == r.sector
            else t.dataLen == r.dataLen - n && t.sector * 512 <= r.sector * 512 + n < t.sector * 512 + 512
    ensures n < r.dataLen && n % 512 == 0 ==> Updated(r, n, error).sector * 512 + Updated(r, n, error).dataLen == r.sector * 512 + r.dataLen
  {
    hide Consume, Positive, Total;
    UpdatedValid(r, n, error);
    LeftPositive(r.bios, n, error);
  }

  /** The sector after two completions is the one after both at once: nothing, or less than a sector, is lost in between. */
  predicate SectorAgrees(dataLen: nat, n: nat, m: nat)
  {
    || n >= dataLen
    || (n + m < dataLen && n % 512 + m % 512 < 512)
    || (n + m >= dataLen && n < 512)
  }

  lemma SectorSplits(n: nat, m: nat)
    ensures (n + m) / 512 == n / 512 + m / 512 <==> n % 512 + m % 512 < 512
    ensures n / 512 == 0 <==> n < 512
  {
  }

  /**
   Completing n bytes and then m: the same bios are handed back and left as when n + m bytes complete at once, and exactly
   if SectorAgrees the requests are the same altogether; the last completion does not move the sector.
   */
  lemma UpdatedComposes(r: Rq, n: nat, m: nat, error: bool)
    requires r.Valid() && n > 0 && m > 0
    ensures Updated(r, n, error).Valid()
    ensures var twice, once := Updated(Updated(r, n, error), m, error), Updated(r, n + m, error);
            && twice.bios == once.bios && twice.ended == once.ended && twice.dataLen == once.dataLen
            && (twice == once <==> SectorAgrees(r.dataLen, n, m))
  {
    hide Consume, Positive, Total;
    UpdatedValid(r, n, error);
    UpdatedValid(r, n + m, error);
    UpdatedValid(Updated(r, n, error), m, error);
    ConsumeComposes(r.bios, n, m, error);
    var p := Consume(r.bios, n, error);
    var q := Consume(p.left, m, error);
    assert r.ended + p.ended + q.ended == r.ended + (p.ended + q.ended);
    SectorSplits(n, m);
    EmptyTotal(p.left);
  }

  lemma EmptyTotal(bios: seq<Bio>)
    requires Positive(bios)
    ensures Total(bios) == 0 <==> bios == []
  {
  }

  class Request {
    var bios: seq<Bio>
    var dataLen: nat
    var sector: nat
    var ended: seq<Ended>

    ghost function View(): Rq
      reads this
    {
      Rq(bios, dataLen, sector, ended)
    }

    ghost predicate Valid()
      reads this
    {
      View().Valid()
    }

    constructor (bios: seq<Bio>, sector: nat)
      requires Positive(bios)
      ensures Valid() && this.bios == bios && this.sector == sector && ended == []
    {
      this.bios, this.sector, ended := bios, sector, [];
      dataLen := Total(bios);
    }

    /** blk_update_request() for a filesystem request outside a flush sequence. */
    method Update(error: bool, n: nat) returns (more: bool)
      requires Valid()
      modifies this
      ensures Valid() && View() == Updated(old(View()), n, error)
      ensures more == (bios != []) && (more <==> n < old(dataLen))
    {
      hide Consume, Positive, Total;
      ghost var start := bios;
      LeftPositive(bios, n, error);
      if bios == [] {
        ConsumeTurn(bios, n, error);
        return false;
      }
      var left: nat := n;
      ghost var acc: seq<Ended> := [];
      ghost var rest := Consume(start, n, error);
      assert [] + rest.ended == rest.ended;
      var again := true;
      while again && bios != []
        invariant dataLen == old(dataLen) && sector == old(sector) && left <= n && ended == old(ended) + acc
        invariant again ==> rest == Consume(bios, left, error)
        invariant !again ==> rest == Progress([], bios) && left == 0
        invariant Consume(start, n, error) == Progress(acc + rest.ended, rest.left)
        decreases again, |bios|
      {
        ConsumeTurn(bios, left, error);
        var b := bios[0];
        var k := Min(b.size, left);
        if k == b.size {
          bios := bios[1..];
          ended := ended + [Ended(b.id, error || !b.uptodate)];
          assert acc + rest.ended == acc + [rest.ended[0]] + rest.ended[1..];
          acc, rest := acc + [rest.ended[0]], rest.(ended := rest.ended[1..]);
        } else {
          bios := [b.(size := b.size - k, uptodate := b.uptodate && !error)] + bios[1..];
        }
        left := left - k;
        if left == 0 {
          again := false;
        }
      }
      if bios == [] {
        ConsumeTurn(bios, left, error);
      }
      assert rest == Progress([], bios);
      assert acc + [] == acc;
      if bios == [] {
        dataLen := 0;
        return false;
      }
      var total := n - left;
      dataLen := dataLen - total;
      sector := sector + total / 512;
      FirstFits(bios);
      assert dataLen >= bios[0].size;                           // "request botched" is not reached
      return true;
    }
  }

  lemma FirstFits(bios: seq<Bio>)
    requires bios != []
    ensures bios[0].size <= Total(bios)
  {
  }

  /** One turn of the loop. */
  lemma ConsumeTurn(bios: seq<Bio>, n: nat, error: bool)
    ensures var p := Consume(bios, n, error);
            && (bios == [] ==> p == Progress([], []))
            && (bios != [] && n < bios[0].size ==>
                  p == Progress([], [bios[0].(size := bios[0].size - n, uptodate := bios[0].uptodate && !error)] + bios[1..]))
            && (bios != [] && n >= bios[0].size ==>
                  && p.ended != [] && p.ended[0] == Ended(bios[0].id, error || !bios[0].uptodate)
                  && (if n == bios[0].size then p.ended[1..] == [] && p.left == bios[1..]
                      else Progress(p.ended[1..], p.left) == Consume(bios[1..], n - bios[0].size, error)))
  {
  }
}
