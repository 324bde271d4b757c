/**
 Counting and mapping the segments of a request, kernel/block/blk-merge.c.

 A request is the sequence of its bio vectors in order. Two neighbouring vectors may share a segment when they are
 physically adjacent and lie in one boundary window; a segment of several vectors may not exceed the maximum size.
 The mapping joins vectors greedily; the count, taken earlier, also splits at pages above the bounce limit.
 */
module ScatterGather {
  import opened Arith
  import opened Basics

  datatype Vec = Vec(addr: nat, len: nat, high: bool)

  /** Queue limits; window is seg_boundary_mask + 1, noSgMerge is QUEUE_FLAG_NO_SG_MERGE. */
  datatype Limits = Limits(cluster: bool, maxSize: nat, window: nat, noSgMerge: bool, maxSegments: nat)

  datatype Sg = Sg(addr: nat, len: nat)

  /** What a request does; a discard may have been given a payload by its driver. */
  datatype Kind = Normal | Discard(payload: Option<Vec>) | WriteSame

  /** BIOVEC_PHYS_MERGEABLE: adjacent in memory. */
  predicate Adjacent(a: Vec, b: Vec) { a.addr + a.len == b.addr }

  /** BIOVEC_SEG_BOUNDARY: from the start of a to the last byte of b in one window. */
  predicate SameWindow(q: Limits, a: Vec, b: Vec)
  {
    q.window > 0 && (a.addr / q.window == (b.addr + b.len - 1) / q.window)
  }

  /** b may be added behind a to a segment that already holds size bytes. */
  predicate Fits(q: Limits, a: Vec, b: Vec, size: nat)
  {
    q.cluster && size + b.len <= q.maxSize && Adjacent(a, b) && SameWindow(q, a, b)
  }

  // ----- partitions

  /** cuts[k] says that a segment starts at vector k. From k on, with size bytes in the segment before it, every
      vector that is not cut off obeys the rules. */
  predicate Obeys(q: Limits, v: seq<Vec>, cuts: seq<bool>, k: nat, size: nat)
    requires |cuts| == |v| && 0 < k <= |v|
    decreases |v| - k
  {
    k == |v| ||
    (if cuts[k] then Obeys(q, v, cuts, k + 1, v[k].len)
     else Fits(q, v[k - 1], v[k], size) && Obeys(q, v, cuts, k + 1, size + v[k].len))
  }

  /** A partition of all of v into segments that obey the size, adjacency and window rules. */
  predicate Partition(q: Limits, v: seq<Vec>, cuts: seq<bool>)
  {
    |cuts| == |v| && (v == [] || (cuts[0] && Obeys(q, v, cuts, 1, v[0].len)))
  }

  function CutsFrom(cuts: seq<bool>, k: nat): nat
    requires k <= |cuts|
    decreases |cuts| - k
  {
    if k == |cuts| then 0 else (if cuts[k] then 1 else 0) + CutsFrom(cuts, k + 1)
  }

  // ----- the greedy mapping

  /** Segments that the mapping starts from vector k on. */
  function GreedyFrom(q: Limits, v: seq<Vec>, k: nat, size: nat): nat
    requires 0 < k <= |v|
    decreases |v| - k
  {
    if k == |v| then 0
    else if Fits(q, v[k - 1], v[k], size) then GreedyFrom(q, v, k + 1, size + v[k].len)
    else 1 + GreedyFrom(q, v, k + 1, v[k].len)
  }

  function Greedy(q: Limits, v: seq<Vec>): nat
  {
    if v == [] then 0 else 1 + GreedyFrom(q, v, 1, v[0].len)
  }

  /** Ahead of a partition the mapping stays ahead; behind it, it loses at most one segment. */
  lemma {:induction false} GreedyAhead(q: Limits, v: seq<Vec>, cuts: seq<bool>, k: nat, size: nat, size': nat)
    requires |cuts| == |v| && 0 < k <= |v| && Obeys(q, v, cuts, k, size')
    ensures size <= size' ==> GreedyFrom(q, v, k, size) <= CutsFrom(cuts, k)
    ensures GreedyFrom(q, v, k, size) <= CutsFrom(cuts, k) + 1
    decreases |v| - k
  {
    if k < |v| {
      var l := v[k].len;
      var mine := if Fits(q, v[k - 1], v[k], size) then size + l else l;
      var theirs := if cuts[k] then l else size' + l;
      GreedyAhead(q, v, cuts, k + 1, mine, theirs);
    }
  }

  /** The greedy mapping uses the fewest segments of any partition that obeys the rules. */
  lemma GreedyIsLeast(q: Limits, v: seq<Vec>, cuts: seq<bool>)
    requires Partition(q, v, cuts)
    ensures Greedy(q, v) <= CutsFrom(cuts, 0)
  {
    if v != [] {
      GreedyAhead(q, v, cuts, 1, v[0].len, v[0].len);
    }
  }

  /** The cuts the mapping makes. */
  function GreedyCuts(q: Limits, v: seq<Vec>, k: nat, size: nat): (cuts: seq<bool>)
    requires 0 < k <= |v|
    ensures |cuts| == |v| - k
    decreases |v| - k
  {
    if k == |v| then []
    else if Fits(q, v[k - 1], v[k], size) then [false] + GreedyCuts(q, v, k + 1, size + v[k].len)
    else [true] + GreedyCuts(q, v, k + 1, v[k].len)
  }

  lemma {:induction false} GreedyObeys(q: Limits, v: seq<Vec>, cuts: seq<bool>, k: nat, size: nat)
    requires |cuts| == |v| && 0 < k <= |v| && cuts[k..] == GreedyCuts(q, v, k, size)
    ensures Obeys(q, v, cuts, k, size) && CutsFrom(cuts, k) == GreedyFrom(q, v, k, size)
    decreases |v| - k
  {
    if k < |v| {
      var fits := Fits(q, v[k - 1], v[k], size);
      var next := if fits then size + v[k].len else v[k].len;
      assert cuts[k] == cuts[k..][0] == !fits;
      assert cuts[k + 1..] == cuts[k..][1..] == GreedyCuts(q, v, k + 1, next);
      GreedyObeys(q, v, cuts, k + 1, next);
    }
  }

  /** The least is reached: the mapping itself is such a partition. */
  lemma GreedyIsPartition(q: Limits, v: seq<Vec>) returns (cuts: seq<bool>)
    ensures Partition(q, v, cuts) && CutsFrom(cuts, 0) == Greedy(q, v)
  {
    if v == [] {
      cuts := [];
    } else {
      cuts := [true] + GreedyCuts(q, v, 1, v[0].len);
      assert cuts[1..] == GreedyCuts(q, v, 1, v[0].len);
      GreedyObeys(q, v, cuts, 1, v[0].len);
    }
  }

  // ----- the count

  /** Segments that __blk_recalc_rq_segments() starts from vector k on; highPrev is its highprv. */
  function CountFrom(q: Limits, noMerge: bool, v: seq<Vec>, k: nat, size: nat, highPrev: bool): nat
    requires 0 < k <= |v|
    decreases |v| - k
  {
    if k == |v| then 0
    else if !noMerge && !v[k].high && !highPrev && Fits(q, v[k - 1], v[k], size)
      then CountFrom(q, noMerge, v, k + 1, size + v[k].len, highPrev)
    else 1 + CountFrom(q, noMerge, v, k + 1, v[k].len, !noMerge && v[k].high)
  }

  function Count(q: Limits, noMerge: bool, v: seq<Vec>): nat
  {
    if v == [] then 0 else 1 + CountFrom(q, noMerge, v, 1, v[0].len, !noMerge && v[0].high)
  }

  /** The count never falls below the mapping: it also cuts, and only cuts more. */
  lemma {:induction false} CountCovers(q: Limits, noMerge: bool, v: seq<Vec>, k: nat, size: nat, size': nat, highPrev: bool)
    requires 0 < k <= |v|
    ensures size <= size' ==> GreedyFrom(q, v, k, size) <= CountFrom(q, noMerge, v, k, size', highPrev)
    ensures GreedyFrom(q, v, k, size) <= CountFrom(q, noMerge, v, k, size', highPrev) + 1
    decreases |v| - k
  {
    if k < |v| {
      var l := v[k].len;
      var mine := if Fits(q, v[k - 1], v[k], size) then size + l else l;
      var join := !noMerge && !v[k].high && !highPrev && Fits(q, v[k - 1], v[k], size');
      CountCovers(q, noMerge, v, k + 1, mine, if join then size' + l else l, if join then highPrev else !noMerge && v[k].high);
    }
  }

  /** A scatter list with as many entries as were counted is large enough. */
  lemma MappingFits(q: Limits, noMerge: bool, v: seq<Vec>)
    ensures Greedy(q, v) <= Count(q, noMerge, v)
  {
    if v != [] {
      CountCovers(q, noMerge, v, 1, v[0].len, v[0].len, !noMerge && v[0].high);
    }
  }

  // ----- what the count is

  /** A partition that keeps every high vector in a segment of its own. */
  predicate HighAlone(v: seq<Vec>, cuts: seq<bool>)
    requires |cuts| == |v|
  {
    forall k :: 0 <= k < |v| ==> CutAround(v, cuts, k)
  }

  /** A cut before a high vector, and before the one behind it. */
  predicate CutAround(v: seq<Vec>, cuts: seq<bool>, k: nat)
    requires |cuts| == |v| && k < |v|
  {
    v[k].high || (k > 0 && v[k - 1].high) ==> cuts[k]
  }

  /** Ahead of such a partition the count stays ahead; behind it, it loses at most one segment. */
  lemma {:induction false} CountAhead(q: Limits, v: seq<Vec>, cuts: seq<bool>, k: nat, size: nat, size': nat)
    requires |cuts| == |v| && 0 < k <= |v| && Obeys(q, v, cuts, k, size') && HighAlone(v, cuts)
    ensures size <= size' ==> CountFrom(q, false, v, k, size, v[k - 1].high) <= CutsFrom(cuts, k)
    ensures CountFrom(q, false, v, k, size, v[k - 1].high) <= CutsFrom(cuts, k) + 1
    decreases |v| - k
  {
    if k < |v| {
      var l := v[k].len;
      var join := !v[k].high && !v[k - 1].high && Fits(q, v[k - 1], v[k], size);
      assert CutAround(v, cuts, k);
      CountAhead(q, v, cuts, k + 1, if join then size + l else l, if cuts[k] then l else size' + l);
    }
  }

  /** No partition that obeys the rules and keeps high vectors alone has fewer segments than are counted. */
  lemma CountIsLeast(q: Limits, v: seq<Vec>, cuts: seq<bool>)
    requires Partition(q, v, cuts) && HighAlone(v, cuts)
    ensures Count(q, false, v) <= CutsFrom(cuts, 0)
  {
    if v != [] {
      CountAhead(q, v, cuts, 1, v[0].len, v[0].len);
    }
  }

  /** The cuts the count makes. */
  function CountCuts(q: Limits, v: seq<Vec>, k: nat, size: nat): (cuts: seq<bool>)
    requires 0 < k <= |v|
    ensures |cuts| == |v| - k
    decreases |v| - k
  {
    if k == |v| then []
    else if !v[k].high && !v[k - 1].high && Fits(q, v[k - 1], v[k], size) then [false] + CountCuts(q, v, k + 1, size + v[k].len)
    else [true] + CountCuts(q, v, k + 1, v[k].len)
  }

  lemma {:induction false} CountObeys(q: Limits, v: seq<Vec>, cuts: seq<bool>, k: nat, size: nat)
    requires |cuts| == |v| && 0 < k <= |v| && cuts[k..] == CountCuts(q, v, k, size)
    ensures Obeys(q, v, cuts, k, size) && CutsFrom(cuts, k) == CountFrom(q, false, v, k, size, v[k - 1].high)
    ensures forall j :: k <= j < |v| ==> CutAround(v, cuts, j)
    decreases |v| - k
  {
    if k < |v| {
      var join := !v[k].high && !v[k - 1].high && Fits(q, v[k - 1], v[k], size);
      var next := if join then size + v[k].len else v[k].len;
      assert cuts[k] == cuts[k..][0] == !join;
      assert cuts[k + 1..] == cuts[k..][1..] == CountCuts(q, v, k + 1, next);
      CountObeys(q, v, cuts, k + 1, next);
    }
  }

  /** The count is the number of segments of such a partition. */
  lemma CountIsPartition(q: Limits, v: seq<Vec>) returns (cuts: seq<bool>)
    ensures Partition(q, v, cuts) && HighAlone(v, cuts) && CutsFrom(cuts, 0) == Count(q, false, v)
  {
    if v == [] {
      cuts := [];
    } else {
      cuts := [true] + CountCuts(q, v, 1, v[0].len);
      assert cuts[1..] == CountCuts(q, v, 1, v[0].len);
      CountObeys(q, v, cuts, 1, v[0].len);
    }
  }

  /** The vectors after bouncing: high ones may have moved to other pages. */
  predicate Bounced(v: seq<Vec>, w: seq<Vec>)
  {
    |w| == |v| && forall k :: 0 <= k < |v| ==> w[k].len == v[k].len && (!v[k].high ==> w[k].addr == v[k].addr)
  }

  lemma {:induction false} BounceCovers(q: Limits, v: seq<Vec>, w: seq<Vec>, k: nat, size: nat, size': nat)
    requires Bounced(v, w) && 0 < k <= |v|
    ensures size <= size' ==> GreedyFrom(q, w, k, size) <= CountFrom(q, false, v, k, size', v[k - 1].high)
    ensures GreedyFrom(q, w, k, size) <= CountFrom(q, false, v, k, size', v[k - 1].high) + 1
    decreases |v| - k
  {
    if k < |v| {
      var l := v[k].len;
      var mine := if Fits(q, w[k - 1], w[k], size) then size + l else l;
      var join := !v[k].high && !v[k - 1].high && Fits(q, v[k - 1], v[k], size');
      BounceCovers(q, v, w, k + 1, mine, if join then size' + l else l);
    }
  }

  /** Wherever the high vectors are bounced to after the count, the mapping fits it. */
  lemma BouncedMappingFits(q: Limits, v: seq<Vec>, w: seq<Vec>)
    requires Bounced(v, w)
    ensures Greedy(q, w) <= Count(q, false, v)
  {
    if v != [] {
      BounceCovers(q, v, w, 1, v[0].len, v[0].len);
    }
  }

  /** Without merging every vector is a segment. */
  lemma {:induction false} UnmergedCount(q: Limits, v: seq<Vec>, k: nat, size: nat, highPrev: bool)
    requires 0 < k <= |v|
    ensures CountFrom(q, true, v, k, size, highPrev) == |v| - k
    decreases |v| - k
  {
    if k < |v| {
      UnmergedCount(q, v, k + 1, v[k].len, false);
    }
  }

  lemma UnmergedIsAll(q: Limits, v: seq<Vec>)
    ensures Count(q, true, v) == |v|
  {
    if v != [] {
      UnmergedCount(q, v, 1, v[0].len, false);
    }
  }

  // ----- merging requests

  lemma {:induction false} GreedyFromShift(q: Limits, a: seq<Vec>, b: seq<Vec>, k: nat, size: nat)
    requires 0 < k <= |b|
    ensures GreedyFrom(q, a + b, |a| + k, size) == GreedyFrom(q, b, k, size)
    decreases |b| - k
  {
    if k < |b| {
      assert (a + b)[|a| + k] == b[k] && (a + b)[|a| + k - 1] == b[k - 1];
      GreedyFromShift(q, a, b, k + 1, size + b[k].len);
      GreedyFromShift(q, a, b, k + 1, b[k].len);
    }
  }

  lemma {:induction false} GreedyLossAtMostOne(q: Limits, v: seq<Vec>, k: nat, size: nat, size': nat)
    requires 0 < k <= |v|
    ensures GreedyFrom(q, v, k, size) <= GreedyFrom(q, v, k, size') + 1
    ensures size <= size' ==> GreedyFrom(q, v, k, size) <= GreedyFrom(q, v, k, size')
    decreases |v| - k
  {
    if k < |v| {
      var l := v[k].len;
      var mine := if Fits(q, v[k - 1], v[k], size) then size + l else l;
      var theirs := if Fits(q, v[k - 1], v[k], size') then size' + l else l;
      GreedyLossAtMostOne(q, v, k + 1, mine, theirs);
    }
  }

  lemma {:induction false} GreedyFromConcat(q: Limits, a: seq<Vec>, b: seq<Vec>, k: nat, size: nat)
    requires 0 < k <= |a|
    ensures GreedyFrom(q, a + b, k, size) <= GreedyFrom(q, a, k, size) + Greedy(q, b)
    decreases |a| - k
  {
    var v := a + b;
    if k < |a| {
      assert v[k] == a[k] && v[k - 1] == a[k - 1];
      GreedyFromConcat(q, a, b, k + 1, size + a[k].len);
      GreedyFromConcat(q, a, b, k + 1, a[k].len);
    } else if b == [] {
      assert v == a;
    } else {
      assert v[k] == b[0];
      GreedyFromShift(q, a, b, 1, b[0].len);
      GreedyLossAtMostOne(q, v, k + 1, size + b[0].len, b[0].len);
    }
  }

  /** Mapping two requests as one never takes more segments than mapping them separately. */
  lemma GreedySubadditive(q: Limits, a: seq<Vec>, b: seq<Vec>)
    ensures Greedy(q, a + b) <= Greedy(q, a) + Greedy(q, b)
  {
    if a == [] {
      assert a + b == b;
    } else {
      assert (a + b)[0] == a[0];
      GreedyFromConcat(q, a, b, 1, a[0].len);
    }
  }

  /** A bio: the vectors still to do, and what blk_recount_segments() takes for their number. */
  datatype Bio = Bio(vecs: seq<Vec>, cloned: bool, vcnt: nat)
  {
    /** The vectors to do are among the bi_vcnt of the bio itself. */
    predicate Valid() { cloned || |vecs| <= vcnt }

    function SegCnt(): nat { if cloned then |vecs| else vcnt }
  }

  /** bi_phys_segments as set by blk_recount_segments(), which decides for each bio whether to look at its vectors. */
  function BioSegments(q: Limits, kind: Kind, bio: Bio): nat
  {
    if q.noSgMerge && bio.SegCnt() < q.maxSegments then bio.SegCnt()
    else if kind == Normal then Count(q, false, bio.vecs)
    else 1
  }

  /** A request built from bios by front and back merges and from requests, each merge adding the counts. */
  datatype Built =
    | One(bio: Bio)
    | Back(req: Built, bio: Bio)
    | Front(bio: Bio, req: Built)
    | Both(req: Built, next: Built)
  {
    predicate Valid()
    {
      match this
      case One(b) => b.Valid()
      case Back(r, b) => r.Valid() && b.Valid()
      case Front(b, r) => b.Valid() && r.Valid()
      case Both(r, n) => r.Valid() && n.Valid()
    }

    /** rq->bio. */
    function First(): Bio
    {
      match this
      case One(b) => b
      case Back(r, b) => r.First()
      case Front(b, r) => b
      case Both(r, n) => r.First()
    }
  }

  function Vecs(b: Built): seq<Vec>
  {
    match b
    case One(v) => v.vecs
    case Back(r, v) => Vecs(r) + v.vecs
    case Front(v, r) => v.vecs + Vecs(r)
    case Both(r, n) => Vecs(r) + Vecs(n)
  }

  /** nr_phys_segments: set for each bio, summed over merges (ll_new_hw_segment()). */
  function NrSegments(q: Limits, kind: Kind, b: Built): nat
  {
    match b
    case One(v) => BioSegments(q, kind, v)
    case Back(r, v) => NrSegments(q, kind, r) + BioSegments(q, kind, v)
    case Front(v, r) => NrSegments(q, kind, r) + BioSegments(q, kind, v)
    case Both(r, n) => NrSegments(q, kind, r) + NrSegments(q, kind, n)
  }

  /** The bios of a request in the order of its sectors. */
  function Bios(b: Built): seq<Bio>
  {
    match b
    case One(v) => [v]
    case Back(r, v) => Bios(r) + [v]
    case Front(v, r) => [v] + Bios(r)
    case Both(r, n) => Bios(r) + Bios(n)
  }

  function SumSegments(q: Limits, kind: Kind, l: seq<Bio>): nat
  {
    if l == [] then 0 else BioSegments(q, kind, l[0]) + SumSegments(q, kind, l[1..])
  }

  function AllVecs(l: seq<Bio>): seq<Vec> { if l == [] then [] else l[0].vecs + AllVecs(l[1..]) }

  lemma {:induction false} SumConcat(q: Limits, kind: Kind, a: seq<Bio>, b: seq<Bio>)
    ensures SumSegments(q, kind, a + b) == SumSegments(q, kind, a) + SumSegments(q, kind, b)
    ensures AllVecs(a + b) == AllVecs(a) + AllVecs(b)
  {
    if a == [] {
      assert a + b == b;
    } else {
      assert (a + b)[1..] == a[1..] + b;
      SumConcat(q, kind, a[1..], b);
    }
  }

  /** The count of a request depends only on its bios, not on how they were merged: it is theirs added up. */
  lemma {:induction false} SegmentsAdd(q: Limits, kind: Kind, b: Built)
    ensures NrSegments(q, kind, b) == SumSegments(q, kind, Bios(b)) && Vecs(b) == AllVecs(Bios(b))
  {
    hide BioSegments;
    match b
    case One(v) => assert [v][1..] == [];
    case Back(r, v) =>
      SegmentsAdd(q, kind, r);
      SumConcat(q, kind, Bios(r), [v]);
      assert [v][1..] == [];
    case Front(v, r) =>
      SegmentsAdd(q, kind, r);
      assert ([v] + Bios(r))[1..] == Bios(r);
    case Both(r, n) =>
      SegmentsAdd(q, kind, r);
      SegmentsAdd(q, kind, n);
      SumConcat(q, kind, Bios(r), Bios(n));
  }

  lemma {:induction false} GreedyFromAtMost(q: Limits, v: seq<Vec>, k: nat, size: nat)
    requires 0 < k <= |v|
    ensures GreedyFrom(q, v, k, size) <= |v| - k
    decreases |v| - k
  {
    if k < |v| {
      GreedyFromAtMost(q, v, k + 1, size + v[k].len);
      GreedyFromAtMost(q, v, k + 1, v[k].len);
    }
  }

  /** Looked at or only estimated, the count of a bio is enough for its mapping. */
  lemma BioFits(q: Limits, bio: Bio)
    requires bio.Valid()
    ensures Greedy(q, bio.vecs) <= BioSegments(q, Normal, bio)
  {
    if bio.vecs != [] {
      GreedyFromAtMost(q, bio.vecs, 1, bio.vecs[0].len);
    }
    MappingFits(q, false, bio.vecs);
  }

  /** However a request was merged together, its segment count bounds the entries its mapping fills. */
  lemma {:induction false} MergedMappingFits(q: Limits, b: Built)
    requires b.Valid()
    ensures Greedy(q, Vecs(b)) <= NrSegments(q, Normal, b)
  {
    match b
    case One(v) => BioFits(q, v);
    case Back(r, v) =>
      MergedMappingFits(q, r);
      BioFits(q, v);
      GreedySubadditive(q, Vecs(r), v.vecs);
    case Front(v, r) =>
      MergedMappingFits(q, r);
      BioFits(q, v);
      GreedySubadditive(q, v.vecs, Vecs(r));
    case Both(r, n) =>
      MergedMappingFits(q, r);
      MergedMappingFits(q, n);
      GreedySubadditive(q, Vecs(r), Vecs(n));
  }

  lemma {:induction false} FirstCounted(q: Limits, kind: Kind, b: Built)
    ensures BioSegments(q, kind, b.First()) <= NrSegments(q, kind, b)
    ensures b.Valid() ==> b.First().Valid()
  {
    match b
    case One(v) =>
    case Back(r, v) => FirstCounted(q, kind, r);
    case Front(v, r) =>
    case Both(r, n) => FirstCounted(q, kind, r);
  }

  // ----- the loops

  function Range(addr: nat, len: nat): (r: seq<nat>)
    ensures |r| == len
  {
    seq(len, i => addr + i)
  }

  /** The physical bytes of a list of vectors, in order. */
  function VecBytes(v: seq<Vec>): seq<nat>
  {
    if v == [] then [] else VecBytes(v[..|v| - 1]) + Range(v[|v| - 1].addr, v[|v| - 1].len)
  }

  function SgBytes(s: seq<Sg>): seq<nat>
  {
    if s == [] then [] else SgBytes(s[..|s| - 1]) + Range(s[|s| - 1].addr, s[|s| - 1].len)
  }

  lemma RangeConcat(addr: nat, a: nat, b: nat)
    ensures Range(addr, a) + Range(addr + a, b) == Range(addr, a + b)
  {
  }

  lemma VecBytesSnoc(v: seq<Vec>, k: nat)
    requires k < |v|
    ensures VecBytes(v[..k + 1]) == VecBytes(v[..k]) + Range(v[k].addr, v[k].len)
  {
    assert v[..k + 1][..k] == v[..k];
  }

  lemma SgBytesSnoc(s: seq<Sg>, x: Sg)
    ensures SgBytes(s + [x]) == SgBytes(s) + Range(x.addr, x.len)
  {
    assert (s + [x])[..|s|] == s;
  }

  /** An entry is within the size limit, or is one vector that already was not. */
  ghost predicate SizeOk(q: Limits, v: seq<Vec>, s: Sg)
  {
    s.len <= q.maxSize || exists k :: 0 <= k < |v| && s == Sg(v[k].addr, v[k].len)
  }

  /** The bytes from addr on lie in one boundary window. */
  predicate InWindow(q: Limits, addr: nat, len: nat) { q.window > 0 && addr / q.window == (addr + len - 1) / q.window }

  /** An entry of several vectors keeps to one window. */
  ghost predicate WindowOk(q: Limits, v: seq<Vec>, s: Sg)
  {
    InWindow(q, s.addr, s.len) || exists k :: 0 <= k < |v| && s == Sg(v[k].addr, v[k].len)
  }

  predicate NonEmpty(v: seq<Vec>) { forall k :: 0 <= k < |v| ==> v[k].len > 0 }

  lemma WindowMono(q: Limits, a: nat, b: nat, c: nat)
    requires q.window > 0 && a <= b <= c && a / q.window == c / q.window
    ensures b / q.window == a / q.window
  {
    DivMono(a, b, q.window);
    DivMono(b, c, q.window);
  }

  /** Two vectors may share a segment exactly if they adjoin, fit together, and every byte of both lies in one window. */
  lemma FitsMeans(q: Limits, a: Vec, b: Vec, size: nat)
    requires a.len > 0 && b.len > 0 && q.window > 0
    ensures Fits(q, a, b, size) <==>
            && q.cluster && size + b.len <= q.maxSize && a.addr + a.len == b.addr
            && forall x :: a.addr <= x < b.addr + b.len ==> x / q.window == a.addr / q.window
  {
    if Fits(q, a, b, size) {
      forall x | a.addr <= x < b.addr + b.len
        ensures x / q.window == a.addr / q.window
      {
        WindowMono(q, a.addr, x, b.addr + b.len - 1);
      }
    }
  }

  /** __blk_bios_map_sg(): the entries cover exactly the bytes of the request, in order, with as few as possible. */
  method MapSg(q: Limits, v: seq<Vec>) returns (sgs: seq<Sg>)
    ensures |sgs| == Greedy(q, v)
    ensures SgBytes(sgs) == VecBytes(v)
    ensures forall i :: 0 <= i < |sgs| ==> SizeOk(q, v, sgs[i])
    ensures NonEmpty(v) ==> forall i :: 0 <= i < |sgs| ==> WindowOk(q, v, sgs[i])
  {
    hide Range, VecBytes, SgBytes, GreedyFrom;
    sgs := [];
    NoBytes(v);
    var k := 0;
    while k < |v|
      invariant 0 <= k <= |v| && (k == 0 <==> sgs == [])
      invariant k > 0 ==> Greedy(q, v) == |sgs| + GreedyFrom(q, v, k, sgs[|sgs| - 1].len)
      invariant k > 0 ==> sgs[|sgs| - 1].addr + sgs[|sgs| - 1].len == v[k - 1].addr + v[k - 1].len
      invariant SgBytes(sgs) == VecBytes(v[..k])
      invariant forall i :: 0 <= i < |sgs| ==> SizeOk(q, v, sgs[i])
      invariant NonEmpty(v) ==> forall i :: 0 <= i < |sgs| ==> WindowOk(q, v, sgs[i])
      invariant NonEmpty(v) && k > 0 && q.window > 0 ==> sgs[|sgs| - 1].addr / q.window == v[k - 1].addr / q.window
    {
      VecBytesSnoc(v, k);
      if k > 0 {
        GreedyStep(q, v, k, sgs[|sgs| - 1].len);
      }
      if k > 0 && q.cluster && sgs[|sgs| - 1].len + v[k].len <= q.maxSize && Adjacent(v[k - 1], v[k]) && SameWindow(q, v[k - 1], v[k]) {
        var last := sgs[|sgs| - 1];
        var rest := sgs[..|sgs| - 1];
        var grown := Sg(last.addr, last.len + v[k].len);
        if NonEmpty(v) {
          WindowMono(q, v[k - 1].addr, v[k].addr, v[k].addr + v[k].len - 1);
        }
        assert sgs == rest + [last];
        GrowBytes(rest, last, v[k].len);
        sgs := rest + [grown];
      } else {
        SgBytesSnoc(sgs, Sg(v[k].addr, v[k].len));
        sgs := sgs + [Sg(v[k].addr, v[k].len)];
      }
      k := k + 1;
    }
    assert v[..|v|] == v;
    if v != [] {
      GreedyStops(q, v, sgs[|sgs| - 1].len);
    }
  }

  lemma GreedyStops(q: Limits, v: seq<Vec>, size: nat)
    requires v != []
    ensures GreedyFrom(q, v, |v|, size) == 0
  {
  }

  lemma NoBytes(v: seq<Vec>)
    ensures SgBytes([]) == VecBytes(v[..0])
  {
  }

  lemma GreedyStep(q: Limits, v: seq<Vec>, k: nat, size: nat)
    requires 0 < k < |v|
    ensures GreedyFrom(q, v, k, size) ==
            if Fits(q, v[k - 1], v[k], size) then GreedyFrom(q, v, k + 1, size + v[k].len) else 1 + GreedyFrom(q, v, k + 1, v[k].len)
  {
  }

  /** Lengthening the last entry adds the bytes behind it. */
  lemma GrowBytes(rest: seq<Sg>, last: Sg, n: nat)
    ensures SgBytes(rest + [Sg(last.addr, last.len + n)]) == SgBytes(rest + [last]) + Range(last.addr + last.len, n)
  {
    hide Range, SgBytes;
    SgBytesSnoc(rest, last);
    SgBytesSnoc(rest, Sg(last.addr, last.len + n));
    RangeConcat(last.addr, last.len, n);
    assert SgBytes(rest) + (Range(last.addr, last.len) + Range(last.addr + last.len, n)) ==
           SgBytes(rest) + Range(last.addr, last.len) + Range(last.addr + last.len, n);
  }

  /** __blk_recalc_rq_segments(). */
  method RecalcSegments(q: Limits, noMerge: bool, kind: Kind, v: seq<Vec>) returns (n: nat)
    ensures kind == Normal ==> n == Count(q, noMerge, v)
    ensures kind != Normal ==> n == 1
  {
    if kind != Normal {
      return 1;
    }
    n := 0;
    var size: nat, highPrev := 0, true;
    var k := 0;
    while k < |v|
      invariant 0 <= k <= |v| && (k == 0 <==> n == 0) && (k == 0 ==> highPrev)
      invariant k > 0 ==> Count(q, noMerge, v) == n + CountFrom(q, noMerge, v, k, size, highPrev)
    {
      var high := !noMerge && v[k].high;
      if !noMerge && !high && !highPrev && q.cluster && size + v[k].len <= q.maxSize && Adjacent(v[k - 1], v[k]) && SameWindow(q, v[k - 1], v[k]) {
        size := size + v[k].len;
      } else {
        n := n + 1;
        size := v[k].len;
        highPrev := high;
      }
      k := k + 1;
    }
  }

  /** blk_recount_segments(). */
  method RecountSegments(q: Limits, kind: Kind, bio: Bio) returns (n: nat)
    requires bio.Valid()
    ensures n == BioSegments(q, kind, bio)
    ensures kind == Normal ==> Greedy(q, bio.vecs) <= n
  {
    if q.noSgMerge && bio.SegCnt() < q.maxSegments {
      n := bio.SegCnt();
    } else {
      n := RecalcSegments(q, false, kind, bio.vecs);
    }
    BioFits(q, bio);
  }

  /** The segments a driver makes room for: blk_add_request_payload() sets the count to one. */
  function Room(q: Limits, kind: Kind, b: Built): nat
  {
    if kind.Discard? && kind.payload.Some? then 1 else NrSegments(q, kind, b)
  }

  /** blk_rq_map_sg() for every kind of request, merged or not: the driver's table is not overrun. */
  method MapRequest(q: Limits, kind: Kind, b: Built) returns (sgs: seq<Sg>)
    requires b.Valid() && (kind == WriteSame ==> b.First().vecs != [])
    ensures |sgs| <= Room(q, kind, b)
    ensures kind == Normal ==> SgBytes(sgs) == VecBytes(Vecs(b)) && |sgs| == Greedy(q, Vecs(b))
    ensures kind.Discard? ==> sgs == if kind.payload.Some? then [Sg(kind.payload.value.addr, kind.payload.value.len)] else []
    ensures kind == WriteSame ==> sgs == [Sg(b.First().vecs[0].addr, b.First().vecs[0].len)]
  {
    match kind {
      case Normal =>
        sgs := MapSg(q, Vecs(b));
        MergedMappingFits(q, b);
      case Discard(payload) =>
        sgs := if payload.Some? then [Sg(payload.value.addr, payload.value.len)] else [];
      case WriteSame =>
        sgs := [Sg(b.First().vecs[0].addr, b.First().vecs[0].len)];
        FirstCounted(q, kind, b);
    }
  }
}
