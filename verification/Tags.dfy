/**
 The bitmap tag allocator, kernel/block/blk-mq-tag.c, for a fixed depth.

 Tags live in several words (sequences of busy bits); a per-cpu hint says where to search first. The allocator refines
 a plain set of taken tags.
 */
module Tags {
  import opened Arith
  import opened Basics

  type Word = seq<bool>

  const BITS_PER_LONG: nat := 64

  // ----- layout

  /** depth tags over words of tpw bits each, the last one shorter if need be. */
  predicate Layout(words: seq<Word>, tpw: nat, depth: nat)
  {
    && tpw > 0
    && (forall i :: 0 <= i < |words| ==> i * tpw < depth && |words[i]| == Min(tpw, depth - i * tpw))
    && depth <= |words| * tpw
  }

  /** Every tag below the depth has its own bit, and every bit is a tag below the depth. */
  lemma TagHasBit(words: seq<Word>, tpw: nat, depth: nat, tag: nat)
    requires Layout(words, tpw, depth)
    ensures tag < depth <==> tag / tpw < |words| && tag % tpw < |words[tag / tpw]|
  {
    var i, b := tag / tpw, tag % tpw;
    assert tag == i * tpw + b;
    if i >= |words| {
      MulMono(|words|, i, tpw);
    }
  }

  lemma BitIsTag(words: seq<Word>, tpw: nat, depth: nat, i: nat, b: nat)
    requires Layout(words, tpw, depth) && i < |words| && b < |words[i]|
    ensures i * tpw + b < depth && (i * tpw + b) / tpw == i && (i * tpw + b) % tpw == b
  {
    QuotientUnique(i * tpw + b, tpw, i, b);
  }

  predicate Busy(words: seq<Word>, tpw: nat, tag: nat)
    requires tpw > 0
  {
    tag / tpw < |words| && tag % tpw < |words[tag / tpw]| && words[tag / tpw][tag % tpw]
  }

  /** The abstract allocator: the set of tags in use. */
  function Taken(words: seq<Word>, tpw: nat, depth: nat): set<nat>
    requires tpw > 0
  {
    set t | 0 <= t < depth && Busy(words, tpw, t)
  }

  lemma BusyAfter(words: seq<Word>, tpw: nat, i: nat, b: nat, v: bool, t: nat)
    requires i < |words| && b < |words[i]| && b < tpw
    ensures Busy(words[i := words[i][b := v]], tpw, t) == (if t == i * tpw + b then v else Busy(words, tpw, t))
  {
    QuotientUnique(i * tpw + b, tpw, i, b);
    assert t == t / tpw * tpw + t % tpw;
  }

  lemma SetBitLayout(words: seq<Word>, tpw: nat, depth: nat, i: nat, b: nat, v: bool)
    requires Layout(words, tpw, depth) && i < |words| && b < |words[i]|
    ensures Layout(words[i := words[i][b := v]], tpw, depth) && b < tpw && i * tpw + b < depth
  {
  }

  /** Changing one bit changes one tag. */
  lemma SetBit(words: seq<Word>, tpw: nat, depth: nat, i: nat, b: nat, v: bool)
    requires Layout(words, tpw, depth) && i < |words| && b < |words[i]|
    ensures tpw > 0
    ensures var words' := words[i := words[i][b := v]];
            && Layout(words', tpw, depth)
            && Taken(words', tpw, depth) == (if v then Taken(words, tpw, depth) + {i * tpw + b} else Taken(words, tpw, depth) - {i * tpw + b})
  {
    hide Busy, Layout;
    SetBitLayout(words, tpw, depth, i, b, v);
    var words' := words[i := words[i][b := v]];
    forall t | 0 <= t < depth
      ensures Busy(words', tpw, t) == (if t == i * tpw + b then v else Busy(words, tpw, t))
    {
      BusyAfter(words, tpw, i, b, v, t);
    }
  }

  /** The bit of a tag says whether the tag is taken. */
  lemma TakenBit(words: seq<Word>, tpw: nat, depth: nat, tag: nat)
    requires Layout(words, tpw, depth) && tag < depth
    ensures tag / tpw < |words| && tag % tpw < |words[tag / tpw]|
    ensures tag in Taken(words, tpw, depth) <==> words[tag / tpw][tag % tpw]
    ensures tag == tag / tpw * tpw + tag % tpw
  {
    TagHasBit(words, tpw, depth, tag);
  }

  lemma BitTaken(words: seq<Word>, tpw: nat, depth: nat, i: nat, b: nat)
    requires Layout(words, tpw, depth) && i < |words| && b < |words[i]|
    ensures i * tpw + b < depth && (i * tpw + b in Taken(words, tpw, depth) <==> words[i][b])
  {
    BitIsTag(words, tpw, depth, i, b);
  }

  lemma NoEmptyWord(words: seq<Word>, tpw: nat, depth: nat)
    requires Layout(words, tpw, depth)
    ensures forall i :: 0 <= i < |words| ==> |words[i]| > 0
    ensures |words| == 0 <==> depth == 0
  {
    assert |words| > 0 ==> |words[0]| > 0;
  }

  // ----- one word

  /** find_next_zero_bit(): the first clear bit at or after `from` below end, or end. */
  function NextZero(w: Word, end: nat, from: nat): (r: nat)
    requires end <= |w|
    ensures from <= end ==> from <= r <= end
    ensures r < end ==> from <= r && !w[r]
    ensures forall k :: from <= k < r && k < end ==> w[k]
    decreases end - from
  {
    if from >= end then end
    else if !w[from] then from
    else NextZero(w, end, from + 1)
  }

  predicate Full(w: Word) { forall k :: 0 <= k < |w| ==> w[k] }

  /** __bt_get_word() without interference: a clear bit if there is one, searched from `last` around. */
  method GetWord(w: Word, last: nat) returns (w': Word, tag: Option<nat>)
    requires last < |w|
    ensures tag.None? <==> Full(w)
    ensures tag.None? ==> w' == w
    ensures tag.Some? ==> tag.value < |w| && !w[tag.value] && w' == w[tag.value := true]
    ensures tag.Some? && !w[last] ==> tag.value == last
  {
    var from, end, wrap := last, |w|, last != 0;
    while true
      invariant 0 <= from <= end <= |w|
      invariant wrap ==> from == last && end == |w|
      invariant !wrap ==> from == 0
      invariant !wrap && last != 0 ==> end == last && (forall k :: last <= k < |w| ==> w[k])
      invariant !wrap && last == 0 ==> end == |w|
      decreases wrap
    {
      var t := NextZero(w, end, from);
      if t >= end {
        if wrap {
          wrap, end, from := false, last, 0;
        } else {
          return w, None;
        }
      } else {
        // test_and_set_bit() finds the bit clear
        return w[t := true], Some(t);
      }
    }
  }

  // ----- the allocator

  ghost predicate AllFull(words: seq<Word>) { forall i :: 0 <= i < |words| ==> Full(words[i]) }

  ghost predicate AllTaken(taken: set<nat>, depth: nat) { forall t :: 0 <= t < depth ==> t in taken }

  /** All words full is all tags taken. */
  lemma FullMeansTaken(words: seq<Word>, tpw: nat, depth: nat)
    requires Layout(words, tpw, depth)
    ensures AllFull(words) <==> AllTaken(Taken(words, tpw, depth), depth)
  {
    hide Busy, Taken, AllFull, AllTaken;
    if AllFull(words) {
      FullTakes(words, tpw, depth);
    }
    if AllTaken(Taken(words, tpw, depth), depth) {
      TakenFills(words, tpw, depth);
    }
  }

  lemma FullTakes(words: seq<Word>, tpw: nat, depth: nat)
    requires tpw > 0 && Layout(words, tpw, depth) && AllFull(words)
    ensures AllTaken(Taken(words, tpw, depth), depth)
  {
    hide Busy, Taken, Layout;
    forall t | 0 <= t < depth
      ensures t in Taken(words, tpw, depth)
    {
      TakenBit(words, tpw, depth, t);
      assert Full(words[t / tpw]);
    }
  }

  lemma TakenFills(words: seq<Word>, tpw: nat, depth: nat)
    requires tpw > 0 && Layout(words, tpw, depth) && AllTaken(Taken(words, tpw, depth), depth)
    ensures AllFull(words)
  {
    hide Busy, Taken, Layout;
    forall i, b | 0 <= i < |words| && 0 <= b < |words[i]|
      ensures words[i][b]
    {
      BitTaken(words, tpw, depth, i, b);
    }
  }

  /** Words seen after i turns of a walk over n words that starts at `first` and wraps around. */
  predicate Visited(k: nat, first: nat, i: nat, n: nat) { first <= k < first + i || k + n < first + i }

  /** The loop of __bt_get(): word after word from `first` on, around to the word before it. */
  method Scan(words: seq<Word>, first: nat, last: nat) returns (w: Word, index: nat, bit: Option<nat>)
    requires first < |words| && last < |words[first]| && forall i :: 0 <= i < |words| ==> |words[i]| > 0
    ensures bit.None? <==> AllFull(words)
    ensures bit.Some? ==> index < |words| && bit.value < |words[index]| && !words[index][bit.value] && w == words[index][bit.value := true]
    ensures !words[first][last] ==> index == first && bit == Some(last)
  {
    index := first;
    var from, i := last, 0;
    while i < |words|
      invariant 0 <= i <= |words| && index < |words| && from < |words[index]|
      invariant index == first + i - (if first + i < |words| then 0 else |words|)
      invariant from == if i == 0 then last else 0
      invariant forall k :: 0 <= k < |words| && Visited(k, first, i, |words|) ==> Full(words[k])
    {
      w, bit := GetWord(words[index], from);
      if bit.Some? {
        assert !Full(words[index]);
        if i > 0 {
          assert Visited(first, first, i, |words|);
        }
        return;
      }
      from := 0;
      index := if index + 1 >= |words| then 0 else index + 1;
      i := i + 1;
    }
    assert forall k :: 0 <= k < |words| ==> Visited(k, first, i, |words|);
    w, bit := [], None;
  }

  predicate PowerOfTwo(n: nat) { n in {1, 2, 4, 8, 16, 32, 64} }

  /** bt_alloc(): the largest power of two that leaves at least four words, or a whole word when there are few tags. */
  method TagsPerWord(depth: nat) returns (t: nat)
    ensures 1 <= t <= BITS_PER_LONG && PowerOfTwo(t)
    ensures depth >= 4 ==> t * 4 <= depth && (t < BITS_PER_LONG ==> 2 * t * 4 > depth)
    ensures depth < 4 ==> t == BITS_PER_LONG
  {
    t := BITS_PER_LONG;
    if depth >= 4 {
      while t * 4 > depth
        invariant 1 <= t <= BITS_PER_LONG && PowerOfTwo(t)
        invariant t < BITS_PER_LONG ==> 2 * t * 4 > depth
        decreases t
      {
        t := t / 2;
      }
    }
  }

  ghost predicate Blank(words: seq<Word>) { forall i, b :: 0 <= i < |words| && 0 <= b < |words[i]| ==> !words[i][b] }

  /** bt_update_count() on zeroed memory. */
  method BlankMap(t: nat, depth: nat) returns (ws: seq<Word>)
    requires t > 0
    ensures Layout(ws, t, depth) && Blank(ws)
  {
    ws := [];
    var left := depth;
    while left > 0
      invariant 0 <= left <= depth && left == (if |ws| * t < depth then depth - |ws| * t else 0)
      invariant forall i :: 0 <= i < |ws| ==> i * t < depth && |ws[i]| == Min(t, depth - i * t)
      invariant Blank(ws)
    {
      var n := Min(left, t);
      assert (|ws| + 1) * t == |ws| * t + t;
      ws := ws + [seq(n, _ => false)];
      left := left - n;
    }
  }

  lemma BlankIsFree(words: seq<Word>, tpw: nat, depth: nat)
    requires Blank(words) && tpw > 0
    ensures Taken(words, tpw, depth) == {}
  {
    forall t | 0 <= t < depth
      ensures !Busy(words, tpw, t)
    {
    }
  }

  lemma AtLeastFour(words: seq<Word>, tpw: nat, depth: nat)
    requires Layout(words, tpw, depth) && (depth >= 4 ==> tpw * 4 <= depth)
    ensures depth >= 4 ==> |words| >= 4
  {
    if |words| < 4 {
      MulMono(|words|, 3, tpw);
    }
  }

  class BitmapTags {
    var words: seq<Word>
    const tpw: nat
    const depth: nat

    ghost predicate Valid()
      reads this
    {
      tpw > 0 && Layout(words, tpw, depth)
    }

    ghost function Used(): (u: set<nat>)
      requires Valid()
      reads this
      ensures forall t :: t in u ==> t < depth
    {
      Taken(words, tpw, depth)
    }

    /** bt_alloc() and bt_update_count(): from four tags on, they are spread over at least four words. */
    constructor (depth: nat)
      ensures Valid() && this.depth == depth && Used() == {}
      ensures depth >= 4 ==> |words| >= 4
    {
      var t := TagsPerWord(depth);
      var ws := BlankMap(t, depth);
      this.depth, tpw, words := depth, t, ws;
      new;
      BlankIsFree(words, tpw, depth);
      AtLeastFour(words, tpw, depth);
    }

    /** __bt_get() without interference: takes some free tag, the hinted one if it can, and fails only when there is none. */
    method Get(mayQueue: bool, hint: nat) returns (tag: Option<nat>, hint': nat)
      requires Valid() && (hint < depth || depth == 0)
      modifies `words
      ensures Valid() && (hint' < depth || depth == 0)
      ensures tag.None? <==> !mayQueue || AllTaken(old(Used()), depth)
      ensures tag.None? ==> words == old(words)
      ensures tag.Some? ==> tag.value < depth && tag.value !in old(Used()) && Used() == old(Used()) + {tag.value}
      ensures mayQueue && hint < depth && hint !in old(Used()) ==> tag == Some(hint)
      ensures mayQueue && tag.None? ==> hint' == 0
      ensures mayQueue && tag.Some? && hint in old(Used()) ==> hint' == hint
      ensures tag == Some(hint) ==> hint' == if hint + 2 >= depth then 0 else hint + 1
    {
      hide Layout, Busy, Taken, Full, AllFull;
      if !mayQueue {
        return None, hint;
      }
      FullMeansTaken(words, tpw, depth);
      NoEmptyWord(words, tpw, depth);
      if depth == 0 {
        return None, 0;
      }
      TakenBit(words, tpw, depth, hint);
      var w, index, bit := Scan(words, hint / tpw, hint % tpw);
      if bit.None? {
        return None, 0;
      }
      SetBit(words, tpw, depth, index, bit.value, true);
      BitTaken(words, tpw, depth, index, bit.value);
      words := words[index := w];
      tag, hint' := Some(index * tpw + bit.value), hint;
      if tag.value == hint {
        hint' := if hint + 1 >= depth - 1 then 0 else hint + 1;
      }
    }

    /** bt_clear_tag(). */
    method Put(tag: nat)
      requires Valid() && tag < depth
      modifies `words
      ensures Valid() && Used() == old(Used()) - {tag}
    {
      hide Layout, Busy, Taken;
      TakenBit(words, tpw, depth, tag);
      SetBit(words, tpw, depth, tag / tpw, tag % tpw, false);
      words := words[tag / tpw := words[tag / tpw][tag % tpw := false]];
    }
  }

  // ----- normal and reserved tags

  ghost function Shift(n: set<nat>, k: nat): set<nat> { set t | t in n :: t + k }

  lemma ShiftIn(n: set<nat>, k: nat, x: nat)
    ensures x in Shift(n, k) <==> x >= k && x - k in n
  {
    if x >= k && x - k in n {
      assert (x - k) + k in Shift(n, k);
    }
  }

  lemma ShiftAdd(n: set<nat>, k: nat, t: nat)
    ensures Shift(n + {t}, k) == Shift(n, k) + {t + k} && Shift(n - {t}, k) == Shift(n, k) - {t + k}
    ensures t + k in Shift(n, k) <==> t in n
  {
    forall x: nat
      ensures x in Shift(n + {t}, k) <==> x in Shift(n, k) + {t + k}
      ensures x in Shift(n - {t}, k) <==> x in Shift(n, k) - {t + k}
    {
      ShiftIn(n + {t}, k, x);
      ShiftIn(n - {t}, k, x);
      ShiftIn(n, k, x);
    }
    ShiftIn(n, k, t + k);
  }

  /** struct blk_mq_tags: reserved tags come first, normal tags after them. */
  class BlkMqTags {
    const nrTags: nat
    const nrReserved: nat
    const normal: BitmapTags
    const reserve: BitmapTags

    ghost predicate Valid()
      reads this, normal, reserve
    {
      && normal != reserve && nrReserved <= nrTags
      && normal.Valid() && normal.depth == nrTags - nrReserved
      && reserve.Valid() && reserve.depth == nrReserved
    }

    /** Tags in use, in the numbering that drivers see. */
    ghost function Used(): set<nat>
      requires Valid()
      reads this, normal, reserve
    {
      reserve.Used() + Shift(normal.Used(), nrReserved)
    }

    /** blk_mq_init_tags() for a depth within the limit. */
    constructor (total: nat, reserved: nat)
      requires reserved <= total
      ensures Valid() && nrTags == total && nrReserved == reserved && Used() == {} && fresh(normal) && fresh(reserve)
    {
      nrTags, nrReserved := total, reserved;
      normal := new BitmapTags(total - reserved);
      reserve := new BitmapTags(reserved);
    }

    /** __blk_mq_get_reserved_tag(). */
    method GetReserved() returns (tag: Option<nat>)
      requires Valid()
      modifies reserve
      ensures Valid()
      ensures tag.None? <==> AllTaken(old(reserve.Used()), nrReserved)
      ensures tag.None? ==> Used() == old(Used())
      ensures tag.Some? ==> tag.value < nrReserved && tag.value !in old(Used()) && Used() == old(Used()) + {tag.value}
    {
      hide BitmapTags.Valid, BitmapTags.Used, Shift;
      if nrReserved == 0 {
        return None;
      }
      var zero;
      tag, zero := reserve.Get(true, 0);
      if tag.Some? {
        ShiftIn(normal.Used(), nrReserved, tag.value);
      }
    }

    /** __blk_mq_get_tag(). */
    method GetNormal(mayQueue: bool, hint: nat) returns (tag: Option<nat>, hint': nat)
      requires Valid() && (hint < nrTags - nrReserved || nrTags == nrReserved)
      modifies normal
      ensures Valid() && (hint' < nrTags - nrReserved || nrTags == nrReserved)
      ensures tag.None? <==> !mayQueue || AllTaken(old(normal.Used()), nrTags - nrReserved)
      ensures tag.None? ==> Used() == old(Used())
      ensures tag.Some? ==> nrReserved <= tag.value < nrTags && tag.value !in old(Used()) && Used() == old(Used()) + {tag.value}
    {
      hide BitmapTags.Valid, BitmapTags.Used, Shift;
      var t;
      t, hint' := normal.Get(mayQueue, hint);
      if t.Some? {
        ShiftAdd(old(normal.Used()), nrReserved, t.value);
      }
      tag := if t.Some? then Some(t.value + nrReserved) else None;
    }

    /** blk_mq_get_tag() without sleeping: a reserved tag lies below nrReserved, a normal one from there on. */
    method GetTag(reserved: bool, mayQueue: bool, hint: nat) returns (tag: Option<nat>, hint': nat)
      requires Valid() && (hint < nrTags - nrReserved || nrTags == nrReserved)
      modifies normal, reserve
      ensures Valid() && (hint' < nrTags - nrReserved || nrTags == nrReserved)
      ensures reserved ==> hint' == hint && (tag.None? <==> AllTaken(old(reserve.Used()), nrReserved))
      ensures !reserved ==> (tag.None? <==> !mayQueue || AllTaken(old(normal.Used()), nrTags - nrReserved))
      ensures tag.None? ==> Used() == old(Used())
      ensures tag.Some? ==> tag.value < nrTags && (tag.value < nrReserved <==> reserved)
      ensures tag.Some? ==> tag.value !in old(Used()) && Used() == old(Used()) + {tag.value}
    {
      hide BitmapTags.Valid, BitmapTags.Used, Used;
      if !reserved {
        tag, hint' := GetNormal(mayQueue, hint);
      } else {
        hint' := hint;
        tag := GetReserved();
      }
    }

    /** blk_mq_put_tag(): the hint becomes the tag given back, if it is a normal one. */
    method PutTag(tag: nat, hint: nat) returns (hint': nat)
      requires Valid() && tag in Used()
      modifies normal, reserve
      ensures Valid() && Used() == old(Used()) - {tag}
      ensures tag >= nrReserved ==> hint' == tag - nrReserved < nrTags - nrReserved
      ensures tag < nrReserved ==> hint' == hint
    {
      hide BitmapTags.Valid, BitmapTags.Used, Shift;
      ShiftIn(normal.Used(), nrReserved, tag);
      if tag >= nrReserved {
        ShiftAdd(normal.Used(), nrReserved, tag - nrReserved);
        normal.Put(tag - nrReserved);
        hint' := tag - nrReserved;
      } else {
        reserve.Put(tag);
        hint' := hint;
      }
    }
  }
}
