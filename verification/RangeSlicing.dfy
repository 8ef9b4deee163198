/**
 * The partition of the key space over the servers, and the slicing of a request by it,
 * worker/simple_range_manager.hpp.  Keys come sorted; a key may come more than once.
 */
module RangeSlicing {
  import opened Basics

  /** The keys from begin up to end. */
  datatype Range = Range(begin: nat, end: nat)

  datatype KVPairs = KVPairs(keys: seq<nat>, vals: seq<int>)

  /** The part of a request that goes to one server. */
  datatype Sliced = Sliced(server: nat, kvs: KVPairs)

  /** The ranges and the thread ids of their servers. */
  datatype Partition = Partition(ranges: seq<Range>, ids: seq<nat>)

  /** What the constructor checks, and what the loop takes for granted: there is a server. */
  ghost predicate Valid(p: Partition) {
    |p.ids| == |p.ranges| > 0
  }

  ghost predicate Contiguous(ranges: seq<Range>) {
    && (forall i :: 0 <= i < |ranges| ==> ranges[i].begin <= ranges[i].end)
    && (forall i :: 0 <= i < |ranges| - 1 ==> ranges[i].end == ranges[i + 1].begin)
  }

  ghost predicate Sorted(keys: seq<nat>) {
    forall i, j :: 0 <= i <= j < |keys| ==> keys[i] <= keys[j]
  }

  ghost predicate InRange(r: Range, key: nat) {
    r.begin <= key < r.end
  }

  ghost predicate AllInRange(r: Range, keys: seq<nat>) {
    forall i :: 0 <= i < |keys| ==> InRange(r, keys[i])
  }

  /** The first position from `from` on with a key not below the bound. */
  function LowerBound(keys: seq<nat>, from: nat, bound: nat): (at: nat)
    requires from <= |keys|
    ensures from <= at <= |keys|
    ensures at < |keys| ==> keys[at] >= bound
    decreases |keys| - from
  {
    if from == |keys| || keys[from] >= bound then from else LowerBound(keys, from + 1, bound)
  }

  lemma {:induction false} LowerBoundIs(keys: seq<nat>, from: nat, bound: nat, at: nat)
    requires from <= at <= |keys|
    requires forall i :: from <= i < at ==> keys[i] < bound
    requires at < |keys| ==> keys[at] >= bound
    ensures LowerBound(keys, from, bound) == at
    decreases at - from
  {
    if from == at {
    } else {
      LowerBoundIs(keys, from + 1, bound, at);
    }
  }

  lemma {:induction false} BelowLowerBound(keys: seq<nat>, from: nat, bound: nat, i: nat)
    requires from <= |keys| && from <= i < LowerBound(keys, from, bound)
    ensures keys[i] < bound
    decreases i - from
  {
    if from == i {
    } else {
      BelowLowerBound(keys, from + 1, bound, i);
    }
  }

  // ---------------------------------------------------------------- slicing

  /** How many values go with one key. */
  function Ratio(kvs: KVPairs): nat
    requires kvs.keys != []
  {
    |kvs.vals| / |kvs.keys|
  }

  lemma RatioFits(kvs: KVPairs, i: nat, j: nat)
    requires kvs.keys != [] && i <= j <= |kvs.keys|
    ensures i * Ratio(kvs) <= j * Ratio(kvs) <= |kvs.vals|
  {
    var r := Ratio(kvs);
    assert |kvs.keys| * r <= |kvs.vals|;
    Grows(i, j, r);
    Grows(j, |kvs.keys|, r);
  }

  lemma Grows(i: nat, j: nat, r: nat)
    requires i <= j
    ensures i * r <= j * r
  {
    assert j * r - i * r == (j - i) * r;
  }

  /** The keys from position begin up to split, with their values. */
  function Segment(kvs: KVPairs, begin: nat, split: nat): KVPairs
    requires kvs.keys != [] && begin <= split <= |kvs.keys|
  {
    RatioFits(kvs, begin, split);
    KVPairs(kvs.keys[begin..split], kvs.vals[begin * Ratio(kvs)..split * Ratio(kvs)])
  }

  /** A segment carries every key with the values that go with it: the t-th value of its i-th key. */
  lemma ValuesStayWithKeys(kvs: KVPairs, begin: nat, split: nat, r: nat, i: nat, t: nat)
    requires kvs.keys != [] && begin + i < split <= |kvs.keys| && r == |kvs.vals| / |kvs.keys| && t < r
    ensures var s := Segment(kvs, begin, split);
            && |s.keys| == split - begin && s.keys[i] == kvs.keys[begin + i]
            && |s.vals| == (split - begin) * r && i * r + t < |s.vals| && (begin + i) * r + t < |kvs.vals|
            && s.vals[i * r + t] == kvs.vals[(begin + i) * r + t]
  {
    RatioFits(kvs, begin, split);
    Grows(begin + i + 1, split, r);
    Distributes(begin, i, r);
    Distributes(begin + i, 1, r);
    Distributes(begin, split - begin, r);
  }

  lemma Distributes(i: nat, j: nat, r: nat)
    ensures (i + j) * r == i * r + j * r
  {
  }

  /** The slices for the servers from i on, for the keys from position begin on. */
  function SlicesFrom(p: Partition, kvs: KVPairs, i: nat, begin: nat): seq<Sliced>
    requires |p.ids| == |p.ranges| && kvs.keys != [] && i <= |p.ranges| && begin <= |kvs.keys|
    decreases |p.ranges| - i
  {
    if i == |p.ranges| then []
    else
      var split := LowerBound(kvs.keys, begin, p.ranges[i].end);
      (if split > begin then [Sliced(p.ids[i], Segment(kvs, begin, split))] else []) + SlicesFrom(p, kvs, i + 1, split)
  }

  function Slices(p: Partition, kvs: KVPairs): seq<Sliced>
    requires |p.ids| == |p.ranges| > 0 && kvs.keys != []
  {
    SlicesFrom(p, kvs, 0, LowerBound(kvs.keys, 0, p.ranges[0].begin))
  }

  class SimpleRangePartitionManager {
    const ranges: seq<Range>
    const serverThreadIds: seq<nat>

    function Map(): Partition
    {
      Partition(ranges, serverThreadIds)
    }

    constructor (ranges: seq<Range>, serverThreadIds: seq<nat>)
      requires |ranges| == |serverThreadIds| > 0
      ensures Valid(Map()) && Map() == Partition(ranges, serverThreadIds)
    {
      this.ranges, this.serverThreadIds := ranges, serverThreadIds;
    }

    method Slice(send: KVPairs) returns (sliced: seq<Sliced>)
      requires Valid(Map()) && send.keys != []
      ensures sliced == Slices(Map(), send)
    {
      sliced := [];
      var begin := LowerBound(send.keys, 0, ranges[0].begin);
      var beginIdx := begin;
      var ratio := |send.vals| / |send.keys|;
      for i := 0 to |ranges|
        invariant begin == beginIdx <= |send.keys|
        invariant sliced + SlicesFrom(Map(), send, i, beginIdx) == Slices(Map(), send)
      {
        begin := LowerBound(send.keys, begin, ranges[i].end);
        var split := begin;
        ghost var before := sliced;
        if split > beginIdx {
          RatioFits(send, beginIdx, split);
          var kv := KVPairs(send.keys[beginIdx..split], send.vals[beginIdx * ratio..split * ratio]);
          sliced := sliced + [Sliced(serverThreadIds[i], kv)];
          Regroup(before, [Sliced(serverThreadIds[i], kv)], SlicesFrom(Map(), send, i + 1, split));
        } else {
          assert [] + SlicesFrom(Map(), send, i + 1, split) == SlicesFrom(Map(), send, i + 1, split);
        }
        beginIdx := split;
      }
    }
  }

  // ---------------------------------------------------------------- what each server gets

  function Cut(keys: seq<nat>, bound: nat): (at: nat)
    ensures at <= |keys|
  {
    LowerBound(keys, 0, bound)
  }

  lemma CutSplits(keys: seq<nat>, bound: nat)
    requires Sorted(keys)
    ensures forall i :: 0 <= i < |keys| ==> (i < Cut(keys, bound) <==> keys[i] < bound)
  {
    forall i | 0 <= i < |keys| ensures i < Cut(keys, bound) <==> keys[i] < bound {
      if i < Cut(keys, bound) {
        BelowLowerBound(keys, 0, bound, i);
      }
    }
  }

  /** A search that starts at an earlier cut finds the same position as one over all keys. */
  lemma CutFrom(keys: seq<nat>, lower: nat, bound: nat)
    requires Sorted(keys) && lower <= bound
    ensures Cut(keys, lower) <= Cut(keys, bound)
    ensures LowerBound(keys, Cut(keys, lower), bound) == Cut(keys, bound)
  {
    CutSplits(keys, lower);
    CutSplits(keys, bound);
    assert Cut(keys, bound) < |keys| ==> !(Cut(keys, bound) < Cut(keys, lower));
    LowerBoundIs(keys, Cut(keys, lower), bound, Cut(keys, bound));
  }

  /** The keys of a range are a contiguous piece of the request. */
  function Piece(keys: seq<nat>, r: Range): (int, int)
  {
    (Cut(keys, r.begin), Cut(keys, r.end))
  }

  lemma PieceInRange(keys: seq<nat>, r: Range)
    requires Sorted(keys) && r.begin <= r.end
    ensures Piece(keys, r).0 <= Piece(keys, r).1
    ensures forall i :: 0 <= i < |keys| ==> (Piece(keys, r).0 <= i < Piece(keys, r).1 <==> InRange(r, keys[i]))
  {
    CutFrom(keys, r.begin, r.end);
    CutSplits(keys, r.begin);
    CutSplits(keys, r.end);
  }

  /** The slices from server i on, when the search stands at the first key of its range. */
  lemma SlicesStep(p: Partition, kvs: KVPairs, i: nat)
    requires Valid(p) && Contiguous(p.ranges) && kvs.keys != [] && Sorted(kvs.keys) && i < |p.ranges|
    ensures var (b, e) := Piece(kvs.keys, p.ranges[i]);
            && 0 <= b <= e <= |kvs.keys|
            && SlicesFrom(p, kvs, i, b) ==
               (if e > b then [Sliced(p.ids[i], Segment(kvs, b, e))] else []) + SlicesFrom(p, kvs, i + 1, e)
  {
    CutFrom(kvs.keys, p.ranges[i].begin, p.ranges[i].end);
  }

  // ---------------------------------------------------------------- nothing lost, nothing twice

  function AllKeys(kvs: seq<KVPairs>): seq<nat>
  {
    if kvs == [] then [] else kvs[0].keys + AllKeys(kvs[1..])
  }

  function AllVals(kvs: seq<KVPairs>): seq<int>
  {
    if kvs == [] then [] else kvs[0].vals + AllVals(kvs[1..])
  }

  function Contents(sliced: seq<Sliced>): seq<KVPairs>
  {
    seq(|sliced|, i requires 0 <= i < |sliced| => sliced[i].kvs)
  }

  lemma ContentsCons(s: Sliced, rest: seq<Sliced>)
    ensures AllKeys(Contents([s] + rest)) == s.kvs.keys + AllKeys(Contents(rest))
    ensures AllVals(Contents([s] + rest)) == s.kvs.vals + AllVals(Contents(rest))
  {
    assert Contents([s] + rest)[1..] == Contents(rest);
  }

  function Last(ranges: seq<Range>): nat
    requires ranges != []
  {
    ranges[|ranges| - 1].end
  }

  lemma {:induction false} EndsGrow(ranges: seq<Range>, i: nat)
    requires Contiguous(ranges) && i < |ranges|
    ensures ranges[i].begin <= ranges[i].end <= Last(ranges)
    decreases |ranges| - i
  {
    if i == |ranges| - 1 {
    } else {
      EndsGrow(ranges, i + 1);
    }
  }

  lemma SegmentsJoin(kvs: KVPairs, b: nat, m: nat, e: nat)
    requires kvs.keys != [] && b <= m <= e <= |kvs.keys|
    ensures Segment(kvs, b, m).keys + Segment(kvs, m, e).keys == Segment(kvs, b, e).keys
    ensures Segment(kvs, b, m).vals + Segment(kvs, m, e).vals == Segment(kvs, b, e).vals
  {
    RatioFits(kvs, b, m);
    RatioFits(kvs, m, e);
    Joined(kvs.keys, b, m, e);
    Joined(kvs.vals, b * Ratio(kvs), m * Ratio(kvs), e * Ratio(kvs));
  }

  lemma EmptySegment(kvs: KVPairs, b: nat)
    requires kvs.keys != [] && b <= |kvs.keys|
    ensures Segment(kvs, b, b) == KVPairs([], [])
  {
    RatioFits(kvs, b, b);
  }

  /** What the slices carry, put together in their order. */
  function Together(sliced: seq<Sliced>): KVPairs
  {
    KVPairs(AllKeys(Contents(sliced)), AllVals(Contents(sliced)))
  }

  lemma TogetherCons(b: nat, m: nat, e: nat, server: nat, kvs: KVPairs, rest: seq<Sliced>)
    requires kvs.keys != [] && b <= m <= e <= |kvs.keys| && Together(rest) == Segment(kvs, m, e)
    ensures Together((if m > b then [Sliced(server, Segment(kvs, b, m))] else []) + rest) == Segment(kvs, b, e)
  {
    if m > b {
      ContentsCons(Sliced(server, Segment(kvs, b, m)), rest);
      SegmentsJoin(kvs, b, m, e);
    } else {
      assert [] + rest == rest;
    }
  }

  /**
   * Put together in server order, the slices from server i on are the request from its first key to the last
   * covered one.
   */
  lemma {:induction false} SlicesTogether(p: Partition, kvs: KVPairs, i: nat)
    requires Valid(p) && Contiguous(p.ranges) && kvs.keys != [] && Sorted(kvs.keys) && i < |p.ranges|
    ensures Cut(kvs.keys, p.ranges[i].begin) <= Cut(kvs.keys, Last(p.ranges))
    ensures Together(SlicesFrom(p, kvs, i, Cut(kvs.keys, p.ranges[i].begin))) ==
            Segment(kvs, Cut(kvs.keys, p.ranges[i].begin), Cut(kvs.keys, Last(p.ranges)))
    decreases |p.ranges| - i
  {
    var (b, m) := Piece(kvs.keys, p.ranges[i]);
    var e := Cut(kvs.keys, Last(p.ranges));
    SlicesStep(p, kvs, i);
    EndsGrow(p.ranges, i);
    CutFrom(kvs.keys, p.ranges[i].end, Last(p.ranges));
    if i + 1 < |p.ranges| {
      SlicesTogether(p, kvs, i + 1);
    } else {
      EmptySegment(kvs, m);
    }
    TogetherCons(b, m, e, p.ids[i], kvs, SlicesFrom(p, kvs, i + 1, m));
  }

  ghost predicate Covered(p: Partition, key: nat)
    requires Valid(p)
  {
    p.ranges[0].begin <= key < Last(p.ranges)
  }

  ghost predicate AllCovered(p: Partition, keys: seq<nat>)
    requires Valid(p)
  {
    forall i :: 0 <= i < |keys| ==> Covered(p, keys[i])
  }

  lemma CoveredExactlyWhen(p: Partition, keys: seq<nat>)
    requires Valid(p) && Contiguous(p.ranges) && keys != [] && Sorted(keys)
    ensures AllCovered(p, keys) <==> Cut(keys, p.ranges[0].begin) == 0 && Cut(keys, Last(p.ranges)) == |keys|
  {
    CutSplits(keys, p.ranges[0].begin);
    CutSplits(keys, Last(p.ranges));
    if AllCovered(p, keys) {
      assert Covered(p, keys[0]) && Covered(p, keys[|keys| - 1]);
    }
  }

  /**
   * The slices carry all keys of the request exactly when the ranges cover all of them; they then carry
   * them in the request's order, with their values.
   */
  lemma SlicesCarryAllExactlyWhenCovered(p: Partition, kvs: KVPairs)
    requires Valid(p) && Contiguous(p.ranges) && kvs.keys != [] && Sorted(kvs.keys)
    ensures |Together(Slices(p, kvs)).keys| == |kvs.keys| <==> AllCovered(p, kvs.keys)
    ensures AllCovered(p, kvs.keys) ==> Together(Slices(p, kvs)) == Segment(kvs, 0, |kvs.keys|)
  {
    SlicesTogether(p, kvs, 0);
    CoveredExactlyWhen(p, kvs.keys);
  }

  // ---------------------------------------------------------------- whose keys they are

  /** The first range from the i-th on that ends behind the key. */
  function OwnerFrom(ranges: seq<Range>, i: nat, key: nat): (j: nat)
    requires i < |ranges|
    ensures i <= j < |ranges|
    decreases |ranges| - i
  {
    if key < ranges[i].end || i == |ranges| - 1 then i else OwnerFrom(ranges, i + 1, key)
  }

  /** The server that owns a key. */
  function Owner(p: Partition, key: nat): nat
    requires |p.ids| == |p.ranges| > 0
  {
    p.ids[OwnerFrom(p.ranges, 0, key)]
  }

  lemma {:induction false} BeginsGrow(ranges: seq<Range>, i: nat, j: nat)
    requires Contiguous(ranges) && i < j < |ranges|
    ensures ranges[i].end <= ranges[j].begin
    decreases j - i
  {
    if i + 1 == j {
    } else {
      BeginsGrow(ranges, i + 1, j);
    }
  }

  lemma {:induction false} OwnerIs(ranges: seq<Range>, i: nat, j: nat, key: nat)
    requires Contiguous(ranges) && i <= j < |ranges| && InRange(ranges[j], key)
    ensures OwnerFrom(ranges, i, key) == j
    decreases j - i
  {
    if i == j {
    } else {
      BeginsGrow(ranges, i, j);
      OwnerIs(ranges, i + 1, j, key);
    }
  }

  lemma {:induction false} OwnerInRange(ranges: seq<Range>, i: nat, key: nat)
    requires i < |ranges| && Contiguous(ranges) && ranges[i].begin <= key < Last(ranges)
    ensures InRange(ranges[OwnerFrom(ranges, i, key)], key)
    decreases |ranges| - i
  {
    if key < ranges[i].end || i == |ranges| - 1 {
    } else {
      OwnerInRange(ranges, i + 1, key);
    }
  }

  /** s is the keys of the request in the range of server j; there is at least one. */
  ghost predicate IsSlice(p: Partition, kvs: KVPairs, j: nat, s: Sliced)
    requires Valid(p) && kvs.keys != [] && j < |p.ranges|
  {
    var (b, e) := Piece(kvs.keys, p.ranges[j]);
    s.server == p.ids[j] && 0 <= b < e <= |kvs.keys| && s.kvs == Segment(kvs, b, e)
  }

  /** The slices for the servers from i on. */
  function SlicesAt(p: Partition, kvs: KVPairs, i: nat): seq<Sliced>
    requires |p.ids| == |p.ranges| && kvs.keys != [] && i <= |p.ranges|
  {
    if i == |p.ranges| then [] else SlicesFrom(p, kvs, i, Cut(kvs.keys, p.ranges[i].begin))
  }

  lemma SlicesAtStep(p: Partition, kvs: KVPairs, i: nat) returns (s: Sliced)
    requires Valid(p) && Contiguous(p.ranges) && kvs.keys != [] && Sorted(kvs.keys) && i < |p.ranges|
    ensures SlicesAt(p, kvs, i) == SlicesAt(p, kvs, i + 1)
            || (IsSlice(p, kvs, i, s) && SlicesAt(p, kvs, i) == [s] + SlicesAt(p, kvs, i + 1))
  {
    var (b, m) := Piece(kvs.keys, p.ranges[i]);
    SlicesStep(p, kvs, i);
    s := Sliced(p.ids[i], if m > b then Segment(kvs, b, m) else kvs);
    assert [] + SlicesAt(p, kvs, i + 1) == SlicesAt(p, kvs, i + 1);
  }

  /** Every slice is that of some server. */
  lemma {:induction false} SliceOf(p: Partition, kvs: KVPairs, i: nat, k: nat) returns (j: nat)
    requires Valid(p) && Contiguous(p.ranges) && kvs.keys != [] && Sorted(kvs.keys) && i <= |p.ranges|
    requires k < |SlicesAt(p, kvs, i)|
    ensures i <= j < |p.ranges| && IsSlice(p, kvs, j, SlicesAt(p, kvs, i)[k])
    decreases |p.ranges| - i, 1
  {
    j := i;
    if i < |p.ranges| {
      var s := SlicesAtStep(p, kvs, i);
      j := SliceOfStep(p, kvs, i, k, s, SlicesAt(p, kvs, i), SlicesAt(p, kvs, i + 1));
    }
  }

  lemma {:induction false} SliceOfStep(p: Partition, kvs: KVPairs, i: nat, k: nat, s: Sliced, here: seq<Sliced>,
                                       rest: seq<Sliced>)
    returns (j: nat)
    requires Valid(p) && Contiguous(p.ranges) && kvs.keys != [] && Sorted(kvs.keys) && i < |p.ranges|
    requires k < |here| && rest == SlicesAt(p, kvs, i + 1)
    requires here == rest || (IsSlice(p, kvs, i, s) && here == [s] + rest)
    ensures i <= j < |p.ranges| && IsSlice(p, kvs, j, here[k])
    decreases |p.ranges| - i, 0
  {
    if here == rest {
      j := SliceOf(p, kvs, i + 1, k);
    } else if k == 0 {
      j := i;
    } else {
      j := SliceOf(p, kvs, i + 1, k - 1);
    }
  }

  /** The keys of a slice belong to its server, and are in its range. */
  lemma SliceOwned(p: Partition, kvs: KVPairs, k: nat) returns (j: nat)
    requires Valid(p) && Contiguous(p.ranges) && kvs.keys != [] && Sorted(kvs.keys) && k < |Slices(p, kvs)|
    ensures j < |p.ranges| && Slices(p, kvs)[k].server == p.ids[j]
    ensures Slices(p, kvs)[k].kvs.keys != [] && AllInRange(p.ranges[j], Slices(p, kvs)[k].kvs.keys)
    ensures forall i :: 0 <= i < |Slices(p, kvs)[k].kvs.keys| ==> Owner(p, Slices(p, kvs)[k].kvs.keys[i]) == p.ids[j]
  {
    j := SliceOf(p, kvs, 0, k);
    var (b, e) := Piece(kvs.keys, p.ranges[j]);
    PieceInRange(kvs.keys, p.ranges[j]);
    var keys := Slices(p, kvs)[k].kvs.keys;
    forall i | 0 <= i < |keys| ensures InRange(p.ranges[j], keys[i]) && Owner(p, keys[i]) == p.ids[j] {
      assert keys[i] == kvs.keys[b + i];
      OwnerIs(p.ranges, 0, j, keys[i]);
    }
  }

  ghost predicate FrontsIncrease(kvs: seq<KVPairs>) {
    && (forall a :: 0 <= a < |kvs| ==> kvs[a].keys != [])
    && (forall a, b :: 0 <= a < b < |kvs| ==> kvs[a].keys[0] < kvs[b].keys[0])
  }

  lemma SliceStart(p: Partition, kvs: KVPairs, i: nat, j: nat, s: Sliced)
    requires Valid(p) && Contiguous(p.ranges) && kvs.keys != [] && Sorted(kvs.keys) && i <= j < |p.ranges|
             && IsSlice(p, kvs, j, s)
    ensures s.kvs.keys != [] && InRange(p.ranges[j], s.kvs.keys[0]) && s.kvs.keys[0] >= p.ranges[i].begin
  {
    PieceInRange(kvs.keys, p.ranges[j]);
    if i < j {
      BeginsGrow(p.ranges, i, j);
    }
  }

  lemma {:induction false} SlicesIncrease(p: Partition, kvs: KVPairs, i: nat)
    requires Valid(p) && Contiguous(p.ranges) && kvs.keys != [] && Sorted(kvs.keys) && i <= |p.ranges|
    ensures FrontsIncrease(Contents(SlicesAt(p, kvs, i)))
    decreases |p.ranges| - i
  {
    if i == |p.ranges| {
    } else {
      hide SlicesAt, SlicesFrom, FrontsIncrease, Contents, IsSlice;
      var s := SlicesAtStep(p, kvs, i);
      var rest := SlicesAt(p, kvs, i + 1);
      SlicesIncrease(p, kvs, i + 1);
      if SlicesAt(p, kvs, i) != rest {
        SliceStart(p, kvs, i, i, s);
        forall k: nat | k < |rest| ensures rest[k].kvs.keys != [] && rest[k].kvs.keys[0] > s.kvs.keys[0] {
          var j := SliceOf(p, kvs, i + 1, k);
          SliceStart(p, kvs, i + 1, j, rest[k]);
        }
        IncreaseCons(s, rest);
      }
    }
  }

  lemma IncreaseCons(s: Sliced, rest: seq<Sliced>)
    requires s.kvs.keys != [] && FrontsIncrease(Contents(rest))
    requires forall k :: 0 <= k < |rest| ==> rest[k].kvs.keys != [] && rest[k].kvs.keys[0] > s.kvs.keys[0]
    ensures FrontsIncrease(Contents([s] + rest))
  {
    var l := Contents([s] + rest);
    forall a, b | 0 <= a < b < |l| ensures l[a].keys != [] && l[b].keys != [] && l[a].keys[0] < l[b].keys[0] {
      assert l[b] == Contents(rest)[b - 1];
      if a > 0 {
        assert l[a] == Contents(rest)[a - 1];
      }
    }
  }

  // ---------------------------------------------------------------- one slice for each server with keys

  /** The keys in a range, in their order. */
  function KeysIn(keys: seq<nat>, r: Range): seq<nat>
  {
    if keys == [] then []
    else
      var key := keys[|keys| - 1];
      KeysIn(keys[..|keys| - 1], r) + if r.begin <= key < r.end then [key] else []
  }

  lemma {:induction false} KeysInConcat(a: seq<nat>, b: seq<nat>, r: Range)
    ensures KeysIn(a + b, r) == KeysIn(a, r) + KeysIn(b, r)
  {
    if b == [] {
      assert a + b == a;
    } else {
      KeysInConcat(a, b[..|b| - 1], r);
      assert (a + b)[..|a + b| - 1] == a + b[..|b| - 1];
    }
  }

  lemma {:induction false} AllKeysIn(keys: seq<nat>, r: Range)
    requires AllInRange(r, keys)
    ensures KeysIn(keys, r) == keys
  {
    if keys == [] {
    } else {
      AllKeysIn(keys[..|keys| - 1], r);
      assert InRange(r, keys[|keys| - 1]);
    }
  }

  lemma {:induction false} NoKeysIn(keys: seq<nat>, r: Range)
    requires forall i :: 0 <= i < |keys| ==> !InRange(r, keys[i])
    ensures KeysIn(keys, r) == []
  {
    if keys == [] {
    } else {
      NoKeysIn(keys[..|keys| - 1], r);
      assert !InRange(r, keys[|keys| - 1]);
    }
  }

  lemma KeysInPiece(keys: seq<nat>, r: Range)
    requires Sorted(keys) && r.begin <= r.end
    ensures var (b, e) := Piece(keys, r);
            0 <= b <= e <= |keys| && KeysIn(keys, r) == keys[b..e]
  {
    hide KeysIn, Cut;
    var (b, e) := Piece(keys, r);
    PieceInRange(keys, r);
    NoKeysIn(keys[..b], r);
    AllKeysIn(keys[b..e], r);
    NoKeysIn(keys[e..], r);
    KeysInConcat(keys[..b], keys[b..e], r);
    KeysInConcat(keys[..e], keys[e..], r);
    assert keys[..b] + keys[b..e] == keys[..e] && keys[..e] + keys[e..] == keys;
  }

  /** A server with keys of its own in the request gets a slice. */
  lemma {:induction false} SliceExists(p: Partition, kvs: KVPairs, i: nat, j: nat) returns (k: nat)
    requires Valid(p) && Contiguous(p.ranges) && kvs.keys != [] && Sorted(kvs.keys) && i <= j < |p.ranges|
    requires Piece(kvs.keys, p.ranges[j]).0 < Piece(kvs.keys, p.ranges[j]).1
    ensures k < |SlicesAt(p, kvs, i)| && IsSlice(p, kvs, j, SlicesAt(p, kvs, i)[k])
    decreases j - i
  {
    if i == j {
      SlicesStep(p, kvs, i);
      k := 0;
    } else {
      hide SlicesAt, IsSlice, Piece;
      var s := SlicesAtStep(p, kvs, i);
      k := SliceExists(p, kvs, i + 1, j);
      if SlicesAt(p, kvs, i) != SlicesAt(p, kvs, i + 1) {
        k := k + 1;
      }
    }
  }

  /** s carries the keys server j has in the request, and there is at least one. */
  ghost predicate IsSliceFor(p: Partition, keys: seq<nat>, j: nat, s: Sliced)
    requires Valid(p) && j < |p.ranges|
  {
    s.server == p.ids[j] && s.kvs.keys == KeysIn(keys, p.ranges[j]) && s.kvs.keys != []
  }

  ghost predicate ForSomeServer(p: Partition, keys: seq<nat>, s: Sliced)
    requires Valid(p)
  {
    exists j: nat :: j < |p.ranges| && IsSliceFor(p, keys, j, s)
  }

  /** Of these slices the k-th, and no other, is for server j. */
  ghost predicate OnlyFor(p: Partition, keys: seq<nat>, sliced: seq<Sliced>, j: nat, k: nat)
    requires Valid(p) && j < |p.ranges|
  {
    k < |sliced| && forall i: nat :: i < |sliced| ==> (IsSliceFor(p, keys, j, sliced[i]) <==> i == k)
  }

  /** Every slice is for some server, and every server with keys of its own in the request has exactly one. */
  ghost predicate OneForEachServer(p: Partition, keys: seq<nat>, sliced: seq<Sliced>)
    requires Valid(p)
  {
    && (forall k :: 0 <= k < |sliced| ==> ForSomeServer(p, keys, sliced[k]))
    && (forall j :: 0 <= j < |p.ranges| && KeysIn(keys, p.ranges[j]) != [] ==>
         exists k :: OnlyFor(p, keys, sliced, j, k))
  }

  lemma SliceIsFor(p: Partition, kvs: KVPairs, k: nat)
    requires Valid(p) && Contiguous(p.ranges) && kvs.keys != [] && Sorted(kvs.keys) && k < |Slices(p, kvs)|
    ensures ForSomeServer(p, kvs.keys, Slices(p, kvs)[k])
  {
    var j := SliceOf(p, kvs, 0, k);
    KeysInPiece(kvs.keys, p.ranges[j]);
    assert IsSliceFor(p, kvs.keys, j, Slices(p, kvs)[k]);
  }

  lemma SliceFor(p: Partition, kvs: KVPairs, j: nat) returns (k: nat)
    requires Valid(p) && Contiguous(p.ranges) && kvs.keys != [] && Sorted(kvs.keys) && j < |p.ranges|
    requires KeysIn(kvs.keys, p.ranges[j]) != []
    ensures OnlyFor(p, kvs.keys, Slices(p, kvs), j, k)
  {
    KeysInPiece(kvs.keys, p.ranges[j]);
    k := SliceExists(p, kvs, 0, j);
    SlicesIncrease(p, kvs, 0);
    var l := Contents(Slices(p, kvs));
    forall i: nat | i < |l| && IsSliceFor(p, kvs.keys, j, Slices(p, kvs)[i]) ensures i == k {
      assert l[i].keys[0] == l[k].keys[0];
    }
  }

  /** The slices of a request are one for each server that has keys in it, with those keys. */
  lemma SlicesOneForEachServer(p: Partition, kvs: KVPairs)
    requires Valid(p) && Contiguous(p.ranges) && kvs.keys != [] && Sorted(kvs.keys)
    ensures OneForEachServer(p, kvs.keys, Slices(p, kvs))
  {
    hide Slices, KeysIn, Contiguous, Sorted, ForSomeServer, OnlyFor;
    var sliced := Slices(p, kvs);
    forall k | 0 <= k < |sliced| ensures ForSomeServer(p, kvs.keys, sliced[k]) {
      SliceIsFor(p, kvs, k);
    }
    forall j | 0 <= j < |p.ranges| && KeysIn(kvs.keys, p.ranges[j]) != []
      ensures exists k :: OnlyFor(p, kvs.keys, sliced, j, k)
    {
      var k := SliceFor(p, kvs, j);
    }
  }

  lemma {:induction false} NoSliceEmpty(p: Partition, kvs: KVPairs, i: nat, begin: nat)
    requires |p.ids| == |p.ranges| && kvs.keys != [] && i <= |p.ranges| && begin <= |kvs.keys|
    ensures forall k :: 0 <= k < |SlicesFrom(p, kvs, i, begin)| ==> SlicesFrom(p, kvs, i, begin)[k].kvs.keys != []
    decreases |p.ranges| - i
  {
    if i == |p.ranges| {
    } else {
      NoSliceEmpty(p, kvs, i + 1, LowerBound(kvs.keys, begin, p.ranges[i].end));
    }
  }
}
