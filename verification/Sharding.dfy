/**
 * The servers' storages: a shard in an array with an offset (vector_storage.hpp), a map (map_storage.hpp),
 * and the dispatch to them (abstract_storage.hpp).  All shards together behave like one map.
 */
module Sharding {
  import opened Basics
  import opened RangeSlicing
  import Requests
  import KvTable

  // ---------------------------------------------------------------- what the storages hold

  /** The cells of a shard that starts at begin, after adding the values in turn. */
  function Accumulated(begin: nat, cells: seq<int>, keys: seq<nat>, vals: seq<int>): (r: seq<int>)
    requires |keys| == |vals| && forall i :: 0 <= i < |keys| ==> begin <= keys[i] < begin + |cells|
    ensures |r| == |cells|
  {
    if keys == [] then cells
    else
      var n := |keys| - 1;
      var front := Accumulated(begin, cells, keys[..n], vals[..n]);
      front[keys[n] - begin := front[keys[n] - begin] + vals[n]]
  }

  /** The pairs of keys and values. */
  function Pairs(keys: seq<nat>, vals: seq<int>): (r: seq<(nat, int)>)
    requires |keys| == |vals|
    ensures |r| == |keys| && forall i :: 0 <= i < |r| ==> r[i] == (keys[i], vals[i])
  {
    seq(|keys|, i requires 0 <= i < |keys| => (keys[i], vals[i]))
  }

  lemma PairsConcat(a: seq<nat>, va: seq<int>, b: seq<nat>, vb: seq<int>)
    requires |a| == |va| && |b| == |vb|
    ensures Pairs(a + b, va + vb) == Pairs(a, va) + Pairs(b, vb)
  {
  }

  function AddTo(m: map<nat, int>, keys: seq<nat>, vals: seq<int>): map<nat, int>
    requires |keys| == |vals|
  {
    Requests.Plus(m, Pairs(keys, vals))
  }

  /** What an Add adds to a key, over all its copies. */
  function Delta(keys: seq<nat>, vals: seq<int>, key: nat): int
    requires |keys| == |vals|
  {
    Requests.Delta(Pairs(keys, vals), key)
  }

  lemma AddToAdds(m: map<nat, int>, keys: seq<nat>, vals: seq<int>, key: nat)
    requires |keys| == |vals|
    ensures Requests.Lookup(AddTo(m, keys, vals), key) == Requests.Lookup(m, key) + Delta(keys, vals, key)
  {
    Requests.LookupPlus(m, Pairs(keys, vals), key);
  }

  /** The last key and value of an Add. */
  lemma LastPair(m: map<nat, int>, keys: seq<nat>, vals: seq<int>, key: nat)
    requires |keys| == |vals| > 0
    ensures var n := |keys| - 1;
            var front := AddTo(m, keys[..n], vals[..n]);
            && AddTo(m, keys, vals) == front[keys[n] := Requests.Lookup(front, keys[n]) + vals[n]]
            && Delta(keys, vals, key) == Delta(keys[..n], vals[..n], key) + if keys[n] == key then vals[n] else 0
  {
    var n := |keys| - 1;
    assert Pairs(keys, vals)[..n] == Pairs(keys[..n], vals[..n]);
  }

  lemma {:induction false} AccumulatedAdds(begin: nat, cells: seq<int>, keys: seq<nat>, vals: seq<int>, at: nat)
    requires |keys| == |vals| && forall i :: 0 <= i < |keys| ==> begin <= keys[i] < begin + |cells|
    requires at < |cells|
    ensures Accumulated(begin, cells, keys, vals)[at] == cells[at] + Delta(keys, vals, begin + at)
  {
    if keys == [] {
    } else {
      var n := |keys| - 1;
      AccumulatedAdds(begin, cells, keys[..n], vals[..n], at);
      LastPair(map[], keys, vals, begin + at);
    }
  }

  // ---------------------------------------------------------------- the storages

  class VectorStorage {
    const range: Range
    const storage: array<int>

    ghost predicate Valid()
    {
      range.begin <= range.end && storage.Length == range.end - range.begin
    }

    constructor (range: Range)
      requires range.begin <= range.end
      ensures Valid() && this.range == range && fresh(storage)
      ensures forall i :: 0 <= i < storage.Length ==> storage[i] == 0
    {
      this.range := range;
      storage := new int[range.end - range.begin](_ => 0);
    }

    /** ok is false when a check fails, which ends the process. */
    method SubAdd(keys: seq<nat>, vals: seq<int>) returns (ok: bool)
      requires Valid()
      modifies storage
      ensures ok <==> |keys| == |vals| && AllInRange(range, keys)
      ensures ok ==> storage[..] == Accumulated(range.begin, old(storage[..]), keys, vals)
    {
      if |keys| != |vals| {
        return false;
      }
      for index := 0 to |keys|
        invariant AllInRange(range, keys[..index])
        invariant storage[..] == Accumulated(range.begin, old(storage[..]), keys[..index], vals[..index])
      {
        if !(keys[index] >= range.begin && keys[index] < range.end) {
          assert !InRange(range, keys[index]);
          return false;
        }
        assert keys[..index + 1][..index] == keys[..index] && vals[..index + 1][..index] == vals[..index];
        storage[keys[index] - range.begin] := storage[keys[index] - range.begin] + vals[index];
      }
      assert keys[..|keys|] == keys && vals[..|keys|] == vals;
      return true;
    }

    method SubGet(keys: seq<nat>) returns (ok: bool, replyVals: seq<int>)
      requires Valid()
      ensures ok <==> AllInRange(range, keys)
      ensures ok ==> |replyVals| == |keys|
      ensures ok ==> forall i :: 0 <= i < |keys| ==> replyVals[i] == storage[keys[i] - range.begin]
    {
      replyVals := [];
      for i := 0 to |keys|
        invariant |replyVals| == i && AllInRange(range, keys[..i])
        invariant forall k :: 0 <= k < i ==> InRange(range, keys[k]) && replyVals[k] == storage[keys[k] - range.begin]
      {
        if !(keys[i] >= range.begin && keys[i] < range.end) {
          assert !InRange(range, keys[i]);
          return false, [];
        }
        replyVals := replyVals + [storage[keys[i] - range.begin]];
      }
      return true, replyVals;
    }
  }

  class MapStorage {
    var storage: map<nat, int>

    constructor ()
      ensures storage == map[]
    {
      storage := map[];
    }

    method SubAdd(keys: seq<nat>, vals: seq<int>) returns (ok: bool)
      modifies this
      ensures ok <==> |keys| == |vals|
      ensures ok ==> storage == AddTo(old(storage), keys, vals)
    {
      if |keys| != |vals| {
        return false;
      }
      for index := 0 to |keys|
        invariant storage == AddTo(old(storage), keys[..index], vals[..index])
      {
        assert keys[..index + 1][..index] == keys[..index] && vals[..index + 1][..index] == vals[..index];
        LastPair(old(storage), keys[..index + 1], vals[..index + 1], 0);
        storage := storage[keys[index] := Requests.Lookup(storage, keys[index]) + vals[index]];
      }
      assert keys[..|keys|] == keys && vals[..|keys|] == vals;
      return true;
    }

    /** Reading a key that is not there puts a zero under it, which no later Get or Add can tell from nothing. */
    method SubGet(keys: seq<nat>) returns (replyVals: seq<int>)
      modifies this
      ensures replyVals == Requests.ReadAll(old(storage), keys)
      ensures forall key: nat :: Requests.Lookup(storage, key) == old(Requests.Lookup(storage, key))
      ensures storage.Keys == old(storage).Keys + set key | key in keys
    {
      replyVals := [];
      for i := 0 to |keys|
        invariant |replyVals| == i && forall k :: 0 <= k < i ==> replyVals[k] == old(Requests.Lookup(storage, keys[k]))
        invariant forall key: nat :: Requests.Lookup(storage, key) == old(Requests.Lookup(storage, key))
        invariant storage.Keys == old(storage).Keys + set key | key in keys[..i]
      {
        storage := storage[keys[i] := Requests.Lookup(storage, keys[i])];
        replyVals := replyVals + [storage[keys[i]]];
      }
    }
  }

  /** The data of a message: one array of keys, or keys and values; anything else fails a check. */
  datatype Data = Keys(keys: seq<nat>) | KeysAndVals(keys: seq<nat>, vals: seq<int>) | Malformed

  datatype Message = Message(sender: nat, recver: nat, flag: nat, model: nat, version: nat, data: Data)

  /** AbstractStorage::Get() on a shard: sender and receiver change places, the keys stay in their order. */
  method GetFromVector(s: VectorStorage, msg: Message) returns (ok: bool, reply: Message)
    requires s.Valid()
    ensures ok <==> msg.data.Keys? && AllInRange(s.range, msg.data.keys)
    ensures ok ==>
              && reply == Message(msg.recver, msg.sender, msg.flag, msg.model, msg.version, reply.data)
              && reply.data.KeysAndVals? && reply.data.keys == msg.data.keys && |reply.data.vals| == |msg.data.keys|
              && forall i :: 0 <= i < |msg.data.keys| ==>
                   reply.data.vals[i] == s.storage[msg.data.keys[i] - s.range.begin]
  {
    reply := msg;
    if !msg.data.Keys? {
      return false, msg;
    }
    var vals;
    ok, vals := s.SubGet(msg.data.keys);
    reply := Message(msg.recver, msg.sender, msg.flag, msg.model, msg.version, KeysAndVals(msg.data.keys, vals));
  }

  /** AbstractStorage::Add() on a shard. */
  method AddToVector(s: VectorStorage, msg: Message) returns (ok: bool)
    requires s.Valid()
    modifies s.storage
    ensures ok <==> msg.data.KeysAndVals? && |msg.data.keys| == |msg.data.vals| && AllInRange(s.range, msg.data.keys)
    ensures ok ==> s.storage[..] == Accumulated(s.range.begin, old(s.storage[..]), msg.data.keys, msg.data.vals)
  {
    if !msg.data.KeysAndVals? {
      return false;
    }
    ok := s.SubAdd(msg.data.keys, msg.data.vals);
  }

  /** AbstractStorage::Get() on a map. */
  method GetFromMap(s: MapStorage, msg: Message) returns (ok: bool, reply: Message)
    modifies s
    ensures ok <==> msg.data.Keys?
    ensures ok ==> reply == Message(msg.recver, msg.sender, msg.flag, msg.model, msg.version,
                                    KeysAndVals(msg.data.keys, Requests.ReadAll(old(s.storage), msg.data.keys)))
    ensures forall key: nat :: Requests.Lookup(s.storage, key) == old(Requests.Lookup(s.storage, key))
  {
    if !msg.data.Keys? {
      return false, msg;
    }
    var vals := s.SubGet(msg.data.keys);
    return true, Message(msg.recver, msg.sender, msg.flag, msg.model, msg.version, KeysAndVals(msg.data.keys, vals));
  }

  // ---------------------------------------------------------------- all shards together

  /** The abstract state of a VectorStorage. */
  datatype Shard = Shard(range: Range, cells: seq<int>)

  type Shards = map<nat, Shard>

  datatype Op = AddOp(keys: seq<nat>, vals: seq<int>) | GetOp(keys: seq<nat>)

  ghost predicate Accepts(shards: Shards, s: Sliced) {
    && s.server in shards && AllInRange(shards[s.server].range, s.kvs.keys)
    && |shards[s.server].cells| == shards[s.server].range.end - shards[s.server].range.begin
  }

  function AddToShard(sh: Shard, kvs: KVPairs): Shard
    requires |kvs.keys| == |kvs.vals| && AllInRange(sh.range, kvs.keys) && |sh.cells| == sh.range.end - sh.range.begin
  {
    sh.(cells := Accumulated(sh.range.begin, sh.cells, kvs.keys, kvs.vals))
  }

  /** An Add of every slice at its server; None for a failed check. */
  ghost function AddSlices(shards: Shards, sliced: seq<Sliced>): Option<Shards>
  {
    if sliced == [] then Some(shards)
    else
      var s := sliced[0];
      if Accepts(shards, s) && |s.kvs.keys| == |s.kvs.vals| then
        AddSlices(shards[s.server := AddToShard(shards[s.server], s.kvs)], sliced[1..])
      else None
  }

  /** What each server reads for a key. */
  ghost function Reads(shards: Shards): (nat, nat) -> int
  {
    (server: nat, key: nat) =>
      if server in shards
        && shards[server].range.begin <= key < shards[server].range.begin + |shards[server].cells| then
        shards[server].cells[key - shards[server].range.begin]
      else 0
  }

  /** A Get of every slice at its server. */
  ghost function GetSlices(shards: Shards, sliced: seq<Sliced>): Option<seq<KVPairs>>
  {
    if forall i :: 0 <= i < |sliced| ==> Accepts(shards, sliced[i]) then Some(KvTable.Replies(Reads(shards), sliced))
    else None
  }

  /** The requests of clients to the shards, one after the other; None for a failed check. */
  ghost function RunShards(p: Partition, shards: Shards, ops: seq<Op>): Option<seq<seq<int>>>
    requires Valid(p) && forall i :: 0 <= i < |ops| ==> ops[i].keys != []
    decreases |ops|
  {
    if ops == [] then Some([])
    else
      match ops[0]
      case AddOp(keys, vals) =>
        (match AddSlices(shards, Slices(p, KVPairs(keys, vals)))
         case Some(shards') => RunShards(p, shards', ops[1..])
         case None => None)
      case GetOp(keys) =>
        (match GetSlices(shards, Slices(p, KVPairs(keys, [])))
         case Some(replies) =>
           (match RunShards(p, shards, ops[1..])
            case Some(answers) => Some([AllVals(replies)] + answers)
            case None => None)
         case None => None)
  }

  ghost predicate ValidOp(p: Partition, op: Op)
    requires Valid(p)
  {
    && op.keys != [] && Sorted(op.keys)
    && (op.AddOp? ==> |op.vals| == |op.keys|)
    && (op.GetOp? ==> AllCovered(p, op.keys))
  }

  ghost predicate ValidOps(p: Partition, ops: seq<Op>)
    requires Valid(p)
  {
    forall i :: 0 <= i < |ops| ==> ValidOp(p, ops[i])
  }

  /** The same requests to one map. */
  function RunMap(m: map<nat, int>, ops: seq<Op>): seq<seq<int>>
    requires forall i :: 0 <= i < |ops| ==> (ops[i].AddOp? ==> |ops[i].vals| == |ops[i].keys|)
    decreases |ops|
  {
    if ops == [] then []
    else
      match ops[0]
      case AddOp(keys, vals) => RunMap(AddTo(m, keys, vals), ops[1..])
      case GetOp(keys) => [Requests.ReadAll(m, keys)] + RunMap(m, ops[1..])
  }

  ghost predicate DistinctIds(p: Partition) {
    forall i, j :: 0 <= i < j < |p.ids| ==> p.ids[i] != p.ids[j]
  }

  ghost predicate ShardOk(p: Partition, shards: Shards, m: map<nat, int>, j: nat)
    requires Valid(p) && j < |p.ranges|
  {
    && p.ids[j] in shards && shards[p.ids[j]].range == p.ranges[j]
    && p.ranges[j].begin + |shards[p.ids[j]].cells| == p.ranges[j].end
    && forall at: nat :: at < |shards[p.ids[j]].cells| ==>
         shards[p.ids[j]].cells[at] == Requests.Lookup(m, p.ranges[j].begin + at)
  }

  /** Every shard holds what the map holds under the keys of its range. */
  ghost predicate Refines(p: Partition, shards: Shards, m: map<nat, int>)
    requires Valid(p)
  {
    forall j: nat :: j < |p.ranges| ==> ShardOk(p, shards, m, j)
  }

  lemma {:induction false} NoDelta(keys: seq<nat>, vals: seq<int>, key: nat)
    requires |keys| == |vals| && forall i :: 0 <= i < |keys| ==> keys[i] != key
    ensures Delta(keys, vals, key) == 0
  {
    if keys == [] {
    } else {
      LastPair(map[], keys, vals, key);
      NoDelta(keys[..|keys| - 1], vals[..|keys| - 1], key);
    }
  }

  /** Adding a slice to its server refines adding it to the map. */
  lemma AddSliceRefines(p: Partition, shards: Shards, m: map<nat, int>, j: nat, s: Sliced)
    requires Valid(p) && Contiguous(p.ranges) && DistinctIds(p) && Refines(p, shards, m) && j < |p.ranges|
    requires s.server == p.ids[j] && AllInRange(p.ranges[j], s.kvs.keys) && |s.kvs.keys| == |s.kvs.vals|
    ensures Accepts(shards, s)
    ensures Refines(p, shards[s.server := AddToShard(shards[s.server], s.kvs)], AddTo(m, s.kvs.keys, s.kvs.vals))
  {
    assert ShardOk(p, shards, m, j);
    var shards', m' := shards[s.server := AddToShard(shards[s.server], s.kvs)], AddTo(m, s.kvs.keys, s.kvs.vals);
    forall i: nat | i < |p.ranges| ensures ShardOk(p, shards', m', i) {
      assert ShardOk(p, shards, m, i);
      var cells := shards[p.ids[i]].cells;
      forall at: nat | at < |cells| ensures shards'[p.ids[i]].cells[at] == Requests.Lookup(m', p.ranges[i].begin + at) {
        AddToAdds(m, s.kvs.keys, s.kvs.vals, p.ranges[i].begin + at);
        if i == j {
          AccumulatedAdds(p.ranges[i].begin, cells, s.kvs.keys, s.kvs.vals, at);
        } else {
          OutsideOthers(p, i, j, p.ranges[i].begin + at);
          NoDelta(s.kvs.keys, s.kvs.vals, p.ranges[i].begin + at);
        }
      }
    }
  }

  lemma OutsideOthers(p: Partition, i: nat, j: nat, key: nat)
    requires Valid(p) && Contiguous(p.ranges) && i < |p.ranges| && j < |p.ranges| && i != j && InRange(p.ranges[i], key)
    ensures !InRange(p.ranges[j], key)
  {
    if i < j {
      BeginsGrow(p.ranges, i, j);
    } else {
      BeginsGrow(p.ranges, j, i);
    }
  }

  lemma AddToConcat(m: map<nat, int>, a: seq<nat>, va: seq<int>, b: seq<nat>, vb: seq<int>)
    requires |a| == |va| && |b| == |vb|
    ensures AddTo(m, a + b, va + vb) == AddTo(AddTo(m, a, va), b, vb)
  {
    PairsConcat(a, va, b, vb);
    Requests.PlusConcat(m, Pairs(a, va), Pairs(b, vb));
  }

  lemma DeltaConcat(a: seq<nat>, va: seq<int>, b: seq<nat>, vb: seq<int>, key: nat)
    requires |a| == |va| && |b| == |vb|
    ensures Delta(a + b, va + vb, key) == Delta(a, va, key) + Delta(b, vb, key)
  {
    PairsConcat(a, va, b, vb);
    Requests.DeltaConcat(Pairs(a, va), Pairs(b, vb), key);
  }

  lemma SliceAccepted(p: Partition, kvs: KVPairs, j: nat, s: Sliced)
    requires Valid(p) && Contiguous(p.ranges) && kvs.keys != [] && Sorted(kvs.keys) && |kvs.vals| == |kvs.keys|
    requires j < |p.ranges| && IsSlice(p, kvs, j, s)
    ensures AllInRange(p.ranges[j], s.kvs.keys) && |s.kvs.keys| == |s.kvs.vals|
  {
    var (b, e) := Piece(kvs.keys, p.ranges[j]);
    PieceInRange(kvs.keys, p.ranges[j]);
    OneValueEach(kvs, b, e);
    assert s.kvs.keys == kvs.keys[b..e];
  }

  /** A slice of some server's own keys, with a value for each. */
  ghost predicate IsOwnSlice(p: Partition, s: Sliced)
    requires Valid(p)
  {
    && |s.kvs.keys| == |s.kvs.vals|
    && exists j :: 0 <= j < |p.ranges| && s.server == p.ids[j] && AllInRange(p.ranges[j], s.kvs.keys)
  }

  ghost predicate AllOwnSlices(p: Partition, sliced: seq<Sliced>)
    requires Valid(p)
  {
    forall k :: 0 <= k < |sliced| ==> IsOwnSlice(p, sliced[k])
  }

  lemma SlicesAreOwn(p: Partition, kvs: KVPairs)
    requires Valid(p) && Contiguous(p.ranges) && kvs.keys != [] && Sorted(kvs.keys) && |kvs.vals| == |kvs.keys|
    ensures AllOwnSlices(p, Slices(p, kvs))
  {
    forall k: nat | k < |Slices(p, kvs)| ensures IsOwnSlice(p, Slices(p, kvs)[k]) {
      var j := SliceOf(p, kvs, 0, k);
      SliceAccepted(p, kvs, j, Slices(p, kvs)[k]);
    }
  }

  lemma FirstSliceRefines(p: Partition, shards: Shards, m: map<nat, int>, s: Sliced)
    requires Valid(p) && Contiguous(p.ranges) && DistinctIds(p) && Refines(p, shards, m) && IsOwnSlice(p, s)
    ensures Accepts(shards, s)
    ensures Refines(p, shards[s.server := AddToShard(shards[s.server], s.kvs)], AddTo(m, s.kvs.keys, s.kvs.vals))
  {
    var j: nat :| j < |p.ranges| && s.server == p.ids[j] && AllInRange(p.ranges[j], s.kvs.keys);
    AddSliceRefines(p, shards, m, j, s);
  }

  lemma {:induction false} SameLengths(p: Partition, sliced: seq<Sliced>)
    requires Valid(p) && AllOwnSlices(p, sliced)
    ensures |Together(sliced).keys| == |Together(sliced).vals|
  {
    if sliced == [] {
    } else {
      SameLengths(p, sliced[1..]);
      assert sliced == [sliced[0]] + sliced[1..] && IsOwnSlice(p, sliced[0]);
      ContentsCons(sliced[0], sliced[1..]);
    }
  }

  /** Adding slices, each at its server, refines adding all of them to the map. */
  lemma {:induction false} AddSlicesRefines(p: Partition, sliced: seq<Sliced>, shards: Shards, m: map<nat, int>)
    returns (shards': Shards)
    requires Valid(p) && Contiguous(p.ranges) && DistinctIds(p) && Refines(p, shards, m) && AllOwnSlices(p, sliced)
    ensures AddSlices(shards, sliced) == Some(shards')
    ensures var t := Together(sliced); |t.keys| == |t.vals| && Refines(p, shards', AddTo(m, t.keys, t.vals))
    decreases |sliced|
  {
    SameLengths(p, sliced);
    if sliced == [] {
      shards' := shards;
    } else {
      var s, rest := sliced[0], sliced[1..];
      assert sliced == [s] + rest;
      assert IsOwnSlice(p, s);
      FirstSliceRefines(p, shards, m, s);
      shards' := AddSlicesRefines(p, rest, shards[s.server := AddToShard(shards[s.server], s.kvs)],
                                  AddTo(m, s.kvs.keys, s.kvs.vals));
      ContentsCons(s, rest);
      AddToConcat(m, s.kvs.keys, s.kvs.vals, Together(rest).keys, Together(rest).vals);
    }
  }

  /** Keys that no range covers do not matter to the shards. */
  lemma UncoveredDoNotMatter(p: Partition, shards: Shards, m: map<nat, int>, keys: seq<nat>, vals: seq<int>, b: nat,
                             e: nat)
    requires Valid(p) && Contiguous(p.ranges) && |keys| == |vals| && b <= e <= |keys|
    requires forall i :: 0 <= i < |keys| && !(b <= i < e) ==> !Covered(p, keys[i])
    requires Refines(p, shards, AddTo(m, keys[b..e], vals[b..e]))
    ensures Refines(p, shards, AddTo(m, keys, vals))
  {
    forall j: nat | j < |p.ranges| ensures ShardOk(p, shards, AddTo(m, keys, vals), j) {
      assert ShardOk(p, shards, AddTo(m, keys[b..e], vals[b..e]), j);
      forall at: nat | at < |shards[p.ids[j]].cells|
        ensures shards[p.ids[j]].cells[at] == Requests.Lookup(AddTo(m, keys, vals), p.ranges[j].begin + at)
      {
        var key := p.ranges[j].begin + at;
        RangeCovered(p, j, key);
        OnlyCoveredCount(p, keys, vals, b, e, key);
        AddToAdds(m, keys, vals, key);
        AddToAdds(m, keys[b..e], vals[b..e], key);
      }
    }
  }

  lemma RangeCovered(p: Partition, j: nat, key: nat)
    requires Valid(p) && Contiguous(p.ranges) && j < |p.ranges| && InRange(p.ranges[j], key)
    ensures Covered(p, key)
  {
    EndsGrow(p.ranges, j);
    if j > 0 {
      BeginsGrow(p.ranges, 0, j);
    }
  }

  lemma SplitDelta(keys: seq<nat>, vals: seq<int>, m: nat, key: nat)
    requires |keys| == |vals| && m <= |keys|
    ensures Delta(keys, vals, key) == Delta(keys[..m], vals[..m], key) + Delta(keys[m..], vals[m..], key)
  {
    assert keys == keys[..m] + keys[m..] && vals == vals[..m] + vals[m..];
    DeltaConcat(keys[..m], vals[..m], keys[m..], vals[m..], key);
  }

  lemma OnlyCoveredCount(p: Partition, keys: seq<nat>, vals: seq<int>, b: nat, e: nat, key: nat)
    requires Valid(p) && |keys| == |vals| && b <= e <= |keys| && Covered(p, key)
    requires forall i :: 0 <= i < |keys| && !(b <= i < e) ==> !Covered(p, keys[i])
    ensures Delta(keys, vals, key) == Delta(keys[b..e], vals[b..e], key)
  {
    SplitDelta(keys[..e], vals[..e], b, key);
    SplitDelta(keys, vals, e, key);
    NoDelta(keys[..b], vals[..b], key);
    NoDelta(keys[e..], vals[e..], key);
    assert keys[..e][..b] == keys[..b] && vals[..e][..b] == vals[..b];
    assert keys[..e][b..] == keys[b..e] && vals[..e][b..] == vals[b..e];
  }

  lemma OneValueEach(kvs: KVPairs, b: nat, e: nat)
    requires kvs.keys != [] && |kvs.vals| == |kvs.keys| && b <= e <= |kvs.keys|
    ensures Segment(kvs, b, e) == KVPairs(kvs.keys[b..e], kvs.vals[b..e])
  {
    assert Ratio(kvs) == 1;
  }

  /** An Add: no check fails, and the shards go on holding what the map holds. */
  lemma AddRefines(p: Partition, keys: seq<nat>, vals: seq<int>, shards: Shards, m: map<nat, int>)
    returns (shards': Shards)
    requires Valid(p) && Contiguous(p.ranges) && DistinctIds(p) && Refines(p, shards, m)
    requires keys != [] && Sorted(keys) && |vals| == |keys|
    ensures AddSlices(shards, Slices(p, KVPairs(keys, vals))) == Some(shards')
    ensures Refines(p, shards', AddTo(m, keys, vals))
  {
    var kvs := KVPairs(keys, vals);
    SlicesAreOwn(p, kvs);
    shards' := AddSlicesRefines(p, Slices(p, kvs), shards, m);
    SlicesTogether(p, kvs, 0);
    var b, e := Cut(keys, p.ranges[0].begin), Cut(keys, Last(p.ranges));
    CutSplits(keys, p.ranges[0].begin);
    CutSplits(keys, Last(p.ranges));
    OneValueEach(kvs, b, e);
    UncoveredDoNotMatter(p, shards', m, keys, vals, b, e);
  }

  /** A Get of covered keys: no check fails, and the replies put together are what the map holds. */
  lemma GetRefines(p: Partition, keys: seq<nat>, shards: Shards, m: map<nat, int>)
    requires Valid(p) && Contiguous(p.ranges) && Refines(p, shards, m)
    requires keys != [] && Sorted(keys) && AllCovered(p, keys)
    ensures var replies := GetSlices(shards, Slices(p, KVPairs(keys, [])));
            replies.Some? && AllVals(replies.value) == Requests.ReadAll(m, keys)
    ensures KvTable.OwnersValues(p, Reads(shards), keys) == Requests.ReadAll(m, keys)
  {
    var kvs := KVPairs(keys, []);
    var sliced := Slices(p, kvs);
    forall k | 0 <= k < |sliced| ensures Accepts(shards, sliced[k]) {
      var j := SliceOwned(p, kvs, k);
      assert ShardOk(p, shards, m, j);
    }
    KvTable.SlicesOwned(p, kvs);
    KvTable.RepliesAreOwners(p, Reads(shards), sliced);
    SlicesCarryAllExactlyWhenCovered(p, kvs);
    KvTable.WholeSegment(kvs);
    forall i | 0 <= i < |keys| ensures Reads(shards)(Owner(p, keys[i]), keys[i]) == Requests.Lookup(m, keys[i]) {
      OwnerReads(p, shards, m, keys[i]);
    }
  }

  lemma OwnerReads(p: Partition, shards: Shards, m: map<nat, int>, key: nat)
    requires Valid(p) && Contiguous(p.ranges) && Refines(p, shards, m) && Covered(p, key)
    ensures Reads(shards)(Owner(p, key), key) == Requests.Lookup(m, key)
  {
    var j := OwnerFrom(p.ranges, 0, key);
    OwnerInRange(p.ranges, 0, key);
    assert ShardOk(p, shards, m, j);
    assert shards[p.ids[j]].cells[key - p.ranges[j].begin] ==
             Requests.Lookup(m, p.ranges[j].begin + (key - p.ranges[j].begin));
  }

  /**
   * Sharding refines one map: whatever sorted requests come, with keys repeated, no shard's check fails,
   * and every Get is answered as one unpartitioned map would.
   */
  lemma {:induction false} ShardsAnswerAsOneMap(p: Partition, shards: Shards, m: map<nat, int>, ops: seq<Op>)
    requires Valid(p) && Contiguous(p.ranges) && DistinctIds(p) && Refines(p, shards, m) && ValidOps(p, ops)
    ensures RunShards(p, shards, ops) == Some(RunMap(m, ops))
    decreases |ops|
  {
    if ops == [] {
    } else {
      assert ValidOp(p, ops[0]);
      assert forall i :: 0 <= i < |ops| - 1 ==> ValidOp(p, ops[1..][i]) by {
        assert forall i :: 0 <= i < |ops| - 1 ==> ops[1..][i] == ops[i + 1] && ValidOp(p, ops[i + 1]);
      }
      match ops[0]
      case AddOp(keys, vals) =>
        var shards' := AddRefines(p, keys, vals, shards, m);
        ShardsAnswerAsOneMap(p, shards', AddTo(m, keys, vals), ops[1..]);
      case GetOp(keys) =>
        GetRefines(p, keys, shards, m);
        ShardsAnswerAsOneMap(p, shards, m, ops[1..]);
    }
  }

  /** New shards, all zero, refine the empty map. */
  lemma ZeroShardsRefine(p: Partition, shards: Shards)
    requires Valid(p) && Contiguous(p.ranges)
    requires forall j :: 0 <= j < |p.ranges| ==>
               && p.ids[j] in shards && shards[p.ids[j]].range == p.ranges[j]
               && shards[p.ids[j]].cells == seq(p.ranges[j].end - p.ranges[j].begin, _ => 0)
    ensures Refines(p, shards, map[])
  {
    forall j: nat | j < |p.ranges| ensures ShardOk(p, shards, map[], j) {
      assert p.ranges[j].begin <= p.ranges[j].end;
    }
  }

  // ---------------------------------------------------------------- the ranges of the examples

  /** The k-th of equal parts. */
  function PartRange(part: nat, k: nat): Range
  {
    Range(part * k, part * (k + 1))
  }

  /** The ranges the examples build: equal parts, the last one up to the number of dimensions. */
  method BuildRanges(numDims: nat, numServers: nat) returns (ranges: seq<Range>)
    requires numServers > 0
    ensures |ranges| == numServers && Contiguous(ranges)
    ensures ranges[0].begin == 0 && Last(ranges) == numDims
    ensures forall i :: 0 <= i < numServers - 1 ==> ranges[i].end - ranges[i].begin == numDims / numServers
  {
    ranges := [];
    var part := numDims / numServers;
    PartFits(numDims, numServers);
    var i := 0;
    while i < numServers - 1
      invariant 0 <= i <= numServers - 1 && |ranges| == i
      invariant forall k: nat :: k < i ==> ranges[k] == PartRange(part, k)
    {
      ranges := ranges + [PartRange(part, i)];
      i := i + 1;
    }
    ranges := ranges + [Range(part * (numServers - 1), numDims)];
    BuiltRanges(ranges, part, numServers, numDims);
  }

  lemma BuiltRanges(ranges: seq<Range>, part: nat, n: nat, numDims: nat)
    requires |ranges| == n > 0 && part * (n - 1) <= numDims
    requires forall k: nat :: k < n - 1 ==> ranges[k] == PartRange(part, k)
    requires ranges[n - 1] == Range(part * (n - 1), numDims)
    ensures Contiguous(ranges) && ranges[0].begin == 0
    ensures forall k :: 0 <= k < n - 1 ==> ranges[k].end - ranges[k].begin == part
  {
    forall k: nat | k < n
      ensures ranges[k].begin == part * k && (k < n - 1 ==> ranges[k].end == part * (k + 1) == part * k + part)
    {
      OneMorePart(part, k);
      assert k < n - 1 ==> ranges[k] == PartRange(part, k);
    }
    assert ranges[0].begin == part * 0;
  }

  lemma OneMorePart(part: nat, k: nat)
    ensures part * (k + 1) == part * k + part
  {
  }

  lemma PartFits(numDims: nat, numServers: nat)
    requires numServers > 0
    ensures 0 <= numDims / numServers * (numServers - 1) <= numDims
  {
    Quotient(numDims, numServers, numDims / numServers);
  }

  lemma Quotient(d: nat, n: nat, q: nat)
    requires n > 0 && q == d / n
    ensures 0 <= q * (n - 1) <= d
  {
    assert d == n * q + d % n;
    OneMorePart(q, n - 1);
  }
}
