/**
 * The worker's side of a table: kv_table_box.hpp, kv_client_table.hpp and simple_kv_table.hpp.  A Get is
 * sliced, the servers' replies come in any order, and the values are put together in the order of the keys.
 */
module KvTable {
  import opened Basics
  import opened RangeSlicing

  datatype Flag = Add | Get | Clock

  datatype Message = Message(sender: nat, recver: nat, model: nat, flag: Flag, data: KVPairs)

  // ---------------------------------------------------------------- what the replies make

  /** The positions of a sorted list with keys in [lower, upper). */
  function FindRange(keys: seq<nat>, lower: nat, upper: nat): (int, int)
  {
    if upper <= lower then (0, 0) else (LowerBound(keys, 0, lower), LowerBound(keys, 0, upper))
  }

  lemma FindRangeFinds(keys: seq<nat>, lower: nat, upper: nat)
    requires Sorted(keys)
    ensures var (b, e) := FindRange(keys, lower, upper);
            0 <= b <= e <= |keys| && keys[b..e] == KeysIn(keys, Range(lower, upper))
  {
    if upper <= lower {
      NoKeysIn(keys, Range(lower, upper));
    } else {
      KeysInPiece(keys, Range(lower, upper));
    }
  }

  predicate Matches(keys: seq<nat>, s: KVPairs)
    requires s.keys != []
  {
    var (b, e) := FindRange(keys, s.keys[0], s.keys[|s.keys| - 1] + 1);
    e - b == |s.keys|
  }

  ghost predicate NoneEmpty(kvs: seq<KVPairs>) {
    forall i :: 0 <= i < |kvs| ==> kvs[i].keys != []
  }

  function TotalKeys(kvs: seq<KVPairs>): nat
  {
    if kvs == [] then 0 else TotalKeys(kvs[..|kvs| - 1]) + |kvs[|kvs| - 1].keys|
  }

  function TotalVals(kvs: seq<KVPairs>): nat
  {
    if kvs == [] then 0 else TotalVals(kvs[..|kvs| - 1]) + |kvs[|kvs| - 1].vals|
  }

  ghost predicate AllMatch(keys: seq<nat>, kvs: seq<KVPairs>)
    requires NoneEmpty(kvs)
  {
    forall i :: 0 <= i < |kvs| ==> Matches(keys, kvs[i])
  }

  /** The checks of HandleFinish(). */
  ghost predicate ChecksHold(keys: seq<nat>, kvs: seq<KVPairs>)
    requires NoneEmpty(kvs)
  {
    AllMatch(keys, kvs) && TotalKeys(kvs) == |keys|
  }

  ghost predicate InFrontOrder(kvs: seq<KVPairs>)
    requires NoneEmpty(kvs)
  {
    forall a, b :: 0 <= a < b < |kvs| ==> kvs[a].keys[0] <= kvs[b].keys[0]
  }

  /** The values of the pairs, by front key; how pairs with the same front key are ordered is left open. */
  ghost predicate IsAssembled(vals: seq<int>, kvs: seq<KVPairs>)
    requires NoneEmpty(kvs)
  {
    exists sorted ::
      multiset(sorted) == multiset(kvs) && NoneEmpty(sorted) && InFrontOrder(sorted) && vals == AllVals(sorted)
  }

  class KVTableBox {
    const appThreadId: nat
    const modelId: nat
    const manager: SimpleRangePartitionManager
    var sendQueue: seq<Message>
    var recvKvs: seq<KVPairs>

    constructor (appThreadId: nat, modelId: nat, manager: SimpleRangePartitionManager)
      ensures this.appThreadId == appThreadId && this.modelId == modelId && this.manager == manager
      ensures sendQueue == [] && recvKvs == []
    {
      this.appThreadId, this.modelId, this.manager := appThreadId, modelId, manager;
      sendQueue, recvKvs := [], [];
    }

    /** One message to the server of every slice; only one with keys has data, and only an Add sends values. */
    method Send(sliced: seq<Sliced>, isAdd: bool)
      modifies this`sendQueue
      ensures |sendQueue| == |old(sendQueue)| + |sliced| && old(sendQueue) <= sendQueue
      ensures forall i :: |old(sendQueue)| <= i < |sendQueue| ==>
                var s := sliced[i - |old(sendQueue)|];
                && sendQueue[i].sender == appThreadId && sendQueue[i].recver == s.server
                && sendQueue[i].model == modelId
                && (sendQueue[i].flag == Add <==> isAdd) && (sendQueue[i].flag == Get <==> !isAdd)
                && sendQueue[i].data.keys == s.kvs.keys
                && sendQueue[i].data.vals == if isAdd && s.kvs.keys != [] then s.kvs.vals else []
    {
      for i := 0 to |sliced|
        invariant |sendQueue| == |old(sendQueue)| + i && old(sendQueue) <= sendQueue
        invariant forall k :: |old(sendQueue)| <= k < |sendQueue| ==>
                    var s := sliced[k - |old(sendQueue)|];
                    && sendQueue[k].sender == appThreadId && sendQueue[k].recver == s.server
                    && sendQueue[k].model == modelId && sendQueue[k].flag == (if isAdd then Add else Get)
                    && sendQueue[k].data.keys == s.kvs.keys
                    && sendQueue[k].data.vals == if isAdd && s.kvs.keys != [] then s.kvs.vals else []
      {
        var kvs := sliced[i].kvs;
        var data := KVPairs([], []);
        if kvs.keys != [] {
          data := data.(keys := kvs.keys);
          if isAdd {
            data := data.(vals := kvs.vals);
          }
        }
        var msg := Message(appThreadId, sliced[i].server, modelId, if isAdd then Add else Get, data);
        sendQueue := sendQueue + [msg];
      }
    }

    /** One message to every server. */
    method Clock()
      modifies this`sendQueue
      ensures |sendQueue| == |old(sendQueue)| + |manager.serverThreadIds| && old(sendQueue) <= sendQueue
      ensures forall i :: 0 <= i < |manager.serverThreadIds| ==>
                sendQueue[|old(sendQueue)| + i] ==
                Message(appThreadId, manager.serverThreadIds[i], modelId, Flag.Clock, KVPairs([], []))
    {
      for i := 0 to |manager.serverThreadIds|
        invariant |sendQueue| == |old(sendQueue)| + i && old(sendQueue) <= sendQueue
        invariant forall k :: 0 <= k < i ==>
                    sendQueue[|old(sendQueue)| + k] ==
                    Message(appThreadId, manager.serverThreadIds[k], modelId, Flag.Clock, KVPairs([], []))
      {
        var msg := Message(appThreadId, manager.serverThreadIds[i], modelId, Flag.Clock, KVPairs([], []));
        sendQueue := sendQueue + [msg];
      }
    }

    /** The slices of an Add, one message each, with the values of their keys. */
    method AddPairs(kvs: KVPairs)
      requires Valid(manager.Map()) && kvs.keys != []
      modifies this`sendQueue
      ensures |sendQueue| == |old(sendQueue)| + |Slices(manager.Map(), kvs)| && old(sendQueue) <= sendQueue
      ensures forall i :: |old(sendQueue)| <= i < |sendQueue| ==>
                var s := Slices(manager.Map(), kvs)[i - |old(sendQueue)|];
                sendQueue[i] == Message(appThreadId, s.server, modelId, Add, s.kvs)
    {
      var sliced := manager.Slice(kvs);
      NoSliceEmpty(manager.Map(), kvs, 0, LowerBound(kvs.keys, 0, manager.ranges[0].begin));
      Send(sliced, true);
    }

    method HandleMsg(kvs: KVPairs)
      modifies this`recvKvs
      ensures recvKvs == old(recvKvs) + [kvs]
    {
      recvKvs := recvKvs + [kvs];
    }

    /** ok is false when a check fails, which ends the process. */
    method HandleFinish(keys: seq<nat>) returns (ok: bool, vals: seq<int>)
      requires NoneEmpty(recvKvs)
      modifies this`recvKvs
      ensures ok <==> ChecksHold(keys, old(recvKvs))
      ensures ok ==> recvKvs == [] && IsAssembled(vals, old(recvKvs))
    {
      vals := [];
      ok := CheckSizes(keys);
      if !ok {
        return;
      }
      ghost var received := recvKvs;
      recvKvs := SortByFront(recvKvs);
      ghost var sorted := recvKvs;
      var i := 0;
      while i < |recvKvs|
        invariant 0 <= i <= |recvKvs| && recvKvs == sorted
        invariant vals + AllVals(sorted[i..]) == AllVals(sorted)
      {
        assert sorted[i..][1..] == sorted[i + 1..];
        Regroup(vals, sorted[i].vals, AllVals(sorted[i + 1..]));
        vals := vals + recvKvs[i].vals;
        i := i + 1;
      }
      assert sorted[i..] == [] && vals == AllVals(sorted);
      assert multiset(sorted) == multiset(received);
      recvKvs := [];
    }

    /** The loop that checks every reply against the keys asked for, and the total. */
    method CheckSizes(keys: seq<nat>) returns (ok: bool)
      requires NoneEmpty(recvKvs)
      ensures ok <==> ChecksHold(keys, recvKvs)
    {
      var totalKey, totalVal := 0, 0;
      for i := 0 to |recvKvs|
        invariant totalKey == TotalKeys(recvKvs[..i]) && totalVal == TotalVals(recvKvs[..i])
        invariant forall k :: 0 <= k < i ==> Matches(keys, recvKvs[k])
      {
        if !Matches(keys, recvKvs[i]) {
          return false;
        }
        assert recvKvs[..i + 1][..i] == recvKvs[..i];
        totalKey := totalKey + |recvKvs[i].keys|;
        totalVal := totalVal + |recvKvs[i].vals|;
      }
      assert recvKvs[..|recvKvs|] == recvKvs;
      return totalKey == |keys|;
    }
  }

  /** std::sort by the front keys. */
  method SortByFront(kvs: seq<KVPairs>) returns (sorted: seq<KVPairs>)
    requires NoneEmpty(kvs)
    ensures multiset(sorted) == multiset(kvs) && NoneEmpty(sorted) && InFrontOrder(sorted)
  {
    sorted := [];
    for i := 0 to |kvs|
      invariant NoneEmpty(sorted) && InFrontOrder(sorted)
      invariant multiset(sorted) == multiset(kvs[..i])
    {
      sorted := Insert(sorted, kvs[i]);
      assert kvs[..i + 1] == kvs[..i] + [kvs[i]];
    }
    assert kvs[..|kvs|] == kvs;
  }

  method Insert(sorted: seq<KVPairs>, s: KVPairs) returns (r: seq<KVPairs>)
    requires NoneEmpty(sorted) && InFrontOrder(sorted) && s.keys != []
    ensures multiset(r) == multiset(sorted) + multiset{s} && NoneEmpty(r) && InFrontOrder(r)
  {
    hide InFrontOrder;
    var at := 0;
    while at < |sorted| && sorted[at].keys[0] < s.keys[0]
      invariant 0 <= at <= |sorted|
      invariant forall a :: 0 <= a < at ==> sorted[a].keys[0] < s.keys[0]
    {
      at := at + 1;
    }
    r := sorted[..at] + [s] + sorted[at..];
    assert sorted == sorted[..at] + sorted[at..];
    StillSorted(sorted[..at], s, sorted[at..]);
    OneMore(sorted[..at], s, sorted[at..]);
  }

  lemma OneMore(below: seq<KVPairs>, s: KVPairs, above: seq<KVPairs>)
    ensures multiset(below + [s] + above) == multiset(below + above) + multiset{s}
  {
  }

  lemma StillSorted(below: seq<KVPairs>, s: KVPairs, above: seq<KVPairs>)
    requires s.keys != [] && NoneEmpty(below + above) && InFrontOrder(below + above)
    requires forall a :: 0 <= a < |below| ==> below[a].keys != [] && below[a].keys[0] < s.keys[0]
    requires above != [] ==> above[0].keys != [] && s.keys[0] <= above[0].keys[0]
    ensures NoneEmpty(below + [s] + above) && InFrontOrder(below + [s] + above)
  {
    var old', r := below + above, below + [s] + above;
    forall a | 0 <= a < |r| ensures r[a].keys != [] {
      assert a < |below| ==> r[a] == old'[a];
      assert a > |below| ==> r[a] == old'[a - 1];
    }
    forall a, b | 0 <= a < b < |r| ensures r[a].keys[0] <= r[b].keys[0] {
      assert a < |below| ==> r[a] == old'[a] == below[a];
      assert a > |below| ==> r[a] == old'[a - 1];
      assert b < |below| ==> r[b] == old'[b];
      assert b > |below| ==> r[b] == old'[b - 1] && above[0] == old'[|below|];
    }
  }

  // ---------------------------------------------------------------- the replies to a Get, in any order

  /** What a server answers for the keys of its slice. */
  function Answers(answer: (nat, nat) -> int, server: nat, keys: seq<nat>): seq<int>
  {
    seq(|keys|, i requires 0 <= i < |keys| => answer(server, keys[i]))
  }

  function Reply(answer: (nat, nat) -> int, s: Sliced): KVPairs
  {
    KVPairs(s.kvs.keys, Answers(answer, s.server, s.kvs.keys))
  }

  function Replies(answer: (nat, nat) -> int, sliced: seq<Sliced>): seq<KVPairs>
  {
    seq(|sliced|, i requires 0 <= i < |sliced| => Reply(answer, sliced[i]))
  }

  /** The answer of each key's owner. */
  function OwnersValues(p: Partition, answer: (nat, nat) -> int, keys: seq<nat>): seq<int>
    requires |p.ids| == |p.ranges| > 0
  {
    seq(|keys|, i requires 0 <= i < |keys| => answer(Owner(p, keys[i]), keys[i]))
  }

  ghost predicate OwnedByServer(p: Partition, s: Sliced)
    requires Valid(p)
  {
    forall i :: 0 <= i < |s.kvs.keys| ==> Owner(p, s.kvs.keys[i]) == s.server
  }

  lemma {:induction false} RepliesAreOwners(p: Partition, answer: (nat, nat) -> int, sliced: seq<Sliced>)
    requires Valid(p) && forall k :: 0 <= k < |sliced| ==> OwnedByServer(p, sliced[k])
    ensures AllVals(Replies(answer, sliced)) == OwnersValues(p, answer, AllKeys(Contents(sliced)))
  {
    if sliced == [] {
    } else {
      var s, rest := sliced[0], sliced[1..];
      RepliesAreOwners(p, answer, rest);
      assert sliced == [s] + rest;
      ContentsCons(s, rest);
      assert Replies(answer, sliced)[1..] == Replies(answer, rest);
      assert OwnedByServer(p, s);
      assert Answers(answer, s.server, s.kvs.keys) == OwnersValues(p, answer, s.kvs.keys);
      OwnersConcat(p, answer, s.kvs.keys, AllKeys(Contents(rest)));
    }
  }

  lemma OwnersConcat(p: Partition, answer: (nat, nat) -> int, a: seq<nat>, b: seq<nat>)
    requires Valid(p)
    ensures OwnersValues(p, answer, a + b) == OwnersValues(p, answer, a) + OwnersValues(p, answer, b)
  {
  }

  lemma SlicesOwned(p: Partition, kvs: KVPairs)
    requires Valid(p) && Contiguous(p.ranges) && kvs.keys != [] && Sorted(kvs.keys)
    ensures forall k :: 0 <= k < |Slices(p, kvs)| ==> OwnedByServer(p, Slices(p, kvs)[k])
  {
    forall k | 0 <= k < |Slices(p, kvs)| ensures OwnedByServer(p, Slices(p, kvs)[k]) {
      var j := SliceOwned(p, kvs, k);
    }
  }

  /** A slice matches the keys asked for: a repeated key is in one slice with all its copies. */
  lemma SliceMatches(p: Partition, kvs: KVPairs, j: nat, s: Sliced)
    requires Valid(p) && Contiguous(p.ranges) && kvs.keys != [] && Sorted(kvs.keys) && j < |p.ranges|
             && IsSlice(p, kvs, j, s)
    ensures s.kvs.keys != [] && Matches(kvs.keys, s.kvs)
  {
    var (b, e) := Piece(kvs.keys, p.ranges[j]);
    PieceInRange(kvs.keys, p.ranges[j]);
    var keys, part := kvs.keys, s.kvs.keys;
    assert part[0] == keys[b] && part[|part| - 1] == keys[e - 1];
    LowerBoundIs(keys, 0, keys[b], b);
    LowerBoundIs(keys, 0, keys[e - 1] + 1, e);
  }

  lemma RepliesMatch(p: Partition, kvs: KVPairs, answer: (nat, nat) -> int)
    requires Valid(p) && Contiguous(p.ranges) && kvs.keys != [] && Sorted(kvs.keys)
    ensures NoneEmpty(Replies(answer, Slices(p, kvs))) && AllMatch(kvs.keys, Replies(answer, Slices(p, kvs)))
  {
    var sliced := Slices(p, kvs);
    forall k: nat | k < |sliced| ensures sliced[k].kvs.keys != [] && Matches(kvs.keys, Replies(answer, sliced)[k]) {
      var j := SliceOf(p, kvs, 0, k);
      SliceMatches(p, kvs, j, sliced[k]);
    }
  }

  lemma {:induction false} TotalIsLength(answer: (nat, nat) -> int, sliced: seq<Sliced>)
    ensures TotalKeys(Replies(answer, sliced)) == |AllKeys(Contents(sliced))|
  {
    if sliced == [] {
    } else {
      var s, rest := sliced[0], sliced[1..];
      TotalIsLength(answer, rest);
      assert sliced == [s] + rest;
      ContentsCons(s, rest);
      assert Replies(answer, sliced) == [Reply(answer, s)] + Replies(answer, rest);
      TotalCons(Reply(answer, s), Replies(answer, rest));
    }
  }

  lemma {:induction false} TotalConcat(a: seq<KVPairs>, b: seq<KVPairs>)
    ensures TotalKeys(a + b) == TotalKeys(a) + TotalKeys(b)
  {
    if b == [] {
      assert a + b == a;
    } else {
      TotalConcat(a, b[..|b| - 1]);
      assert (a + b)[..|a + b| - 1] == a + b[..|b| - 1];
    }
  }

  lemma TotalCons(s: KVPairs, rest: seq<KVPairs>)
    ensures TotalKeys([s] + rest) == |s.keys| + TotalKeys(rest)
  {
    TotalConcat([s], rest);
    assert [s][..0] == [];
  }

  function Without(s: seq<KVPairs>, k: nat): seq<KVPairs>
    requires k < |s|
  {
    s[..k] + s[k + 1..]
  }

  lemma WithoutOne(s: seq<KVPairs>, k: nat)
    requires k < |s|
    ensures TotalKeys(s) == TotalKeys(Without(s, k)) + |s[k].keys|
  {
    assert s == s[..k] + ([s[k]] + s[k + 1..]);
    TotalConcat(s[..k], [s[k]] + s[k + 1..]);
    TotalCons(s[k], s[k + 1..]);
    TotalConcat(s[..k], s[k + 1..]);
  }

  lemma {:induction false} TotalInAnyOrder(a: seq<KVPairs>, b: seq<KVPairs>)
    requires multiset(a) == multiset(b)
    ensures TotalKeys(a) == TotalKeys(b)
    decreases |a|
  {
    if a == [] {
      assert |multiset(b)| == 0;
    } else {
      var k := FirstFound(a, b);
      TotalInAnyOrder(a[1..], Without(b, k));
      WithoutOne(b, k);
      assert a == [a[0]] + a[1..];
      TotalCons(a[0], a[1..]);
    }
  }

  lemma SmallestIsFirst(a: seq<KVPairs>, b: seq<KVPairs>, k: nat)
    requires multiset(a) == multiset(b) && NoneEmpty(a) && InFrontOrder(a) && FrontsIncrease(b)
    requires a != [] && k < |b| && b[k] == a[0]
    ensures k == 0
  {
    assert b[0] in multiset(a);
    var m: nat :| m < |a| && a[m] == b[0];
    assert a[0].keys[0] <= a[m].keys[0];
  }

  lemma SameFirst(a: seq<KVPairs>, b: seq<KVPairs>)
    requires multiset(a) == multiset(b) && NoneEmpty(a) && InFrontOrder(a) && FrontsIncrease(b) && a != []
    ensures b != [] && a[0] == b[0] && multiset(a[1..]) == multiset(b[1..])
  {
    var k := FirstFound(a, b);
    SmallestIsFirst(a, b, k);
    assert b[..0] + b[1..] == b[1..];
  }

  lemma RestSorted(a: seq<KVPairs>)
    requires NoneEmpty(a) && InFrontOrder(a) && a != []
    ensures NoneEmpty(a[1..]) && InFrontOrder(a[1..])
  {
  }

  lemma RestIncreases(b: seq<KVPairs>)
    requires FrontsIncrease(b) && b != []
    ensures FrontsIncrease(b[1..])
  {
  }

  /** Front keys that all differ leave only one order to sort by. */
  lemma {:induction false} SortedIsUnique(a: seq<KVPairs>, b: seq<KVPairs>)
    requires multiset(a) == multiset(b) && NoneEmpty(a) && InFrontOrder(a) && FrontsIncrease(b)
    ensures a == b
    decreases |a|
  {
    if a == [] {
      assert |multiset(b)| == 0;
    } else {
      hide InFrontOrder, FrontsIncrease;
      SameFirst(a, b);
      RestSorted(a);
      RestIncreases(b);
      SortedIsUnique(a[1..], b[1..]);
      assert a == [a[0]] + a[1..] && b == [b[0]] + b[1..];
    }
  }

  ghost predicate IsArrivalOf(arrived: seq<KVPairs>, p: Partition, keys: seq<nat>, answer: (nat, nat) -> int)
    requires Valid(p) && keys != []
  {
    multiset(arrived) == multiset(Replies(answer, Slices(p, KVPairs(keys, []))))
  }

  lemma ArrivedMatch(p: Partition, keys: seq<nat>, answer: (nat, nat) -> int, arrived: seq<KVPairs>)
    requires Valid(p) && Contiguous(p.ranges) && keys != [] && Sorted(keys) && IsArrivalOf(arrived, p, keys, answer)
    ensures NoneEmpty(arrived) && AllMatch(keys, arrived)
  {
    var replies := Replies(answer, Slices(p, KVPairs(keys, [])));
    RepliesMatch(p, KVPairs(keys, []), answer);
    forall i | 0 <= i < |arrived| ensures arrived[i].keys != [] && Matches(keys, arrived[i]) {
      assert arrived[i] in multiset(replies);
      var k :| 0 <= k < |replies| && replies[k] == arrived[i];
    }
  }

  /** In whatever order the replies arrive, the checks hold exactly when the ranges cover all keys asked for. */
  lemma ChecksHoldExactlyWhenCovered(p: Partition, keys: seq<nat>, answer: (nat, nat) -> int, arrived: seq<KVPairs>)
    requires Valid(p) && Contiguous(p.ranges) && keys != [] && Sorted(keys) && IsArrivalOf(arrived, p, keys, answer)
    ensures NoneEmpty(arrived)
    ensures ChecksHold(keys, arrived) <==> AllCovered(p, keys)
  {
    var sliced := Slices(p, KVPairs(keys, []));
    ArrivedMatch(p, keys, answer, arrived);
    TotalInAnyOrder(arrived, Replies(answer, sliced));
    TotalIsLength(answer, sliced);
    SlicesCarryAllExactlyWhenCovered(p, KVPairs(keys, []));
  }

  /** Sorted by their front keys, the replies give every key the value its owner answered. */
  lemma AssembledAreOwners(p: Partition, keys: seq<nat>, answer: (nat, nat) -> int, arrived: seq<KVPairs>,
                           vals: seq<int>)
    requires Valid(p) && Contiguous(p.ranges) && keys != [] && Sorted(keys) && IsArrivalOf(arrived, p, keys, answer)
    requires AllCovered(p, keys) && NoneEmpty(arrived) && IsAssembled(vals, arrived)
    ensures vals == OwnersValues(p, answer, keys)
  {
    var kvs := KVPairs(keys, []);
    var sliced := Slices(p, kvs);
    var replies := Replies(answer, sliced);
    var sorted :| multiset(sorted) == multiset(arrived) && NoneEmpty(sorted) && InFrontOrder(sorted)
      && vals == AllVals(sorted);
    SlicesIncrease(p, kvs, 0);
    RepliesIncrease(answer, sliced);
    SortedIsUnique(sorted, replies);
    SlicesOwned(p, kvs);
    RepliesAreOwners(p, answer, sliced);
    SlicesCarryAllExactlyWhenCovered(p, kvs);
    WholeSegment(kvs);
  }

  lemma RepliesIncrease(answer: (nat, nat) -> int, sliced: seq<Sliced>)
    requires FrontsIncrease(Contents(sliced))
    ensures FrontsIncrease(Replies(answer, sliced))
  {
    var l, r := Contents(sliced), Replies(answer, sliced);
    assert forall i :: 0 <= i < |r| ==> r[i].keys == l[i].keys;
  }

  lemma WholeSegment(kvs: KVPairs)
    requires kvs.keys != []
    ensures Segment(kvs, 0, |kvs.keys|).keys == kvs.keys
  {
  }

  // ---------------------------------------------------------------- what a Get sends

  /** A message carries the keys server j has among these, and there is at least one. */
  ghost predicate Asks(m: Message, p: Partition, keys: seq<nat>, j: nat)
    requires Valid(p) && j < |p.ranges|
  {
    m.recver == p.ids[j] && m.data.keys == KeysIn(keys, p.ranges[j]) && m.data.keys != []
  }

  ghost predicate AsksSome(m: Message, p: Partition, keys: seq<nat>)
    requires Valid(p)
  {
    exists j: nat :: j < |p.ranges| && Asks(m, p, keys, j)
  }

  /** Of these messages the i-th, and no other, asks server j. */
  ghost predicate OnlyAsks(ms: seq<Message>, p: Partition, keys: seq<nat>, j: nat, i: nat)
    requires Valid(p) && j < |p.ranges|
  {
    i < |ms| && forall k: nat :: k < |ms| ==> (Asks(ms[k], p, keys, j) <==> k == i)
  }

  /** The messages ask servers only, and every server that has keys among these exactly once. */
  ghost predicate AsksEachOnce(ms: seq<Message>, p: Partition, keys: seq<nat>)
    requires Valid(p)
  {
    && (forall i :: 0 <= i < |ms| ==> AsksSome(ms[i], p, keys))
    && (forall j :: 0 <= j < |p.ranges| && KeysIn(keys, p.ranges[j]) != [] ==> exists i :: OnlyAsks(ms, p, keys, j, i))
  }

  /** The keys of all messages, in order. */
  function AskedFor(ms: seq<Message>): seq<nat>
  {
    if ms == [] then [] else ms[0].data.keys + AskedFor(ms[1..])
  }

  /**
   * The messages are Gets of this thread and model without values, one to each server that has keys among
   * these, with just those; and for covered keys, they ask for all of them in order.
   */
  ghost predicate AreGets(ms: seq<Message>, sender: nat, model: nat, p: Partition, keys: seq<nat>)
    requires Valid(p)
  {
    && (forall i :: 0 <= i < |ms| ==>
         ms[i].sender == sender && ms[i].model == model && ms[i].flag == Flag.Get && ms[i].data.vals == [])
    && AsksEachOnce(ms, p, keys)
    && (AllCovered(p, keys) ==> AskedFor(ms) == keys)
  }

  ghost predicate CarryKeysOf(ms: seq<Message>, sliced: seq<Sliced>) {
    |ms| == |sliced| && forall i :: 0 <= i < |ms| ==>
                          ms[i].recver == sliced[i].server && ms[i].data.keys == sliced[i].kvs.keys
  }

  lemma {:induction false} AskedForTogether(ms: seq<Message>, sliced: seq<Sliced>)
    requires CarryKeysOf(ms, sliced)
    ensures AskedFor(ms) == Together(sliced).keys
  {
    if ms == [] {
    } else {
      AskedForTogether(ms[1..], sliced[1..]);
      assert sliced == [sliced[0]] + sliced[1..];
      ContentsCons(sliced[0], sliced[1..]);
    }
  }

  lemma SlicesAsk(p: Partition, keys: seq<nat>, ms: seq<Message>, sliced: seq<Sliced>)
    requires Valid(p) && CarryKeysOf(ms, sliced) && OneForEachServer(p, keys, sliced)
    ensures AsksEachOnce(ms, p, keys)
  {
    hide KeysIn;
    forall i | 0 <= i < |ms| ensures AsksSome(ms[i], p, keys) {
      assert ForSomeServer(p, keys, sliced[i]);
      var j: nat :| j < |p.ranges| && IsSliceFor(p, keys, j, sliced[i]);
      assert Asks(ms[i], p, keys, j);
    }
    forall j | 0 <= j < |p.ranges| && KeysIn(keys, p.ranges[j]) != []
      ensures exists i :: OnlyAsks(ms, p, keys, j, i)
    {
      var i :| OnlyFor(p, keys, sliced, j, i);
      assert forall k :: 0 <= k < |ms| ==> (Asks(ms[k], p, keys, j) <==> IsSliceFor(p, keys, j, sliced[k]));
      assert OnlyAsks(ms, p, keys, j, i);
    }
  }

  /** Messages with the servers and keys of the slices ask every server with keys once, and for all covered keys. */
  lemma SlicesAskEachOnce(p: Partition, keys: seq<nat>, ms: seq<Message>)
    requires Valid(p) && Contiguous(p.ranges) && keys != [] && Sorted(keys)
    requires CarryKeysOf(ms, Slices(p, KVPairs(keys, [])))
    ensures AsksEachOnce(ms, p, keys)
    ensures AllCovered(p, keys) ==> AskedFor(ms) == keys
  {
    hide Slices, AsksEachOnce, OneForEachServer, AllCovered;
    var kvs := KVPairs(keys, []);
    var sliced := Slices(p, kvs);
    SlicesOneForEachServer(p, kvs);
    SlicesAsk(p, keys, ms, sliced);
    AskedForTogether(ms, sliced);
    SlicesCarryAllExactlyWhenCovered(p, kvs);
    WholeSegment(kvs);
  }

  // ---------------------------------------------------------------- the two clients

  /** What Get_() makes of the caller's vals; None for a failed check. */
  datatype Outcome = Failed | Vals(vals: seq<int>)

  /** With no server to ask, vals stays as it was; otherwise every key must be covered. */
  ghost function Expected(p: Partition, keys: seq<nat>, answer: (nat, nat) -> int, vals: seq<int>): Outcome
    requires Valid(p) && keys != []
  {
    if Slices(p, KVPairs(keys, [])) == [] then Vals(vals)
    else if AllCovered(p, keys) then Vals(OwnersValues(p, answer, keys))
    else Failed
  }

  /** HandleFinish() on all replies of a Get. */
  method FinishGet(box: KVTableBox, keys: seq<nat>, ghost answer: (nat, nat) -> int) returns (r: Outcome)
    requires Valid(box.manager.Map()) && Contiguous(box.manager.ranges) && keys != [] && Sorted(keys)
    requires IsArrivalOf(box.recvKvs, box.manager.Map(), keys, answer)
    modifies box`recvKvs
    ensures r == if AllCovered(box.manager.Map(), keys) then Vals(OwnersValues(box.manager.Map(), answer, keys))
                 else Failed
    ensures r.Vals? ==> box.recvKvs == []
  {
    ghost var p, arrived := box.manager.Map(), box.recvKvs;
    ChecksHoldExactlyWhenCovered(p, keys, answer, arrived);
    var ok, vals := box.HandleFinish(keys);
    if ok {
      AssembledAreOwners(p, keys, answer, arrived, vals);
      r := Vals(vals);
    } else {
      r := Failed;
    }
  }

  /** The first k replies of a Get have arrived, and there are more to come. */
  ghost predicate CanHandle(box: KVTableBox, keys: seq<nat>, arrived: seq<KVPairs>, k: nat, answer: (nat, nat) -> int)
    reads box, box.manager
  {
    && Valid(box.manager.Map()) && Contiguous(box.manager.ranges) && keys != [] && Sorted(keys)
    && IsArrivalOf(arrived, box.manager.Map(), keys, answer) && k < |arrived| && box.recvKvs == arrived[..k]
  }

  /**
   * One more has arrived: after the last one the Get's result is there, and until then nothing has changed but
   * the box.
   */
  ghost predicate HasHandled(box: KVTableBox, keys: seq<nat>, arrived: seq<KVPairs>, k: nat, answer: (nat, nat) -> int,
                             vals: Outcome, r: Outcome)
    requires Valid(box.manager.Map()) && k < |arrived|
    reads box, box.manager
  {
    if k + 1 < |arrived| then r == vals && box.recvKvs == arrived[..k + 1]
    else
      && r ==
           (if AllCovered(box.manager.Map(), keys) then Vals(OwnersValues(box.manager.Map(), answer, keys)) else Failed)
      && (r.Vals? ==> box.recvKvs == [])
  }

  /** One more reply arrives, and after the last one HandleFinish() runs. */
  method HandleReply(box: KVTableBox, keys: seq<nat>, arrived: seq<KVPairs>, k: nat, last: bool,
                     ghost answer: (nat, nat) -> int, vals: Outcome)
    returns (r: Outcome)
    requires CanHandle(box, keys, arrived, k, answer) && (last <==> k + 1 == |arrived|)
    modifies box`recvKvs
    ensures HasHandled(box, keys, arrived, k, answer, vals, r)
  {
    box.HandleMsg(arrived[k]);
    assert box.recvKvs == arrived[..k + 1];
    r := vals;
    if last {
      assert arrived[..k + 1] == arrived;
      r := FinishGet(box, keys, answer);
    }
  }

  /** The client that receives its replies itself. */
  class SimpleKVTable {
    const box: KVTableBox
    var currentResponses: nat
    var expectedResponses: nat

    constructor (box: KVTableBox)
      ensures this.box == box
    {
      this.box := box;
      currentResponses, expectedResponses := 0, 0;
    }

    /** recvQueue holds the messages in the order in which WaitAndPop() returns them. */
    method Get(keys: seq<nat>, vals: seq<int>, recvQueue: seq<KVPairs>, ghost answer: (nat, nat) -> int)
      returns (r: Outcome)
      requires Valid(box.manager.Map()) && Contiguous(box.manager.ranges) && keys != [] && Sorted(keys)
      requires box.recvKvs == [] && IsArrivalOf(recvQueue, box.manager.Map(), keys, answer)
      modifies this, box
      ensures r == Expected(box.manager.Map(), keys, answer, vals)
      ensures r.Vals? ==> box.recvKvs == [] && currentResponses == expectedResponses == 0
      ensures old(box.sendQueue) <= box.sendQueue
      ensures AreGets(box.sendQueue[|old(box.sendQueue)|..], box.appThreadId, box.modelId, box.manager.Map(), keys)
    {
      SendGet(keys);
      SameLength(recvQueue, Replies(answer, Slices(box.manager.Map(), KVPairs(keys, []))));
      r := ReceiveAll(keys, vals, recvQueue, answer);
    }

    /** Up to the receive loop. */
    method SendGet(keys: seq<nat>)
      requires Valid(box.manager.Map()) && Contiguous(box.manager.ranges) && keys != [] && Sorted(keys)
      modifies this, box`sendQueue
      ensures currentResponses == 0 && expectedResponses == |Slices(box.manager.Map(), KVPairs(keys, []))|
      ensures old(box.sendQueue) <= box.sendQueue
      ensures AreGets(box.sendQueue[|old(box.sendQueue)|..], box.appThreadId, box.modelId, box.manager.Map(), keys)
    {
      var sliced := box.manager.Slice(KVPairs(keys, []));
      expectedResponses := |sliced|;
      currentResponses := 0;
      box.Send(sliced, false);
      SlicesAskEachOnce(box.manager.Map(), keys, box.sendQueue[|old(box.sendQueue)|..]);
    }

    method ReceiveAll(keys: seq<nat>, vals: seq<int>, recvQueue: seq<KVPairs>, ghost answer: (nat, nat) -> int)
      returns (r: Outcome)
      requires Valid(box.manager.Map()) && Contiguous(box.manager.ranges) && keys != [] && Sorted(keys)
      requires box.recvKvs == [] && IsArrivalOf(recvQueue, box.manager.Map(), keys, answer)
      requires currentResponses == 0 && expectedResponses == |recvQueue|
      requires |recvQueue| == |Slices(box.manager.Map(), KVPairs(keys, []))|
      modifies this, box`recvKvs
      ensures r == Expected(box.manager.Map(), keys, answer, vals)
      ensures r.Vals? ==> box.recvKvs == [] && currentResponses == expectedResponses == 0
    {
      r := Vals(vals);
      ghost var n := |recvQueue|;
      var popped := 0;
      while currentResponses < expectedResponses
        invariant 0 <= popped <= n && (currentResponses, expectedResponses) == Counters(popped, n)
        invariant popped < n || n == 0 ==> r == Vals(vals) && box.recvKvs == recvQueue[..popped]
        invariant popped == n > 0 ==>
                    r == Expected(box.manager.Map(), keys, answer, vals) && (r.Vals? ==> box.recvKvs == [])
        decreases n - popped
      {
        r := HandleOne(keys, recvQueue, popped, answer, r);
        popped := popped + 1;
      }
    }

    /** One round of the receive loop. */
    method HandleOne(keys: seq<nat>, recvQueue: seq<KVPairs>, popped: nat, ghost answer: (nat, nat) -> int,
                     vals: Outcome)
      returns (r: Outcome)
      requires CanHandle(box, keys, recvQueue, popped, answer)
      requires currentResponses == popped && expectedResponses == |recvQueue|
      modifies this`currentResponses, this`expectedResponses, box`recvKvs
      ensures (currentResponses, expectedResponses) == Counters(popped + 1, |recvQueue|)
      ensures HasHandled(box, keys, recvQueue, popped, answer, vals, r)
    {
      currentResponses := currentResponses + 1;
      r := HandleReply(box, keys, recvQueue, popped, currentResponses == expectedResponses, answer, vals);
      if currentResponses == expectedResponses {
        currentResponses, expectedResponses := 0, 0;
      }
    }
  }

  /** The two counters after so many of n responses; both are reset after the last. */
  function Counters(popped: nat, n: nat): (nat, nat)
  {
    if popped < n then (popped, n) else (0, 0)
  }

  /** The client whose replies are handled by the callback runner's thread while it waits. */
  class KVClientTable {
    const box: KVTableBox
    var tracker: (nat, nat)

    constructor (box: KVTableBox)
      ensures this.box == box
    {
      this.box := box;
      tracker := (0, 0);
    }

    /** AddResponse() for the messages in the order of their arrival, up to where WaitRequest() returns. */
    method Get(keys: seq<nat>, vals: seq<int>, arrived: seq<KVPairs>, ghost answer: (nat, nat) -> int)
      returns (r: Outcome)
      requires Valid(box.manager.Map()) && Contiguous(box.manager.ranges) && keys != [] && Sorted(keys)
      requires box.recvKvs == [] && IsArrivalOf(arrived, box.manager.Map(), keys, answer)
      modifies this, box
      ensures r == Expected(box.manager.Map(), keys, answer, vals)
      ensures r.Vals? ==> box.recvKvs == []
      ensures old(box.sendQueue) <= box.sendQueue
      ensures AreGets(box.sendQueue[|old(box.sendQueue)|..], box.appThreadId, box.modelId, box.manager.Map(), keys)
    {
      SendGet(keys);
      SameLength(arrived, Replies(answer, Slices(box.manager.Map(), KVPairs(keys, []))));
      r := WaitRequest(keys, vals, arrived, answer);
    }

    /** Up to WaitRequest(). */
    method SendGet(keys: seq<nat>)
      requires Valid(box.manager.Map()) && Contiguous(box.manager.ranges) && keys != [] && Sorted(keys)
      modifies this, box`sendQueue
      ensures tracker == (|Slices(box.manager.Map(), KVPairs(keys, []))|, 0)
      ensures old(box.sendQueue) <= box.sendQueue
      ensures AreGets(box.sendQueue[|old(box.sendQueue)|..], box.appThreadId, box.modelId, box.manager.Map(), keys)
    {
      var sliced := box.manager.Slice(KVPairs(keys, []));
      tracker := (|sliced|, 0);
      box.Send(sliced, false);
      SlicesAskEachOnce(box.manager.Map(), keys, box.sendQueue[|old(box.sendQueue)|..]);
    }

    method WaitRequest(keys: seq<nat>, vals: seq<int>, arrived: seq<KVPairs>, ghost answer: (nat, nat) -> int)
      returns (r: Outcome)
      requires Valid(box.manager.Map()) && Contiguous(box.manager.ranges) && keys != [] && Sorted(keys)
      requires box.recvKvs == [] && IsArrivalOf(arrived, box.manager.Map(), keys, answer)
      requires tracker == (|arrived|, 0) && |arrived| == |Slices(box.manager.Map(), KVPairs(keys, []))|
      modifies this, box`recvKvs
      ensures r == Expected(box.manager.Map(), keys, answer, vals)
      ensures r.Vals? ==> box.recvKvs == []
    {
      r := Vals(vals);
      ghost var n := |arrived|;
      var handled := 0;
      while tracker.0 != tracker.1
        invariant tracker == (n, handled) && 0 <= handled <= n
        invariant handled < n || n == 0 ==> r == Vals(vals) && box.recvKvs == arrived[..handled]
        invariant handled == n > 0 ==>
                    r == Expected(box.manager.Map(), keys, answer, vals) && (r.Vals? ==> box.recvKvs == [])
        decreases n - handled
      {
        r := AddResponse(keys, arrived, handled, answer, r);
        handled := handled + 1;
      }
    }

    /** One response: the receive handler, and after the last one the finish handler, before it is counted. */
    method AddResponse(keys: seq<nat>, arrived: seq<KVPairs>, handled: nat, ghost answer: (nat, nat) -> int,
                       vals: Outcome)
      returns (r: Outcome)
      requires CanHandle(box, keys, arrived, handled, answer)
      requires tracker == (|arrived|, handled)
      modifies this`tracker, box`recvKvs
      ensures tracker == (|arrived|, handled + 1)
      ensures HasHandled(box, keys, arrived, handled, answer, vals, r)
    {
      r := HandleReply(box, keys, arrived, handled, tracker.0 == tracker.1 + 1, answer, vals);
      tracker := (tracker.0, tracker.1 + 1);
    }
  }

  lemma SameLength<T>(a: seq<T>, b: seq<T>)
    requires multiset(a) == multiset(b)
    ensures |a| == |b|
  {
    assert |multiset(a)| == |a| && |multiset(b)| == |b|;
  }
}
