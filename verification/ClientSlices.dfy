/**
 * The slices of the cluster's workers (WorkerLinks), which keep of a request the keys a server owns, are
 * the slices the range partition makes (RangeSlicing).
 */
module ClientSlices {
  import opened RangeSlicing
  import IA = IssuedAdds
  import KvTable
  import R = Requests
  import WL = WorkerLinks

  /** The cluster's servers are those of the partition, and own the same keys. */
  ghost predicate SameOwners(c: WL.Config, p: Partition, keys: seq<nat>)
    requires Valid(p)
  {
    c.servers == |p.ranges| && forall i :: 0 <= i < |keys| ==> c.owner(keys[i]) == OwnerFrom(p.ranges, 0, keys[i])
  }

  lemma OwnedIsInRange(p: Partition, key: nat, j: nat)
    requires Valid(p) && Contiguous(p.ranges) && Covered(p, key) && j < |p.ranges|
    ensures OwnerFrom(p.ranges, 0, key) == j <==> InRange(p.ranges[j], key)
  {
    OwnerInRange(p.ranges, 0, key);
    if InRange(p.ranges[j], key) {
      OwnerIs(p.ranges, 0, j, key);
    }
  }

  /** The keys server j owns are those in its range. */
  lemma {:induction false} OwnedKeysInRange(c: WL.Config, p: Partition, keys: seq<nat>, j: nat)
    requires Valid(p) && Contiguous(p.ranges) && AllCovered(p, keys) && SameOwners(c, p, keys) && j < |p.ranges|
    ensures WL.SliceKeys(c, keys, j) == KeysIn(keys, p.ranges[j])
  {
    if keys == [] {
    } else {
      OwnedKeysInRange(c, p, keys[..|keys| - 1], j);
      assert Covered(p, keys[|keys| - 1]);
      OwnedIsInRange(p, keys[|keys| - 1], j);
    }
  }

  lemma OwnedKeys(c: WL.Config, p: Partition, keys: seq<nat>, j: nat)
    requires Valid(p) && Contiguous(p.ranges) && Sorted(keys) && AllCovered(p, keys) && SameOwners(c, p, keys)
             && j < |p.ranges|
    ensures var (b, e) := Piece(keys, p.ranges[j]);
            0 <= b <= e <= |keys| && WL.SliceKeys(c, keys, j) == keys[b..e]
  {
    OwnedKeysInRange(c, p, keys, j);
    KeysInPiece(keys, p.ranges[j]);
  }

  /**
   * The client sends a slice to a server exactly when the cluster's worker does, and it carries the same
   * keys: what is proved of the cluster's Gets holds of the Gets the range partition slices.
   */
  lemma SlicesAreOwnedKeys(c: WL.Config, p: Partition, keys: seq<nat>, j: nat) returns (k: nat)
    requires Valid(p) && Contiguous(p.ranges) && keys != [] && Sorted(keys) && AllCovered(p, keys)
             && SameOwners(c, p, keys)
    requires j < |p.ranges| && (forall i :: 0 <= i < |p.ids| && i != j ==> p.ids[i] != p.ids[j])
    ensures WL.SliceKeys(c, keys, j) != [] ==>
              var sliced := Slices(p, KVPairs(keys, []));
              k < |sliced| && sliced[k].server == p.ids[j] && sliced[k].kvs.keys == WL.SliceKeys(c, keys, j)
    ensures WL.SliceKeys(c, keys, j) == [] ==>
              forall i :: 0 <= i < |Slices(p, KVPairs(keys, []))| ==> Slices(p, KVPairs(keys, []))[i].server != p.ids[j]
  {
    var kvs := KVPairs(keys, []);
    OwnedKeys(c, p, keys, j);
    var (b, e) := Piece(keys, p.ranges[j]);
    if b < e {
      k := SliceExists(p, kvs, 0, j);
    } else {
      k := 0;
      forall i: nat | i < |Slices(p, kvs)| ensures Slices(p, kvs)[i].server != p.ids[j] {
        var j' := SliceOf(p, kvs, 0, i);
      }
    }
  }

  /** Server j, known by this id, answered its slice of g with these values. */
  ghost predicate AnsweredWith(c: WL.Config, replies: seq<R.Reply>, g: R.GetReq, j: nat, id: nat,
                               answer: (nat, nat) -> int) {
    WL.SliceKeys(c, g.keys, j) == [] ||
    exists k: nat :: k < |replies| && replies[k].req == g.(keys := WL.SliceKeys(c, g.keys, j))
                     && |replies[k].vals| == |replies[k].req.keys|
                     && forall p :: 0 <= p < |replies[k].vals| ==>
                          replies[k].vals[p] == answer(id, replies[k].req.keys[p])
  }

  /**
   * What the client puts together from the replies to a Get, in whatever order they arrive, is what the Get
   * returns in the cluster: what is proved of the cluster's Gets holds of the client's.
   */
  lemma AssembledIsGathered(c: WL.Config, p: Partition, g: R.GetReq, replies: nat -> seq<R.Reply>,
                            answer: (nat, nat) -> int,
                            arrived: seq<KVPairs>, vals: seq<int>)
    requires Valid(p) && Contiguous(p.ranges) && g.keys != [] && Sorted(g.keys) && AllCovered(p, g.keys)
             && SameOwners(c, p, g.keys)
    requires forall j: nat :: j < c.servers ==> AnsweredWith(c, replies(j), g, j, p.ids[j], answer)
    requires KvTable.IsArrivalOf(arrived, p, g.keys, answer) && KvTable.NoneEmpty(arrived)
             && KvTable.IsAssembled(vals, arrived)
    ensures WL.Gathered(c, replies, g, vals)
  {
    KvTable.AssembledAreOwners(p, g.keys, answer, arrived, vals);
    forall j: nat | j < c.servers ensures WL.SliceAnswered(c, replies(j), g, j) {
      assert AnsweredWith(c, replies(j), g, j, p.ids[j], answer);
    }
    forall i: nat | i < |g.keys|
      ensures var j := c.owner(g.keys[i]);
              j < c.servers && WL.RepliedWith(replies(j), g.(keys := WL.SliceKeys(c, g.keys, j)), g.keys[i], vals[i])
    {
      OwnersReply(c, p, g, replies(c.owner(g.keys[i])), answer, i);
    }
  }

  lemma OwnersReply(c: WL.Config, p: Partition, g: R.GetReq, replies: seq<R.Reply>, answer: (nat, nat) -> int, i: nat)
    requires Valid(p) && i < |g.keys| && SameOwners(c, p, g.keys)
    requires AnsweredWith(c, replies, g, c.owner(g.keys[i]), Owner(p, g.keys[i]), answer)
    ensures var j := c.owner(g.keys[i]);
            WL.RepliedWith(replies, g.(keys := WL.SliceKeys(c, g.keys, j)), g.keys[i],
                           answer(Owner(p, g.keys[i]), g.keys[i]))
  {
    var j := c.owner(g.keys[i]);
    var slice := WL.SliceKeys(c, g.keys, j);
    IA.KeyInSlice(c, g.keys, i);
    var at: nat :| at < |slice| && slice[at] == g.keys[i];
    var k: nat :| k < |replies| && replies[k].req == g.(keys := slice) && |replies[k].vals| == |slice|
                  && forall q :: 0 <= q < |replies[k].vals| ==>
                       replies[k].vals[q] == answer(Owner(p, g.keys[i]), replies[k].req.keys[q]);
    assert replies[k].vals[at] == answer(Owner(p, g.keys[i]), g.keys[i]);
  }
}
