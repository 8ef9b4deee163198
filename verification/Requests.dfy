/**
 * The requests workers send to servers, and the key-value store they are about.
 *
 * Every Add and Get carries the identity of its issue: the worker, the number of Clock() calls it
 * had made (its clock), and a serial number.  These labels name the request in the theorems; the
 * servers look at the worker only.
 */
module Requests {

  type Key = nat
  type Store = map<Key, int>

  datatype AddReq = AddReq(worker: nat, clock: nat, no: nat, kvs: seq<(Key, int)>)

  datatype GetReq = GetReq(worker: nat, clock: nat, no: nat, keys: seq<Key>)

  datatype Msg = AddMsg(a: AddReq) | GetMsg(g: GetReq) | ClockMsg(worker: nat)

  datatype Reply = Reply(req: GetReq, vals: seq<int>)

  /** A key that was never added to has the value 0. */
  function Lookup(m: Store, k: Key): int
  {
    if k in m then m[k] else 0
  }

  /** Adding pairs one after the other. */
  function Plus(m: Store, kvs: seq<(Key, int)>): Store
  {
    if kvs == [] then m
    else
      var before, (k, v) := Plus(m, kvs[..|kvs| - 1]), kvs[|kvs| - 1];
      before[k := Lookup(before, k) + v]
  }

  function ReadAll(m: Store, keys: seq<Key>): (vals: seq<int>)
    ensures |vals| == |keys|
    ensures forall i :: 0 <= i < |keys| ==> vals[i] == Lookup(m, keys[i])
  {
    seq(|keys|, (i: nat) requires i < |keys| => Lookup(m, keys[i]))
  }

  function Answer(m: Store, req: GetReq): Reply
  {
    Reply(req, ReadAll(m, req.keys))
  }

  function AnswerAll(m: Store, reqs: seq<GetReq>): (r: seq<Reply>)
    ensures |r| == |reqs|
    ensures forall i :: 0 <= i < |reqs| ==> r[i] == Answer(m, reqs[i])
  {
    seq(|reqs|, (i: nat) requires i < |reqs| => Answer(m, reqs[i]))
  }

  ghost function AnsweredReqs(replies: seq<Reply>): seq<GetReq>
  {
    seq(|replies|, (i: nat) requires i < |replies| => replies[i].req)
  }

  lemma AnsweredMore(replies: seq<Reply>, m: Store, reqs: seq<GetReq>)
    ensures AnsweredReqs(replies + AnswerAll(m, reqs)) == AnsweredReqs(replies) + reqs
    ensures forall g :: AnsweredReqs(replies + [Answer(m, g)]) == AnsweredReqs(replies) + [g]
  {
  }

  /** The requests issued at one clock, in their order. */
  function AtClock(reqs: seq<GetReq>, clock: nat): seq<GetReq>
  {
    if reqs == [] then []
    else
      var last := reqs[|reqs| - 1];
      AtClock(reqs[..|reqs| - 1], clock) + if last.clock == clock then [last] else []
  }

  lemma {:induction false} AtClockConcat(a: seq<GetReq>, b: seq<GetReq>, clock: nat)
    ensures AtClock(a + b, clock) == AtClock(a, clock) + AtClock(b, clock)
  {
    if b == [] {
      assert a + b == a;
    } else {
      AtClockConcat(a, b[..|b| - 1], clock);
      assert (a + b)[..|a + b| - 1] == a + b[..|b| - 1];
    }
  }

  lemma AtClockOne(g: GetReq, clock: nat)
    ensures AtClock([g], clock) == if g.clock == clock then [g] else []
  {
    assert AtClock([g][..0], clock) == [];
  }

  /** Choosing twice. */
  lemma {:induction false} AtClockTwice(reqs: seq<GetReq>, clock: nat, clock': nat)
    ensures AtClock(AtClock(reqs, clock), clock') == if clock == clock' then AtClock(reqs, clock) else []
  {
    if reqs == [] {
    } else {
      var front, last := AtClock(reqs[..|reqs| - 1], clock), reqs[|reqs| - 1];
      AtClockTwice(reqs[..|reqs| - 1], clock, clock');
      AtClockConcat(front, [last], clock');
      AtClockOne(last, clock');
      assert front + [] == front;
    }
  }

  /** What the pairs add to key k, all together. */
  function Delta(kvs: seq<(Key, int)>, k: Key): int
  {
    if kvs == [] then 0
    else Delta(kvs[..|kvs| - 1], k) + if kvs[|kvs| - 1].0 == k then kvs[|kvs| - 1].1 else 0
  }

  lemma {:induction false} LookupPlus(m: Store, kvs: seq<(Key, int)>, k: Key)
    ensures Lookup(Plus(m, kvs), k) == Lookup(m, k) + Delta(kvs, k)
  {
    if kvs == [] {
    } else {
      LookupPlus(m, kvs[..|kvs| - 1], k);
    }
  }

  lemma {:induction false} PlusConcat(m: Store, a: seq<(Key, int)>, b: seq<(Key, int)>)
    ensures Plus(m, a + b) == Plus(Plus(m, a), b)
  {
    if b == [] {
      assert a + b == a;
    } else {
      PlusConcat(m, a, b[..|b| - 1]);
      assert (a + b)[..|a + b| - 1] == a + b[..|b| - 1];
    }
  }

  lemma {:induction false} DeltaConcat(a: seq<(Key, int)>, b: seq<(Key, int)>, k: Key)
    ensures Delta(a + b, k) == Delta(a, k) + Delta(b, k)
  {
    if b == [] {
      assert a + b == a;
    } else {
      DeltaConcat(a, b[..|b| - 1], k);
      assert (a + b)[..|a + b| - 1] == a + b[..|b| - 1];
    }
  }

  /** What a list of Adds adds to key k, all together. */
  function Total(adds: seq<AddReq>, k: Key): int
  {
    if adds == [] then 0
    else Total(adds[..|adds| - 1], k) + Delta(adds[|adds| - 1].kvs, k)
  }

  lemma TotalSnoc(adds: seq<AddReq>, a: AddReq, k: Key)
    ensures Total(adds + [a], k) == Total(adds, k) + Delta(a.kvs, k)
  {
    assert (adds + [a])[..|adds|] == adds;
  }

  lemma {:induction false} TotalConcat(a: seq<AddReq>, b: seq<AddReq>, k: Key)
    ensures Total(a + b, k) == Total(a, k) + Total(b, k)
  {
    if b == [] {
      assert a + b == a;
    } else {
      var b' := b[..|b| - 1];
      TotalConcat(a, b', k);
      assert a + b == (a + b') + [b[|b| - 1]];
      TotalSnoc(a + b', b[|b| - 1], k);
    }
  }

  /** Applying Adds one after the other. */
  function PlusAll(m: Store, adds: seq<AddReq>): Store
  {
    if adds == [] then m
    else Plus(PlusAll(m, adds[..|adds| - 1]), adds[|adds| - 1].kvs)
  }

  lemma {:induction false} LookupPlusAll(m: Store, adds: seq<AddReq>, k: Key)
    ensures Lookup(PlusAll(m, adds), k) == Lookup(m, k) + Total(adds, k)
  {
    if adds == [] {
    } else {
      LookupPlusAll(m, adds[..|adds| - 1], k);
      LookupPlus(PlusAll(m, adds[..|adds| - 1]), adds[|adds| - 1].kvs, k);
    }
  }

  /** The Adds that were handled before a reply: the first seen of them. */
  function Included(adds: seq<AddReq>, seen: nat): seq<AddReq>
  {
    if seen <= |adds| then adds[..seen] else adds
  }

  /** vals are what keys hold in the initial store plus the given Adds. */
  ghost predicate Reflects(vals: seq<int>, keys: seq<Key>, init: Store, adds: seq<AddReq>)
  {
    && |vals| == |keys|
    && forall i :: 0 <= i < |keys| ==> vals[i] == Lookup(init, keys[i]) + Total(adds, keys[i])
  }

  /** A server's storage. */
  class Storage {
    var content: Store

    constructor (content: Store)
      ensures this.content == content
    {
      this.content := content;
    }

    /** The pairs of an Add, one after the other. */
    method AddPairs(kvs: seq<(Key, int)>)
      modifies this
      ensures content == Plus(old(content), kvs)
    {
      var i := 0;
      while i < |kvs|
        invariant i <= |kvs|
        invariant content == Plus(old(content), kvs[..i])
      {
        assert kvs[..i + 1][..i] == kvs[..i];
        content := content[kvs[i].0 := Lookup(content, kvs[i].0) + kvs[i].1];
        i := i + 1;
      }
      assert kvs[..i] == kvs;
    }

    method Get(req: GetReq) returns (reply: Reply)
      ensures reply == Answer(content, req)
    {
      reply := Answer(content, req);
    }
  }
}
