/**
 * The all-to-all cluster barrier of comm2/mailbox.cpp.  Every node sends every node one barrier
 * message stamped with its progress, one destination at a time; messages are delivered in any
 * order, without loss or duplication.
 */
module VersionedBarrier {
  import opened Basics
  import opened Counting
  import AbstractBarrier

  /** The three counters of a mailbox. */
  datatype Counters = Counters(thisCount: nat, nextCount: nat, progress: nat)

  /** What the receiving thread of one of n nodes does with a barrier message; None is a failed CHECK. */
  function Receive(c: Counters, n: nat, version: nat): Option<Counters>
  {
    if version == c.progress then
      Some(c.(thisCount := c.thisCount + 1))
    else if version == c.progress + 1 then
      if c.nextCount + 1 < n then Some(c.(nextCount := c.nextCount + 1)) else None
    else
      None
  }

  /** The end of Barrier(), once this_count_ has reached the number of nodes. */
  function Release(c: Counters): Counters
  {
    Counters(c.nextCount, 0, c.progress + 1)
  }

  /** One node's mailbox, with the barrier messages it has handed to its sockets. */
  class Mailbox {
    const nodes: nat
    var thisCount: nat
    var nextCount: nat
    var progress: nat
    var outbox: seq<(nat, nat)>

    ghost function State(): Counters
      reads this
    {
      Counters(thisCount, nextCount, progress)
    }

    constructor (nodes: nat)
      ensures this.nodes == nodes && outbox == []
      ensures State() == Counters(0, 0, 0)
    {
      this.nodes := nodes;
      thisCount, nextCount, progress, outbox := 0, 0, 0, [];
    }

    /** The barrier branch of Receiving(); ok is false when a CHECK fails. */
    method ReceiveBarrier(version: nat) returns (ok: bool)
      modifies this`thisCount, this`nextCount
      ensures ok <==> version == progress || (version == progress + 1 && old(nextCount) + 1 < nodes)
      ensures ok <==> Receive(old(State()), nodes, version).Some?
      ensures ok ==> Receive(old(State()), nodes, version) == Some(State())
    {
      ok := true;
      if version == progress {
        thisCount := thisCount + 1;
      } else if version == progress + 1 {
        nextCount := nextCount + 1;
        ok := nextCount < nodes;
      } else {
        ok := false;
      }
    }

    /** The sending loop of Barrier(): one message to every node, in order, all with this progress. */
    method SendBarriers()
      modifies this`outbox
      ensures |outbox| == |old(outbox)| + nodes && old(outbox) <= outbox
      ensures forall k :: 0 <= k < nodes ==> outbox[|old(outbox)| + k] == (k, progress)
    {
      var k: nat := 0;
      while k < nodes
        invariant k <= nodes && |outbox| == |old(outbox)| + k && old(outbox) <= outbox
        invariant forall i :: 0 <= i < k ==> outbox[|old(outbox)| + i] == (i, progress)
      {
        outbox := outbox + [(k, progress)];
        k := k + 1;
      }
    }

    /** The end of Barrier(), after the wait. */
    method LeaveBarrier()
      requires thisCount == nodes
      modifies this`thisCount, this`nextCount, this`progress
      ensures State() == Release(old(State()))
    {
      thisCount := nextCount;
      nextCount := 0;
      progress := progress + 1;
    }
  }

  // ---------------------------------------------------------------- the protocol

  /** Inside(k): in Barrier(), with the messages to nodes 0..k-1 sent. */
  datatype Phase = Outside | Inside(sent: nat)

  /** net[i][j] holds the versions of the barrier messages in flight from node i to node j. */
  datatype State = State(box: seq<Counters>, phase: seq<Phase>, net: seq<seq<multiset<nat>>>)

  datatype Step =
    | Enter(i: nat)
    | Send(i: nat)
    | Deliver(i: nat, j: nat, v: nat)
    | Leave(i: nat)

  ghost predicate WellFormed(s: State, n: nat) {
    && |s.box| == |s.phase| == |s.net| == n
    && (forall i :: 0 <= i < n ==> |s.net[i]| == n)
    && (forall i :: 0 <= i < n ==> s.phase[i].Inside? ==> s.phase[i].sent <= n)
  }

  ghost predicate Init(s: State, n: nat) {
    && WellFormed(s, n)
    && (forall i :: 0 <= i < n ==> s.box[i] == Counters(0, 0, 0) && s.phase[i] == Outside)
    && (forall i, j :: 0 <= i < n && 0 <= j < n ==> s.net[i][j] == multiset{})
  }

  function Put(net: seq<seq<multiset<nat>>>, i: nat, j: nat, m: multiset<nat>): seq<seq<multiset<nat>>>
    requires i < |net| && j < |net[i]|
  {
    net[i := net[i][j := m]]
  }

  ghost predicate Next(s: State, n: nat, step: Step, t: State)
    requires WellFormed(s, n)
  {
    match step
    case Enter(i) =>
      && i < n && s.phase[i].Outside?
      && t == s.(phase := s.phase[i := Inside(0)])
    case Send(i) =>
      && i < n && s.phase[i].Inside? && s.phase[i].sent < n
      && var k := s.phase[i].sent;
         t == s.(phase := s.phase[i := Inside(k + 1)],
                 net := Put(s.net, i, k, s.net[i][k] + multiset{s.box[i].progress}))
    case Deliver(i, j, v) =>
      && i < n && j < n && v in s.net[i][j]
      && var c := Receive(s.box[j], n, v);
         c.Some? && t == s.(box := s.box[j := c.value], net := Put(s.net, i, j, s.net[i][j] - multiset{v}))
    case Leave(i) =>
      && i < n && s.phase[i] == Inside(n) && s.box[i].thisCount == n
      && t == s.(box := s.box[i := Release(s.box[i])], phase := s.phase[i := Outside])
  }

  // ---------------------------------------------------------------- the sending loop as steps

  /** A run in which only node i does something, and that is to send. */
  ghost predicate OnlySends(tr: seq<State>, n: nat, i: nat) {
    && |tr| > 0 && WellFormed(tr[0], n) && i < n
    && forall k :: 0 <= k < |tr| - 1 ==> WellFormed(tr[k], n) && Next(tr[k], n, Send(i), tr[k + 1])
  }

  /** These links of node i hold a message more than before, the one that is in its outbox for them. */
  ghost predicate PutOnLinks(before: State, after: State, n: nat, i: nat, msgs: seq<(nat, nat)>)
    requires WellFormed(before, n) && WellFormed(after, n) && i < n && |msgs| <= n
  {
    && (forall k :: 0 <= k < |msgs| ==>
         msgs[k].0 == k && after.net[i][k] == before.net[i][k] + multiset{msgs[k].1})
    && (forall k :: |msgs| <= k < n ==> after.net[i][k] == before.net[i][k])
    && (forall j :: 0 <= j < n && j != i ==> after.net[j] == before.net[j])
  }

  /**
   * The sending loop of a node that has entered its barrier is as many Send steps of the protocol: they put
   * exactly the messages the loop puts into its outbox on exactly their links, and nothing else happens.
   */
  lemma {:induction false} LoopIsSends(tr: seq<State>, n: nat, i: nat, msgs: seq<(nat, nat)>)
    requires OnlySends(tr, n, i) && tr[0].phase[i] == Inside(0)
    requires |msgs| == |tr| - 1 && forall k :: 0 <= k < |msgs| ==> msgs[k] == (k, tr[0].box[i].progress)
    ensures |msgs| <= n && WellFormed(tr[|msgs|], n) && PutOnLinks(tr[0], tr[|msgs|], n, i, msgs)
    ensures tr[|msgs|].box == tr[0].box && tr[|msgs|].phase == tr[0].phase[i := Inside(|msgs|)]
  {
    var k := |msgs|;
    if k > 0 {
      assert OnlySends(tr[..k], n, i);
      LoopIsSends(tr[..k], n, i, msgs[..k - 1]);
      assert Next(tr[k - 1], n, Send(i), tr[k]);
    }
  }

  /** And it can take them, one after the other. */
  lemma {:induction false} LoopCanSend(s: State, n: nat, i: nat, k: nat) returns (tr: seq<State>)
    requires WellFormed(s, n) && i < n && s.phase[i] == Inside(0) && k <= n
    ensures |tr| == k + 1 && tr[0] == s && OnlySends(tr, n, i)
    ensures WellFormed(tr[k], n) && tr[k].phase[i] == Inside(k)
  {
    if k == 0 {
      tr := [s];
    } else {
      tr := LoopCanSend(s, n, i, k - 1);
      var last := tr[k - 1];
      tr := tr + [last.(phase := last.phase[i := Inside(k)],
                        net := Put(last.net, i, k - 1, last.net[i][k - 1] + multiset{last.box[i].progress}))];
    }
  }

  // ---------------------------------------------------------------- the invariant

  /** Node i has sent its message for barrier v to node j. */
  ghost predicate HasSent(s: State, n: nat, i: nat, j: nat, v: nat)
    requires WellFormed(s, n) && i < n
  {
    || s.box[i].progress > v
    || (s.box[i].progress == v && s.phase[i].Inside? && j < s.phase[i].sent)
  }

  /** Node i's message for barrier v has reached node j. */
  ghost predicate Delivered(s: State, n: nat, i: nat, j: nat, v: nat)
    requires WellFormed(s, n) && i < n && j < n
  {
    HasSent(s, n, i, j, v) && v !in s.net[i][j]
  }

  /** The nodes whose message for barrier v has reached node j. */
  ghost function Arrived(s: State, n: nat, j: nat, v: nat): set<nat>
    requires WellFormed(s, n) && j < n
  {
    set i: nat | i < n && Delivered(s, n, i, j, v)
  }

  ghost predicate NetInv(s: State, n: nat)
    requires WellFormed(s, n)
  {
    forall i: nat, j: nat, v: nat :: i < n && j < n && v in s.net[i][j] ==>
      s.net[i][j][v] == 1 && HasSent(s, n, i, j, v)
  }

  /** A node that has left barrier v has received everybody's message for it. */
  ghost predicate PastInv(s: State, n: nat)
    requires WellFormed(s, n)
  {
    forall i: nat, j: nat, v: nat :: i < n && j < n && v < s.box[j].progress ==> Delivered(s, n, i, j, v)
  }

  /** The counters count the messages that have arrived for this barrier and for the next one. */
  ghost predicate Counts(s: State, n: nat, j: nat)
    requires WellFormed(s, n) && j < n
  {
    && s.box[j].thisCount == |Arrived(s, n, j, s.box[j].progress)|
    && s.box[j].nextCount == |Arrived(s, n, j, s.box[j].progress + 1)|
  }

  ghost predicate CountInv(s: State, n: nat)
    requires WellFormed(s, n)
  {
    forall j: nat :: j < n ==> Counts(s, n, j)
  }

  ghost predicate Inv(s: State, n: nat) {
    WellFormed(s, n) && NetInv(s, n) && PastInv(s, n) && CountInv(s, n)
  }

  lemma InitInv(s: State, n: nat)
    requires Init(s, n)
    ensures Inv(s, n)
  {
    forall j: nat, v: nat | j < n ensures Arrived(s, n, j, v) == {} {
    }
  }

  /** Safety at one state: a node that has left barrier v proves that every node has entered it. */
  lemma LeftOnlyAfterAllEntered(s: State, n: nat, i: nat, j: nat)
    requires WellFormed(s, n) && PastInv(s, n) && i < n && j < n
    ensures s.box[i].progress <= s.box[j].progress + 1
    ensures s.box[i].progress == s.box[j].progress + 1 ==> s.phase[j].Inside?
  {
    if s.box[i].progress > s.box[j].progress {
      assert Delivered(s, n, j, i, s.box[i].progress - 1);
    }
  }

  /** A message in flight to j carries j's progress or the number after it. */
  lemma InFlightVersion(s: State, n: nat, i: nat, j: nat, v: nat)
    requires Inv(s, n) && i < n && j < n && v in s.net[i][j]
    ensures s.box[j].progress <= v <= s.box[j].progress + 1
  {
    assert Delivered(s, n, i, j, v) == false;
    LeftOnlyAfterAllEntered(s, n, i, j);
  }

  /** While a message of i for barrier v is on its way to j, that barrier lacks i and next_count_ lacks j itself. */
  lemma ArrivalBounds(s: State, n: nat, i: nat, j: nat, v: nat)
    requires WellFormed(s, n) && i < n && j < n && v in s.net[i][j]
    requires NetInv(s, n)
    ensures i !in Arrived(s, n, j, v)
    ensures |Arrived(s, n, j, v)| < n
    ensures v > s.box[j].progress ==> |Arrived(s, n, j, v)| + 1 < n
  {
    var a := Arrived(s, n, j, v);
    BelowSubset(a, n);
    assert i in Below(n) && j in Below(n);
    if v > s.box[j].progress {
      assert HasSent(s, n, i, j, v) && !HasSent(s, n, j, j, v);
      BelowSubset(a + {i}, n);
      assert j !in a + {i};
    }
  }

  /**
   * No CHECK of the receiving thread can fail, whatever message is delivered next: its version is
   * progress_ or progress_ + 1, this_count_ stays at most n and next_count_ below n.
   */
  lemma NoCheckFails(s: State, n: nat, i: nat, j: nat, v: nat)
    requires Inv(s, n) && i < n && j < n && v in s.net[i][j]
    ensures v == s.box[j].progress || v == s.box[j].progress + 1
    ensures var c := Receive(s.box[j], n, v);
            c.Some? && c.value.thisCount <= n && c.value.nextCount < n
  {
    InFlightVersion(s, n, i, j, v);
    ArrivalBounds(s, n, i, j, v);
    assert Counts(s, n, j);
    CounterBounds(s, n, j);
  }

  /** In every reachable state this_count_ is at most n and next_count_ below n. */
  lemma CounterBounds(s: State, n: nat, j: nat)
    requires WellFormed(s, n) && j < n && Counts(s, n, j)
    ensures s.box[j].thisCount <= n && s.box[j].nextCount < n
  {
    var a, b := Arrived(s, n, j, s.box[j].progress), Arrived(s, n, j, s.box[j].progress + 1);
    BelowSubset(a, n);
    BelowSubset(b, n);
    assert !Delivered(s, n, j, j, s.box[j].progress + 1);
    assert j !in b && j in Below(n);
  }

  /** Steps that deliver nothing leave the arrivals alone. */
  lemma SameArrivals(s: State, n: nat, t: State)
    requires WellFormed(s, n) && WellFormed(t, n)
    requires forall i: nat, j: nat, v: nat :: i < n && j < n ==> Delivered(s, n, i, j, v) == Delivered(t, n, i, j, v)
    ensures forall j: nat, v: nat :: j < n ==> Arrived(s, n, j, v) == Arrived(t, n, j, v)
  {
    forall j: nat, v: nat | j < n ensures Arrived(s, n, j, v) == Arrived(t, n, j, v) {
      forall i: nat | i < n ensures i in Arrived(s, n, j, v) <==> i in Arrived(t, n, j, v) {
        assert Delivered(s, n, i, j, v) == Delivered(t, n, i, j, v);
      }
    }
  }

  lemma SameCounts(s: State, n: nat, t: State)
    requires WellFormed(s, n) && WellFormed(t, n) && CountInv(s, n) && t.box == s.box
    requires forall i: nat, j: nat, v: nat :: i < n && j < n ==> Delivered(s, n, i, j, v) == Delivered(t, n, i, j, v)
    ensures CountInv(t, n)
  {
    SameArrivals(s, n, t);
    forall j: nat | j < n ensures Counts(t, n, j) {
      assert Counts(s, n, j);
    }
  }

  /** Entering and leaving deliver nothing. */
  lemma EnterLeaveDeliver(s: State, n: nat, step: Step, t: State)
    requires WellFormed(s, n) && Next(s, n, step, t) && (step.Enter? || step.Leave?)
    ensures WellFormed(t, n)
    ensures forall i: nat, j: nat, v: nat :: i < n && j < n ==>
              (Delivered(t, n, i, j, v) <==> Delivered(s, n, i, j, v))
  {
    assert t.net == s.net;
    forall i: nat, j: nat, v: nat | i < n && j < n ensures HasSent(t, n, i, j, v) == HasSent(s, n, i, j, v) {
    }
  }

  lemma EnterInv(s: State, n: nat, i: nat, t: State)
    requires Inv(s, n) && Next(s, n, Enter(i), t)
    ensures Inv(t, n)
  {
    SameCounts(s, n, t);
  }

  /** Sending delivers nothing. */
  lemma SendDelivers(s: State, n: nat, i: nat, t: State)
    requires WellFormed(s, n) && NetInv(s, n) && Next(s, n, Send(i), t)
    ensures WellFormed(t, n) && NetInv(t, n)
    ensures forall i': nat, j': nat, v': nat :: i' < n && j' < n ==>
              (Delivered(t, n, i', j', v') <==> Delivered(s, n, i', j', v'))
  {
    var k, p := s.phase[i].sent, s.box[i].progress;
    assert !HasSent(s, n, i, k, p);
    assert p !in s.net[i][k];
  }

  lemma SendInv(s: State, n: nat, i: nat, t: State)
    requires Inv(s, n) && Next(s, n, Send(i), t)
    ensures Inv(t, n)
  {
    SendDelivers(s, n, i, t);
    SameCounts(s, n, t);
  }

  /** Delivering the message of i for barrier v to j makes that one message delivered, and no other. */
  lemma DeliverOne(s: State, n: nat, i: nat, j: nat, v: nat, t: State)
    requires WellFormed(s, n) && NetInv(s, n) && Next(s, n, Deliver(i, j, v), t)
    ensures WellFormed(t, n) && NetInv(t, n)
    ensures forall i': nat, j': nat, v': nat :: i' < n && j' < n ==>
              (Delivered(t, n, i', j', v') <==> (Delivered(s, n, i', j', v') || (i', j', v') == (i, j, v)))
  {
    assert s.net[i][j][v] == 1 && HasSent(s, n, i, j, v);
    forall i': nat, j': nat, v': nat | i' < n && j' < n
      ensures HasSent(t, n, i', j', v') == HasSent(s, n, i', j', v')
      ensures t.net[i'][j'][v'] == if (i', j', v') == (i, j, v) then 0 else s.net[i'][j'][v']
    {
    }
  }

  lemma DeliverInv(s: State, n: nat, i: nat, j: nat, v: nat, t: State)
    requires Inv(s, n) && Next(s, n, Deliver(i, j, v), t)
    ensures Inv(t, n)
  {
    DeliverOne(s, n, i, j, v, t);
    ArrivalBounds(s, n, i, j, v);
    InFlightVersion(s, n, i, j, v);
    assert PastInv(t, n);
    CountAfterDelivery(s, n, i, j, v, t);
  }

  lemma CountAfterDelivery(s: State, n: nat, i: nat, j: nat, v: nat, t: State)
    requires WellFormed(s, n) && CountInv(s, n) && Next(s, n, Deliver(i, j, v), t) && WellFormed(t, n)
    requires i !in Arrived(s, n, j, v)
    requires forall i': nat, j': nat, v': nat :: i' < n && j' < n ==>
               (Delivered(t, n, i', j', v') <==> (Delivered(s, n, i', j', v') || (i', j', v') == (i, j, v)))
    ensures CountInv(t, n)
  {
    forall j': nat | j' < n ensures Counts(t, n, j') {
      CountsAfterDelivery(s, n, i, j, v, t, j');
    }
  }

  lemma CountsAfterDelivery(s: State, n: nat, i: nat, j: nat, v: nat, t: State, j': nat)
    requires WellFormed(s, n) && Next(s, n, Deliver(i, j, v), t) && WellFormed(t, n)
    requires j' < n && Counts(s, n, j') && i !in Arrived(s, n, j, v)
    requires forall i': nat, v': nat :: i' < n ==>
               (Delivered(t, n, i', j', v') <==> (Delivered(s, n, i', j', v') || (i', j', v') == (i, j, v)))
    ensures Counts(t, n, j')
  {
    var p := s.box[j'].progress;
    OneMoreArrival(s, n, i, j, v, t, j', p);
    OneMoreArrival(s, n, i, j, v, t, j', p + 1);
  }

  lemma OneMoreArrival(s: State, n: nat, i: nat, j: nat, v: nat, t: State, j': nat, v': nat)
    requires WellFormed(s, n) && WellFormed(t, n) && i < n && j < n && j' < n
    requires forall i': nat :: i' < n ==>
               (Delivered(t, n, i', j', v') <==> (Delivered(s, n, i', j', v') || (i', j', v') == (i, j, v)))
    ensures Arrived(t, n, j', v') == if j' == j && v' == v then Arrived(s, n, j', v') + {i} else Arrived(s, n, j', v')
  {
  }

  /** When this_count_ is the number of nodes, everybody's message for this barrier has arrived. */
  lemma FullCount(s: State, n: nat, d: nat)
    requires WellFormed(s, n) && d < n && Counts(s, n, d) && s.box[d].thisCount == n
    ensures forall i: nat :: i < n ==> Delivered(s, n, i, d, s.box[d].progress)
  {
    var a := Arrived(s, n, d, s.box[d].progress);
    BelowSubset(a, n);
    forall i: nat | i < n ensures Delivered(s, n, i, d, s.box[d].progress) {
      assert i in Below(n);
      assert i in a;
    }
  }

  lemma LeaveInv(s: State, n: nat, d: nat, t: State)
    requires Inv(s, n) && Next(s, n, Leave(d), t)
    ensures Inv(t, n)
  {
    var p := s.box[d].progress;
    assert Counts(s, n, d);
    FullCount(s, n, d);
    assert forall i: nat, j: nat, v: nat :: i < n && j < n ==> HasSent(s, n, i, j, v) == HasSent(t, n, i, j, v);
    SameArrivals(s, n, t);
    NothingTwoAhead(s, n, d);
    forall j: nat | j < n ensures Counts(t, n, j) {
      assert Counts(s, n, j);
    }
  }

  /** Nobody is two barriers ahead of anybody. */
  lemma NothingTwoAhead(s: State, n: nat, d: nat)
    requires WellFormed(s, n) && PastInv(s, n) && d < n
    ensures Arrived(s, n, d, s.box[d].progress + 2) == {}
  {
    var p := s.box[d].progress;
    forall i: nat | i < n ensures s.box[i].progress <= p + 1 {
      LeftOnlyAfterAllEntered(s, n, i, d);
    }
  }

  lemma NextInv(s: State, n: nat, step: Step, t: State)
    requires Inv(s, n) && Next(s, n, step, t)
    ensures Inv(t, n)
  {
    match step
    case Enter(i) => EnterInv(s, n, i, t);
    case Send(i) => SendInv(s, n, i, t);
    case Deliver(i, j, v) => DeliverInv(s, n, i, j, v, t);
    case Leave(i) => LeaveInv(s, n, i, t);
  }

  // ---------------------------------------------------------------- whole runs

  ghost predicate IsRun(tr: seq<State>, steps: seq<Step>, n: nat) {
    && |tr| == |steps| + 1
    && (forall k :: 0 <= k < |tr| ==> WellFormed(tr[k], n))
    && (forall k :: 0 <= k < |steps| ==> Next(tr[k], n, steps[k], tr[k + 1]))
  }

  lemma RunStep(tr: seq<State>, steps: seq<Step>, n: nat, k: nat)
    requires IsRun(tr, steps, n) && k < |steps|
    ensures WellFormed(tr[k], n) && Next(tr[k], n, steps[k], tr[k + 1])
  {
  }

  lemma {:induction false} RunInv(tr: seq<State>, steps: seq<Step>, n: nat, k: nat)
    requires IsRun(tr, steps, n) && Inv(tr[0], n) && k < |tr|
    ensures Inv(tr[k], n)
  {
    if k == 0 {
    } else {
      RunInv(tr, steps, n, k - 1);
      RunStep(tr, steps, n, k - 1);
      NextInv(tr[k - 1], n, steps[k - 1], tr[k]);
    }
  }

  ghost function Abs(s: State): AbstractBarrier.State
    requires |s.phase| == |s.box|
  {
    AbstractBarrier.State(seq(|s.box|, (i: nat) requires i < |s.box| => s.box[i].progress),
                          seq(|s.box|, (i: nat) requires i < |s.phase| => s.phase[i].Inside?))
  }

  function AbsStep(step: Step): AbstractBarrier.Step
  {
    match step
    case Enter(i) => AbstractBarrier.Enter(i)
    case Leave(i) => AbstractBarrier.Leave(i)
    case _ => AbstractBarrier.Stutter
  }

  /** Every step of the protocol is a step of the abstract barrier, or leaves it where it was. */
  lemma Refines(s: State, n: nat, step: Step, t: State)
    requires Inv(s, n) && Next(s, n, step, t)
    ensures AbstractBarrier.Next(Abs(s), AbsStep(step), Abs(t))
  {
    match step
    case Enter(i) =>
      assert Abs(t).inside == Abs(s).inside[i := true];
    case Send(i) =>
      assert Abs(t) == Abs(s);
    case Deliver(i, j, v) =>
      assert Abs(t) == Abs(s);
    case Leave(i) =>
      assert Counts(s, n, i);
      FullCount(s, n, i);
      forall j: nat | j < n ensures AbstractBarrier.HasEntered(Abs(s), j, Abs(s).round[i]) {
        assert Delivered(s, n, j, i, s.box[i].progress);
      }
      assert Abs(t).round == Abs(s).round[i := s.box[i].progress + 1];
      assert Abs(t).inside == Abs(s).inside[i := false];
  }

  /**
   * Over every run, in every state: a node has left barrier v only if every node has entered it,
   * two nodes' progress differs by at most one, and whatever message arrives next passes the CHECKs.
   */
  lemma SafeOnEveryRun(tr: seq<State>, steps: seq<Step>, n: nat, k: nat)
    requires IsRun(tr, steps, n) && Init(tr[0], n) && k < |tr|
    ensures AbstractBarrier.Inv(Abs(tr[k]))
    ensures forall i, j :: 0 <= i < n && 0 <= j < n ==> tr[k].box[i].progress <= tr[k].box[j].progress + 1
    ensures forall i: nat, j: nat, v: nat :: i < n && j < n && v in tr[k].net[i][j] ==>
              Receive(tr[k].box[j], n, v).Some?
    ensures forall j: nat :: j < n ==> tr[k].box[j].thisCount <= n && (n > 0 ==> tr[k].box[j].nextCount < n)
  {
    var s := tr[k];
    InitInv(tr[0], n);
    RunInv(tr, steps, n, k);
    forall i: nat, j: nat, v: nat | i < n && j < n && v < s.box[i].progress
      ensures AbstractBarrier.HasEntered(Abs(s), j, v)
    {
      assert Delivered(s, n, j, i, v);
    }
    forall i, j | 0 <= i < n && 0 <= j < n ensures s.box[i].progress <= s.box[j].progress + 1 {
      LeftOnlyAfterAllEntered(s, n, i, j);
    }
    forall i: nat, j: nat, v: nat | i < n && j < n && v in s.net[i][j] ensures Receive(s.box[j], n, v).Some? {
      NoCheckFails(s, n, i, j, v);
    }
    forall j: nat | j < n ensures s.box[j].thisCount <= n && s.box[j].nextCount < n {
      assert Counts(s, n, j);
      CounterBounds(s, n, j);
    }
  }

  // ---------------------------------------------------------------- release

  /** Every node has entered barrier v. */
  ghost predicate AllEntered(s: State, n: nat, v: nat)
    requires WellFormed(s, n)
  {
    forall i: nat :: i < n ==> s.box[i].progress > v || (s.box[i].progress == v && s.phase[i].Inside?)
  }

  /** Nothing can happen but a node entering its next barrier. */
  ghost predicate Quiescent(s: State, n: nat)
    requires WellFormed(s, n)
  {
    forall step, t :: Next(s, n, step, t) ==> step.Enter?
  }

  lemma QuiescentShape(s: State, n: nat)
    requires Inv(s, n) && Quiescent(s, n)
    ensures forall i: nat :: i < n && s.phase[i].Inside? ==> s.phase[i].sent == n && s.box[i].thisCount != n
    ensures forall i: nat, j: nat :: i < n && j < n ==> s.net[i][j] == multiset{}
  {
    forall i: nat | i < n && s.phase[i].Inside? ensures s.phase[i].sent == n && s.box[i].thisCount != n {
      var k := s.phase[i].sent;
      if k < n {
        assert Next(s, n, Send(i), s.(phase := s.phase[i := Inside(k + 1)],
                    net := Put(s.net, i, k, s.net[i][k] + multiset{s.box[i].progress})));
      } else if s.box[i].thisCount == n {
        assert Next(s, n, Leave(i), s.(box := s.box[i := Release(s.box[i])], phase := s.phase[i := Outside]));
      }
    }
    forall i: nat, j: nat | i < n && j < n ensures s.net[i][j] == multiset{} {
      if v :| v in s.net[i][j] {
        NoCheckFails(s, n, i, j, v);
        assert Next(s, n, Deliver(i, j, v),
                    s.(box := s.box[j := Receive(s.box[j], n, v).value],
                       net := Put(s.net, i, j, s.net[i][j] - multiset{v})));
      }
    }
  }

  /** With every message sent and none in flight, this_count_ of a node all the others have caught up with is n. */
  lemma EverybodyArrived(s: State, n: nat, d: nat)
    requires Inv(s, n) && d < n && AllEntered(s, n, s.box[d].progress)
    requires forall i: nat :: i < n && s.phase[i].Inside? ==> s.phase[i].sent == n
    requires forall i: nat, j: nat :: i < n && j < n ==> s.net[i][j] == multiset{}
    ensures s.box[d].thisCount == n
  {
    assert Counts(s, n, d);
    forall i: nat | i < n ensures Delivered(s, n, i, d, s.box[d].progress) {
    }
    assert Arrived(s, n, d, s.box[d].progress) == Below(n);
  }

  /** Once everybody has entered barrier v, a state where nothing more can happen has released everybody. */
  lemma QuiescentMeansReleased(s: State, n: nat, v: nat)
    requires Inv(s, n) && AllEntered(s, n, v) && Quiescent(s, n)
    ensures forall d: nat :: d < n ==> s.box[d].progress > v
  {
    QuiescentShape(s, n);
    forall d: nat | d < n ensures s.box[d].progress > v {
      if s.box[d].progress == v {
        EverybodyArrived(s, n, d);
      }
    }
  }

  /** What node i still has to send, twice, and whether it has to leave. */
  ghost function Duty(s: State, n: nat): nat -> int
    requires WellFormed(s, n)
  {
    (i: nat) => if i < n && s.phase[i].Inside? then 2 * (n - s.phase[i].sent) + 1 else 0
  }

  /** How many messages are in flight from i to j. */
  ghost function InFlight(s: State, n: nat): (nat, nat) -> int
    requires WellFormed(s, n)
  {
    (i: nat, j: nat) => if i < n && j < n then |s.net[i][j]| else 0
  }

  ghost function Work(s: State, n: nat): int
    requires WellFormed(s, n)
  {
    Grid(n, Duty(s, n), InFlight(s, n))
  }

  lemma WorkNonNegative(s: State, n: nat)
    requires WellFormed(s, n)
    ensures Work(s, n) >= 0
  {
    GridNonNegative(n, Duty(s, n), InFlight(s, n));
  }

  /** Every send, delivery and exit takes exactly one off the work. */
  lemma WorkDecreases(s: State, n: nat, step: Step, t: State)
    requires WellFormed(s, n) && WellFormed(t, n) && Next(s, n, step, t) && !step.Enter?
    ensures Work(t, n) == Work(s, n) - 1
  {
    var i := step.i;
    var j := if step.Send? then s.phase[i].sent else if step.Deliver? then step.j else i;
    GridUpdate(n, Duty(s, n), InFlight(s, n), Duty(t, n), InFlight(t, n), i, j);
  }

  lemma EnteredStays(s: State, n: nat, step: Step, t: State, v: nat)
    requires WellFormed(s, n) && WellFormed(t, n) && Next(s, n, step, t) && AllEntered(s, n, v)
    ensures AllEntered(t, n, v)
  {
  }

  lemma TailIsRun(tr: seq<State>, steps: seq<Step>, n: nat)
    requires IsRun(tr, steps, n) && steps != []
    ensures IsRun(tr[1..], steps[1..], n)
  {
    var tr', steps' := tr[1..], steps[1..];
    assert forall k :: 0 <= k < |steps'| ==> Next(tr'[k], n, steps'[k], tr'[k + 1]);
  }

  /**
   * Once all nodes have entered barrier v, a run in which nobody enters another barrier ends after at
   * most Work steps, and one that cannot be continued has released every node from barrier v.
   */
  lemma {:induction false} EveryMaximalRunReleases(tr: seq<State>, steps: seq<Step>, n: nat, v: nat)
    requires IsRun(tr, steps, n) && Inv(tr[0], n) && AllEntered(tr[0], n, v)
    requires forall k :: 0 <= k < |steps| ==> !steps[k].Enter?
    ensures |steps| <= Work(tr[0], n)
    ensures Quiescent(tr[|steps|], n) ==> forall d: nat :: d < n ==> tr[|steps|].box[d].progress > v
    decreases |steps|
  {
    if |steps| == 0 {
      WorkNonNegative(tr[0], n);
      if Quiescent(tr[0], n) {
        QuiescentMeansReleased(tr[0], n, v);
      }
    } else {
      NextInv(tr[0], n, steps[0], tr[1]);
      WorkDecreases(tr[0], n, steps[0], tr[1]);
      TailIsRun(tr, steps, n);
      EnteredStays(tr[0], n, steps[0], tr[1], v);
      hide IsRun, Inv, Next, AllEntered, Work, Quiescent;
      EveryMaximalRunReleases(tr[1..], steps[1..], n, v);
    }
  }
}
