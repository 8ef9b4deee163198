/**
 * The older cluster barrier of comm/mailbox.cpp: the same messages, but without a version, and one
 * counter.  The messages of a node's different barriers cannot be told apart, so all that is in
 * flight on a link is a number of messages.
 */
module CounterBarrier {
  import opened Counting
  import AbstractBarrier

  /** The counter of one mailbox. */
  class Mailbox {
    const nodes: nat
    var barrierCount: nat

    constructor (nodes: nat)
      ensures this.nodes == nodes && barrierCount == 0
    {
      this.nodes := nodes;
      barrierCount := 0;
    }

    /** The barrier branch of Receiving(); full tells whether the waiting thread is notified. */
    method ReceiveBarrier() returns (full: bool)
      modifies this`barrierCount
      ensures barrierCount == old(barrierCount) + 1
      ensures full <==> barrierCount == nodes
    {
      barrierCount := barrierCount + 1;
      full := barrierCount == nodes;
    }

    /** The end of Barrier(), after the wait. */
    method LeaveBarrier()
      requires barrierCount >= nodes
      modifies this`barrierCount
      ensures barrierCount == old(barrierCount) - nodes
    {
      barrierCount := barrierCount - nodes;
    }
  }

  /** Inside(k): in Barrier(), with the messages to nodes 0..k-1 sent. */
  datatype Phase = Outside | Inside(sent: nat)

  /** left[i] counts the barriers node i has left; no node looks at it. */
  datatype State = State(count: seq<nat>, left: seq<nat>, phase: seq<Phase>, net: seq<seq<nat>>)

  datatype Step =
    | Enter(i: nat)
    | Send(i: nat)
    | Deliver(i: nat, j: nat)
    | Leave(i: nat)

  ghost predicate WellFormed(s: State, n: nat) {
    && |s.count| == |s.left| == |s.phase| == |s.net| == n
    && (forall i :: 0 <= i < n ==> |s.net[i]| == n)
    && (forall i :: 0 <= i < n ==> s.phase[i].Inside? ==> s.phase[i].sent <= n)
  }

  ghost predicate Init(s: State, n: nat) {
    && WellFormed(s, n)
    && (forall i :: 0 <= i < n ==> s.count[i] == 0 && s.left[i] == 0 && s.phase[i] == Outside)
    && (forall i, j :: 0 <= i < n && 0 <= j < n ==> s.net[i][j] == 0)
  }

  function Put(net: seq<seq<nat>>, i: nat, j: nat, m: nat): seq<seq<nat>>
    requires i < |net| && j < |net[i]|
  {
    var row: seq<nat> := net[i][j := m];
    net[i := row]
  }

  ghost predicate Next(s: State, n: nat, step: Step, t: State)
    requires WellFormed(s, n)
  {
    match step
    case Enter(i) =>
      && i < n && s.phase[i].Outside?
      && t == s.(phase := s.phase[i := Inside(0)])
    case Send(i) =>
      && i < n && s.phase[i].Inside? && s.phase[i].sent < n
      && var k := s.phase[i].sent;
         t == s.(phase := s.phase[i := Inside(k + 1)], net := Put(s.net, i, k, s.net[i][k] + 1))
    case Deliver(i, j) =>
      && i < n && j < n && s.net[i][j] > 0
      && t == s.(count := s.count[j := s.count[j] + 1], net := Put(s.net, i, j, s.net[i][j] - 1))
    case Leave(i) =>
      && i < n && s.phase[i] == Inside(n) && s.count[i] >= n
      && t == s.(count := s.count[i := s.count[i] - n], left := s.left[i := s.left[i] + 1],
                 phase := s.phase[i := Outside])
  }

  /** How many messages node i has sent to node j so far. */
  function SentTo(s: State, n: nat, i: nat, j: nat): nat
    requires |s.left| == |s.phase| == n && i < n
  {
    s.left[i] + if s.phase[i].Inside? && j < s.phase[i].sent then 1 else 0
  }

  function Entered(s: State, n: nat, i: nat): nat
    requires |s.left| == |s.phase| == n && i < n
  {
    s.left[i] + if s.phase[i].Inside? then 1 else 0
  }

  /** How many messages from each node have reached node j. */
  ghost function Received(s: State, n: nat, j: nat): nat -> int
    requires WellFormed(s, n) && j < n
  {
    (i: nat) => if i < n then SentTo(s, n, i, j) - s.net[i][j] else 0
  }

  ghost predicate Balanced(s: State, n: nat, j: nat)
    requires WellFormed(s, n) && j < n
  {
    s.count[j] + n * s.left[j] == Sum(n, Received(s, n, j))
  }

  /** Every received message is counted once, and nobody leaves more barriers than anybody has entered. */
  ghost predicate Inv(s: State, n: nat) {
    && WellFormed(s, n)
    && (forall j: nat :: j < n ==> Balanced(s, n, j))
    && (forall i: nat, j: nat :: i < n && j < n ==> s.left[j] <= Entered(s, n, i))
  }

  lemma InitInv(s: State, n: nat)
    requires Init(s, n)
    ensures Inv(s, n)
  {
    forall j: nat | j < n ensures Balanced(s, n, j) {
      SumEqual(n, Received(s, n, j), (i: nat) => 0);
      SumZero(n);
    }
  }

  lemma {:induction false} SumZero(n: nat)
    ensures Sum(n, (i: nat) => 0) == 0
  {
    if n == 0 {
    } else {
      SumEqual(n - 1, (i: nat) => 0, (i: nat) => 0);
      SumZero(n - 1);
    }
  }

  /** The heart of the matter: n * (left + 1) messages can only have come one from each node, at the least. */
  lemma EnoughMeansEverybody(s: State, n: nat, d: nat, i: nat)
    requires Inv(s, n) && d < n && i < n && s.count[d] >= n
    ensures Entered(s, n, i) > s.left[d]
  {
    var c, f := s.left[d], Received(s, n, d);
    assert Balanced(s, n, d);
    OneMoreTime(n, c);
    if Entered(s, n, i) <= c {
      forall k: nat | k < n ensures f(k) <= c + 1 {
        assert s.left[k] <= Entered(s, n, i);
      }
      SumStrictBound(n, f, c + 1, i);
    }
  }

  /** barrier_count_ stays below 2n. */
  lemma CountBelowTwoN(s: State, n: nat, d: nat)
    requires Inv(s, n) && d < n
    ensures s.count[d] < 2 * n
  {
    var c, f := s.left[d], Received(s, n, d);
    forall k: nat | k < n ensures f(k) <= c + 2 && (k == d ==> f(k) < c + 2) {
      AtMostTwoAhead(s, n, d, k);
    }
    SumStrictBound(n, f, c + 2, d);
    assert Balanced(s, n, d);
    Product(n, c);
  }

  /** What node d has received from node k: from itself one message more than it has left barriers, from others two. */
  lemma AtMostTwoAhead(s: State, n: nat, d: nat, k: nat)
    requires Inv(s, n) && d < n && k < n
    ensures Received(s, n, d)(k) <= s.left[d] + 2
    ensures k == d ==> Received(s, n, d)(k) < s.left[d] + 2
  {
    assert s.left[k] <= Entered(s, n, d);
  }

  lemma Product(n: nat, c: nat)
    ensures n * (c + 2) == n * c + 2 * n
  {
  }

  lemma SendInv(s: State, n: nat, i: nat, t: State)
    requires Inv(s, n) && Next(s, n, Send(i), t)
    ensures Inv(t, n)
  {
    forall i': nat, j: nat | i' < n && j < n ensures t.left[j] <= Entered(t, n, i') {
      assert s.left[j] <= Entered(s, n, i');
    }
    forall j: nat | j < n ensures Balanced(t, n, j) {
      assert Balanced(s, n, j);
      SumEqual(n, Received(s, n, j), Received(t, n, j));
    }
  }

  lemma EnterInv(s: State, n: nat, i: nat, t: State)
    requires Inv(s, n) && Next(s, n, Enter(i), t)
    ensures Inv(t, n)
  {
    forall i': nat, j: nat | i' < n && j < n ensures t.left[j] <= Entered(t, n, i') {
      assert s.left[j] <= Entered(s, n, i');
    }
    forall j: nat | j < n ensures Balanced(t, n, j) {
      assert Balanced(s, n, j);
      SumEqual(n, Received(s, n, j), Received(t, n, j));
    }
  }

  lemma DeliverInv(s: State, n: nat, i: nat, d: nat, t: State)
    requires Inv(s, n) && Next(s, n, Deliver(i, d), t)
    ensures Inv(t, n)
  {
    forall i': nat, j: nat | i' < n && j < n ensures t.left[j] <= Entered(t, n, i') {
      assert s.left[j] <= Entered(s, n, i');
    }
    forall j: nat | j < n ensures Balanced(t, n, j) {
      assert Balanced(s, n, j);
      if j == d {
        SumUpdate(n, Received(s, n, j), Received(t, n, j), i);
      } else {
        SumEqual(n, Received(s, n, j), Received(t, n, j));
      }
    }
  }

  lemma LeaveBalanced(s: State, n: nat, d: nat, t: State, j: nat)
    requires WellFormed(s, n) && Next(s, n, Leave(d), t) && WellFormed(t, n) && j < n && Balanced(s, n, j)
    ensures Balanced(t, n, j)
  {
    SumEqual(n, Received(s, n, j), Received(t, n, j));
    OneMoreTime(n, s.left[d]);
  }

  lemma OneMoreTime(n: nat, c: nat)
    ensures n * (c + 1) == n * c + n
  {
  }

  lemma LeaveInv(s: State, n: nat, d: nat, t: State)
    requires Inv(s, n) && Next(s, n, Leave(d), t)
    ensures Inv(t, n)
  {
    forall j: nat | j < n ensures Balanced(t, n, j) {
      LeaveBalanced(s, n, d, t, j);
    }
    forall i: nat, j: nat | i < n && j < n ensures t.left[j] <= Entered(t, n, i) {
      EnoughMeansEverybody(s, n, d, i);
    }
  }

  lemma NextInv(s: State, n: nat, step: Step, t: State)
    requires Inv(s, n) && Next(s, n, step, t)
    ensures Inv(t, n)
  {
    match step
    case Enter(i) => EnterInv(s, n, i, t);
    case Send(i) => SendInv(s, n, i, t);
    case Deliver(i, j) => DeliverInv(s, n, i, j, t);
    case Leave(i) => LeaveInv(s, n, i, t);
  }

  // ---------------------------------------------------------------- refinement and runs

  ghost function Abs(s: State): AbstractBarrier.State
    requires |s.phase| == |s.left|
  {
    AbstractBarrier.State(s.left, seq(|s.left|, (i: nat) requires i < |s.phase| => s.phase[i].Inside?))
  }

  function AbsStep(step: Step): AbstractBarrier.Step
  {
    match step
    case Enter(i) => AbstractBarrier.Enter(i)
    case Leave(i) => AbstractBarrier.Leave(i)
    case _ => AbstractBarrier.Stutter
  }

  /** The counter barrier refines the same abstract barrier as the versioned one. */
  lemma Refines(s: State, n: nat, step: Step, t: State)
    requires Inv(s, n) && Next(s, n, step, t)
    ensures AbstractBarrier.Next(Abs(s), AbsStep(step), Abs(t))
  {
    match step
    case Enter(i) =>
      assert Abs(t).inside == Abs(s).inside[i := true];
    case Send(i) =>
      assert Abs(t) == Abs(s);
    case Deliver(i, j) =>
      assert Abs(t) == Abs(s);
    case Leave(i) =>
      forall j: nat | j < n ensures AbstractBarrier.HasEntered(Abs(s), j, Abs(s).round[i]) {
        EnoughMeansEverybody(s, n, i, j);
      }
      assert Abs(t).inside == Abs(s).inside[i := false];
  }

  ghost predicate IsRun(tr: seq<State>, steps: seq<Step>, n: nat) {
    && |tr| == |steps| + 1
    && (forall k :: 0 <= k < |tr| ==> WellFormed(tr[k], n))
    && (forall k :: 0 <= k < |steps| ==> Next(tr[k], n, steps[k], tr[k + 1]))
  }

  lemma {:induction false} RunInv(tr: seq<State>, steps: seq<Step>, n: nat, k: nat)
    requires IsRun(tr, steps, n) && Init(tr[0], n) && k < |tr|
    ensures Inv(tr[k], n)
  {
    if k == 0 {
      InitInv(tr[0], n);
    } else {
      RunInv(tr, steps, n, k - 1);
      NextInv(tr[k - 1], n, steps[k - 1], tr[k]);
    }
  }

  /** Over every run: no node leaves its k-th barrier before all have entered theirs, and the counter stays below 2n. */
  lemma SafeOnEveryRun(tr: seq<State>, steps: seq<Step>, n: nat, k: nat)
    requires IsRun(tr, steps, n) && Init(tr[0], n) && k < |tr|
    ensures AbstractBarrier.Inv(Abs(tr[k]))
    ensures forall d: nat :: d < n ==> tr[k].count[d] < 2 * n
  {
    RunInv(tr, steps, n, k);
    forall d: nat | d < n ensures tr[k].count[d] < 2 * n {
      CountBelowTwoN(tr[k], n, d);
    }
    forall i: nat, j: nat, v: nat | i < n && j < n && v < tr[k].left[i]
      ensures AbstractBarrier.HasEntered(Abs(tr[k]), j, v)
    {
      assert tr[k].left[i] <= Entered(tr[k], n, j);
    }
  }

  // ---------------------------------------------------------------- release

  /** Every node has entered barrier v. */
  ghost predicate AllEntered(s: State, n: nat, v: nat)
    requires WellFormed(s, n)
  {
    forall i: nat :: i < n ==> Entered(s, n, i) > v
  }

  /** Nothing can happen but a node entering its next barrier. */
  ghost predicate Quiescent(s: State, n: nat)
    requires WellFormed(s, n)
  {
    forall step, t :: Next(s, n, step, t) ==> step.Enter?
  }

  /** A node inside its barrier can send while it has not sent to all, and leave when enough has arrived. */
  lemma CanGoOn(s: State, n: nat, i: nat)
    requires WellFormed(s, n) && i < n && s.phase[i].Inside? && (s.phase[i].sent < n || s.count[i] >= n)
    ensures !Quiescent(s, n)
  {
    var k := s.phase[i].sent;
    if k < n {
      assert Next(s, n, Send(i), s.(phase := s.phase[i := Inside(k + 1)], net := Put(s.net, i, k, s.net[i][k] + 1)));
    } else {
      assert Next(s, n, Leave(i), s.(count := s.count[i := s.count[i] - n], left := s.left[i := s.left[i] + 1],
                                     phase := s.phase[i := Outside]));
    }
  }

  lemma CanDeliver(s: State, n: nat, i: nat, j: nat)
    requires WellFormed(s, n) && i < n && j < n && s.net[i][j] > 0
    ensures !Quiescent(s, n)
  {
    assert Next(s, n, Deliver(i, j),
                s.(count := s.count[j := s.count[j] + 1], net := Put(s.net, i, j, s.net[i][j] - 1)));
  }

  /**
   * With every message sent and none in flight, a node whose barrier all have entered has counted enough to
   * leave it.
   */
  lemma EverybodyCounted(s: State, n: nat, d: nat)
    requires WellFormed(s, n) && d < n && Balanced(s, n, d) && AllEntered(s, n, s.left[d])
    requires forall i: nat :: i < n && s.phase[i].Inside? ==> s.phase[i].sent == n
    requires forall i: nat :: i < n ==> s.net[i][d] == 0
    ensures s.count[d] >= n
  {
    forall i: nat | i < n ensures Received(s, n, d)(i) >= s.left[d] + 1 {
      assert Entered(s, n, i) > s.left[d];
    }
    SumLowerBound(n, Received(s, n, d), s.left[d] + 1);
    OneMoreTime(n, s.left[d]);
  }

  /** Once everybody has entered barrier v, a state where nothing more can happen has released everybody. */
  lemma QuiescentMeansReleased(s: State, n: nat, v: nat)
    requires Inv(s, n) && AllEntered(s, n, v) && Quiescent(s, n)
    ensures forall d: nat :: d < n ==> s.left[d] > v
  {
    forall i: nat | i < n && s.phase[i].Inside? ensures s.phase[i].sent == n && s.count[i] < n {
      if s.phase[i].sent < n || s.count[i] >= n {
        CanGoOn(s, n, i);
      }
    }
    forall i: nat, j: nat | i < n && j < n ensures s.net[i][j] == 0 {
      if s.net[i][j] > 0 {
        CanDeliver(s, n, i, j);
      }
    }
    forall d: nat | d < n ensures s.left[d] > v {
      assert Entered(s, n, d) > v;
      if s.left[d] == v {
        EverybodyCounted(s, n, d);
      }
    }
  }

  /** What node i still has to send, twice, and whether it has to leave. */
  ghost function Duty(s: State, n: nat): nat -> int
    requires WellFormed(s, n)
  {
    (i: nat) => if i < n && s.phase[i].Inside? then 2 * (n - s.phase[i].sent) + 1 else 0
  }

  /** How many messages are in flight from i to j. */
  ghost function InFlight(s: State, n: nat): (nat, nat) -> int
    requires WellFormed(s, n)
  {
    (i: nat, j: nat) => if i < n && j < n then s.net[i][j] else 0
  }

  ghost function Work(s: State, n: nat): int
    requires WellFormed(s, n)
  {
    Grid(n, Duty(s, n), InFlight(s, n))
  }

  lemma WorkNonNegative(s: State, n: nat)
    requires WellFormed(s, n)
    ensures Work(s, n) >= 0
  {
    GridNonNegative(n, Duty(s, n), InFlight(s, n));
  }

  /** Every send, delivery and exit takes exactly one off the work. */
  lemma WorkDecreases(s: State, n: nat, step: Step, t: State)
    requires WellFormed(s, n) && WellFormed(t, n) && Next(s, n, step, t) && !step.Enter?
    ensures Work(t, n) == Work(s, n) - 1
  {
    var i := step.i;
    var j := if step.Send? then s.phase[i].sent else if step.Deliver? then step.j else i;
    GridUpdate(n, Duty(s, n), InFlight(s, n), Duty(t, n), InFlight(t, n), i, j);
  }

  lemma EnteredStays(s: State, n: nat, step: Step, t: State, v: nat)
    requires WellFormed(s, n) && WellFormed(t, n) && Next(s, n, step, t) && AllEntered(s, n, v)
    ensures AllEntered(t, n, v)
  {
    forall i: nat | i < n ensures Entered(t, n, i) > v {
      assert Entered(s, n, i) > v;
    }
  }

  lemma {:induction false} WorkLeft(tr: seq<State>, steps: seq<Step>, n: nat, from: nat, v: nat, k: nat)
    requires IsRun(tr, steps, n) && from <= k < |tr| && AllEntered(tr[from], n, v)
    requires forall i :: from <= i < |steps| ==> !steps[i].Enter?
    ensures AllEntered(tr[k], n, v)
    ensures k - from == Work(tr[from], n) - Work(tr[k], n)
    decreases k - from
  {
    if k == from {
    } else {
      WorkLeft(tr, steps, n, from, v, k - 1);
      assert Next(tr[k - 1], n, steps[k - 1], tr[k]);
      hide Work, AllEntered, Next;
      EnteredStays(tr[k - 1], n, steps[k - 1], tr[k], v);
      WorkDecreases(tr[k - 1], n, steps[k - 1], tr[k]);
    }
  }

  /**
   * If at some moment of a run all nodes have entered barrier v, and nobody enters another one from then on,
   * there are at most Work more steps, and a state from which there is none has released every node.
   */
  lemma EveryMaximalRunReleases(tr: seq<State>, steps: seq<Step>, n: nat, from: nat, v: nat)
    requires IsRun(tr, steps, n) && Init(tr[0], n) && from <= |steps| && AllEntered(tr[from], n, v)
    requires forall i :: from <= i < |steps| ==> !steps[i].Enter?
    ensures |steps| - from <= Work(tr[from], n)
    ensures Quiescent(tr[|steps|], n) ==> forall d: nat :: d < n ==> tr[|steps|].left[d] > v
  {
    WorkLeft(tr, steps, n, from, v, |steps|);
    WorkNonNegative(tr[|steps|], n);
    RunInv(tr, steps, n, |steps|);
    if Quiescent(tr[|steps|], n) {
      QuiescentMeansReleased(tr[|steps|], n, v);
    }
  }
}
