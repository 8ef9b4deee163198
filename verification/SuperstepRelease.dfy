/** The superstep exchange: when everybody waits, everybody is released. */
module SuperstepRelease {
  import opened Basics
  import opened Counting
  import opened Superstep
  import opened SuperstepRuns
  import VB = VersionedBarrier

  /** The steps in which no thread's program goes on by itself. */
  predicate Internal(step: Step) {
    step.WaitReturn? || step.SendBarrier? || step.LeaveBarrier? || step.Deliver?
  }

  /** Every thread has called Wait() for the (w+1)-st time; some may have returned. */
  ghost predicate AllAtWait(s: State, w: nat) {
    forall t :: 0 <= t < |s.th| ==> s.th[t].left > w || (s.th[t].left == w && s.th[t].arrived)
  }

  ghost predicate AllReturned(s: State, w: nat) {
    forall t :: 0 <= t < |s.th| ==> s.th[t].left > w
  }

  ghost predicate EveryNodeHasThreads(c: Config) {
    forall i: nat :: i < c.n ==> Local(c, i) != {}
  }

  /** No internal step is possible. */
  ghost predicate Quiescent(c: Config, s: State)
    requires WellFormed(c, s)
  {
    forall step, s' :: Next(c, s, step, s') ==> !Internal(step)
  }

  // ---------------------------------------------------------------- a state where nothing can happen

  /** What is first on a link can be delivered. */
  lemma CanDeliver(c: Config, s: State, i: nat, j: nat)
    requires Inv(c, s) && i < c.n && j < c.n && s.link[i][j] != []
    ensures !Quiescent(c, s)
  {
    var m, rest := s.link[i][j][0], Put(s.link, i, j, s.link[i][j][1..]);
    if m.Barrier? {
      BarrierAccepted(c, s, i, j);
      assert Next(c, s, Deliver(i, j), s.(box := s.box[j := VB.Receive(s.box[j], c.n, m.version).value], link := rest));
    } else {
      QueueRegistered(c, s, i, j);
      var th := s.th[m.dst];
      assert Next(c, s, Deliver(i, j), s.(th := s.th[m.dst := th.(queue := th.queue + [m])], link := rest));
    }
  }

  /** A node inside its barrier can send while it has not sent to all, and leave when all have arrived. */
  lemma CanGoOn(c: Config, s: State, i: nat)
    requires WellFormed(c, s) && Locals(c, s) && i < c.n && s.built[i] && s.phase[i].Inside?
    requires s.phase[i].sent < c.n || s.box[i].thisCount == c.n
    ensures !Quiescent(c, s)
  {
    assert NodeOk(c, s, i);
    var k := s.phase[i].sent;
    if k < c.n {
      assert Next(c, s, SendBarrier(i), s.(phase := s.phase[i := VB.Inside(k + 1)],
                                           link := Put(s.link, i, k, s.link[i][k] + [Barrier(s.box[i].progress)])));
    } else {
      var t := s.chan[i].leader.value;
      var ch := s.chan[i].(leader := None);
      assert Next(c, s, LeaveBarrier(i), s.(box := s.box[i := VB.Release(s.box[i])], phase := s.phase[i := VB.Outside],
                                            chan := s.chan[i := ch], th := s.th[t := Return(s.th[t])]));
    }
  }

  /** Every step of the cluster barrier but entering it is one the exchange can take, if not now then after others. */
  lemma BarrierCanGoOn(c: Config, s: State, step: VB.Step, p: VB.State)
    requires Inv(c, s) && (forall i: nat :: i < c.n ==> s.built[i])
    requires VB.Next(Proj(c, s), c.n, step, p) && !step.Enter?
    ensures !Quiescent(c, s)
  {
    match step
    case Send(i) => CanGoOn(c, s, i);
    case Leave(i) => CanGoOn(c, s, i);
    case Deliver(i, j, v) =>
      VersionsIn(s.link[i][j], v);
      CanDeliver(c, s, i, j);
  }

  /** So the cluster barrier is at rest, too. */
  lemma QuiescentBarrier(c: Config, s: State)
    requires Inv(c, s) && Quiescent(c, s) && forall i: nat :: i < c.n ==> s.built[i]
    ensures VB.Quiescent(Proj(c, s), c.n)
  {
    forall step, p | VB.Next(Proj(c, s), c.n, step, p) ensures step.Enter? {
      if !step.Enter? {
        BarrierCanGoOn(c, s, step, p);
      }
    }
  }

  /** When all threads of a node have arrived at a wait, the node is in the wait's barrier, or past it. */
  lemma NodeEntered(c: Config, s: State, w: nat, i: nat)
    requires WellFormed(c, s) && Locals(c, s) && AllAtWait(s, w) && i < c.n && Local(c, i) != {}
    ensures s.built[i]
    ensures s.box[i].progress > w + 1 || (s.box[i].progress == w + 1 && s.phase[i].Inside?)
  {
    var t :| t in Local(c, i);
    assert NodeOk(c, s, i) && PlaceOk(c, s, t);
    if !Busy(s, i) {
      var u :| u in Missing(c, s, i);
      assert PlaceOk(c, s, u);
    }
  }

  /** A thread that has arrived at a wait its node is past can return. */
  lemma QuiescentThread(c: Config, s: State, w: nat, t: nat)
    requires WellFormed(c, s) && Locals(c, s) && Quiescent(c, s) && AllAtWait(s, w) && t < |s.th|
    requires s.box[c.node[t]].progress > w + 1
    ensures s.th[t].left > w
  {
    var i := c.node[t];
    assert PlaceOk(c, s, t) && NodeOk(c, s, i);
    if s.th[t].left == w {
      assert Next(c, s, WaitReturn(t), s.(th := s.th[t := Return(s.th[t])]));
    }
  }

  lemma QuiescentMeansReturned(c: Config, s: State, w: nat)
    requires Inv(c, s) && Quiescent(c, s) && AllAtWait(s, w) && EveryNodeHasThreads(c)
    ensures AllReturned(s, w)
  {
    forall i: nat | i < c.n
      ensures s.built[i] && (s.box[i].progress > w + 1 || (s.box[i].progress == w + 1 && s.phase[i].Inside?))
    {
      NodeEntered(c, s, w, i);
    }
    QuiescentBarrier(c, s);
    VB.QuiescentMeansReleased(Proj(c, s), c.n, w + 1);
    forall t | 0 <= t < |s.th| ensures s.th[t].left > w {
      QuiescentThread(c, s, w, t);
    }
  }

  // ---------------------------------------------------------------- how much can still happen

  /** What node i still has to send, twice, and whether it has to leave. */
  ghost function Duty(c: Config, s: State): nat -> int
    requires WellFormed(c, s)
  {
    (i: nat) => if i < c.n && s.phase[i].Inside? then 2 * (c.n - s.phase[i].sent) + 1 else 0
  }

  /** How many messages are in flight from i to j. */
  ghost function InFlight(c: Config, s: State): (nat, nat) -> int
    requires WellFormed(c, s)
  {
    (i: nat, j: nat) => if i < c.n && j < c.n then |s.link[i][j]| else 0
  }

  /** A thread that has arrived has to return. */
  ghost function ThreadDuty(s: State): nat -> int
  {
    (t: nat) => if t < |s.th| && s.th[t].arrived then 1 else 0
  }

  ghost function Work(c: Config, s: State): int
    requires WellFormed(c, s)
  {
    Grid(c.n, Duty(c, s), InFlight(c, s)) + Sum(|s.th|, ThreadDuty(s))
  }

  lemma WorkNonNegative(c: Config, s: State)
    requires WellFormed(c, s)
    ensures Work(c, s) >= 0
  {
    GridNonNegative(c.n, Duty(c, s), InFlight(c, s));
    SumNonNegative(|s.th|, ThreadDuty(s));
  }

  /** Sending, delivering and leaving take one off the nodes' work, and returning leaves it alone. */
  lemma NodesWork(c: Config, s: State, step: Step, s': State)
    requires WellFormed(c, s) && WellFormed(c, s') && Next(c, s, step, s') && Internal(step)
    ensures Grid(c.n, Duty(c, s'), InFlight(c, s')) ==
            Grid(c.n, Duty(c, s), InFlight(c, s)) - if step.WaitReturn? then 0 else 1
  {
    var i := if step.WaitReturn? then c.node[step.t] else step.i;
    var j := if step.SendBarrier? then s.phase[i].sent else if step.Deliver? then step.j else i;
    GridUpdate(c.n, Duty(c, s), InFlight(c, s), Duty(c, s'), InFlight(c, s'), i, j);
  }

  /** Returning takes one off the threads' work, and no internal step adds any. */
  lemma ThreadsWork(c: Config, s: State, step: Step, s': State)
    requires WellFormed(c, s) && WellFormed(c, s') && Next(c, s, step, s') && Internal(step)
    ensures Sum(|s'.th|, ThreadDuty(s')) <= Sum(|s.th|, ThreadDuty(s)) - if step.WaitReturn? then 1 else 0
  {
    if step.WaitReturn? {
      SumUpdate(|s.th|, ThreadDuty(s), ThreadDuty(s'), step.t);
    } else if step.LeaveBarrier? {
      SumUpdate(|s.th|, ThreadDuty(s), ThreadDuty(s'), s.chan[step.i].leader.value);
    } else {
      SumEqual(|s.th|, ThreadDuty(s), ThreadDuty(s'));
    }
  }

  /** Every internal step takes something off the work there is. */
  lemma WorkDecreases(c: Config, s: State, step: Step, s': State)
    requires WellFormed(c, s) && WellFormed(c, s') && Next(c, s, step, s') && Internal(step)
    ensures Work(c, s') < Work(c, s)
  {
    NodesWork(c, s, step, s');
    ThreadsWork(c, s, step, s');
  }

  // ---------------------------------------------------------------- release

  lemma InternalKeepsWaiting(c: Config, s: State, step: Step, s': State, w: nat)
    requires WellFormed(c, s) && Next(c, s, step, s') && Internal(step) && AllAtWait(s, w)
    ensures AllAtWait(s', w)
  {
  }

  lemma RunStep(c: Config, tr: seq<State>, steps: seq<Step>, k: nat)
    requires IsRun(c, tr, steps) && k < |steps|
    ensures WellFormed(c, tr[k]) && WellFormed(c, tr[k + 1]) && Next(c, tr[k], steps[k], tr[k + 1])
  {
  }

  lemma {:induction false} WorkLeft(c: Config, tr: seq<State>, steps: seq<Step>, from: nat, w: nat, n: nat)
    requires IsRun(c, tr, steps) && from <= n < |tr| && AllAtWait(tr[from], w)
    requires forall k :: from <= k < |steps| ==> Internal(steps[k])
    ensures AllAtWait(tr[n], w)
    ensures n - from <= Work(c, tr[from]) - Work(c, tr[n])
    decreases n - from
  {
    hide Work, Next;
    if n == from {
    } else {
      WorkLeft(c, tr, steps, from, w, n - 1);
      RunStep(c, tr, steps, n - 1);
      WorkDecreases(c, tr[n - 1], steps[n - 1], tr[n]);
      InternalKeepsWaiting(c, tr[n - 1], steps[n - 1], tr[n], w);
    }
  }

  /**
   * Release.  If at some moment of a run every thread has called Wait() for the (w+1)-st time, and from then
   * on only internal steps are taken, there are at most Work of them; and if every node has threads, a state
   * from which there is none has returned every thread from that call.
   */
  lemma EveryMaximalRunReturns(c: Config, tr: seq<State>, steps: seq<Step>, from: nat, w: nat)
    requires IsRun(c, tr, steps) && Init(c, tr[0]) && from <= |steps| && AllAtWait(tr[from], w)
    requires forall k :: from <= k < |steps| ==> Internal(steps[k])
    ensures |steps| - from <= Work(c, tr[from])
    ensures EveryNodeHasThreads(c) && Quiescent(c, tr[|steps|]) ==> AllReturned(tr[|steps|], w)
  {
    WorkLeft(c, tr, steps, from, w, |steps|);
    WorkNonNegative(c, tr[|steps|]);
    if EveryNodeHasThreads(c) && Quiescent(c, tr[|steps|]) {
      RunInv(c, tr, steps, |steps|);
      QuiescentMeansReturned(c, tr[|steps|], w);
    }
  }

  /**
   * A node without threads never takes part in a barrier after the first: then no run returns any thread from
   * any wait.
   */
  lemma EmptyNodeBlocks(c: Config, tr: seq<State>, steps: seq<Step>, n: nat, i: nat)
    requires IsRun(c, tr, steps) && Init(c, tr[0]) && n < |tr| && i < c.n && Local(c, i) == {}
    ensures forall t :: 0 <= t < |tr[n].th| ==> tr[n].th[t].left == 0
  {
    RunInv(c, tr, steps, n);
    var s := tr[n];
    assert NodeOk(c, s, i);
    forall t | 0 <= t < |s.th| ensures s.th[t].left == 0 {
      assert PlaceOk(c, s, t) && NodeOk(c, s, c.node[t]);
      VB.LeftOnlyAfterAllEntered(Proj(c, s), c.n, c.node[t], i);
    }
  }
}
