/** The superstep exchange: what waiting keeps, and what holds over whole runs. */
module SuperstepRuns {
  import opened Basics
  import opened Superstep
  import opened SuperstepMessages
  import VB = VersionedBarrier

  // ---------------------------------------------------------------- building the channels

  /** Building a Channel concerns the barrier and the node only. */
  lemma BuildInv(c: Config, s: State, i: nat, step: Step, s': State)
    requires Inv(c, s) && Next(c, s, step, s') && (step == Construct(i) || step == Constructed(i))
    ensures Inv(c, s')
    ensures VB.Next(Proj(c, s), c.n, if step.Construct? then VB.Enter(i) else VB.Leave(i), Proj(c, s'))
  {
    var b := if step.Construct? then VB.Enter(i) else VB.Leave(i);
    VB.NextInv(Proj(c, s), c.n, b, Proj(c, s'));
    VB.EnterLeaveDeliver(Proj(c, s), c.n, b, Proj(c, s'));
    BuildLocals(c, s, i, step, s');
    BoxesFrame(s, s');
    LinksFrame(c, s, s');
    forall m ensures Conserved(c, s', m) {
      assert Conserved(c, s, m);
    }
  }

  lemma BuildLocals(c: Config, s: State, i: nat, step: Step, s': State)
    requires WellFormed(c, s) && Locals(c, s) && Next(c, s, step, s')
             && (step == Construct(i) || step == Constructed(i))
    ensures WellFormed(c, s') && Locals(c, s')
  {
    assert NodeOk(c, s, i);
    forall i': nat | i' < c.n ensures NodeOk(c, s', i') {
      assert NodeOk(c, s, i');
      forall t | t in Local(c, i') ensures t in Missing(c, s', i') <==> t in Missing(c, s, i') {
        assert PlaceOk(c, s, t);
      }
      assert Missing(c, s', i') == Missing(c, s, i');
    }
    forall t: nat | t < |s'.th| ensures PlaceOk(c, s', t) {
      assert PlaceOk(c, s, t);
    }
  }

  // ---------------------------------------------------------------- waiting

  /** The counter of the generation barrier never underflows. */
  lemma CountPositive(c: Config, s: State, t: nat)
    requires WellFormed(c, s) && Locals(c, s) && t < |s.th| && !s.th[t].arrived
    ensures s.chan[c.node[t]].count > 0
  {
    assert NodeOk(c, s, c.node[t]);
    assert t in Missing(c, s, c.node[t]);
  }

  lemma ArriveInv(c: Config, s: State, t: nat, s': State)
    requires Inv(c, s) && Next(c, s, Arrive(t), s')
    ensures Inv(c, s')
    ensures if s.chan[c.node[t]].count == 1 then VB.Next(Proj(c, s), c.n, VB.Enter(c.node[t]), Proj(c, s'))
            else Proj(c, s') == Proj(c, s)
  {
    var i := c.node[t];
    assert NodeOk(c, s, i);
    if s.chan[i].count == 1 {
      VB.NextInv(Proj(c, s), c.n, VB.Enter(i), Proj(c, s'));
      VB.EnterLeaveDeliver(Proj(c, s), c.n, VB.Enter(i), Proj(c, s'));
    }
    ArriveLocals(c, s, t, s');
    ArriveLinks(c, s, t, s');
    forall u: nat | u < |s'.th| ensures BoxesOk(s', u) {
      assert BoxesOk(s, u);
    }
    forall m ensures Conserved(c, s', m) {
      assert Conserved(c, s, m);
    }
  }

  lemma ArriveLinks(c: Config, s: State, t: nat, s': State)
    requires Inv(c, s) && Next(c, s, Arrive(t), s') && WellFormed(c, s')
    requires forall i: nat, j: nat, v: nat :: i < c.n && j < c.n ==>
               (VB.Delivered(Proj(c, s'), c.n, i, j, v) <==> VB.Delivered(Proj(c, s), c.n, i, j, v))
    ensures Links(c, s')
  {
    forall i: nat, j: nat | i < c.n && j < c.n ensures LinkOk(c, s', i, j) {
      assert LinkOk(c, s, i, j);
      forall m | m in s.link[i][j] && m.Data? && m.dst < |s.th|
        ensures Expected(s'.th[m.dst]) == Expected(s.th[m.dst])
      {
        if m.dst == t && s.th[t].left % 2 == 1 {
          var k: nat :| k < |s.link[i][j]| && s.link[i][j][k] == m;
          assert InTransit(c, s, i, j, m);
          NothingOnTheWay(c, s, t, i, m);
        }
      }
      LinkFrame(c, s, s', i, j);
    }
  }

  lemma ArriveLocals(c: Config, s: State, t: nat, s': State)
    requires WellFormed(c, s) && Locals(c, s) && Next(c, s, Arrive(t), s')
    ensures WellFormed(c, s') && Locals(c, s')
  {
    var i := c.node[t];
    assert PlaceOk(c, s, t) && NodeOk(c, s, i);
    var missing := Missing(c, s, i);
    assert t in missing;
    forall i': nat | i' < c.n ensures NodeOk(c, s', i') {
      assert NodeOk(c, s, i');
      if i' != i {
        assert Missing(c, s', i') == Missing(c, s, i');
      } else if s.chan[i].count == 1 {
        assert Missing(c, s', i) == Local(c, i);
      } else {
        assert Missing(c, s', i) == missing - {t};
      }
    }
    forall u: nat | u < |s'.th| ensures PlaceOk(c, s', u) {
      assert PlaceOk(c, s, u);
      if c.node[u] == i && u != t && s.chan[i].count == 1 {
        Singleton(missing, t, u);
        assert u in Local(c, i);
      }
    }
  }

  lemma Singleton(a: set<nat>, t: nat, u: nat)
    requires t in a && |a| == 1 && u != t
    ensures u !in a
  {
    assert a == {t} + (a - {t});
  }

  /** Returning from Wait() changes nothing a thread expects or has taken. */
  lemma ReturnBoxes(c: Config, s: State, t: nat, s': State)
    requires WellFormed(c, s) && Boxes(s) && t < |s.th| && s.th[t].arrived
    requires s'.th == s.th[t := Return(s.th[t])]
    ensures Boxes(s')
    ensures forall u :: 0 <= u < |s.th| ==> Expected(s'.th[u]) == Expected(s.th[u])
    ensures forall m: Item :: m.Data? ==> Taken(s'.th[t], m) == Taken(s.th[t], m)
  {
    assert BoxesOk(s, t);
    forall u: nat | u < |s'.th| ensures BoxesOk(s', u) {
      assert BoxesOk(s, u);
    }
  }

  lemma WaitReturnInv(c: Config, s: State, t: nat, s': State)
    requires Inv(c, s) && Next(c, s, WaitReturn(t), s')
    ensures Inv(c, s') && Proj(c, s') == Proj(c, s)
  {
    var i := c.node[t];
    assert PlaceOk(c, s, t) && NodeOk(c, s, i);
    forall i': nat | i' < c.n ensures NodeOk(c, s', i') {
      assert NodeOk(c, s, i');
      assert Missing(c, s', i') == Missing(c, s, i');
    }
    forall u: nat | u < |s'.th| ensures PlaceOk(c, s', u) {
      assert PlaceOk(c, s, u);
    }
    ReturnBoxes(c, s, t, s');
    LinksFrame(c, s, s');
    forall m ensures Conserved(c, s', m) {
      assert Conserved(c, s, m);
    }
  }

  lemma LeaveBarrierInv(c: Config, s: State, i: nat, s': State)
    requires Inv(c, s) && Next(c, s, LeaveBarrier(i), s')
    ensures Inv(c, s') && VB.Next(Proj(c, s), c.n, VB.Leave(i), Proj(c, s'))
  {
    var t := s.chan[i].leader.value;
    VB.NextInv(Proj(c, s), c.n, VB.Leave(i), Proj(c, s'));
    VB.EnterLeaveDeliver(Proj(c, s), c.n, VB.Leave(i), Proj(c, s'));
    LeaveBarrierLocals(c, s, i, s');
    assert PlaceOk(c, s, t) && NodeOk(c, s, i);
    ReturnBoxes(c, s, t, s');
    LinksFrame(c, s, s');
    forall m ensures Conserved(c, s', m) {
      assert Conserved(c, s, m);
    }
  }

  lemma LeaveBarrierLocals(c: Config, s: State, i: nat, s': State)
    requires WellFormed(c, s) && Locals(c, s) && Next(c, s, LeaveBarrier(i), s')
    ensures WellFormed(c, s') && Locals(c, s')
  {
    forall i': nat | i' < c.n ensures NodeOk(c, s', i') {
      assert NodeOk(c, s, i');
      if i' == i {
        forall u | u in Local(c, i) ensures u in Missing(c, s, i) && u in Missing(c, s', i) {
          assert PlaceOk(c, s, u);
        }
        assert Missing(c, s, i) == Missing(c, s', i);
      } else {
        assert NodeOk(c, s, i);
        assert Missing(c, s', i') == Missing(c, s, i');
      }
    }
    forall u: nat | u < |s'.th| ensures PlaceOk(c, s', u) {
      assert PlaceOk(c, s, u) && NodeOk(c, s, i) && NodeOk(c, s, c.node[u]);
    }
  }

  // ---------------------------------------------------------------- whole runs

  lemma NextInv(c: Config, s: State, step: Step, s': State)
    requires Inv(c, s) && Next(c, s, step, s')
    ensures Inv(c, s')
    ensures match BarrierStep(c, s, step)
            case Some(b) => VB.Next(Proj(c, s), c.n, b, Proj(c, s'))
            case None => Proj(c, s') == Proj(c, s)
  {
    match step
    case Construct(i) => BuildInv(c, s, i, step, s');
    case Constructed(i) => BuildInv(c, s, i, step, s');
    case Push(t, u, x) => PushInv(c, s, t, u, x, s');
    case Arrive(t) => ArriveInv(c, s, t, s');
    case WaitReturn(t) => WaitReturnInv(c, s, t, s');
    case SendBarrier(i) => SendBarrierInv(c, s, i, s');
    case LeaveBarrier(i) => LeaveBarrierInv(c, s, i, s');
    case Deliver(i, j) =>
      if s.link[i][j][0].Data? {
        DeliverDataInv(c, s, i, j, s');
      } else {
        DeliverBarrierInv(c, s, i, j, s');
      }
    case DrainOne(t) => DrainInv(c, s, t, step, s');
    case DrainEnd(t) => DrainInv(c, s, t, step, s');
  }

  ghost predicate IsRun(c: Config, tr: seq<State>, steps: seq<Step>) {
    && |tr| == |steps| + 1
    && (forall k :: 0 <= k < |tr| ==> WellFormed(c, tr[k]))
    && (forall k :: 0 <= k < |steps| ==> Next(c, tr[k], steps[k], tr[k + 1]))
  }

  lemma {:induction false} RunInv(c: Config, tr: seq<State>, steps: seq<Step>, k: nat)
    requires IsRun(c, tr, steps) && Init(c, tr[0]) && k < |tr|
    ensures Inv(c, tr[k])
  {
    if k == 0 {
      InitInv(c, tr[0]);
    } else {
      RunInv(c, tr, steps, k - 1);
      NextInv(c, tr[k - 1], steps[k - 1], tr[k]);
    }
  }

  /** The messages pushed to thread u in round r, whoever pushed them. */
  ghost predicate IsRoundOf(m: Item, u: nat, r: nat)
  {
    m.Data? && m.dst == u && m.round == r
  }

  /**
   * Superstep exactness.  In every state of every run, what a thread's (r+1)-st SyncAndGet() has
   * returned is exactly, with multiplicities, what all threads have ever pushed to it in round r:
   * nothing lost, duplicated or leaked into another round, then or later.
   */
  lemma SuperstepExact(c: Config, tr: seq<State>, steps: seq<Step>, k: nat, u: nat, r: nat)
    requires IsRun(c, tr, steps) && Init(c, tr[0]) && k < |tr|
    requires u < |tr[k].th| && r < |tr[k].th[u].results|
    ensures forall m :: multiset(tr[k].th[u].results[r])[m] == if IsRoundOf(m, u, r) then tr[k].pushed[m] else 0
    ensures |tr[k].th[u].results| == tr[k].th[u].left / 2
  {
    RunInv(c, tr, steps, k);
    var s := tr[k];
    var th := s.th[u];
    assert BoxesOk(s, u);
    forall m ensures multiset(th.results[r])[m] == if IsRoundOf(m, u, r) then s.pushed[m] else 0 {
      assert m in multiset(th.results[r]) <==> m in th.results[r];
      assert Conserved(c, s, m);
      if IsRoundOf(m, u, r) && m.src < |s.th| {
        NoOldMail(c, s, u, r, m);
      }
    }
  }

  /** Nothing of a round a thread has finished is on a link to it or in its queue. */
  lemma NoOldMail(c: Config, s: State, u: nat, r: nat, m: Item)
    requires WellFormed(c, s) && Links(c, s) && u < |s.th| && BoxesOk(s, u)
    requires IsRoundOf(m, u, r) && m.src < |s.th| && r < |s.th[u].results|
    ensures m !in s.link[c.node[m.src]][c.node[u]] && m !in s.th[u].queue
  {
    assert LinkOk(c, s, c.node[m.src], c.node[u]);
  }

  /** Whatever barrier message is first on a link, the receiving thread's CHECKs hold for it. */
  lemma BarrierAccepted(c: Config, s: State, i: nat, j: nat)
    requires Inv(c, s) && i < c.n && j < c.n && s.link[i][j] != [] && s.link[i][j][0].Barrier?
    ensures VB.Receive(s.box[j], c.n, s.link[i][j][0].version).Some?
  {
    DeliverNet(s.link, i, j);
    VB.NoCheckFails(Proj(c, s), c.n, i, j, s.link[i][j][0].version);
  }

  /**
   * Whatever data is first on a link, its receiver has registered its queues: it is past that, in its
   * constructor's barrier at least.
   */
  lemma QueueRegistered(c: Config, s: State, i: nat, j: nat)
    requires Inv(c, s) && i < c.n && j < c.n && s.link[i][j] != [] && s.link[i][j][0].Data?
    ensures s.link[i][j][0].dst < |s.th| && c.node[s.link[i][j][0].dst] == j
    ensures s.built[j] || s.phase[j].Inside?
  {
    assert LinkOk(c, s, i, j) && NodeOk(c, s, j);
    assert InTransit(c, s, i, j, s.link[i][j][0]);
    VB.LeftOnlyAfterAllEntered(Proj(c, s), c.n, i, j);
  }

  /**
   * What is first on a link passes the receiving thread's CHECKs: a barrier's version, or that its receiver's
   * queue is registered.
   */
  ghost predicate FirstAccepted(c: Config, s: State, i: nat, j: nat)
    requires WellFormed(c, s) && i < c.n && j < c.n
  {
    s.link[i][j] != [] ==>
      match s.link[i][j][0]
      case Barrier(v) => VB.Receive(s.box[j], c.n, v).Some?
      case Data(_, u, _, _) => u < |c.node| && c.node[u] == j && (s.built[j] || s.phase[j].Inside?)
  }

  /**
   * In every state of every run a thread in Wait() finds the counter positive, barrier messages pass the
   * CHECKs, and data arrives only where the constructor has registered its queues.
   */
  lemma NothingFails(c: Config, tr: seq<State>, steps: seq<Step>, k: nat)
    requires IsRun(c, tr, steps) && Init(c, tr[0]) && k < |tr|
    ensures forall t: nat :: t < |tr[k].th| && !tr[k].th[t].arrived ==> tr[k].chan[c.node[t]].count > 0
    ensures forall i: nat, j: nat :: i < c.n && j < c.n ==> FirstAccepted(c, tr[k], i, j)
  {
    RunInv(c, tr, steps, k);
    var s := tr[k];
    forall t: nat | t < |s.th| && !s.th[t].arrived ensures s.chan[c.node[t]].count > 0 {
      CountPositive(c, s, t);
    }
    forall i: nat, j: nat | i < c.n && j < c.n ensures FirstAccepted(c, s, i, j) {
      if s.link[i][j] == [] {
      } else if s.link[i][j][0].Barrier? {
        BarrierAccepted(c, s, i, j);
      } else {
        QueueRegistered(c, s, i, j);
      }
    }
  }
}
