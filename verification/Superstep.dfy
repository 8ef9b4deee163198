/**
 * The bulk-synchronous exchange of comm2: threads push messages to one another through FIFO links,
 * and SyncAndGet() waits, drains the thread's queue, and waits again.  Each wait is a generation
 * barrier among the threads of a node, whose last thread runs the cluster barrier of the mailbox.  The
 * constructor of a node's Channel, after which its threads run, is one more cluster barrier before those.
 */
module Superstep {
  import opened Basics
  import VB = VersionedBarrier

  /** n nodes; node[t] is the node of global thread t. */
  datatype Config = Config(n: nat, node: seq<nat>)

  ghost predicate ValidConfig(c: Config) {
    forall t :: 0 <= t < |c.node| ==> c.node[t] < c.n
  }

  /**
   * A message on a link.  The round of a data message, the number of SyncAndGet() calls its sender
   * has completed, is there to state the theorem; no step looks at it.
   */
  datatype Item =
    | Data(src: nat, dst: nat, round: nat, payload: int)
    | Barrier(version: nat)

  /** The synchronisation state of a node's Channel; leader is the thread that holds the lock in Barrier(). */
  datatype Chan = Chan(count: nat, generation: nat, leader: Option<nat>)

  /** What Wait() does on arrival; the result is the new state and the generation the caller waits on. */
  function ArriveAt(ch: Chan, threshold: nat, t: nat): (Chan, nat)
    requires ch.count > 0
  {
    if ch.count - 1 == 0 then
      (Chan(threshold, ch.generation + 1, Some(t)), ch.generation)
    else
      (ch.(count := ch.count - 1), ch.generation)
  }

  /**
   * A thread: left counts the calls of Wait() it has returned from, so it is between two
   * SyncAndGet() calls when left is even and between the two waits of one when left is odd.
   */
  datatype Thread = Thread(left: nat, arrived: bool, gen: nat, drained: bool,
                           queue: seq<Item>, rets: seq<Item>, results: seq<seq<Item>>)

  /** built[i]: the constructor of node i's Channel has returned, so that its threads run. */
  datatype State = State(box: seq<VB.Counters>, phase: seq<VB.Phase>, link: seq<seq<seq<Item>>>,
                         chan: seq<Chan>, th: seq<Thread>, pushed: multiset<Item>, built: seq<bool>)

  datatype Step =
    | Construct(i: nat)
    | Constructed(i: nat)
    | Push(t: nat, u: nat, payload: int)
    | Arrive(t: nat)
    | WaitReturn(t: nat)
    | SendBarrier(i: nat)
    | LeaveBarrier(i: nat)
    | Deliver(i: nat, j: nat)
    | DrainOne(t: nat)
    | DrainEnd(t: nat)

  ghost predicate WellFormed(c: Config, s: State) {
    && ValidConfig(c)
    && |s.box| == |s.phase| == |s.link| == |s.chan| == |s.built| == c.n
    && |s.th| == |c.node|
    && (forall i :: 0 <= i < c.n ==> |s.link[i]| == c.n)
    && (forall i :: 0 <= i < c.n ==> s.phase[i].Inside? ==> s.phase[i].sent <= c.n)
  }

  /** The threads of node i. */
  ghost function Local(c: Config, i: nat): set<nat>
  {
    set t: nat | t < |c.node| && c.node[t] == i
  }

  /** No node has built its Channel yet. */
  ghost predicate Init(c: Config, s: State) {
    && WellFormed(c, s)
    && (forall i :: 0 <= i < c.n ==> s.box[i] == VB.Counters(0, 0, 0) && s.phase[i] == VB.Outside)
    && (forall i: nat :: i < c.n ==> s.chan[i] == Chan(|Local(c, i)|, 0, None))
    && (forall i, j :: 0 <= i < c.n && 0 <= j < c.n ==> s.link[i][j] == [])
    && (forall t :: 0 <= t < |s.th| ==> s.th[t] == Thread(0, false, 0, false, [], [], []))
    && (forall i :: 0 <= i < c.n ==> !s.built[i])
    && s.pushed == multiset{}
  }

  function Put(link: seq<seq<seq<Item>>>, i: nat, j: nat, items: seq<Item>): seq<seq<seq<Item>>>
    requires i < |link| && j < |link[i]|
  {
    link[i := link[i][j := items]]
  }

  /** Returning from Wait(): the end of SyncAndGet() when it is its second wait. */
  function Return(th: Thread): Thread
  {
    if th.left % 2 == 0 then
      th.(left := th.left + 1, arrived := false, drained := false)
    else
      th.(left := th.left + 1, arrived := false, drained := false, rets := [], results := th.results + [th.rets])
  }

  ghost predicate Next(c: Config, s: State, step: Step, s': State)
    requires WellFormed(c, s)
  {
    match step
    case Construct(i) =>
      && i < c.n && !s.built[i] && s.phase[i].Outside?
      && s' == s.(phase := s.phase[i := VB.Inside(0)])
    case Constructed(i) =>
      && i < c.n && !s.built[i] && s.phase[i] == VB.Inside(c.n) && s.box[i].thisCount == c.n
      && s' ==
           s.(box := s.box[i := VB.Release(s.box[i])], phase := s.phase[i := VB.Outside], built := s.built[i := true])
    case Push(t, u, x) =>
      && t < |s.th| && u < |s.th| && s.built[c.node[t]] && !s.th[t].arrived && s.th[t].left % 2 == 0
      && var i, j, m := c.node[t], c.node[u], Data(t, u, s.th[t].left / 2, x);
         s' == s.(link := Put(s.link, i, j, s.link[i][j] + [m]), pushed := s.pushed + multiset{m})
    case Arrive(t) =>
      && t < |s.th| && s.built[c.node[t]] && !s.th[t].arrived && (s.th[t].left % 2 == 1 ==> s.th[t].drained)
      && s.chan[c.node[t]].leader.None? && s.chan[c.node[t]].count > 0
      && var i := c.node[t];
         var (ch, g) := ArriveAt(s.chan[i], |Local(c, i)|, t);
         s' == s.(th := s.th[t := s.th[t].(arrived := true, gen := g)],
                  chan := s.chan[i := ch],
                  phase := if ch.leader.Some? then s.phase[i := VB.Inside(0)] else s.phase)
    case WaitReturn(t) =>
      && t < |s.th| && s.th[t].arrived
      && s.chan[c.node[t]].leader.None? && s.th[t].gen != s.chan[c.node[t]].generation
      && s' == s.(th := s.th[t := Return(s.th[t])])
    case SendBarrier(i) =>
      && i < c.n && s.phase[i].Inside? && s.phase[i].sent < c.n
      && var k := s.phase[i].sent;
         s' == s.(phase := s.phase[i := VB.Inside(k + 1)],
                  link := Put(s.link, i, k, s.link[i][k] + [Barrier(s.box[i].progress)]))
    case LeaveBarrier(i) =>
      && i < c.n && s.phase[i] == VB.Inside(c.n) && s.box[i].thisCount == c.n
      && s.chan[i].leader.Some? && s.chan[i].leader.value < |s.th|
      && var t := s.chan[i].leader.value;
         s' == s.(box := s.box[i := VB.Release(s.box[i])], phase := s.phase[i := VB.Outside],
                  chan := s.chan[i := s.chan[i].(leader := None)],
                  th := s.th[t := Return(s.th[t])])
    case Deliver(i, j) =>
      && i < c.n && j < c.n && s.link[i][j] != []
      && var m, rest := s.link[i][j][0], Put(s.link, i, j, s.link[i][j][1..]);
         (match m
          case Barrier(v) =>
            var b := VB.Receive(s.box[j], c.n, v);
            b.Some? && s' == s.(box := s.box[j := b.value], link := rest)
          case Data(_, u, _, _) =>
            && u < |s.th|
            && s' == s.(th := s.th[u := s.th[u].(queue := s.th[u].queue + [m])], link := rest))
    case DrainOne(t) =>
      && t < |s.th| && s.th[t].left % 2 == 1 && !s.th[t].arrived && !s.th[t].drained && s.th[t].queue != []
      && var th := s.th[t];
         s' == s.(th := s.th[t := th.(rets := th.rets + [th.queue[0]], queue := th.queue[1..])])
    case DrainEnd(t) =>
      && t < |s.th| && s.th[t].left % 2 == 1 && !s.th[t].arrived && !s.th[t].drained && s.th[t].queue == []
      && s' == s.(th := s.th[t := s.th[t].(drained := true)])
  }

  // ---------------------------------------------------------------- the sequential code

  /** The generation barrier of channel.cpp, as far as one caller goes without blocking. */
  class Channel {
    const threshold: nat
    var count: nat
    var generation: nat
    var leader: Option<nat>

    ghost function State(): Chan
      reads this
    {
      Chan(count, generation, leader)
    }

    constructor (threshold: nat)
      ensures this.threshold == threshold && State() == Chan(threshold, 0, None)
    {
      this.threshold := threshold;
      count, generation, leader := threshold, 0, None;
    }

    /** Wait() up to the point where it calls the cluster barrier (last) or blocks on gen. */
    method Arrive(t: nat) returns (last: bool, gen: nat)
      requires count > 0
      modifies this`count, this`generation, this`leader
      ensures (State(), gen) == ArriveAt(old(State()), threshold, t)
      ensures gen == old(generation) && (last <==> old(count) == 1)
    {
      gen := generation;
      count := count - 1;
      last := count == 0;
      if last {
        generation := generation + 1;
        count := threshold;
        leader := Some(t);
      }
    }

    /** The rest of Wait() for the last thread, after the cluster barrier: the lock is released. */
    method Release()
      modifies this`leader
      ensures State() == old(State()).(leader := None)
    {
      leader := None;
    }
  }

  class LocalChannel {
    var queue: seq<Item>

    constructor ()
      ensures queue == []
    {
      queue := [];
    }

    /** The draining loop of SyncAndGet(), when nothing arrives while it runs. */
    method Drain() returns (rets: seq<Item>)
      modifies this`queue
      ensures rets == old(queue) && queue == []
    {
      rets := [];
      while queue != []
        invariant rets + queue == old(queue)
        decreases |queue|
      {
        rets := rets + [queue[0]];
        queue := queue[1..];
      }
    }
  }

  // ---------------------------------------------------------------- projection on the cluster barrier

  /** The versions of the barrier messages on a link. */
  ghost function Versions(l: seq<Item>): multiset<nat>
  {
    if l == [] then multiset{}
    else Versions(l[..|l| - 1]) + (if l[|l| - 1].Barrier? then multiset{l[|l| - 1].version} else multiset{})
  }

  lemma VersionsSnoc(l: seq<Item>, m: Item)
    ensures Versions(l + [m]) == Versions(l) + (if m.Barrier? then multiset{m.version} else multiset{})
  {
    assert (l + [m])[..|l|] == l;
  }

  lemma {:induction false} VersionsHead(l: seq<Item>)
    requires l != []
    ensures Versions(l) == Versions(l[1..]) + (if l[0].Barrier? then multiset{l[0].version} else multiset{})
  {
    if |l| == 1 {
      assert l[1..] == [] && l[..0] == [];
    } else {
      var front := l[..|l| - 1];
      VersionsHead(front);
      assert l[1..][..|l| - 2] == front[1..];
    }
  }

  lemma {:induction false} VersionsIn(l: seq<Item>, v: nat)
    ensures v in Versions(l) <==> Barrier(v) in l
  {
    if l == [] {
    } else {
      var front := l[..|l| - 1];
      VersionsIn(front, v);
      assert l == front + [l[|l| - 1]];
    }
  }

  ghost function Row(row: seq<seq<Item>>): (r: seq<multiset<nat>>)
    ensures |r| == |row|
    ensures forall j :: 0 <= j < |row| ==> r[j] == Versions(row[j])
  {
    seq(|row|, (j: nat) requires j < |row| => Versions(row[j]))
  }

  ghost function Net(link: seq<seq<seq<Item>>>): (net: seq<seq<multiset<nat>>>)
    ensures |net| == |link|
    ensures forall i :: 0 <= i < |link| ==> net[i] == Row(link[i])
  {
    seq(|link|, (i: nat) requires i < |link| => Row(link[i]))
  }

  ghost function Proj(c: Config, s: State): VB.State
    requires WellFormed(c, s)
  {
    VB.State(s.box, s.phase, Net(s.link))
  }

  lemma PutBack(net: seq<seq<multiset<nat>>>, i: nat, j: nat)
    requires i < |net| && j < |net[i]|
    ensures VB.Put(net, i, j, net[i][j]) == net
  {
    assert net[i][j := net[i][j]] == net[i];
  }

  /** The step of the cluster barrier a step of the exchange performs, if any. */
  function BarrierStep(c: Config, s: State, step: Step): Option<VB.Step>
  {
    match step
    case Arrive(t) =>
      if t < |c.node| && c.node[t] < |s.chan| && s.chan[c.node[t]].count == 1 then Some(VB.Enter(c.node[t])) else None
    case Construct(i) => Some(VB.Enter(i))
    case Constructed(i) => Some(VB.Leave(i))
    case SendBarrier(i) => Some(VB.Send(i))
    case LeaveBarrier(i) => Some(VB.Leave(i))
    case Deliver(i, j) =>
      if i < |s.link| && j < |s.link[i]| && s.link[i][j] != [] && s.link[i][j][0].Barrier? then
        Some(VB.Deliver(i, j, s.link[i][j][0].version))
      else None
    case _ => None
  }

  lemma PutVersions(link: seq<seq<seq<Item>>>, i: nat, j: nat, items: seq<Item>)
    requires i < |link| && j < |link[i]|
    ensures Net(Put(link, i, j, items)) == VB.Put(Net(link), i, j, Versions(items))
  {
    assert Row(link[i][j := items]) == Row(link[i])[j := Versions(items)];
  }

  // ---------------------------------------------------------------- the invariant

  /** The round of the messages a thread is to receive next: the waits it has arrived at, halved. */
  function Expected(th: Thread): nat
  {
    (th.left + if th.arrived then 1 else 0) / 2
  }

  ghost predicate Busy(s: State, i: nat)
    requires i < |s.chan|
  {
    s.chan[i].leader.Some?
  }

  /**
   * The node has left one barrier for the Channel and one for each wait.  A thread is at most one wait behind
   * its node, and then only because it has not yet returned.
   */
  ghost predicate PlaceOk(c: Config, s: State, t: nat)
    requires WellFormed(c, s) && t < |s.th|
  {
    var th, i := s.th[t], c.node[t];
    && (!s.built[i] ==> th.left == 0 && !th.arrived)
    && (Busy(s, i) ==> th.left + 1 == s.box[i].progress && th.arrived)
    && (s.built[i] && !Busy(s, i) ==>
           th.left + 1 == s.box[i].progress || (th.left + 2 == s.box[i].progress && th.arrived))
    && (th.arrived && s.chan[i].leader != Some(t) ==> th.gen == th.left)
    && (th.drained ==> th.left % 2 == 1)
  }

  /** Messages of round r to thread u, each from one of the first n threads. */
  ghost predicate ItemsFor(items: seq<Item>, n: nat, u: nat, r: nat)
  {
    forall m :: m in items ==> m.Data? && m.src < n && m.dst == u && m.round == r
  }

  ghost predicate BoxesOk(s: State, t: nat)
    requires t < |s.th|
  {
    var th := s.th[t];
    && ItemsFor(th.queue, |s.th|, t, Expected(th))
    && ItemsFor(th.rets, |s.th|, t, th.left / 2)
    && |th.results| == th.left / 2
    && (forall r: nat :: r < |th.results| ==> ItemsFor(th.results[r], |s.th|, t, r))
    && (th.left % 2 == 0 ==> th.rets == [])
    && (th.drained && !th.arrived ==> th.queue == [])
  }

  /** The threads of node i that have yet to arrive at its current wait. */
  ghost function Missing(c: Config, s: State, i: nat): set<nat>
    requires WellFormed(c, s) && i < c.n
  {
    set t: nat | t in Local(c, i) && (Busy(s, i) || !(s.th[t].arrived && s.th[t].left + 1 == s.box[i].progress))
  }

  ghost predicate NodeOk(c: Config, s: State, i: nat)
    requires WellFormed(c, s) && i < c.n
  {
    && (s.built[i] <==> s.box[i].progress > 0)
    && (Busy(s, i) <==> s.built[i] && s.phase[i].Inside?)
    && s.chan[i].generation + (if s.built[i] then 1 else 0) == s.box[i].progress + (if Busy(s, i) then 1 else 0)
    && (Busy(s, i) ==> s.chan[i].leader.value in Local(c, i))
    && s.chan[i].count == |Missing(c, s, i)|
    && (if Local(c, i) == {} then s.chan[i].generation == 0 else s.chan[i].count > 0)
  }

  /**
   * In this list no data of round r follows a barrier message for 2r + 1 or later, and all is for its
   * expecting thread.
   */
  ghost predicate LinkOk(c: Config, s: State, i: nat, j: nat)
    requires WellFormed(c, s) && i < c.n && j < c.n
  {
    var l := s.link[i][j];
    && (forall k: nat :: k < |l| && l[k].Data? ==> InTransit(c, s, i, j, l[k]))
    && (forall k: nat, k': nat :: k < k' < |l| && l[k].Barrier? && l[k'].Data? ==> l[k].version <= 2 * l[k'].round)
  }

  ghost predicate InTransit(c: Config, s: State, i: nat, j: nat, m: Item)
    requires WellFormed(c, s) && m.Data? && i < c.n && j < c.n
  {
    && m.src < |s.th| && m.dst < |s.th| && c.node[m.src] == i && c.node[m.dst] == j
    && m.round == Expected(s.th[m.dst]) && s.box[i].progress > 0
    && !VB.Delivered(Proj(c, s), c.n, i, j, 2 * m.round + 1)
  }

  /** How often m has been handed to its receiver's program, by a finished SyncAndGet() or by the current one. */
  ghost function Taken(th: Thread, m: Item): nat
    requires m.Data?
  {
    if m.round < |th.results| then multiset(th.results[m.round])[m]
    else if m.round == |th.results| then multiset(th.rets)[m]
    else 0
  }

  /** Nothing is lost or duplicated: what was pushed is on its link, in its queue, or taken. */
  ghost predicate Conserved(c: Config, s: State, m: Item)
    requires WellFormed(c, s)
  {
    if m.Data? && m.src < |s.th| && m.dst < |s.th| then
      s.pushed[m] ==
          multiset(s.link[c.node[m.src]][c.node[m.dst]])[m] + multiset(s.th[m.dst].queue)[m] + Taken(s.th[m.dst], m)
    else
      s.pushed[m] == 0
  }

  ghost predicate Locals(c: Config, s: State)
    requires WellFormed(c, s)
  {
    && (forall i: nat :: i < c.n ==> NodeOk(c, s, i))
    && (forall t: nat :: t < |s.th| ==> PlaceOk(c, s, t))
  }

  ghost predicate Boxes(s: State) {
    forall t: nat :: t < |s.th| ==> BoxesOk(s, t)
  }

  ghost predicate Links(c: Config, s: State)
    requires WellFormed(c, s)
  {
    forall i: nat, j: nat :: i < c.n && j < c.n ==> LinkOk(c, s, i, j)
  }

  ghost predicate Conservation(c: Config, s: State)
    requires WellFormed(c, s)
  {
    forall m :: Conserved(c, s, m)
  }

  ghost predicate Inv(c: Config, s: State) {
    && WellFormed(c, s)
    && VB.Inv(Proj(c, s), c.n)
    && Locals(c, s) && Boxes(s) && Links(c, s) && Conservation(c, s)
  }

  lemma InitInv(c: Config, s: State)
    requires Init(c, s)
    ensures Inv(c, s)
  {
    VB.InitInv(Proj(c, s), c.n);
    forall i: nat | i < c.n ensures NodeOk(c, s, i) {
      assert Missing(c, s, i) == Local(c, i);
    }
    forall t: nat | t < |s.th| ensures PlaceOk(c, s, t) {
      assert !s.built[c.node[t]];
    }
  }

  // ---------------------------------------------------------------- consequences across nodes

  /** A thread in its program pushes messages exactly of the round every thread expects. */
  lemma PushRound(c: Config, s: State, t: nat, u: nat)
    requires Inv(c, s) && t < |s.th| && u < |s.th|
    requires s.built[c.node[t]] && !s.th[t].arrived && s.th[t].left % 2 == 0
    ensures Expected(s.th[u]) == s.th[t].left / 2
    ensures s.box[c.node[t]].progress == s.th[t].left + 1 && s.phase[c.node[t]].Outside?
  {
    var i, j := c.node[t], c.node[u];
    assert PlaceOk(c, s, t) && PlaceOk(c, s, u) && NodeOk(c, s, i) && NodeOk(c, s, j);
    VB.LeftOnlyAfterAllEntered(Proj(c, s), c.n, i, j);
    VB.LeftOnlyAfterAllEntered(Proj(c, s), c.n, j, i);
  }

  /** When a thread is between the two waits of SyncAndGet(), nothing for it is on any link. */
  lemma NothingOnTheWay(c: Config, s: State, u: nat, i: nat, m: Item)
    requires Inv(c, s) && u < |s.th| && i < c.n
    requires !s.th[u].arrived && s.th[u].left % 2 == 1
    requires m.Data? && m.dst == u
    ensures m !in s.link[i][c.node[u]]
  {
    var j := c.node[u];
    assert PlaceOk(c, s, u) && LinkOk(c, s, i, j);
    assert VB.Delivered(Proj(c, s), c.n, i, j, s.th[u].left);
  }
}
