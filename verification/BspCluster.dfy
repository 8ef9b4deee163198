/** Bulk-synchronous consistency for a whole cluster: exact snapshots, and when the CHECKs hold. */
module BspCluster {
  import opened Basics
  import opened Requests
  import IA = IssuedAdds
  import WL = WorkerLinks
  import Bsp = BspModel
  import PT = ProgressTracker

  datatype Config = Config(base: WL.Config, init: seq<Store>)

  datatype State = State(net: WL.Net, srv: seq<Bsp.Hist>)

  ghost predicate WellFormed(c: Config, s: State) {
    && WL.WellFormed(c.base, s.net)
    && |s.srv| == |c.init| == c.base.servers
  }

  ghost predicate Init(c: Config, s: State) {
    && WellFormed(c, s)
    && WL.Init(c.base, s.net)
    && forall j: nat :: j < c.base.servers ==> Bsp.Start(s.srv[j], WL.Ids(c.base), c.init[j])
  }

  /** The replies each server has given. */
  function Replies(s: State): nat -> seq<Reply>
  {
    (j: nat) => if j < |s.srv| then s.srv[j].srv.replies else []
  }

  /** A step in which no CHECK fails. */
  ghost predicate Next(c: Config, s: State, step: WL.Step, s': State)
    requires WellFormed(c, s)
  {
    && WL.Next(c.base, s.net, step, s'.net)
    && match step
       case Take(w, j) =>
         && |s'.srv| == |s.srv|
         && (forall i :: 0 <= i < |s.srv| && i != j ==> s'.srv[i] == s.srv[i])
         && Bsp.Next(s.srv[j], WL.Head(c.base, s.net, w, j), s'.srv[j])
       case FinishGet(w, vals) =>
         && s'.srv == s.srv
         && WL.Gathered(c.base, Replies(s), s.net.worker[w].asked.value, vals)
       case _ =>
         s'.srv == s.srv
  }

  ghost predicate ServerOk(c: Config, s: State, j: nat)
    requires WellFormed(c, s) && j < c.base.servers
  {
    && Bsp.Inv(s.srv[j], c.init[j])
    && WL.AddsHandled(c.base, s.net, j, s.srv[j].adds)
    && WL.GetsHandled(c.base, s.net, j, s.srv[j].gets)
    && WL.ClocksHandled(c.base, s.net, j, s.srv[j].srv.tracker.progress)
  }

  ghost predicate Inv(c: Config, s: State) {
    && WellFormed(c, s)
    && WL.Inv(c.base, s.net)
    && forall j: nat :: j < c.base.servers ==> ServerOk(c, s, j)
  }

  lemma InitInv(c: Config, s: State)
    requires Init(c, s)
    ensures Inv(c, s)
  {
    WL.InitInv(c.base, s.net);
    forall j: nat | j < c.base.servers ensures ServerOk(c, s, j) {
      Bsp.StartInv(s.srv[j], WL.Ids(c.base), c.init[j]);
      WL.NothingHandled(c.base, s.net, j, s.srv[j].srv.tracker.progress);
    }
  }

  lemma NextInv(c: Config, s: State, step: WL.Step, s': State)
    requires Inv(c, s) && Next(c, s, step, s')
    ensures Inv(c, s')
  {
    WL.NextInv(c.base, s.net, step, s'.net);
    forall j: nat | j < c.base.servers ensures ServerOk(c, s', j) {
      assert ServerOk(c, s, j);
      if step.Take? && step.j == j {
        TakeOk(c, s, step.w, j, s');
      } else {
        WL.OthersHandled(c.base, s.net, step, s'.net, j, s.srv[j].adds, s.srv[j].srv.tracker.progress);
        WL.OthersGets(c.base, s.net, step, s'.net, j, s.srv[j].gets);
      }
    }
  }

  lemma TakeOk(c: Config, s: State, w: nat, j: nat, s': State)
    requires WellFormed(c, s) && WL.Inv(c.base, s.net) && Next(c, s, WL.Take(w, j), s') && WellFormed(c, s')
    requires j < c.base.servers && ServerOk(c, s, j)
    ensures ServerOk(c, s', j)
  {
    var m, h, h' := WL.Head(c.base, s.net, w, j), s.srv[j], s'.srv[j];
    Bsp.NextInv(h, c.init[j], m, h');
    Recorded(h, m, h');
    WL.OwnGets(c.base, s.net, s'.net, w, j, h.gets, h'.gets);
    WL.OwnHandled(c.base, s.net, s'.net, w, j, h.adds, h'.adds, h.srv.tracker.progress, h'.srv.tracker.progress);
  }

  lemma Recorded(h: Bsp.Hist, m: Msg, h': Bsp.Hist)
    requires Bsp.Next(h, m, h')
    ensures WL.Records(m, h.adds, h'.adds, h.srv.tracker.progress, h'.srv.tracker.progress)
  {
  }

  ghost predicate IsRun(c: Config, tr: seq<State>, steps: seq<WL.Step>) {
    && |tr| == |steps| + 1
    && (forall k :: 0 <= k < |tr| ==> WellFormed(c, tr[k]))
    && (forall k :: 0 <= k < |steps| ==> Next(c, tr[k], steps[k], tr[k + 1]))
  }

  lemma {:induction false} RunInv(c: Config, tr: seq<State>, steps: seq<WL.Step>, n: nat)
    requires IsRun(c, tr, steps) && Init(c, tr[0]) && n < |tr|
    ensures Inv(c, tr[n])
  {
    if n == 0 {
      InitInv(c, tr[0]);
    } else {
      RunInv(c, tr, steps, n - 1);
      NextInv(c, tr[n - 1], steps[n - 1], tr[n]);
    }
  }

  /**
   * In every run, when a server's minimum clock moves its two buffers are empty, and it has answered every Get
   * so far, each once.
   */
  lemma EmptyAfterAdvance(c: Config, tr: seq<State>, steps: seq<WL.Step>, n: nat, j: nat)
    requires IsRun(c, tr, steps) && Init(c, tr[0]) && n < |steps| && j < c.base.servers
    requires tr[n + 1].srv[j].srv.tracker.minClock != tr[n].srv[j].srv.tracker.minClock
    ensures tr[n + 1].srv[j].srv.addBuffer == [] && tr[n + 1].srv[j].srv.getBuffer == []
    ensures multiset(tr[n + 1].srv[j].gets) == multiset(AnsweredReqs(tr[n + 1].srv[j].srv.replies))
  {
    RunInv(c, tr, steps, n);
    assert ServerOk(c, tr[n], j) && Next(c, tr[n], steps[n], tr[n + 1]);
    Bsp.EmptyAfterAdvance(tr[n].srv[j], c.init[j], WL.Head(c.base, tr[n].net, steps[n].w, j), tr[n + 1].srv[j]);
  }

  /**
   * In every state of every run, the Gets of one clock that a server has handled have been answered in the
   * order in which they came, or none of them has.
   */
  lemma AnsweredInOrder(c: Config, tr: seq<State>, steps: seq<WL.Step>, n: nat, j: nat, clock: nat)
    requires IsRun(c, tr, steps) && Init(c, tr[0]) && n < |tr| && j < c.base.servers
    ensures var h := tr[n].srv[j];
            AtClock(AnsweredReqs(h.srv.replies), clock) ==
              if clock <= h.srv.tracker.minClock then AtClock(h.gets, clock) else []
  {
    RunInv(c, tr, steps, n);
    assert ServerOk(c, tr[n], j);
    assert Bsp.AnsweredInOrder(tr[n].srv[j], clock);
  }

  // ---------------------------------------------------------------- exact snapshots

  /**
   * Snapshots over the cluster.  In every state of every run without a failed CHECK, each reply of each
   * server to a Get issued at clock p holds the initial values plus exactly the Adds all workers have
   * ever issued to that server at clocks below p, each once, and none issued at p or later.
   */
  lemma ExactSnapshot(c: Config, tr: seq<State>, steps: seq<WL.Step>, n: nat, j: nat, k: nat)
    requires IsRun(c, tr, steps) && Init(c, tr[0]) && n < |tr|
    requires j < c.base.servers && k < |tr[n].srv[j].srv.replies|
    ensures k < |tr[n].srv[j].seen|
    ensures var h, g := tr[n].srv[j], tr[n].srv[j].srv.replies[k].req;
            && Reflects(h.srv.replies[k].vals, g.keys, c.init[j], Included(h.adds, h.seen[k]))
            && forall a: AddReq :: multiset(Included(h.adds, h.seen[k]))[a] ==
                 if a.worker < c.base.workers && AddMsg(a) in tr[n].net.sent[a.worker][j] && a.clock < g.clock then 1
                 else 0
  {
    RunInv(c, tr, steps, n);
    var s, h := tr[n], tr[n].srv[j];
    assert ServerOk(c, s, j);
    assert Bsp.Snapshot(h, c.init[j], k);
    forall a: AddReq
      ensures multiset(Included(h.adds, h.seen[k]))[a] ==
        if a.worker < c.base.workers && AddMsg(a) in s.net.sent[a.worker][j] && a.clock < h.srv.replies[k].req.clock
        then 1 else 0
    {
      InSnapshot(h, c.init[j], k, a);
      assert WL.HandledAsOften(c.base, s.net, j, h.adds, a);
      if a.worker < c.base.workers {
        HandledWhenOlder(c, s, j, a);
      }
    }
  }

  /** A reply's Adds are those handled Adds that are older than its request, as often as they were handled. */
  lemma InSnapshot(h: Bsp.Hist, init: Store, k: nat, a: AddReq)
    requires Bsp.Inv(h, init) && k < |h.srv.replies|
    ensures multiset(Included(h.adds, h.seen[k]))[a] ==
              if a.clock < h.srv.replies[k].req.clock then multiset(h.adds)[a] else 0
    ensures h.srv.replies[k].req.clock <= h.srv.tracker.minClock
  {
    assert Bsp.Snapshot(h, init, k);
    var n := h.seen[k];
    assert h.adds == h.adds[..n] + h.adds[n..];
    if a.clock < h.srv.replies[k].req.clock {
      assert a !in h.adds[n..];
    } else {
      assert a !in h.adds[..n];
    }
  }

  /** An Add older than a server's minimum clock has been handled there if it was ever sent there, and once. */
  lemma HandledWhenOlder(c: Config, s: State, j: nat, a: AddReq)
    requires Inv(c, s) && j < c.base.servers && a.worker < c.base.workers
    ensures a.clock < s.srv[j].srv.tracker.minClock ==>
              multiset(s.srv[j].adds)[a] == if AddMsg(a) in s.net.sent[a.worker][j] then 1 else 0
  {
    assert ServerOk(c, s, j);
    var w, l, read := a.worker, s.net.sent[a.worker][j], s.net.read[a.worker][j];
    var handled := WL.Handled(c.base, s.net, w, j);
    assert WL.HandledAsOften(c.base, s.net, j, s.srv[j].adds, a);
    assert s.srv[j].srv.tracker.minClock <= s.srv[j].srv.tracker.progress[w];
    assert l == handled + l[read..];
    assert WL.LinkOk(l, w, s.net.worker[w]);
    WL.OnceInOrder(handled, AddMsg(a));
    assert AddMsg(a) in handled <==> AddMsg(a) in multiset(handled);
    if AddMsg(a) in l[read..] {
      WL.UnhandledIsLater(c.base, s.net, w, j, a);
    }
  }

  // ---------------------------------------------------------------- what a worker's Get returns

  ghost function Nets(tr: seq<State>): (nets: seq<WL.Net>)
    ensures |nets| == |tr| && forall k :: 0 <= k < |tr| ==> nets[k] == tr[k].net
  {
    seq(|tr|, k requires 0 <= k < |tr| => tr[k].net)
  }

  lemma NetsRun(c: Config, tr: seq<State>, steps: seq<WL.Step>)
    requires IsRun(c, tr, steps)
    ensures WL.IsRun(c.base, Nets(tr), steps)
  {
    forall k | 0 <= k < |steps| ensures WL.Next(c.base, Nets(tr)[k], steps[k], Nets(tr)[k + 1]) {
      assert Next(c, tr[k], steps[k], tr[k + 1]);
    }
  }

  lemma RunIssued(c: Config, tr: seq<State>, steps: seq<WL.Step>, n: nat)
    requires IsRun(c, tr, steps) && Init(c, tr[0]) && n < |tr|
    ensures IA.Inv(c.base, tr[n].net)
  {
    NetsRun(c, tr, steps);
    IA.RunInv(c.base, Nets(tr), steps, n);
  }

  /** A Get that every server has answered its slice of can return. */
  lemma FinishEnabled(c: Config, s: State, w: nat)
    requires Inv(c, s) && w < c.base.workers && s.net.worker[w].asked.Some?
    requires forall j: nat :: j < c.base.servers ==>
               WL.SliceAnswered(c.base, Replies(s)(j), s.net.worker[w].asked.value, j)
    ensures exists vals, s' :: Next(c, s, WL.FinishGet(w, vals), s')
  {
    var who := s.net.worker[w];
    forall j: nat, k: nat | j < c.base.servers && k < |Replies(s)(j)|
      ensures |Replies(s)(j)[k].vals| == |Replies(s)(j)[k].req.keys|
    {
      assert ServerOk(c, s, j);
      assert Bsp.Snapshot(s.srv[j], c.init[j], k);
    }
    var vals := IA.Gatherable(c.base, Replies(s), who.asked.value);
    var who' := who.(asked := None, gotSince := who.gotSince || WL.Reaches(c.base, who.asked.value),
                     gotEverywhere := who.gotEverywhere || WL.ReachesAll(c.base, who.asked.value));
    assert Next(c, s, WL.FinishGet(w, vals), s.(net := s.net.(worker := s.net.worker[w := who'])));
  }

  /** At rest a server has answered its slice of a Get that is not ahead of any worker. */
  lemma AnsweredAtRest(c: Config, s: State, w: nat, j: nat)
    requires Inv(c, s) && WL.AtRest(c.base, s.net) && w < c.base.workers && j < c.base.servers
             && s.net.worker[w].asked.Some?
    requires forall v: nat :: v < c.base.workers ==> s.net.worker[w].clock <= s.net.worker[v].clock
    ensures WL.SliceAnswered(c.base, s.srv[j].srv.replies, s.net.worker[w].asked.value, j)
  {
    assert ServerOk(c, s, j) && WL.WorkerOk(s.net, w);
    var h, g := s.srv[j], s.net.worker[w].asked.value;
    var g' := g.(keys := WL.SliceKeys(c.base, g.keys, j));
    WL.AllHandledAtRest(c.base, s.net, w, j, h.gets, h.srv.tracker.progress);
    assert w in h.srv.tracker.progress;
    var least :| least in h.srv.tracker.progress && h.srv.tracker.progress[least] == h.srv.tracker.minClock;
    WL.AllHandledAtRest(c.base, s.net, least, j, h.gets, h.srv.tracker.progress);
    assert Bsp.AnsweredOnce(h, g') && g' !in h.srv.getBuffer;
    if g'.keys != [] {
      assert g' in AnsweredReqs(h.srv.replies) <==> g' in multiset(AnsweredReqs(h.srv.replies));
      var k :| 0 <= k < |h.srv.replies| && AnsweredReqs(h.srv.replies)[k] == g';
    }
  }

  /** An answered slice proves that no worker is behind the Get. */
  lemma AnswerProvesReached(c: Config, s: State, w: nat, v: nat)
    requires Inv(c, s) && w < c.base.workers && v < c.base.workers && s.net.worker[w].asked.Some?
    requires WL.Reaches(c.base, s.net.worker[w].asked.value)
    requires forall j: nat :: j < c.base.servers ==>
               WL.SliceAnswered(c.base, Replies(s)(j), s.net.worker[w].asked.value, j)
    ensures s.net.worker[w].clock <= s.net.worker[v].clock
  {
    var g := s.net.worker[w].asked.value;
    var j :| 0 <= j < c.base.servers && WL.SliceKeys(c.base, g.keys, j) != [];
    assert WL.SliceAnswered(c.base, Replies(s)(j), g, j) && ServerOk(c, s, j) && WL.WorkerOk(s.net, w);
    var h := s.srv[j];
    var k: nat :| k < |h.srv.replies| && h.srv.replies[k].req == g.(keys := WL.SliceKeys(c.base, g.keys, j));
    assert Bsp.Snapshot(h, c.init[j], k);
    assert h.srv.tracker.minClock <= h.srv.tracker.progress[v];
    WL.RecordedAtMost(c.base, s.net, v, j);
  }

  ghost predicate CanReturn(c: Config, s: State, w: nat)
    requires WellFormed(c, s)
  {
    exists vals, s' :: Next(c, s, WL.FinishGet(w, vals), s')
  }

  /**
   * Nobody is blocked without need.  In every run without a failed CHECK, whenever the servers have handled
   * everything that was sent to them, a worker that waits in a Get can return if and only if the Get has no
   * key that a server owns, or no worker is behind.
   */
  lemma ReturnsAtRestExactlyWhen(c: Config, tr: seq<State>, steps: seq<WL.Step>, n: nat, w: nat)
    requires IsRun(c, tr, steps) && Init(c, tr[0]) && n < |tr| && WL.AtRest(c.base, tr[n].net)
    requires w < c.base.workers && tr[n].net.worker[w].asked.Some?
    ensures CanReturn(c, tr[n], w) <==>
              || !WL.Reaches(c.base, tr[n].net.worker[w].asked.value)
              || forall v: nat :: v < c.base.workers ==> tr[n].net.worker[w].clock <= tr[n].net.worker[v].clock
  {
    RunInv(c, tr, steps, n);
    var s, g := tr[n], tr[n].net.worker[w].asked.value;
    if !WL.Reaches(c.base, g) {
      FinishEnabled(c, s, w);
    } else if forall v: nat :: v < c.base.workers ==> s.net.worker[w].clock <= s.net.worker[v].clock {
      forall j: nat | j < c.base.servers ensures WL.SliceAnswered(c.base, Replies(s)(j), g, j) {
        AnsweredAtRest(c, s, w, j);
      }
      FinishEnabled(c, s, w);
    } else if CanReturn(c, s, w) {
      var vals, s' :| Next(c, s, WL.FinishGet(w, vals), s');
      forall v: nat | v < c.base.workers ensures s.net.worker[w].clock <= s.net.worker[v].clock {
        AnswerProvesReached(c, s, w, v);
      }
    }
  }

  /** The Adds issued at clocks below this one, by any worker. */
  function OlderThan(adds: seq<AddReq>, clock: nat): seq<AddReq>
  {
    IA.Select(adds, (a: AddReq) => a.clock < clock)
  }

  lemma OlderThanOnce(adds: seq<AddReq>, clock: nat, a: AddReq)
    requires IA.Numbered(adds)
    ensures multiset(OlderThan(adds, clock))[a] == if a in adds && a.clock < clock then 1 else 0
  {
    var p := (x: AddReq) => x.clock < clock;
    IA.SelectedNumbered(adds, p);
    IA.InSelected(adds, p, a);
    IA.NumberedOnce(IA.Select(adds, p), a);
  }

  /**
   * The snapshot as a worker sees it.  In every run without a failed CHECK, when a Get returns, the value of
   * each key that some server owns is the key's initial value plus what exactly the Adds add to it that
   * workers have issued at clocks below the Get's, each counted once.
   */
  lemma GetIsSnapshot(c: Config, tr: seq<State>, steps: seq<WL.Step>, n: nat, g: GetReq, i: nat)
    requires IsRun(c, tr, steps) && Init(c, tr[0]) && n < |steps|
    requires steps[n].FinishGet? && steps[n].w < |tr[n].net.worker| && tr[n].net.worker[steps[n].w].asked == Some(g)
    requires i < |g.keys| && c.base.owner(g.keys[i]) < c.base.servers
    ensures g.worker == steps[n].w && g.clock == tr[n].net.worker[g.worker].clock
    ensures i < |steps[n].vals|
    ensures steps[n].vals[i] == Lookup(c.init[c.base.owner(g.keys[i])], g.keys[i]) +
                                Total(OlderThan(tr[n].net.issued, g.clock), g.keys[i])
    ensures forall a :: multiset(OlderThan(tr[n].net.issued, g.clock))[a] ==
              if a in tr[n].net.issued && a.clock < g.clock then 1 else 0
  {
    var s, j, key := tr[n], c.base.owner(g.keys[i]), g.keys[i];
    RunInv(c, tr, steps, n);
    assert Next(c, s, steps[n], tr[n + 1]) && WL.WorkerOk(s.net, steps[n].w);
    var req := g.(keys := WL.SliceKeys(c.base, g.keys, j));
    assert WL.RepliedWith(Replies(s)(j), req, key, steps[n].vals[i]);
    var k: nat, p: nat :| k < |s.srv[j].srv.replies| && s.srv[j].srv.replies[k].req == req
                          && p < |req.keys| == |s.srv[j].srv.replies[k].vals|
                          && req.keys[p] == key && s.srv[j].srv.replies[k].vals[p] == steps[n].vals[i];
    ExactSnapshot(c, tr, steps, n, j, k);
    RunIssued(c, tr, steps, n);
    SameAsWhole(c, s, j, Included(s.srv[j].adds, s.srv[j].seen[k]), g.clock, key);
    forall a ensures multiset(OlderThan(s.net.issued, g.clock))[a] ==
        if a in s.net.issued && a.clock < g.clock then 1 else 0 {
      OlderThanOnce(s.net.issued, g.clock, a);
    }
  }

  lemma SameAsWhole(c: Config, s: State, j: nat, inc: seq<AddReq>, clock: nat, key: Key)
    requires IA.Inv(c.base, s.net) && c.base.owner(key) == j < c.base.servers
    requires forall a: AddReq :: multiset(inc)[a] ==
               if a.worker < c.base.workers && AddMsg(a) in s.net.sent[a.worker][j] && a.clock < clock then 1 else 0
    ensures Total(OlderThan(s.net.issued, clock), key) == Total(inc, key)
  {
    var p, issued := (a: AddReq) => a.clock < clock, s.net.issued;
    IA.SelectedNumbered(issued, p);
    forall x: AddReq ensures multiset(inc)[x] == if x in IA.SlicesFor(c.base, IA.Select(issued, p), j) then 1 else 0 {
      IA.SlicesOfSelected(c.base, issued, p, j, p, x);
      if x.worker < c.base.workers {
        assert IA.LinkCarries(c.base, s.net, x.worker, j);
      } else {
        IA.InSlices(c.base, issued, j, x);
      }
    }
    IA.SameTotal(c.base, IA.Select(issued, p), inc, key);
  }

  // ---------------------------------------------------------------- when the CHECKs hold

  /** In this run, after its first clock, a worker Adds and Clocks only after a Get with keys on every server. */
  ghost predicate GetsEverywhereFirst(tr: seq<State>, steps: seq<WL.Step>)
    requires |tr| == |steps| + 1
  {
    forall k :: 0 <= k < |steps| ==> DisciplinedStep(tr[k], steps[k])
  }

  ghost predicate DisciplinedStep(s: State, step: WL.Step) {
    (step.IssueClock? || step.IssueAdd?) && step.w < |s.net.worker| ==>
      s.net.worker[step.w].gotEverywhere || s.net.worker[step.w].clock == 0
  }

  /**
   * Every Add and Clock of w that server j has yet to handle was issued at a clock the server's minimum has
   * reached.
   */
  ghost predicate Timely(c: Config, s: State, w: nat, j: nat)
    requires WellFormed(c, s) && w < c.base.workers && j < c.base.servers
  {
    && (forall k: nat :: s.net.read[w][j] <= k < |s.net.sent[w][j]| && !s.net.sent[w][j][k].GetMsg? ==>
          WL.Clocks(s.net.sent[w][j][..k]) <= s.srv[j].srv.tracker.minClock)
    && (s.net.worker[w].gotEverywhere ==> s.net.worker[w].clock <= s.srv[j].srv.tracker.minClock)
  }

  ghost predicate AllTimely(c: Config, s: State)
    requires WellFormed(c, s)
  {
    forall w: nat, j: nat :: w < c.base.workers && j < c.base.servers ==> Timely(c, s, w, j)
  }

  lemma TimelyStep(c: Config, s: State, step: WL.Step, s': State)
    requires Inv(c, s) && AllTimely(c, s) && Next(c, s, step, s') && DisciplinedStep(s, step)
    ensures WellFormed(c, s') && AllTimely(c, s')
  {
    forall w: nat, j: nat | w < c.base.workers && j < c.base.servers ensures Timely(c, s', w, j) {
      assert Timely(c, s, w, j) && ServerOk(c, s, j);
      MinGrows(c, s, step, s', j);
      if (step.IssueAdd? || step.IssueClock? || step.IssueGet?) && step.w == w {
        IssueTimely(c, s, step, s', w, j);
      } else if step.FinishGet? && step.w == w && WL.ReachesAll(c.base, s.net.worker[w].asked.value) {
        GetReachedMin(c, s, w, j);
      }
    }
  }

  lemma MinGrows(c: Config, s: State, step: WL.Step, s': State, j: nat)
    requires WellFormed(c, s) && Next(c, s, step, s') && j < c.base.servers && ServerOk(c, s, j)
    ensures |s'.srv| == c.base.servers && s'.srv[j].srv.tracker.minClock >= s.srv[j].srv.tracker.minClock
  {
  }

  lemma IssueTimely(c: Config, s: State, step: WL.Step, s': State, w: nat, j: nat)
    requires WellFormed(c, s) && Next(c, s, step, s') && WellFormed(c, s') && DisciplinedStep(s, step)
    requires (step.IssueAdd? || step.IssueClock? || step.IssueGet?) && step.w == w
    requires w < c.base.workers && j < c.base.servers && Timely(c, s, w, j)
    requires WL.LinkOk(s.net.sent[w][j], w, s.net.worker[w])
    ensures Timely(c, s', w, j)
  {
    var l, l' := s.net.sent[w][j], s'.net.sent[w][j];
    assert |l'| <= |l| + 1 && l <= l';
    forall k: nat | s'.net.read[w][j] <= k < |l'| && !l'[k].GetMsg?
      ensures WL.Clocks(l'[..k]) <= s'.srv[j].srv.tracker.minClock
    {
      assert l'[..k] == l[..k];
      if k == |l| {
        assert l[..k] == l;
      }
    }
  }

  /** A completed Get with keys on every server proves that every server's minimum has reached its clock. */
  lemma GetReachedMin(c: Config, s: State, w: nat, j: nat)
    requires Inv(c, s) && w < c.base.workers && j < c.base.servers && s.net.worker[w].asked.Some?
    requires WL.ReachesAll(c.base, s.net.worker[w].asked.value)
    requires forall i: nat :: i < c.base.servers ==>
               WL.SliceAnswered(c.base, Replies(s)(i), s.net.worker[w].asked.value, i)
    ensures s.net.worker[w].clock <= s.srv[j].srv.tracker.minClock
  {
    var g := s.net.worker[w].asked.value;
    assert WL.SliceAnswered(c.base, Replies(s)(j), g, j) && ServerOk(c, s, j) && WL.WorkerOk(s.net, w);
    var h := s.srv[j];
    var k: nat :| k < |h.srv.replies| && h.srv.replies[k].req == g.(keys := WL.SliceKeys(c.base, g.keys, j));
    assert Bsp.Snapshot(h, c.init[j], k);
  }

  lemma InitTimely(c: Config, s: State)
    requires WellFormed(c, s) && Init(c, s)
    ensures AllTimely(c, s)
  {
    forall w: nat, j: nat | w < c.base.workers && j < c.base.servers ensures Timely(c, s, w, j) {
    }
  }

  lemma RunStart(c: Config, tr: seq<State>, steps: seq<WL.Step>)
    requires IsRun(c, tr, steps)
    ensures WellFormed(c, tr[0])
  {
  }

  lemma DisciplinedRunStep(c: Config, tr: seq<State>, steps: seq<WL.Step>, k: nat)
    requires IsRun(c, tr, steps) && GetsEverywhereFirst(tr, steps) && k + 1 < |tr|
    ensures k < |steps| && WellFormed(c, tr[k]) && WellFormed(c, tr[k + 1])
    ensures Next(c, tr[k], steps[k], tr[k + 1]) && DisciplinedStep(tr[k], steps[k])
  {
  }

  lemma {:induction false} RunTimely(c: Config, tr: seq<State>, steps: seq<WL.Step>, n: nat)
    requires IsRun(c, tr, steps) && Init(c, tr[0]) && GetsEverywhereFirst(tr, steps) && n < |tr|
    ensures AllTimely(c, tr[n])
  {
    hide *;
    RunStart(c, tr, steps);
    if n == 0 {
      InitTimely(c, tr[0]);
    } else {
      DisciplinedRunStep(c, tr, steps, n - 1);
      RunInv(c, tr, steps, n - 1);
      RunTimely(c, tr, steps, n - 1);
      TimelyStep(c, tr[n - 1], steps[n - 1], tr[n]);
    }
  }

  /**
   * If every worker, in each iteration but the first, starts with a Get that has keys on every server, no
   * CHECK of the controller ever fails: whatever message a server takes next, it can handle.
   */
  lemma NoCheckFails(c: Config, tr: seq<State>, steps: seq<WL.Step>, n: nat, w: nat, j: nat)
    requires IsRun(c, tr, steps) && Init(c, tr[0]) && GetsEverywhereFirst(tr, steps) && n < |tr|
    requires w < c.base.workers && j < c.base.servers && tr[n].net.read[w][j] < |tr[n].net.sent[w][j]|
    ensures Bsp.Accepts(tr[n].srv[j], WL.Head(c.base, tr[n].net, w, j))
    ensures Bsp.After(tr[n].srv[j].srv, WL.Head(c.base, tr[n].net, w, j)).Some?
  {
    RunInv(c, tr, steps, n);
    RunTimely(c, tr, steps, n);
    var s := tr[n];
    assert ServerOk(c, s, j) && Timely(c, s, w, j);
    WL.HeadLabel(c.base, s.net, w, j, s.srv[j].srv.tracker.progress);
    PT.AdvanceMin(s.srv[j].srv.tracker, w);
  }

  /** Server j fails a CHECK on the next message of w. */
  ghost predicate NextFails(c: Config, s: State, w: nat, j: nat) {
    && WellFormed(c, s) && w < c.base.workers && j < c.base.servers && s.net.read[w][j] < |s.net.sent[w][j]|
    && Bsp.Accepts(s.srv[j], WL.Head(c.base, s.net, w, j))
    && Bsp.After(s.srv[j].srv, WL.Head(c.base, s.net, w, j)).None?
  }

  /**
   * Exactly when a CHECK fails.  In every reachable state, a server fails a CHECK on the next message of
   * a worker if and only if that is an Add or a Clock, and the worker is ahead of the server's minimum.
   */
  lemma CheckFailsExactlyWhenAhead(c: Config, tr: seq<State>, steps: seq<WL.Step>, n: nat, w: nat, j: nat)
    requires IsRun(c, tr, steps) && Init(c, tr[0]) && n < |tr|
    requires w < c.base.workers && j < c.base.servers && tr[n].net.read[w][j] < |tr[n].net.sent[w][j]|
    ensures var h, msg := tr[n].srv[j], WL.Head(c.base, tr[n].net, w, j);
            && Bsp.Accepts(h, msg) && w in h.srv.tracker.progress
            && (NextFails(c, tr[n], w, j) <==> !msg.GetMsg? && h.srv.tracker.progress[w] > h.srv.tracker.minClock)
  {
    RunInv(c, tr, steps, n);
    var s := tr[n];
    assert ServerOk(c, s, j);
    WL.HeadLabel(c.base, s.net, w, j, s.srv[j].srv.tracker.progress);
    PT.AdvanceMin(s.srv[j].srv.tracker, w);
  }

  // ---------------------------------------------------------------- two clocks without a Get

  /** Two workers and one server, with an empty store. */
  function Pair(): Config
  {
    Config(WL.Config(2, 1, (k: nat) => 0), [map[]])
  }

  function Server(p0: nat): Bsp.Server
  {
    Bsp.Server(PT.Tracker(map[0 := p0, 1 := 0], 0), [], [], map[], [])
  }

  /** Worker 0 at this clock, having sent only Clocks, of which the server has handled some. */
  function Ticking(clock: nat, read: nat): State
  {
    State(WL.Net([WL.Worker(clock, 0, None, false, false), WL.Worker(0, 0, None, false, false)],
                 [[seq(clock, _ => ClockMsg(0))], [[]]], [[read], [0]], []),
          [Bsp.Hist(Server(read), [], [], [])])
  }

  lemma StartsTicking()
    ensures Init(Pair(), Ticking(0, 0))
  {
    assert WL.Ids(Pair().base) == [0, 1];
    assert PT.Fresh([0, 1]).progress == map[0 := 0, 1 := 0];
  }

  lemma TicksOnce(clock: nat)
    ensures WellFormed(Pair(), Ticking(clock, 0))
    ensures Next(Pair(), Ticking(clock, 0), WL.IssueClock(0), Ticking(clock + 1, 0))
  {
    assert seq(clock + 1, _ => ClockMsg(0)) == seq(clock, _ => ClockMsg(0)) + [ClockMsg(0)];
  }

  lemma FirstClockHandled()
    ensures WellFormed(Pair(), Ticking(2, 0)) && WellFormed(Pair(), Ticking(2, 1))
    ensures Next(Pair(), Ticking(2, 0), WL.Take(0, 0), Ticking(2, 1))
  {
    var t := Server(0).tracker;
    assert !PT.UniqueMin(t, 0) by {
      assert t.progress[1] == t.minClock;
    }
    assert t.progress[0 := 1] == Server(1).tracker.progress;
    var read: seq<seq<nat>> := Ticking(2, 0).net.read;
    assert read[0][0 := 1] == [1];
    assert read[0 := read[0][0 := 1]] == [[1], [0]];
  }

  /** A worker that calls Clock() twice, the other one not at all: the server fails a CHECK on the second. */
  lemma SecondClockFails() returns (tr: seq<State>, steps: seq<WL.Step>)
    ensures IsRun(Pair(), tr, steps) && Init(Pair(), tr[0]) && |tr| == 4 && tr[3] == Ticking(2, 1)
    ensures NextFails(Pair(), Ticking(2, 1), 0, 0)
  {
    tr := [Ticking(0, 0), Ticking(1, 0), Ticking(2, 0), Ticking(2, 1)];
    steps := [WL.IssueClock(0), WL.IssueClock(0), WL.Take(0, 0)];
    hide Init, IsRun, Ticking, NextFails;
    StartsTicking();
    TicksAreRun(tr, steps);
    SecondClockAhead();
  }

  lemma TicksAreRun(tr: seq<State>, steps: seq<WL.Step>)
    requires tr == [Ticking(0, 0), Ticking(1, 0), Ticking(2, 0), Ticking(2, 1)]
    requires steps == [WL.IssueClock(0), WL.IssueClock(0), WL.Take(0, 0)]
    ensures IsRun(Pair(), tr, steps)
  {
    hide Next, WellFormed, Ticking, Pair;
    TicksOnce(0);
    TicksOnce(1);
    FirstClockHandled();
    forall k | 0 <= k < 3 ensures Next(Pair(), tr[k], steps[k], tr[k + 1]) {
      assert k == 0 || k == 1 || k == 2;
    }
  }

  lemma SecondClockAhead()
    ensures NextFails(Pair(), Ticking(2, 1), 0, 0)
  {
  }
}
