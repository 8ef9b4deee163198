/** Stale-synchronous consistency for a whole cluster: many workers, many servers, first-in-first-out links. */
module SspCluster {
  import opened Basics
  import opened Requests
  import IA = IssuedAdds
  import WL = WorkerLinks
  import Ssp = SspModel

  datatype Config = Config(base: WL.Config, staleness: nat, init: seq<Store>)

  datatype State = State(net: WL.Net, srv: seq<Ssp.Hist>)

  ghost predicate WellFormed(c: Config, s: State) {
    && WL.WellFormed(c.base, s.net)
    && |s.srv| == |c.init| == c.base.servers
  }

  ghost predicate Init(c: Config, s: State) {
    && WellFormed(c, s)
    && WL.Init(c.base, s.net)
    && forall j: nat :: j < c.base.servers ==> Ssp.Start(s.srv[j], WL.Ids(c.base), c.init[j])
  }

  /** The replies each server has given. */
  function Replies(s: State): nat -> seq<Reply>
  {
    (j: nat) => if j < |s.srv| then s.srv[j].srv.replies else []
  }

  ghost predicate Next(c: Config, s: State, step: WL.Step, s': State)
    requires WellFormed(c, s)
  {
    && WL.Next(c.base, s.net, step, s'.net)
    && match step
       case Take(w, j) =>
         && |s'.srv| == |s.srv|
         && (forall i :: 0 <= i < |s.srv| && i != j ==> s'.srv[i] == s.srv[i])
         && Ssp.Next(s.srv[j], c.staleness, WL.Head(c.base, s.net, w, j), s'.srv[j])
       case FinishGet(w, vals) =>
         && s'.srv == s.srv
         && WL.Gathered(c.base, Replies(s), s.net.worker[w].asked.value, vals)
       case _ =>
         s'.srv == s.srv
  }

  /**
   * The Adds a server has handled since its k-th reply and that come from the same worker were issued after
   * that Get.
   */
  ghost predicate OwnOrder(h: Ssp.Hist, k: nat)
    requires k < |h.srv.replies| == |h.seen|
  {
    forall i: nat :: h.seen[k] <= i < |h.adds| && h.adds[i].worker == h.srv.replies[k].req.worker ==>
      h.srv.replies[k].req.no < h.adds[i].no
  }

  ghost predicate ServerOk(c: Config, s: State, j: nat)
    requires WellFormed(c, s) && j < c.base.servers
  {
    && Ssp.Inv(s.srv[j], c.staleness, c.init[j])
    && WL.AddsHandled(c.base, s.net, j, s.srv[j].adds)
    && WL.ClocksHandled(c.base, s.net, j, s.srv[j].srv.tracker.progress)
    && WL.GetsHandled(c.base, s.net, j, s.srv[j].gets)
    && forall k: nat :: k < |s.srv[j].srv.replies| ==> OwnOrder(s.srv[j], k)
  }

  ghost predicate Inv(c: Config, s: State) {
    && WellFormed(c, s)
    && WL.Inv(c.base, s.net)
    && forall j: nat :: j < c.base.servers ==> ServerOk(c, s, j)
  }

  lemma InitInv(c: Config, s: State)
    requires Init(c, s)
    ensures Inv(c, s)
  {
    WL.InitInv(c.base, s.net);
    forall j: nat | j < c.base.servers ensures ServerOk(c, s, j) {
      Ssp.StartInv(s.srv[j], c.staleness, WL.Ids(c.base), c.init[j]);
      WL.NothingHandled(c.base, s.net, j, s.srv[j].srv.tracker.progress);
    }
  }

  lemma NextInv(c: Config, s: State, step: WL.Step, s': State)
    requires Inv(c, s) && Next(c, s, step, s')
    ensures Inv(c, s')
  {
    WL.NextInv(c.base, s.net, step, s'.net);
    forall j: nat | j < c.base.servers ensures ServerOk(c, s', j) {
      assert ServerOk(c, s, j);
      if step.Take? && step.j == j {
        TakeOk(c, s, step.w, j, s');
      } else {
        OtherServerOk(c, s, step, s', j);
      }
    }
  }

  lemma OtherServerOk(c: Config, s: State, step: WL.Step, s': State, j: nat)
    requires WellFormed(c, s) && Next(c, s, step, s') && WellFormed(c, s') && j < c.base.servers && ServerOk(c, s, j)
    requires step.Take? ==> step.j != j
    ensures ServerOk(c, s', j)
  {
    assert s'.srv[j] == s.srv[j];
    WL.OthersHandled(c.base, s.net, step, s'.net, j, s.srv[j].adds, s.srv[j].srv.tracker.progress);
    WL.OthersGets(c.base, s.net, step, s'.net, j, s.srv[j].gets);
  }

  lemma TakeOk(c: Config, s: State, w: nat, j: nat, s': State)
    requires WellFormed(c, s) && WL.Inv(c.base, s.net) && Next(c, s, WL.Take(w, j), s') && WellFormed(c, s')
    requires j < c.base.servers && ServerOk(c, s, j)
    ensures ServerOk(c, s', j)
  {
    var m, h, h' := WL.Head(c.base, s.net, w, j), s.srv[j], s'.srv[j];
    Ssp.NextInv(h, c.staleness, c.init[j], m, h');
    WL.OwnHandled(c.base, s.net, s'.net, w, j, h.adds, h'.adds, h.srv.tracker.progress, h'.srv.tracker.progress);
    WL.OwnGets(c.base, s.net, s'.net, w, j, h.gets, h'.gets);
    TakeOwnOrder(c, s, w, j, s');
  }

  lemma TakeOwnOrder(c: Config, s: State, w: nat, j: nat, s': State)
    requires WellFormed(c, s) && WL.Inv(c.base, s.net) && Next(c, s, WL.Take(w, j), s') && WellFormed(c, s')
    requires j < c.base.servers && ServerOk(c, s, j) && |s'.srv[j].srv.replies| == |s'.srv[j].seen|
    ensures forall k: nat :: k < |s'.srv[j].srv.replies| ==> OwnOrder(s'.srv[j], k)
  {
    var m, h, h' := WL.Head(c.base, s.net, w, j), s.srv[j], s'.srv[j];
    forall k: nat | k < |h'.srv.replies| ensures OwnOrder(h', k) {
      if k < |h.srv.replies| && m.AddMsg? {
        WL.HeadLabel(c.base, s.net, w, j, h.srv.tracker.progress);
        RepliedEarlier(c, s, w, j, k, m.a);
      }
      OwnOrderKept(h, c.staleness, m, h', k);
    }
  }

  lemma OwnOrderKept(h: Ssp.Hist, staleness: nat, m: Msg, h': Ssp.Hist, k: nat)
    requires |h.srv.replies| == |h.seen| && Ssp.Next(h, staleness, m, h')
    requires |h'.srv.replies| == |h'.seen| && k < |h'.seen|
    requires k < |h.seen| ==> OwnOrder(h, k)
    requires k < |h.seen| && m.AddMsg? && h.srv.replies[k].req.worker == m.a.worker ==> h.srv.replies[k].req.no < m.a.no
    ensures OwnOrder(h', k)
  {
  }

  /** A Get that has been replied to was issued before an Add of its worker the server only handles now. */
  lemma RepliedEarlier(c: Config, s: State, w: nat, j: nat, k: nat, a: AddReq)
    requires WellFormed(c, s) && WL.Inv(c.base, s.net) && j < c.base.servers && ServerOk(c, s, j)
    requires w < c.base.workers && s.net.read[w][j] < |s.net.sent[w][j]| && WL.Head(c.base, s.net, w, j) == AddMsg(a)
    requires k < |s.srv[j].srv.replies|
    ensures s.srv[j].srv.replies[k].req.worker == w ==> s.srv[j].srv.replies[k].req.no < a.no
  {
    var g := s.srv[j].srv.replies[k].req;
    RepliesWereAsked(s.srv[j], c.staleness, c.init[j], k);
    WL.GetHandledOnce(c.base, s.net, j, s.srv[j].gets, g);
    if g.worker == w {
      WL.HeadIsLater(c.base, s.net, w, j, GetMsg(g));
    }
  }

  lemma RepliesWereAsked(h: Ssp.Hist, staleness: nat, init: Store, k: nat)
    requires Ssp.Inv(h, staleness, init) && k < |h.srv.replies|
    ensures h.srv.replies[k].req in h.gets
  {
    var g := h.srv.replies[k].req;
    assert AnsweredReqs(h.srv.replies)[k] == g;
    assert g in multiset(AnsweredReqs(h.srv.replies));
    assert Ssp.AnsweredOnce(h, staleness, g);
    assert g in multiset(h.gets);
  }

  // ---------------------------------------------------------------- runs

  ghost predicate IsRun(c: Config, tr: seq<State>, steps: seq<WL.Step>) {
    && |tr| == |steps| + 1
    && (forall k :: 0 <= k < |tr| ==> WellFormed(c, tr[k]))
    && (forall k :: 0 <= k < |steps| ==> Next(c, tr[k], steps[k], tr[k + 1]))
  }

  lemma {:induction false} RunInv(c: Config, tr: seq<State>, steps: seq<WL.Step>, n: nat)
    requires IsRun(c, tr, steps) && Init(c, tr[0]) && n < |tr|
    ensures Inv(c, tr[n])
  {
    if n == 0 {
      InitInv(c, tr[0]);
    } else {
      RunInv(c, tr, steps, n - 1);
      NextInv(c, tr[n - 1], steps[n - 1], tr[n]);
    }
  }

  /**
   * In every state of every run, each Get a server has handled has been answered exactly once if the server's
   * minimum has reached its clock minus the staleness, and not at all otherwise: it is answered at the first
   * moment that is the case.
   */
  lemma AnsweredAtTheFirstMoment(c: Config, tr: seq<State>, steps: seq<WL.Step>, n: nat, j: nat, g: GetReq)
    requires IsRun(c, tr, steps) && Init(c, tr[0]) && n < |tr| && j < c.base.servers
    ensures var h := tr[n].srv[j];
            multiset(AnsweredReqs(h.srv.replies))[g] ==
              if g.clock <= h.srv.tracker.minClock + c.staleness then multiset(h.gets)[g] else 0
    ensures multiset(tr[n].srv[j].gets)[g] <= 1
  {
    RunInv(c, tr, steps, n);
    assert ServerOk(c, tr[n], j);
    WL.GetHandledOnce(c.base, tr[n].net, j, tr[n].srv[j].gets, g);
    Ssp.AnsweredAtTheFirstMoment(tr[n].srv[j], c.staleness, c.init[j], g);
  }

  /**
   * In every state of every run, the Gets of one clock that a server has handled have been answered in the
   * order in which they came, or none of them has: those released together keep that order.
   */
  lemma AnsweredInOrder(c: Config, tr: seq<State>, steps: seq<WL.Step>, n: nat, j: nat, clock: nat)
    requires IsRun(c, tr, steps) && Init(c, tr[0]) && n < |tr| && j < c.base.servers
    ensures var h := tr[n].srv[j];
            AtClock(AnsweredReqs(h.srv.replies), clock) ==
              if clock <= h.srv.tracker.minClock + c.staleness then AtClock(h.gets, clock) else []
  {
    RunInv(c, tr, steps, n);
    assert ServerOk(c, tr[n], j);
    assert Ssp.AnsweredInOrder(tr[n].srv[j], c.staleness, clock);
  }

  /** In every run, a server answers a Get at once when it has recorded no clock below the Get's. */
  lemma SlowestNotBlocked(c: Config, tr: seq<State>, steps: seq<WL.Step>, n: nat, w: nat, j: nat, g: GetReq)
    requires IsRun(c, tr, steps) && Init(c, tr[0]) && n < |steps| && steps[n] == WL.Take(w, j)
    requires w < c.base.workers && j < c.base.servers && tr[n].net.read[w][j] < |tr[n].net.sent[w][j]|
    requires WL.Head(c.base, tr[n].net, w, j) == GetMsg(g)
    requires forall v :: v in tr[n].srv[j].srv.tracker.progress ==> g.clock <= tr[n].srv[j].srv.tracker.progress[v]
    ensures tr[n + 1].srv[j].srv.replies == tr[n].srv[j].srv.replies + [Answer(tr[n].srv[j].srv.store, g)]
  {
    RunInv(c, tr, steps, n);
    assert ServerOk(c, tr[n], j) && Next(c, tr[n], steps[n], tr[n + 1]);
    Ssp.SlowestNotBlocked(tr[n].srv[j], c.staleness, c.init[j], g, tr[n + 1].srv[j]);
  }

  /** In every state of every run, a server that has recorded the same clock for all workers holds nothing back. */
  lemma NothingPendingWhenEqual(c: Config, tr: seq<State>, steps: seq<WL.Step>, n: nat, j: nat)
    requires IsRun(c, tr, steps) && Init(c, tr[0]) && n < |tr| && j < c.base.servers
    requires forall v, w :: v in tr[n].srv[j].srv.tracker.progress && w in tr[n].srv[j].srv.tracker.progress ==>
               tr[n].srv[j].srv.tracker.progress[v] == tr[n].srv[j].srv.tracker.progress[w]
    ensures tr[n].srv[j].srv.pending == map[]
  {
    RunInv(c, tr, steps, n);
    assert ServerOk(c, tr[n], j);
    Ssp.NothingPendingWhenEqual(tr[n].srv[j], c.staleness, c.init[j]);
  }

  /** The label check of a server's step never stops it: whatever message is next, the server can handle it. */
  lemma TakeEnabled(c: Config, s: State, w: nat, j: nat)
    requires Inv(c, s) && w < c.base.workers && j < c.base.servers && s.net.read[w][j] < |s.net.sent[w][j]|
    ensures exists s' :: Next(c, s, WL.Take(w, j), s')
  {
    HeadAccepted(c, s, w, j);
    var h' := Ssp.Handle(s.srv[j], c.staleness, WL.Head(c.base, s.net, w, j));
    var net' := s.net.(read := s.net.read[w := s.net.read[w][j := s.net.read[w][j] + 1]]);
    TakeFits(c, s, w, j, h', net');
  }

  lemma HeadAccepted(c: Config, s: State, w: nat, j: nat)
    requires Inv(c, s) && w < c.base.workers && j < c.base.servers && s.net.read[w][j] < |s.net.sent[w][j]|
    ensures Ssp.Accepts(s.srv[j], WL.Head(c.base, s.net, w, j))
  {
    assert ServerOk(c, s, j);
    WL.HeadLabel(c.base, s.net, w, j, s.srv[j].srv.tracker.progress);
  }

  lemma TakeFits(c: Config, s: State, w: nat, j: nat, h': Ssp.Hist, net': WL.Net)
    requires WellFormed(c, s) && WL.Next(c.base, s.net, WL.Take(w, j), net')
    requires Ssp.Next(s.srv[j], c.staleness, WL.Head(c.base, s.net, w, j), h')
    ensures Next(c, s, WL.Take(w, j), State(net', s.srv[j := h']))
  {
  }

  /** An Add a Get must see: issued at a clock below its own minus the staleness, or earlier by its own worker. */
  ghost predicate MustSee(staleness: nat, g: GetReq, a: AddReq) {
    a.clock + staleness < g.clock || (a.worker == g.worker && a.no < g.no)
  }

  /**
   * Bounded staleness over the cluster.  In every state of every run, each reply of each server holds,
   * for every key, the initial value plus a collection of Adds that were issued, each at most once,
   * among them exactly once every Add any worker has ever issued to that server at a clock below the
   * Get's clock minus the staleness, and every Add its own worker issued before it.
   */
  lemma BoundedStaleness(c: Config, tr: seq<State>, steps: seq<WL.Step>, n: nat, j: nat, k: nat)
    requires IsRun(c, tr, steps) && Init(c, tr[0]) && n < |tr|
    requires j < c.base.servers && k < |tr[n].srv[j].srv.replies|
    ensures k < |tr[n].srv[j].seen|
    ensures var h, g := tr[n].srv[j], tr[n].srv[j].srv.replies[k].req;
            && Reflects(h.srv.replies[k].vals, g.keys, c.init[j], Included(h.adds, h.seen[k]))
            && (forall a: AddReq ::
                  && a.worker < c.base.workers && AddMsg(a) in tr[n].net.sent[a.worker][j]
                  && MustSee(c.staleness, g, a) ==>
                    multiset(Included(h.adds, h.seen[k]))[a] == 1)
            && (forall a :: a in Included(h.adds, h.seen[k]) ==>
                  && a.worker < c.base.workers && AddMsg(a) in tr[n].net.sent[a.worker][j]
                  && multiset(Included(h.adds, h.seen[k]))[a] == 1)
  {
    RunInv(c, tr, steps, n);
    var s, h := tr[n], tr[n].srv[j];
    assert ServerOk(c, s, j);
    var r := h.srv.replies[k];
    assert Ssp.Answered(h, c.staleness, c.init[j], k);
    forall a: AddReq | a.worker < c.base.workers && AddMsg(a) in s.net.sent[a.worker][j]
      && MustSee(c.staleness, r.req, a)
      ensures multiset(Included(h.adds, h.seen[k]))[a] == 1
    {
      MustSeeHandled(c, s, j, k, a);
      IncludedOnce(c, s, j, k, a);
    }
    forall a | a in Included(h.adds, h.seen[k])
      ensures a.worker < c.base.workers && AddMsg(a) in s.net.sent[a.worker][j]
              && multiset(Included(h.adds, h.seen[k]))[a] == 1
    {
      IncludedOnce(c, s, j, k, a);
    }
  }

  /** What a Get must see has been handled by the time it is answered. */
  lemma MustSeeHandled(c: Config, s: State, j: nat, k: nat, a: AddReq)
    requires Inv(c, s) && j < c.base.servers && k < |s.srv[j].srv.replies|
    requires a.worker < c.base.workers && AddMsg(a) in s.net.sent[a.worker][j]
    requires MustSee(c.staleness, s.srv[j].srv.replies[k].req, a)
    ensures k < |s.srv[j].seen| && a in Included(s.srv[j].adds, s.srv[j].seen[k])
  {
    assert ServerOk(c, s, j);
    MustSeeArrived(c, s, j, k, a);
    MustSeeInTime(c, s.srv[j], c.init[j], k, a);
  }

  lemma MustSeeInTime(c: Config, h: Ssp.Hist, init: Store, k: nat, a: AddReq)
    requires Ssp.Inv(h, c.staleness, init) && k < |h.srv.replies| && OwnOrder(h, k)
    requires a in h.adds && MustSee(c.staleness, h.srv.replies[k].req, a)
    ensures a in Included(h.adds, h.seen[k])
  {
    assert Ssp.Answered(h, c.staleness, init, k);
    var i: nat :| i < |h.adds| && h.adds[i] == a;
    assert i < h.seen[k];
  }

  lemma MustSeeArrived(c: Config, s: State, j: nat, k: nat, a: AddReq)
    requires WL.Inv(c.base, s.net) && WellFormed(c, s) && j < c.base.servers && ServerOk(c, s, j)
    requires k < |s.srv[j].srv.replies|
    requires a.worker < c.base.workers && AddMsg(a) in s.net.sent[a.worker][j]
    requires MustSee(c.staleness, s.srv[j].srv.replies[k].req, a)
    ensures a in s.srv[j].adds
  {
    var w := a.worker;
    MustSeeIsOld(c, s, j, k, a);
    var l, read := s.net.sent[w][j], s.net.read[w][j];
    assert l == l[..read] + l[read..];
    HandledIsRecorded(c, s, j, a);
  }

  lemma HandledIsRecorded(c: Config, s: State, j: nat, a: AddReq)
    requires WellFormed(c, s) && j < c.base.servers && ServerOk(c, s, j) && a.worker < c.base.workers
    requires AddMsg(a) in WL.Handled(c.base, s.net, a.worker, j)
    ensures a in s.srv[j].adds
  {
    assert WL.HandledAsOften(c.base, s.net, j, s.srv[j].adds, a);
    assert AddMsg(a) in multiset(WL.Handled(c.base, s.net, a.worker, j));
    assert a in multiset(s.srv[j].adds);
  }

  /**
   * It cannot still be on its link: what is there is not older than what the server has recorded, nor than an
   * answered Get.
   */
  lemma MustSeeIsOld(c: Config, s: State, j: nat, k: nat, a: AddReq)
    requires WL.Inv(c.base, s.net) && WellFormed(c, s) && j < c.base.servers && ServerOk(c, s, j)
    requires k < |s.srv[j].srv.replies| && a.worker < c.base.workers
    requires MustSee(c.staleness, s.srv[j].srv.replies[k].req, a)
    ensures AddMsg(a) !in s.net.sent[a.worker][j][s.net.read[a.worker][j]..]
  {
    var h, w := s.srv[j], a.worker;
    assert Ssp.Answered(h, c.staleness, c.init[j], k);
    RepliesWereAsked(h, c.staleness, c.init[j], k);
    WL.GetHandledOnce(c.base, s.net, j, h.gets, h.srv.replies[k].req);
    assert h.srv.tracker.minClock <= h.srv.tracker.progress[w];
    if AddMsg(a) in s.net.sent[w][j][s.net.read[w][j]..] {
      WL.UnhandledIsLater(c.base, s.net, w, j, a);
    }
  }

  /** No Add is in a reply twice, and none that was not issued. */
  lemma IncludedOnce(c: Config, s: State, j: nat, k: nat, a: AddReq)
    requires Inv(c, s) && j < c.base.servers && k < |s.srv[j].seen|
    requires a in Included(s.srv[j].adds, s.srv[j].seen[k])
    ensures a.worker < c.base.workers && AddMsg(a) in s.net.sent[a.worker][j]
    ensures multiset(Included(s.srv[j].adds, s.srv[j].seen[k]))[a] == 1
  {
    assert ServerOk(c, s, j);
    var h := s.srv[j];
    var inc := Included(h.adds, h.seen[k]);
    assert h.adds == inc + h.adds[|inc|..];
    assert a in multiset(inc);
    assert multiset(h.adds)[a] >= multiset(inc)[a] > 0;
    assert WL.HandledAsOften(c.base, s.net, j, h.adds, a);
    assert AddMsg(a) in multiset(WL.Handled(c.base, s.net, a.worker, j));
    assert AddMsg(a) in WL.Handled(c.base, s.net, a.worker, j);
    assert WL.LinkOk(s.net.sent[a.worker][j], a.worker, s.net.worker[a.worker]);
    WL.OnceInOrder(WL.Handled(c.base, s.net, a.worker, j), AddMsg(a));
  }

  // ---------------------------------------------------------------- what a worker's Get returns

  ghost function Nets(tr: seq<State>): (nets: seq<WL.Net>)
    ensures |nets| == |tr| && forall k :: 0 <= k < |tr| ==> nets[k] == tr[k].net
  {
    seq(|tr|, k requires 0 <= k < |tr| => tr[k].net)
  }

  lemma NetsRun(c: Config, tr: seq<State>, steps: seq<WL.Step>)
    requires IsRun(c, tr, steps)
    ensures WL.IsRun(c.base, Nets(tr), steps)
  {
    forall k | 0 <= k < |steps| ensures WL.Next(c.base, Nets(tr)[k], steps[k], Nets(tr)[k + 1]) {
      assert Next(c, tr[k], steps[k], tr[k + 1]);
    }
  }

  lemma RunIssued(c: Config, tr: seq<State>, steps: seq<WL.Step>, n: nat)
    requires IsRun(c, tr, steps) && Init(c, tr[0]) && n < |tr|
    ensures IA.Inv(c.base, tr[n].net)
  {
    NetsRun(c, tr, steps);
    IA.RunInv(c.base, Nets(tr), steps, n);
  }

  /** A Get that every server has answered its slice of can return. */
  lemma FinishEnabled(c: Config, s: State, w: nat)
    requires Inv(c, s) && w < c.base.workers && s.net.worker[w].asked.Some?
    requires forall j: nat :: j < c.base.servers ==>
               WL.SliceAnswered(c.base, Replies(s)(j), s.net.worker[w].asked.value, j)
    ensures exists vals, s' :: Next(c, s, WL.FinishGet(w, vals), s')
  {
    var who := s.net.worker[w];
    forall j: nat, k: nat | j < c.base.servers && k < |Replies(s)(j)|
      ensures |Replies(s)(j)[k].vals| == |Replies(s)(j)[k].req.keys|
    {
      assert ServerOk(c, s, j);
      assert Ssp.Answered(s.srv[j], c.staleness, c.init[j], k);
    }
    var vals := IA.Gatherable(c.base, Replies(s), who.asked.value);
    var who' := who.(asked := None, gotSince := who.gotSince || WL.Reaches(c.base, who.asked.value),
                     gotEverywhere := who.gotEverywhere || WL.ReachesAll(c.base, who.asked.value));
    assert Next(c, s, WL.FinishGet(w, vals), s.(net := s.net.(worker := s.net.worker[w := who'])));
  }

  /**
   * Bounded staleness as a worker sees it.  In every run, when a Get returns, the value of each key that some
   * server owns is the key's initial value plus what Adds that workers have issued add to it, each counted
   * once, and among them is every Add issued by any worker at a clock below the Get's minus the staleness,
   * and every Add its own worker issued before it.
   */
  lemma GetIsBoundedlyStale(c: Config, tr: seq<State>, steps: seq<WL.Step>, n: nat, g: GetReq, i: nat)
    returns (seen: seq<AddReq>)
    requires IsRun(c, tr, steps) && Init(c, tr[0]) && n < |steps|
    requires steps[n].FinishGet? && steps[n].w < |tr[n].net.worker| && tr[n].net.worker[steps[n].w].asked == Some(g)
    requires i < |g.keys| && c.base.owner(g.keys[i]) < c.base.servers
    ensures g.worker == steps[n].w && g.clock == tr[n].net.worker[g.worker].clock
    ensures i < |steps[n].vals|
    ensures steps[n].vals[i] == Lookup(c.init[c.base.owner(g.keys[i])], g.keys[i]) + Total(seen, g.keys[i])
    ensures forall a :: a in seen ==> a in tr[n].net.issued && multiset(seen)[a] == 1
    ensures forall a :: a in tr[n].net.issued && MustSee(c.staleness, g, a) ==> a in seen
  {
    var s, j, key := tr[n], c.base.owner(g.keys[i]), g.keys[i];
    RunInv(c, tr, steps, n);
    assert Next(c, s, steps[n], tr[n + 1]) && WL.WorkerOk(s.net, steps[n].w);
    var req := g.(keys := WL.SliceKeys(c.base, g.keys, j));
    assert WL.RepliedWith(Replies(s)(j), req, key, steps[n].vals[i]);
    var k: nat, p: nat :| k < |s.srv[j].srv.replies| && s.srv[j].srv.replies[k].req == req
                          && p < |req.keys| == |s.srv[j].srv.replies[k].vals|
                          && req.keys[p] == key && s.srv[j].srv.replies[k].vals[p] == steps[n].vals[i];
    BoundedStaleness(c, tr, steps, n, j, k);
    RunIssued(c, tr, steps, n);
    seen := WholeAdds(c, s, j, Included(s.srv[j].adds, s.srv[j].seen[k]), g, key);
  }

  /** The whole Adds whose slices for key's server are those a reply was given with. */
  lemma WholeAdds(c: Config, s: State, j: nat, inc: seq<AddReq>, g: GetReq, key: Key) returns (seen: seq<AddReq>)
    requires IA.Inv(c.base, s.net) && c.base.owner(key) == j < c.base.servers
    requires forall a :: a in inc ==>
               a.worker < c.base.workers && AddMsg(a) in s.net.sent[a.worker][j] && multiset(inc)[a] == 1
    requires forall a: AddReq ::
               a.worker < c.base.workers && AddMsg(a) in s.net.sent[a.worker][j] && MustSee(c.staleness, g, a) ==>
                 multiset(inc)[a] == 1
    ensures Total(seen, key) == Total(inc, key)
    ensures forall a :: a in seen ==> a in s.net.issued && multiset(seen)[a] == 1
    ensures forall a :: a in s.net.issued && MustSee(c.staleness, g, a) ==> a in seen
  {
    var q := (a: AddReq) => a in inc;
    var p := (a: AddReq) => IA.SliceOf(c.base, a, j).kvs == [] || q(IA.SliceOf(c.base, a, j));
    var issued := s.net.issued;
    seen := IA.Select(issued, p);
    IA.SelectedNumbered(issued, p);
    forall x ensures multiset(inc)[x] == if x in IA.SlicesFor(c.base, seen, j) then 1 else 0 {
      IA.SlicesOfSelected(c.base, issued, p, j, q, x);
      if x in inc {
        assert IA.LinkCarries(c.base, s.net, x.worker, j);
      }
    }
    IA.SameTotal(c.base, seen, inc, key);
    forall a | a in seen ensures a in issued && multiset(seen)[a] == 1 {
      IA.InSelected(issued, p, a);
      IA.NumberedOnce(seen, a);
    }
    forall a | a in issued && MustSee(c.staleness, g, a) ensures a in seen {
      MustSeeChosen(c, s, j, inc, g, a);
      IA.InSelected(issued, p, a);
    }
  }

  lemma MustSeeChosen(c: Config, s: State, j: nat, inc: seq<AddReq>, g: GetReq, a: AddReq)
    requires IA.Inv(c.base, s.net) && j < c.base.servers && a in s.net.issued && MustSee(c.staleness, g, a)
    requires forall x: AddReq ::
               x.worker < c.base.workers && AddMsg(x) in s.net.sent[x.worker][j] && MustSee(c.staleness, g, x) ==>
                 multiset(inc)[x] == 1
    ensures IA.SliceOf(c.base, a, j).kvs == [] || IA.SliceOf(c.base, a, j) in inc
  {
    var x := IA.SliceOf(c.base, a, j);
    if x.kvs != [] {
      var i :| 0 <= i < |s.net.issued| && s.net.issued[i] == a;
      IA.InSlices(c.base, s.net.issued, j, x);
      assert IA.LinkCarries(c.base, s.net, a.worker, j);
      assert x in multiset(inc);
    }
  }

  // ---------------------------------------------------------------- how far workers drift apart

  /** In this run a worker calls Clock() only after a non-empty Get since its last Clock(). */
  ghost predicate GetsBeforeClocks(tr: seq<State>, steps: seq<WL.Step>)
    requires |tr| == |steps| + 1
  {
    forall k :: 0 <= k < |steps| && steps[k].IssueClock? && steps[k].w < |tr[k].net.worker| ==>
      tr[k].net.worker[steps[k].w].gotSince
  }

  /** v has not outrun w, and right after a Get it is closer still. */
  ghost predicate Close(c: Config, s: State, v: nat, w: nat)
    requires v < |s.net.worker| && w < |s.net.worker|
  {
    && s.net.worker[v].clock <= s.net.worker[w].clock + c.staleness + 1
    && (s.net.worker[v].gotSince ==> s.net.worker[v].clock <= s.net.worker[w].clock + c.staleness)
  }

  /** A completed non-empty Get proves that no worker is more than the staleness behind. */
  lemma GetProvesClose(c: Config, s: State, v: nat, w: nat)
    requires Inv(c, s) && v < c.base.workers && w < c.base.workers && s.net.worker[v].asked.Some?
    requires WL.Reaches(c.base, s.net.worker[v].asked.value)
    requires forall j: nat :: j < c.base.servers ==>
               WL.SliceAnswered(c.base, Replies(s)(j), s.net.worker[v].asked.value, j)
    ensures s.net.worker[v].clock <= s.net.worker[w].clock + c.staleness
  {
    var g := s.net.worker[v].asked.value;
    var j :| 0 <= j < c.base.servers && WL.SliceKeys(c.base, g.keys, j) != [];
    assert WL.SliceAnswered(c.base, Replies(s)(j), g, j) && ServerOk(c, s, j) && WL.WorkerOk(s.net, v);
    var h := s.srv[j];
    var k: nat :| k < |h.srv.replies| && h.srv.replies[k].req == g.(keys := WL.SliceKeys(c.base, g.keys, j));
    assert Ssp.Answered(h, c.staleness, c.init[j], k);
    assert h.srv.tracker.minClock <= h.srv.tracker.progress[w];
    WL.RecordedAtMost(c.base, s.net, w, j);
  }

  /** At rest a server has answered its slice of a Get that is not too far ahead of any worker. */
  lemma AnsweredAtRest(c: Config, s: State, w: nat, j: nat)
    requires Inv(c, s) && WL.AtRest(c.base, s.net) && w < c.base.workers && j < c.base.servers
             && s.net.worker[w].asked.Some?
    requires forall v: nat :: v < c.base.workers ==> s.net.worker[w].clock <= s.net.worker[v].clock + c.staleness
    ensures WL.SliceAnswered(c.base, s.srv[j].srv.replies, s.net.worker[w].asked.value, j)
  {
    assert ServerOk(c, s, j) && WL.WorkerOk(s.net, w);
    var h, g := s.srv[j], s.net.worker[w].asked.value;
    var g' := g.(keys := WL.SliceKeys(c.base, g.keys, j));
    WL.AllHandledAtRest(c.base, s.net, w, j, h.gets, h.srv.tracker.progress);
    assert w in h.srv.tracker.progress;
    var least :| least in h.srv.tracker.progress && h.srv.tracker.progress[least] == h.srv.tracker.minClock;
    WL.AllHandledAtRest(c.base, s.net, least, j, h.gets, h.srv.tracker.progress);
    Ssp.AnsweredAtTheFirstMoment(h, c.staleness, c.init[j], g');
    if g'.keys != [] {
      assert g' in AnsweredReqs(h.srv.replies) <==> g' in multiset(AnsweredReqs(h.srv.replies));
      var k :| 0 <= k < |h.srv.replies| && AnsweredReqs(h.srv.replies)[k] == g';
    }
  }

  ghost predicate CanReturn(c: Config, s: State, w: nat)
    requires WellFormed(c, s)
  {
    exists vals, s' :: Next(c, s, WL.FinishGet(w, vals), s')
  }

  /**
   * Nobody is blocked without need.  In every run, whenever the servers have handled everything that was sent
   * to them, a worker that waits in a Get can return if and only if the Get has no key that a server owns, or
   * no worker is more than the staleness behind.
   */
  lemma ReturnsAtRestExactlyWhen(c: Config, tr: seq<State>, steps: seq<WL.Step>, n: nat, w: nat)
    requires IsRun(c, tr, steps) && Init(c, tr[0]) && n < |tr| && WL.AtRest(c.base, tr[n].net)
    requires w < c.base.workers && tr[n].net.worker[w].asked.Some?
    ensures CanReturn(c, tr[n], w) <==>
              || !WL.Reaches(c.base, tr[n].net.worker[w].asked.value)
              || forall v: nat :: v < c.base.workers ==>
                   tr[n].net.worker[w].clock <= tr[n].net.worker[v].clock + c.staleness
  {
    RunInv(c, tr, steps, n);
    var s, g := tr[n], tr[n].net.worker[w].asked.value;
    if !WL.Reaches(c.base, g) {
      FinishEnabled(c, s, w);
    } else if forall v: nat :: v < c.base.workers ==> s.net.worker[w].clock <= s.net.worker[v].clock + c.staleness {
      forall j: nat | j < c.base.servers ensures WL.SliceAnswered(c.base, Replies(s)(j), g, j) {
        AnsweredAtRest(c, s, w, j);
      }
      FinishEnabled(c, s, w);
    } else if CanReturn(c, s, w) {
      var vals, s' :| Next(c, s, WL.FinishGet(w, vals), s');
      forall v: nat | v < c.base.workers ensures s.net.worker[w].clock <= s.net.worker[v].clock + c.staleness {
        GetProvesClose(c, s, w, v);
      }
    }
  }

  lemma StaysClose(c: Config, s: State, step: WL.Step, s': State, v: nat, w: nat)
    requires Inv(c, s) && Next(c, s, step, s') && v < c.base.workers && w < c.base.workers && Close(c, s, v, w)
    requires step.IssueClock? ==> s.net.worker[step.w].gotSince
    ensures |s'.net.worker| == c.base.workers && Close(c, s', v, w)
  {
    if step.FinishGet? && step.w == v && WL.Reaches(c.base, s.net.worker[v].asked.value) {
      GetProvesClose(c, s, v, w);
    }
  }

  lemma TimelyStep(c: Config, tr: seq<State>, steps: seq<WL.Step>, k: nat)
    requires IsRun(c, tr, steps) && GetsBeforeClocks(tr, steps) && k < |steps|
    ensures Next(c, tr[k], steps[k], tr[k + 1])
    ensures steps[k].IssueClock? && steps[k].w < |tr[k].net.worker| ==> tr[k].net.worker[steps[k].w].gotSince
  {
  }

  lemma InitClose(c: Config, s: State, v: nat, w: nat)
    requires Init(c, s) && v < c.base.workers && w < c.base.workers
    ensures v < |s.net.worker| && w < |s.net.worker| && Close(c, s, v, w)
  {
    assert s.net.worker[v] == s.net.worker[w] == WL.Worker(0, 0, None, false, false);
  }

  /**
   * If every worker completes a non-empty Get between two Clocks, then in every state of every run any
   * two workers' clocks differ by at most the staleness plus one.
   */
  lemma {:induction false} ClocksStayClose(c: Config, tr: seq<State>, steps: seq<WL.Step>, n: nat, v: nat, w: nat)
    requires IsRun(c, tr, steps) && Init(c, tr[0]) && GetsBeforeClocks(tr, steps)
    requires n < |tr| && v < c.base.workers && w < c.base.workers
    ensures Close(c, tr[n], v, w)
  {
    if n == 0 {
      InitClose(c, tr[0], v, w);
    } else {
      hide Init, Inv, Next, Close, GetsBeforeClocks;
      RunInv(c, tr, steps, n - 1);
      ClocksStayClose(c, tr, steps, n - 1, v, w);
      TimelyStep(c, tr, steps, n - 1);
      StaysClose(c, tr[n - 1], steps[n - 1], tr[n], v, w);
    }
  }
}
